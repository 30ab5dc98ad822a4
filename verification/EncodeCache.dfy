/** The shared-encoding cache, `filter/src/encode_cache.rs`, and the part of `filter/src/filter.rs` it
    must agree with: `FilteredUpdate::encode` and `FilterAccountDataSlices::get_slice`. */
module EncodeCache {
  import opened Basics
  import opened Wire
  import opened Encode

  // ----- data slices -----

  datatype Range = Range(start: nat, end: nat)

  type DataSlices = s: seq<Range> | forall i :: 0 <= i < |s| ==> s[i].start <= s[i].end witness []

  /** The bytes selected by the slices that lie inside the source, in order. */
  function Selected(slices: DataSlices, source: Bytes): Bytes {
    if slices == [] then []
    else
      var last := slices[|slices| - 1];
      Selected(slices[..|slices| - 1], source) + if |source| >= last.end then source[last.start..last.end] else []
  }

  /** No slices mean the whole source. */
  function SliceOf(slices: DataSlices, source: Bytes): Bytes {
    if slices == [] then source else Selected(slices, source)
  }

  /** `get_slice`: its special case for one slice is the general one without the copy. */
  method GetSlice(slices: DataSlices, source: Bytes) returns (r: Bytes)
    ensures r == SliceOf(slices, source)
  {
    if slices == [] {
      return source;
    }
    if |slices| == 1 {
      var none: DataSlices := [];
      assert slices[..0] == none && Selected(none, source) == [];
      return if |source| >= slices[0].end then source[slices[0].start..slices[0].end] else [];
    }
    r := [];
    var i := 0;
    while i < |slices|
      invariant 0 <= i <= |slices|
      invariant r == Selected(slices[..i], source)
    {
      if |source| >= slices[i].end {
        r := r + source[slices[i].start..slices[i].end];
      }
      assert slices[..i + 1][..i] == slices[..i];
      i := i + 1;
    }
    assert slices[..i] == slices;
  }

  // ----- updates -----

  /** A message of the channel. What prost encodes is given as bytes: for a block footer the whole
      update with and without its certificates. */
  datatype Source =
    | SlotSource(bytes: Bytes, createdAt: Bytes)
    | AccountSource(bytes: Bytes, account: AccountInner, slot: nat, isStartup: bool, bankId: Option<nat>,
          createdAt: Bytes)
    | TransactionSource(bytes: Bytes, status: TransactionStatus, createdAt: Bytes)
    | EntrySource(bytes: Bytes, createdAt: Bytes)
    | BlockMetaSource(bytes: Bytes, createdAt: Bytes)
    | BlockSource(block: Block, createdAt: Bytes)
    | FooterSource(full: Bytes, stripped: Bytes, createdAt: Bytes)
    | ParentSource(bytes: Bytes, createdAt: Bytes)

  /** `FilteredUpdateType` without its message: what a filter wants to see of it. */
  datatype Shape =
    | Slot
    | Account(dataSlices: DataSlices)
    | Transaction
    | TransactionStatusOnly
    | Entry
    | BlockMeta
    | BlockOf(accounts: seq<nat>, transactions: seq<nat>, entries: bool, dataSlices: DataSlices)
    | BlockFooter(includeCertificates: bool)
    | EntryUpdateParent

  datatype FilteredUpdate = FilteredUpdate(filters: seq<Bytes>, source: Source, shape: Shape)

  /** The shape belongs to the kind of message, and its indices point into the block. */
  predicate Suits(source: Source, shape: Shape) {
    match shape
    case Slot => source.SlotSource?
    case Account(_) => source.AccountSource?
    case Transaction => source.TransactionSource?
    case TransactionStatusOnly => source.TransactionSource?
    case Entry => source.EntrySource?
    case BlockMeta => source.BlockMetaSource?
    case BlockOf(accounts, transactions, _, _) =>
      && source.BlockSource?
      && (forall i :: 0 <= i < |accounts| ==> accounts[i] < |source.block.accounts|)
      && (forall i :: 0 <= i < |transactions| ==> transactions[i] < |source.block.transactions|)
    case BlockFooter(_) => source.FooterSource?
    case EntryUpdateParent => source.ParentSource?
  }

  predicate Fitting(u: FilteredUpdate) {
    Suits(u.source, u.shape)
  }

  function SlicedAccount(a: AccountInner, slices: DataSlices): AccountInner {
    a.(data := SliceOf(slices, a.data))
  }

  /** The block that a filter lets through. */
  function FilteredBlock(b: Block, accounts: seq<nat>, transactions: seq<nat>, entries: bool, slices: DataSlices): Block
    requires forall i :: 0 <= i < |accounts| ==> accounts[i] < |b.accounts|
    requires forall i :: 0 <= i < |transactions| ==> transactions[i] < |b.transactions|
  {
    b.(updatedAccountCount := |b.accounts|,
       accounts := seq(|accounts|, i requires 0 <= i < |accounts| => SlicedAccount(b.accounts[accounts[i]], slices)),
       transactions := seq(|transactions|, i requires 0 <= i < |transactions| => b.transactions[transactions[i]]),
       entries := if entries then b.entries else [])
  }

  /** The update field: with no slices an account is sent as received. */
  function UpdateField(source: Source, shape: Shape): Bytes
    requires Suits(source, shape)
  {
    match shape
    case Slot => UpdateBytes(SlotOf(source.bytes))
    case Account(slices) =>
      UpdateBytes(AccountOf(
        if slices == [] then Slice(source.bytes)
        else Fields(SlicedAccount(source.account, slices), source.slot, source.isStartup, source.bankId)))
    case Transaction => UpdateBytes(TransactionOf(source.bytes))
    case TransactionStatusOnly => UpdateBytes(TransactionStatusOf(source.status))
    case Entry => UpdateBytes(EntryOf(source.bytes))
    case BlockMeta => UpdateBytes(BlockMetaOf(source.bytes))
    case BlockOf(accounts, transactions, entries, slices) =>
      UpdateBytes(Update.BlockOf(FilteredBlock(source.block, accounts, transactions, entries, slices)))
    case BlockFooter(certificates) => if certificates then source.full else source.stripped
    case EntryUpdateParent => source.bytes
  }

  /** `FilteredUpdate::encode_to_vec` */
  function EncodeToVec(u: FilteredUpdate): Bytes
    requires Fitting(u)
  {
    Repeated(1, u.filters) + UpdateField(u.source, u.shape) + FieldBytes(Blob(11, u.source.createdAt))
  }

  /** `encode_body`: the same update for nobody in particular. */
  function EncodeBody(u: FilteredUpdate): Bytes
    requires Fitting(u)
  {
    EncodeToVec(u.(filters := []))
  }

  /** Only the filters depend on the client. */
  lemma FiltersThenBody(u: FilteredUpdate)
    requires Fitting(u)
    ensures Repeated(1, u.filters) + EncodeBody(u) == EncodeToVec(u)
  {
    hide UpdateField, FieldBytes;
    assert Repeated(1, []) == [];
  }

  // ----- keys -----

  /** `BodyKey`: everything besides the message that changes the body. */
  datatype BodyKey =
    | SlotKey
    | AccountKey(dataSlices: DataSlices)
    | TransactionKey
    | TransactionStatusKey
    | EntryKey
    | BlockMetaKey
    | BlockKey(accounts: seq<nat>, transactions: seq<nat>, entries: bool, dataSlices: DataSlices)
    | BlockFooterKey(includeCertificates: bool)
    | EntryUpdateParentKey

  /** `BodyKey::new` */
  function KeyOf(shape: Shape): BodyKey {
    match shape
    case Slot => SlotKey
    case Account(slices) => AccountKey(slices)
    case Transaction => TransactionKey
    case TransactionStatusOnly => TransactionStatusKey
    case Entry => EntryKey
    case BlockMeta => BlockMetaKey
    case BlockOf(accounts, transactions, entries, slices) => BlockKey(accounts, transactions, entries, slices)
    case BlockFooter(certificates) => BlockFooterKey(certificates)
    case EntryUpdateParent => EntryUpdateParentKey
  }

  /** `BodyKey::is_match` */
  predicate IsMatch(key: BodyKey, shape: Shape) {
    match (key, shape)
    case (SlotKey, Slot) => true
    case (TransactionKey, Transaction) => true
    case (TransactionStatusKey, TransactionStatusOnly) => true
    case (EntryKey, Entry) => true
    case (BlockMetaKey, BlockMeta) => true
    case (EntryUpdateParentKey, EntryUpdateParent) => true
    case (BlockFooterKey(a), BlockFooter(b)) => a == b
    case (AccountKey(a), Account(b)) => a == b
    case (BlockKey(accounts, transactions, entries, slices), BlockOf(accounts', transactions', entries', slices')) =>
      entries == entries' && slices == slices' && accounts == accounts' && transactions == transactions'
    case _ => false
  }

  /** A key matches exactly the shapes it could have been made from. */
  lemma MatchIsKey(key: BodyKey, shape: Shape)
    ensures IsMatch(key, shape) <==> key == KeyOf(shape)
  {
  }

  lemma KeyDeterminesShape(a: Shape, b: Shape)
    requires KeyOf(a) == KeyOf(b)
    ensures a == b
  {
  }

  // ----- the cache -----

  datatype Cached = Cached(key: BodyKey, body: Option<Bytes>)

  /** `SharedEncodedUpdate` */
  datatype Shared = Shared(filters: Bytes, body: Bytes) {
    function ToVec(): Bytes {
      filters + body
    }
  }

  /** Total size of the cached bodies. */
  function CachedBytes(bodies: seq<Cached>): nat {
    if bodies == [] then 0
    else CachedBytes(bodies[..|bodies| - 1]) + Size(bodies[|bodies| - 1].body)
  }

  function Size(body: Option<Bytes>): nat {
    if body.Some? then |body.value| else 0
  }

  /** Entry i, if it has a body, has the body of every update of this message with its key. */
  ghost predicate Faithful(bodies: seq<Cached>, source: Source, i: nat)
    requires i < |bodies|
  {
    bodies[i].body.Some? ==>
      forall u: FilteredUpdate :: Fitting(u) && u.source == source && KeyOf(u.shape) == bodies[i].key ==>
        bodies[i].body.value == EncodeBody(u)
  }

  ghost predicate Distinct(bodies: seq<Cached>) {
    forall i, j :: 0 <= i < j < |bodies| ==> bodies[i].key != bodies[j].key
  }

  lemma {:induction false} CachedBytesUpdate(bodies: seq<Cached>, i: nat, body: Option<Bytes>)
    requires i < |bodies|
    ensures CachedBytes(bodies[i := bodies[i].(body := body)]) ==
          CachedBytes(bodies) - Size(bodies[i].body) + Size(body)
    ensures CachedBytes(bodies) >= Size(bodies[i].body)
  {
    var last := |bodies| - 1;
    var bodies' := bodies[i := bodies[i].(body := body)];
    if i == last {
      assert bodies'[..last] == bodies[..last];
    } else {
      CachedBytesUpdate(bodies[..last], i, body);
      assert bodies'[..last] == bodies[..last][i := bodies[i].(body := body)];
    }
  }

  lemma CachedBytesPush(bodies: seq<Cached>, c: Cached)
    ensures CachedBytes(bodies + [c]) == CachedBytes(bodies) + Size(c.body)
  {
    assert (bodies + [c])[..|bodies|] == bodies;
  }

  /** The shape of the update was asked for before. */
  ghost predicate Has(bodies: seq<Cached>, u: FilteredUpdate) {
    exists i :: 0 <= i < |bodies| && bodies[i].key == KeyOf(u.shape)
  }

  /** The body is stored with the shape of the update, and nothing else changes. */
  ghost predicate Stored(before: seq<Cached>, after: seq<Cached>, u: FilteredUpdate, body: Bytes) {
    && |before| == |after|
    && forall i :: 0 <= i < |before| ==>
         after[i] == if before[i].key == KeyOf(u.shape) then Cached(before[i].key, Some(body)) else before[i]
  }

  const MAX_BODIES: nat := 8

  class EncodeCache {
    var bodies: seq<Cached>
    var encodedBytes: nat
    /** The message that the cache currently serves. */
    ghost var source: Source

    ghost predicate Valid()
      reads this
    {
      && |bodies| <= 8
      && Distinct(bodies)
      && encodedBytes == CachedBytes(bodies)
      && forall i :: 0 <= i < |bodies| ==> Faithful(bodies, source, i)
    }

    constructor (ghost source: Source)
      ensures Valid() && this.source == source && bodies == []
    {
      bodies, encodedBytes, this.source := [], 0, source;
    }

    /** `clear`, when the slot is reused for another message. */
    method Clear(ghost next: Source)
      modifies this
      ensures Valid() && source == next && bodies == [] && encodedBytes == 0
    {
      bodies, encodedBytes, source := [], 0, next;
    }

    /** `find`: the position of the one entry with the update's key. */
    method Find(u: FilteredUpdate) returns (r: Option<nat>)
      ensures r.Some? ==> r.value < |bodies| && bodies[r.value].key == KeyOf(u.shape)
      ensures r.None? ==> forall i :: 0 <= i < |bodies| ==> bodies[i].key != KeyOf(u.shape)
    {
      var i := 0;
      while i < |bodies|
        invariant 0 <= i <= |bodies|
        invariant forall k :: 0 <= k < i ==> bodies[k].key != KeyOf(u.shape)
      {
        MatchIsKey(bodies[i].key, u.shape);
        if IsMatch(bodies[i].key, u.shape) {
          return Some(i);
        }
        i := i + 1;
      }
      r := None;
    }

    /** `mark_seen`: remembers a new shape if there is room. */
    method MarkSeen(u: FilteredUpdate) returns (seen: bool)
      requires Valid()
      modifies this`bodies
      ensures Valid()
      ensures seen <==> Has(old(bodies), u)
      ensures bodies == if seen || |old(bodies)| == 8 then old(bodies)
                        else old(bodies) + [Cached(KeyOf(u.shape), None)]
    {
      var found := Find(u);
      if found.Some? {
        return true;
      }
      if |bodies| < MAX_BODIES {
        CachedBytesPush(bodies, Cached(KeyOf(u.shape), None));
        ghost var before := bodies;
        bodies := bodies + [Cached(KeyOf(u.shape), None)];
        forall i | 0 <= i < |bodies|
          ensures Faithful(bodies, source, i)
        {
          assert i < |before| ==> Faithful(before, source, i);
        }
      }
      seen := false;
    }

    /** `insert`: replaces or adds the body of a shape; `false` when there is no room. */
    method Insert(u: FilteredUpdate, body: Bytes) returns (inserted: bool)
      requires Valid() && Fitting(u) && u.source == source && body == EncodeBody(u)
      modifies this`bodies, this`encodedBytes
      ensures Valid()
      ensures inserted || (bodies == old(bodies) && |bodies| == 8)
      ensures inserted ==> exists i :: 0 <= i < |bodies| && bodies[i] == Cached(KeyOf(u.shape), Some(body))
      ensures inserted ==> |bodies| >= |old(bodies)| && Stored(old(bodies), bodies[..|old(bodies)|], u, body)
      ensures Has(old(bodies), u) ==> inserted && |bodies| == |old(bodies)|
      ensures inserted && !Has(old(bodies), u) ==> bodies == old(bodies) + [Cached(KeyOf(u.shape), Some(body))]
    {
      hide EncodeBody, Fitting, CachedBytes, Distinct, Faithful, Stored, Has, KeyOf, Size;
      ghost var before := bodies;
      var found := Find(u);
      FoundIff(bodies, u, found);
      if found.Some? {
        var i := found.value;
        var previous := bodies[i].body;
        Replaced(bodies, i, source, u, body);
        bodies := bodies[i := bodies[i].(body := Some(body))];
        encodedBytes := encodedBytes - Size(previous) + |body|;
        assert bodies[..|before|] == bodies;
      } else if |bodies| < MAX_BODIES {
        Added(bodies, source, u, body);
        bodies := bodies + [Cached(KeyOf(u.shape), Some(body))];
        encodedBytes := encodedBytes + |body|;
        assert bodies[..|before|] == before;
      } else {
        return false;
      }
      inserted := true;
    }

    /** `get_or_encode`: whatever the history of the cache, the client gets the bytes that encoding the
        update in one piece would give. */
    method GetOrEncode(u: FilteredUpdate) returns (r: Shared)
      requires Valid() && Fitting(u) && u.source == source
      modifies this`bodies, this`encodedBytes
      ensures Valid()
      ensures r.ToVec() == EncodeToVec(u)
      // the body of a shape is kept from the second request on, and the first leaves a mark if there is room
      ensures |bodies| >= |old(bodies)| && Stored(old(bodies), bodies[..|old(bodies)|], u, EncodeBody(u))
      ensures bodies[|old(bodies)|..] ==
              if Has(old(bodies), u) || |old(bodies)| == 8 then [] else [Cached(KeyOf(u.shape), None)]
    {
      hide EncodeBody, EncodeToVec, Fitting, CachedBytes;
      FiltersThenBody(u);
      var found := Find(u);
      if found.Some? && bodies[found.value].body.Some? {
        assert Faithful(bodies, source, found.value);
        assert bodies[..|bodies|] == bodies;
        return Shared(Repeated(1, u.filters), bodies[found.value].body.value);
      }
      var seen := MarkSeen(u);
      if !seen {
        return Shared([], EncodeToVec(u));
      }
      var body := EncodeBody(u);
      var _ := Insert(u, body);
      r := Shared(Repeated(1, u.filters), body);
    }
  }

  lemma FoundIff(bodies: seq<Cached>, u: FilteredUpdate, found: Option<nat>)
    requires found.Some? ==> found.value < |bodies| && bodies[found.value].key == KeyOf(u.shape)
    requires found.None? ==> forall i :: 0 <= i < |bodies| ==> bodies[i].key != KeyOf(u.shape)
    ensures found.Some? <==> Has(bodies, u)
  {
  }

  /** Giving a known shape its body. */
  lemma Replaced(before: seq<Cached>, i: nat, source: Source, u: FilteredUpdate, body: Bytes)
    requires i < |before| && Distinct(before) && before[i].key == KeyOf(u.shape)
    requires forall i :: 0 <= i < |before| ==> Faithful(before, source, i)
    requires Fitting(u) && u.source == source && body == EncodeBody(u)
    ensures var after := before[i := before[i].(body := Some(body))];
      && Distinct(after) && Stored(before, after, u, body) && after[i] == Cached(KeyOf(u.shape), Some(body))
      && CachedBytes(before) >= Size(before[i].body)
      && CachedBytes(after) == CachedBytes(before) - Size(before[i].body) + |body|
      && forall i :: 0 <= i < |after| ==> Faithful(after, source, i)
  {
    hide EncodeBody, Fitting, CachedBytes, KeyOf, Faithful;
    var after := before[i := before[i].(body := Some(body))];
    CachedBytesUpdate(before, i, Some(body));
    FaithfulAfter(before, after, source, u, body);
  }

  /** Adding a shape with its body. */
  lemma Added(before: seq<Cached>, source: Source, u: FilteredUpdate, body: Bytes)
    requires Distinct(before) && !Has(before, u)
    requires forall i :: 0 <= i < |before| ==> Faithful(before, source, i)
    requires Fitting(u) && u.source == source && body == EncodeBody(u)
    ensures var after := before + [Cached(KeyOf(u.shape), Some(body))];
      && Distinct(after) && Stored(before, before, u, body) && after[|before|] == Cached(KeyOf(u.shape), Some(body))
      && CachedBytes(after) == CachedBytes(before) + |body|
      && forall i :: 0 <= i < |after| ==> Faithful(after, source, i)
  {
    hide EncodeBody, Fitting, CachedBytes, KeyOf, Faithful;
    var after := before + [Cached(KeyOf(u.shape), Some(body))];
    CachedBytesPush(before, Cached(KeyOf(u.shape), Some(body)));
    FaithfulAfter(before, after, source, u, body);
  }

  /** Adding the right body of one shape keeps every entry faithful. */
  lemma FaithfulAfter(before: seq<Cached>, after: seq<Cached>, source: Source, u: FilteredUpdate, body: Bytes)
    requires forall i :: 0 <= i < |before| ==> Faithful(before, source, i)
    requires Fitting(u) && u.source == source && body == EncodeBody(u)
    requires |before| <= |after|
    requires forall i :: 0 <= i < |after| ==>
               (i < |before| && after[i] == before[i]) || after[i] == Cached(KeyOf(u.shape), Some(body))
    ensures forall i :: 0 <= i < |after| ==> Faithful(after, source, i)
  {
    hide Fitting, UpdateField;
    forall i | 0 <= i < |after|
      ensures Faithful(after, source, i)
    {
      if i < |before| && after[i] == before[i] {
        assert Faithful(before, source, i);
      } else {
        forall w: FilteredUpdate | Fitting(w) && w.source == source && KeyOf(w.shape) == after[i].key
          ensures after[i].body.value == EncodeBody(w)
        {
          KeyDeterminesShape(w.shape, u.shape);
          assert w.(filters := []) == u.(filters := []);
        }
      }
    }
  }
}
