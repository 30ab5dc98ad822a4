/** What a reader of the Protocol Buffers format finds in the bytes that the hand-written encoders emit. The reader is
    the generic one: field by field, "Base 128 Varints" and "Length-Delimited Records" of the Protocol Buffers encoding
    specification. */
module EncodeRoundTrip {
  import opened Basics
  import opened Wire
  import opened Encode
  import opened AccountRoundTrip

  /** One field as a reader sees it: a number, or a byte string. Fields of fixed width are none of the encoders'. */
  datatype Got = Number(tag: nat, value: nat) | Str(tag: nat, bytes: Bytes) | FixedWidth(tag: nat)

  function GotField(b: Bytes, f: Field): Got
    requires f.start <= f.next <= |b|
  {
    match f.wire
    case VarintType => Number(f.tag, f.value)
    case LengthDelimited => Str(f.tag, b[f.start..f.next])
    case _ => FixedWidth(f.tag)
  }

  /** All fields from `pos` on; None if the bytes are malformed. */
  function ReadAll(b: Bytes, pos: nat): Option<seq<Got>>
    requires pos <= |b|
    decreases |b| - pos
  {
    if pos == |b| then Some([])
    else
      var f := ReadField(b, pos);
      if f.None? then None
      else
        var rest := ReadAll(b, f.value.next);
        if rest.None? then None else Some([GotField(b, f.value)] + rest.value)
  }

  // ----- fields as they were meant -----

  function Meant(f: WireField): Got {
    match f
    case Uint(tag, value) => Number(tag, value)
    case Bool(tag, flag) => Number(tag, if flag then 1 else 0)
    case Blob(tag, bytes) => Str(tag, bytes)
  }

  function AllMeant(fs: seq<WireField>): seq<Got> {
    seq(|fs|, i requires 0 <= i < |fs| => Meant(fs[i]))
  }

  function Concat(fs: seq<WireField>): Bytes {
    if fs == [] then [] else FieldBytes(fs[0]) + Concat(fs[1..])
  }

  ghost predicate AllEncodable(fs: seq<WireField>) {
    forall i :: 0 <= i < |fs| ==> Encodable(fs[i])
  }

  lemma ConcatHead(fs: seq<WireField>)
    requires fs != []
    ensures Concat(fs) == FieldBytes(fs[0]) + Concat(fs[1..])
  {
  }

  lemma {:induction false} ConcatAppend(a: seq<WireField>, b: seq<WireField>)
    ensures Concat(a + b) == Concat(a) + Concat(b)
  {
    hide FieldBytes, Concat;
    if a == [] {
      assert a + b == b;
      ConcatNone();
      assert [] + Concat(b) == Concat(b);
    } else {
      ConcatAppend(a[1..], b);
      assert (a + b)[1..] == a[1..] + b && (a + b)[0] == a[0];
      ConcatHead(a);
      ConcatHead(a + b);
      Reassociate(FieldBytes(a[0]), Concat(a[1..]), Concat(b));
    }
  }

  lemma ConcatNone()
    ensures Concat([]) == []
  {
  }

  lemma Reassociate<T>(x: seq<T>, y: seq<T>, z: seq<T>)
    ensures x + (y + z) == x + y + z
  {
  }

  /** Fields that were written one after the other are read back, all of them and in order. */
  lemma {:induction false} FieldsAreRead(b: Bytes, pos: nat, fs: seq<WireField>)
    requires pos <= |b| && b[pos..] == Concat(fs) && AllEncodable(fs)
    ensures ReadAll(b, pos) == Some(AllMeant(fs))
    decreases |fs|
  {
    hide FieldBytes, ReadField, FieldLen, KeyLen, VarintLen;
    if fs != [] {
      var next := pos + FieldLen(fs[0]);
      assert FieldBytes(fs[0]) + Concat(fs[1..]) == b[pos..|b|];
      HeadAndTail(b, pos, FieldBytes(fs[0]), Concat(fs[1..]));
      FieldIsRead(b, pos, fs[0]);
      FieldsAreRead(b, next, fs[1..]);
      OneField(b, pos, fs[0]);
      assert ReadAll(b, next) == Some(AllMeant(fs[1..]));
      assert ReadAll(b, pos) == Some([Meant(fs[0])] + AllMeant(fs[1..]));
      assert AllMeant(fs) == [Meant(fs[0])] + AllMeant(fs[1..]);
    } else {
      assert |b[pos..]| == |b| - pos;
      assert AllMeant([]) == [];
    }
  }

  lemma HeadAndTail(b: Bytes, pos: nat, x: Bytes, y: Bytes)
    requires pos <= |b| && b[pos..] == x + y
    ensures pos + |x| <= |b| && b[pos..pos + |x|] == x && b[pos + |x|..] == y
  {
    SliceOfSlice(b, pos, |b|, pos, pos + |x|);
    SliceOfSlice(b, pos, |b|, pos + |x|, |b|);
    assert b[pos..|b|] == b[pos..] && (x + y)[0..|x|] == x && (x + y)[|x|..|x + y|] == y;
  }

  lemma OneField(b: Bytes, pos: nat, f: WireField)
    requires pos + FieldLen(f) <= |b| && ReadField(b, pos) == Some(FieldAt(f, pos))
    requires f.Blob? ==> b[FieldAt(f, pos).start..FieldAt(f, pos).next] == f.bytes
    ensures FieldAt(f, pos).next == pos + FieldLen(f) && pos < |b|
    ensures FieldAt(f, pos).start <= FieldAt(f, pos).next && GotField(b, FieldAt(f, pos)) == Meant(f)
  {
  }

  // ----- what a reader makes of the fields -----

  /** All numbers with a tag, in order. */
  function Numbers(gs: seq<Got>, tag: nat): seq<nat> {
    if gs == [] then []
    else
      (if gs[0].Number? && gs[0].tag == tag then [gs[0].value] else []) + Numbers(gs[1..], tag)
  }

  /** All byte strings with a tag, in order. */
  function Strings(gs: seq<Got>, tag: nat): seq<Bytes> {
    if gs == [] then []
    else (if gs[0].Str? && gs[0].tag == tag then [gs[0].bytes] else []) + Strings(gs[1..], tag)
  }

  /** The value of a number field: the last one, zero by default. */
  function NumberOf(gs: seq<Got>, tag: nat): nat {
    var all := Numbers(gs, tag);
    if all == [] then 0 else all[|all| - 1]
  }

  /** The value of a string field: the last one, empty by default. */
  function StringOf(gs: seq<Got>, tag: nat): Bytes {
    var all := Strings(gs, tag);
    if all == [] then [] else all[|all| - 1]
  }

  /** The value of a message field, if it is there. */
  function MessageOf(gs: seq<Got>, tag: nat): Option<Bytes> {
    var all := Strings(gs, tag);
    if all == [] then None else Some(all[|all| - 1])
  }

  lemma SelectHead(gs: seq<Got>, tag: nat)
    requires gs != []
    ensures Numbers(gs, tag) == Numbers([gs[0]], tag) + Numbers(gs[1..], tag)
    ensures Strings(gs, tag) == Strings([gs[0]], tag) + Strings(gs[1..], tag)
  {
    assert [gs[0]][1..] == [];
  }

  lemma {:induction false} SelectAppend(a: seq<Got>, b: seq<Got>, tag: nat)
    ensures Numbers(a + b, tag) == Numbers(a, tag) + Numbers(b, tag)
    ensures Strings(a + b, tag) == Strings(a, tag) + Strings(b, tag)
  {
    if a == [] {
      assert a + b == b;
    } else {
      hide Numbers, Strings;
      SelectAppend(a[1..], b, tag);
      assert (a + b)[1..] == a[1..] + b && (a + b)[0] == a[0];
      SelectHead(a, tag);
      SelectHead(a + b, tag);
      Reassociate(Numbers([a[0]], tag), Numbers(a[1..], tag), Numbers(b, tag));
      Reassociate(Strings([a[0]], tag), Strings(a[1..], tag), Strings(b, tag));
    }
  }

  // ----- messages written group by group, one group for each tag -----

  /** The fields of one tag. */
  type Group = seq<WireField>

  function Flat(groups: seq<Group>): seq<WireField> {
    if groups == [] then [] else Flat(groups[..|groups| - 1]) + groups[|groups| - 1]
  }

  /** Group i holds the fields with tag i + 1. */
  ghost predicate Grouped(groups: seq<Group>) {
    forall i :: 0 <= i < |groups| ==> HasTag(groups[i], i + 1)
  }

  ghost predicate HasTag(fs: seq<WireField>, tag: nat) {
    forall j :: 0 <= j < |fs| ==> fs[j].tag == tag && Encodable(fs[j])
  }

  lemma {:induction false} NoneWithTag(fs: seq<WireField>, other: nat, tag: nat)
    requires HasTag(fs, other) && other != tag
    ensures Numbers(AllMeant(fs), tag) == [] && Strings(AllMeant(fs), tag) == []
  {
    if fs != [] {
      NoneWithTag(fs[1..], other, tag);
      assert AllMeant(fs)[1..] == AllMeant(fs[1..]);
    }
  }

  lemma AllMeantAppend(a: seq<WireField>, b: seq<WireField>)
    ensures AllMeant(a + b) == AllMeant(a) + AllMeant(b)
  {
  }

  /** A reader that selects a tag finds the group with this tag. */
  lemma {:induction false} SelectGroup(groups: seq<Group>, tag: nat)
    requires Grouped(groups) && tag >= 1
    ensures AllEncodable(Flat(groups))
    ensures var gs := AllMeant(Flat(groups));
      var group := AllMeant(if tag <= |groups| then groups[tag - 1] else []);
      Numbers(gs, tag) == Numbers(group, tag) && Strings(gs, tag) == Strings(group, tag)
  {
    hide Numbers, Strings, Encodable;
    if groups != [] {
      var n := |groups| - 1;
      SelectGroup(groups[..n], tag);
      AllMeantAppend(Flat(groups[..n]), groups[n]);
      SelectAppend(AllMeant(Flat(groups[..n])), AllMeant(groups[n]), tag);
      assert HasTag(groups[n], n + 1);
      if tag != n + 1 {
        NoneWithTag(groups[n], n + 1, tag);
      }
      NothingSelected(tag);
    } else {
      NothingSelected(tag);
    }
  }

  lemma NothingSelected(tag: nat)
    ensures AllMeant([]) == [] && Numbers([], tag) == [] && Strings([], tag) == []
  {
  }

  // ----- the fields of one group -----

  function Maybe(written: bool, f: WireField): seq<WireField> {
    if written then [f] else []
  }

  function MaybeSome(tag: nat, bytes: Option<Bytes>): seq<WireField> {
    if bytes.Some? then [Blob(tag, bytes.value)] else []
  }

  function Blobs(tag: nat, items: seq<Bytes>): seq<WireField> {
    seq(|items|, i requires 0 <= i < |items| => Blob(tag, items[i]))
  }

  lemma MaybeBytes(written: bool, f: WireField)
    ensures Concat(Maybe(written, f)) == When(written, f)
  {
    hide FieldBytes;
    assert [f][1..] == [];
  }

  lemma MaybeSomeBytes(tag: nat, bytes: Option<Bytes>)
    ensures Concat(MaybeSome(tag, bytes)) == WhenSome(tag, bytes)
  {
    hide FieldBytes;
    assert bytes.Some? ==> [Blob(tag, bytes.value)][1..] == [];
  }

  lemma {:induction false} BlobsBytes(tag: nat, items: seq<Bytes>)
    ensures Concat(Blobs(tag, items)) == Repeated(tag, items)
  {
    hide FieldBytes;
    if items != [] {
      var n := |items| - 1;
      BlobsBytes(tag, items[..n]);
      assert Blobs(tag, items) == Blobs(tag, items[..n]) + [Blob(tag, items[n])];
      ConcatAppend(Blobs(tag, items[..n]), [Blob(tag, items[n])]);
      assert [Blob(tag, items[n])][1..] == [];
    }
  }

  lemma {:induction false} BlobsAreItems(tag: nat, items: seq<Bytes>)
    ensures Strings(AllMeant(Blobs(tag, items)), tag) == items
  {
    if items != [] {
      BlobsAreItems(tag, items[1..]);
      assert AllMeant(Blobs(tag, items))[1..] == AllMeant(Blobs(tag, items[1..]));
    }
  }

  lemma MaybeIs(written: bool, f: WireField)
    ensures var gs := AllMeant(Maybe(written, f));
      && Numbers(gs, f.tag) == (if !written || f.Blob? then []
                                else [if f.Uint? then f.value else if f.flag then 1 else 0])
      && Strings(gs, f.tag) == (if written && f.Blob? then [f.bytes] else [])
  {
    assert AllMeant([f]) == [Meant(f)] && [Meant(f)][1..] == [];
  }

  lemma MaybeSomeIs(tag: nat, bytes: Option<Bytes>)
    ensures Strings(AllMeant(MaybeSome(tag, bytes)), tag) == if bytes.Some? then [bytes.value] else []
  {
    if bytes.Some? {
      MaybeIs(true, Blob(tag, bytes.value));
    }
  }

  /** The bytes of the groups, one after the other. */
  function GroupBytes(groups: seq<Group>): Bytes {
    if groups == [] then [] else GroupBytes(groups[..|groups| - 1]) + Concat(groups[|groups| - 1])
  }

  lemma {:induction false} FlatBytes(groups: seq<Group>)
    ensures Concat(Flat(groups)) == GroupBytes(groups)
  {
    hide Concat;
    if groups == [] {
      ConcatNone();
    } else {
      var n := |groups| - 1;
      FlatBytes(groups[..n]);
      ConcatAppend(Flat(groups[..n]), groups[n]);
    }
  }

  lemma GroupsPush(groups: seq<Group>, group: seq<WireField>)
    ensures GroupBytes(groups + [group]) == GroupBytes(groups) + Concat(group)
    ensures GroupBytes([]) == []
  {
    assert (groups + [group])[..|groups|] == groups;
  }

  /** What a reader finds in bytes that were written group by group. */
  lemma GroupsAreRead(b: Bytes, groups: seq<Group>)
    requires b == GroupBytes(groups) && Grouped(groups)
    ensures ReadAll(b, 0) == Some(AllMeant(Flat(groups)))
  {
    hide GroupBytes, Concat, ReadAll, Flat, Grouped, AllMeant;
    FlatBytes(groups);
    SelectGroup(groups, 1);
    assert b[0..] == b;
    FieldsAreRead(b, 0, Flat(groups));
  }

  lemma NumberIsRead(g: seq<Group>, tag: nat, value: nat)
    requires Grouped(g) && 1 <= tag <= |g| && g[tag - 1] == Maybe(value != 0, Uint(tag, value))
    ensures NumberOf(AllMeant(Flat(g)), tag) == value
  {
    hide AllMeant, Flat, Numbers;
    SelectGroup(g, tag);
    MaybeIs(value != 0, Uint(tag, value));
  }

  lemma FlagIsRead(g: seq<Group>, tag: nat, flag: bool)
    requires Grouped(g) && 1 <= tag <= |g| && g[tag - 1] == Maybe(flag, Bool(tag, flag))
    ensures NumberOf(AllMeant(Flat(g)), tag) == if flag then 1 else 0
  {
    hide AllMeant, Flat, Numbers;
    SelectGroup(g, tag);
    MaybeIs(flag, Bool(tag, flag));
  }

  lemma StringIsRead(g: seq<Group>, tag: nat, bytes: Bytes)
    requires Grouped(g) && 1 <= tag <= |g| && g[tag - 1] == Maybe(bytes != [], Blob(tag, bytes))
    ensures StringOf(AllMeant(Flat(g)), tag) == bytes
  {
    hide AllMeant, Flat, Strings;
    SelectGroup(g, tag);
    MaybeIs(bytes != [], Blob(tag, bytes));
  }

  lemma MessageIsRead(g: seq<Group>, tag: nat, bytes: Option<Bytes>)
    requires Grouped(g) && 1 <= tag <= |g| && g[tag - 1] == MaybeSome(tag, bytes)
    ensures MessageOf(AllMeant(Flat(g)), tag) == bytes
  {
    hide AllMeant, Flat, Strings;
    SelectGroup(g, tag);
    MaybeSomeIs(tag, bytes);
  }

  lemma ItemsAreRead(g: seq<Group>, tag: nat, items: seq<Bytes>)
    requires Grouped(g) && 1 <= tag <= |g| && g[tag - 1] == Blobs(tag, items)
    ensures Strings(AllMeant(Flat(g)), tag) == items
  {
    hide AllMeant, Flat, Strings, Blobs;
    SelectGroup(g, tag);
    BlobsAreItems(tag, items);
  }

  // ----- transaction status -----

  function StatusGroups(t: TransactionStatus): seq<Group> {
    [Maybe(t.slot != 0, Uint(1, t.slot))] + [Maybe(t.signature != [], Blob(2, t.signature))]
    + [Maybe(t.isVote, Bool(3, t.isVote))] + [Maybe(t.index != 0, Uint(4, t.index))] + [MaybeSome(5, t.err)]
    + [Maybe(t.bankId != 0, Uint(6, t.bankId))]
  }

  lemma FirstGroup(group: seq<WireField>)
    ensures GroupBytes([group]) == Concat(group)
  {
    GroupsPush([], group);
    assert [] + [group] == [group] && [] + Concat(group) == Concat(group);
  }

  lemma StatusBytesAre(t: TransactionStatus)
    ensures TransactionStatusBytes(t) == GroupBytes(StatusGroups(t))
  {
    hide When, WhenSome, Concat, GroupBytes, Maybe, MaybeSome;
    var a1, a2 := Maybe(t.slot != 0, Uint(1, t.slot)), Maybe(t.signature != [], Blob(2, t.signature));
    var a3, a4 := Maybe(t.isVote, Bool(3, t.isVote)), Maybe(t.index != 0, Uint(4, t.index));
    var a5, a6 := MaybeSome(5, t.err), Maybe(t.bankId != 0, Uint(6, t.bankId));
    MaybeBytes(t.slot != 0, Uint(1, t.slot));
    MaybeBytes(t.signature != [], Blob(2, t.signature));
    MaybeBytes(t.isVote, Bool(3, t.isVote));
    MaybeBytes(t.index != 0, Uint(4, t.index));
    MaybeSomeBytes(5, t.err);
    MaybeBytes(t.bankId != 0, Uint(6, t.bankId));
    FirstGroup(a1);
    GroupsPush([a1], a2);
    GroupsPush([a1] + [a2], a3);
    GroupsPush([a1] + [a2] + [a3], a4);
    GroupsPush([a1] + [a2] + [a3] + [a4], a5);
    GroupsPush([a1] + [a2] + [a3] + [a4] + [a5], a6);
  }

  /** Values that fit the wire: 64-bit numbers and byte strings shorter than that. */
  predicate StatusFits(t: TransactionStatus) {
    && t.slot < U64_LIMIT && t.index < U64_LIMIT && t.bankId < U64_LIMIT && |t.signature| < U64_LIMIT
    && (t.err.Some? ==> |t.err.value| < U64_LIMIT)
  }

  /** A reader gets the transaction status back, field by field. */
  lemma TransactionStatusIsRead(t: TransactionStatus)
    requires StatusFits(t)
    ensures var r := ReadAll(TransactionStatusBytes(t), 0);
      && r.Some?
      && NumberOf(r.value, 1) == t.slot && StringOf(r.value, 2) == t.signature
      && NumberOf(r.value, 3) == (if t.isVote then 1 else 0) && NumberOf(r.value, 4) == t.index
      && MessageOf(r.value, 5) == t.err && NumberOf(r.value, 6) == t.bankId
  {
    hide ReadAll, TransactionStatusBytes, GroupBytes, Flat, AllMeant, NumberOf, StringOf, MessageOf, Grouped;
    var g := StatusGroups(t);
    StatusBytesAre(t);
    StatusIsGrouped(t);
    GroupsAreRead(TransactionStatusBytes(t), g);
    NumberIsRead(g, 1, t.slot);
    StringIsRead(g, 2, t.signature);
    FlagIsRead(g, 3, t.isVote);
    NumberIsRead(g, 4, t.index);
    MessageIsRead(g, 5, t.err);
    NumberIsRead(g, 6, t.bankId);
  }

  lemma StatusIsGrouped(t: TransactionStatus)
    requires StatusFits(t)
    ensures Grouped(StatusGroups(t))
  {
  }

  // ----- blocks -----

  function BlockGroups(b: Block): seq<Group> {
    [Maybe(b.slot != 0, Uint(1, b.slot))] + [Maybe(b.blockhash != [], Blob(2, b.blockhash))]
    + [MaybeSome(3, b.rewards)] + [MaybeSome(4, b.blockTime)] + [MaybeSome(5, b.blockHeight)]
    + [Blobs(6, b.transactions)]
    + [Maybe(b.parentSlot != 0, Uint(7, b.parentSlot))] + [Maybe(b.parentBlockhash != [], Blob(8, b.parentBlockhash))]
    + [Maybe(b.executedTransactionCount != 0, Uint(9, b.executedTransactionCount))]
    + [Maybe(b.updatedAccountCount != 0, Uint(10, b.updatedAccountCount))]
    + [Blobs(11, EncodedAccounts(b.accounts))] + [Maybe(b.entriesCount != 0, Uint(12, b.entriesCount))]
    + [Blobs(13, b.entries)] + [Maybe(b.bankId != 0, Uint(14, b.bankId))]
  }

  lemma BlockHeadIs(b: Block) returns (groups: seq<Group>)
    ensures groups == [Maybe(b.slot != 0, Uint(1, b.slot))] + [Maybe(b.blockhash != [], Blob(2, b.blockhash))]
                      + [MaybeSome(3, b.rewards)] + [MaybeSome(4, b.blockTime)] + [MaybeSome(5, b.blockHeight)]
    ensures GroupBytes(groups) == BlockHead(b)
  {
    hide When, WhenSome, Concat, GroupBytes, Maybe, MaybeSome;
    var a1, a2 := Maybe(b.slot != 0, Uint(1, b.slot)), Maybe(b.blockhash != [], Blob(2, b.blockhash));
    var a3, a4, a5 := MaybeSome(3, b.rewards), MaybeSome(4, b.blockTime), MaybeSome(5, b.blockHeight);
    MaybeBytes(b.slot != 0, Uint(1, b.slot));
    MaybeBytes(b.blockhash != [], Blob(2, b.blockhash));
    MaybeSomeBytes(3, b.rewards);
    MaybeSomeBytes(4, b.blockTime);
    MaybeSomeBytes(5, b.blockHeight);
    FirstGroup(a1);
    GroupsPush([a1], a2);
    GroupsPush([a1] + [a2], a3);
    GroupsPush([a1] + [a2] + [a3], a4);
    GroupsPush([a1] + [a2] + [a3] + [a4], a5);
    groups := [a1] + [a2] + [a3] + [a4] + [a5];
  }

  /** The middle of a block behind whatever precedes it. */
  lemma BlockMiddleIs(b: Block, before: seq<Group>) returns (groups: seq<Group>)
    ensures groups == before + [Maybe(b.parentSlot != 0, Uint(7, b.parentSlot))]
                      + [Maybe(b.parentBlockhash != [], Blob(8, b.parentBlockhash))]
                      + [Maybe(b.executedTransactionCount != 0, Uint(9, b.executedTransactionCount))]
                      + [Maybe(b.updatedAccountCount != 0, Uint(10, b.updatedAccountCount))]
    ensures GroupBytes(groups) == GroupBytes(before) + BlockMiddle(b)
  {
    hide When, Concat, GroupBytes, Maybe;
    var a7, a8 := Maybe(b.parentSlot != 0, Uint(7, b.parentSlot)),
        Maybe(b.parentBlockhash != [], Blob(8, b.parentBlockhash));
    var a9 := Maybe(b.executedTransactionCount != 0, Uint(9, b.executedTransactionCount));
    var a10 := Maybe(b.updatedAccountCount != 0, Uint(10, b.updatedAccountCount));
    MaybeBytes(b.parentSlot != 0, Uint(7, b.parentSlot));
    MaybeBytes(b.parentBlockhash != [], Blob(8, b.parentBlockhash));
    MaybeBytes(b.executedTransactionCount != 0, Uint(9, b.executedTransactionCount));
    MaybeBytes(b.updatedAccountCount != 0, Uint(10, b.updatedAccountCount));
    GroupsPush(before, a7);
    GroupsPush(before + [a7], a8);
    GroupsPush(before + [a7] + [a8], a9);
    GroupsPush(before + [a7] + [a8] + [a9], a10);
    groups := before + [a7] + [a8] + [a9] + [a10];
    FourParts(GroupBytes(before), Concat(a7), Concat(a8), Concat(a9), Concat(a10));
  }

  lemma FourParts<T>(z: seq<T>, a: seq<T>, b: seq<T>, c: seq<T>, d: seq<T>)
    ensures z + a + b + c + d == z + (a + b + c + d)
  {
  }

  lemma BlockBytesAre(b: Block)
    ensures BlockBytes(b) == GroupBytes(BlockGroups(b))
  {
    hide When, Concat, GroupBytes, Maybe, MaybeSome, Blobs, Repeated, BlockHead, BlockMiddle, EncodedAccounts;
    var g5 := BlockHeadIs(b);
    var a6, a11 := Blobs(6, b.transactions), Blobs(11, EncodedAccounts(b.accounts));
    BlobsBytes(6, b.transactions);
    GroupsPush(g5, a6);
    var g10 := BlockMiddleIs(b, g5 + [a6]);
    BlobsBytes(11, EncodedAccounts(b.accounts));
    GroupsPush(g10, a11);
    var a12, a13 := Maybe(b.entriesCount != 0, Uint(12, b.entriesCount)), Blobs(13, b.entries);
    MaybeBytes(b.entriesCount != 0, Uint(12, b.entriesCount));
    GroupsPush(g10 + [a11], a12);
    BlobsBytes(13, b.entries);
    GroupsPush(g10 + [a11] + [a12], a13);
    MaybeBytes(b.bankId != 0, Uint(14, b.bankId));
    GroupsPush(g10 + [a11] + [a12] + [a13], Maybe(b.bankId != 0, Uint(14, b.bankId)));
  }

  ghost predicate Short(items: seq<Bytes>) {
    forall i :: 0 <= i < |items| ==> |items[i]| < U64_LIMIT
  }

  predicate ShortIfAny(bytes: Option<Bytes>) {
    bytes.Some? ==> |bytes.value| < U64_LIMIT
  }

  ghost predicate BlockFits(b: Block) {
    && b.slot < U64_LIMIT && b.parentSlot < U64_LIMIT && b.executedTransactionCount < U64_LIMIT
    && b.updatedAccountCount < U64_LIMIT && b.entriesCount < U64_LIMIT && b.bankId < U64_LIMIT
    && |b.blockhash| < U64_LIMIT && |b.parentBlockhash| < U64_LIMIT
    && ShortIfAny(b.rewards) && ShortIfAny(b.blockTime) && ShortIfAny(b.blockHeight)
    && Short(b.transactions) && Short(EncodedAccounts(b.accounts)) && Short(b.entries)
  }

  lemma BlobsHaveTag(tag: nat, items: seq<Bytes>)
    requires Short(items) && 1 <= tag < 16
    ensures HasTag(Blobs(tag, items), tag)
  {
  }

  lemma MaybeHasTag(written: bool, f: WireField)
    requires Encodable(f)
    ensures HasTag(Maybe(written, f), f.tag)
  {
  }

  lemma MaybeSomeHasTag(tag: nat, bytes: Option<Bytes>)
    requires ShortIfAny(bytes) && 1 <= tag < 16
    ensures HasTag(MaybeSome(tag, bytes), tag)
  {
  }

  lemma GroupedPush(groups: seq<Group>, group: seq<WireField>)
    requires Grouped(groups) && HasTag(group, |groups| + 1)
    ensures Grouped(groups + [group])
  {
    hide HasTag;
  }

  lemma GroupedNone()
    ensures Grouped([])
  {
  }

  lemma FourteenGroups(g1: Group, g2: Group, g3: Group, g4: Group, g5: Group, g6: Group, g7: Group, g8: Group,
                       g9: Group, g10: Group, g11: Group, g12: Group, g13: Group, g14: Group)
    requires HasTag(g1, 1) && HasTag(g2, 2) && HasTag(g3, 3) && HasTag(g4, 4) && HasTag(g5, 5) && HasTag(g6, 6)
    requires HasTag(g7, 7) && HasTag(g8, 8) && HasTag(g9, 9) && HasTag(g10, 10) && HasTag(g11, 11)
    requires HasTag(g12, 12) && HasTag(g13, 13) && HasTag(g14, 14)
    ensures Grouped([g1] + [g2] + [g3] + [g4] + [g5] + [g6] + [g7] + [g8] + [g9] + [g10] + [g11] + [g12] + [g13]
                    + [g14])
  {
    hide HasTag, Grouped;
    GroupedNone();
    GroupedPush([], g1);
    assert [] + [g1] == [g1];
    var a2, a3 := [g1] + [g2], [g1] + [g2] + [g3];
    GroupedPush([g1], g2);
    GroupedPush(a2, g3);
    var a4, a5 := a3 + [g4], a3 + [g4] + [g5];
    GroupedPush(a3, g4);
    GroupedPush(a4, g5);
    var a6, a7 := a5 + [g6], a5 + [g6] + [g7];
    GroupedPush(a5, g6);
    GroupedPush(a6, g7);
    var a8, a9 := a7 + [g8], a7 + [g8] + [g9];
    GroupedPush(a7, g8);
    GroupedPush(a8, g9);
    var a10, a11 := a9 + [g10], a9 + [g10] + [g11];
    GroupedPush(a9, g10);
    GroupedPush(a10, g11);
    var a12, a13 := a11 + [g12], a11 + [g12] + [g13];
    GroupedPush(a11, g12);
    GroupedPush(a12, g13);
    GroupedPush(a13, g14);
  }

  lemma BlockIsGrouped(b: Block)
    requires BlockFits(b)
    ensures Grouped(BlockGroups(b))
  {
    hide HasTag, Maybe, MaybeSome, Blobs, Encodable, Short, EncodedAccounts;
    MaybeHasTag(b.slot != 0, Uint(1, b.slot));
    MaybeHasTag(b.blockhash != [], Blob(2, b.blockhash));
    MaybeSomeHasTag(3, b.rewards);
    MaybeSomeHasTag(4, b.blockTime);
    MaybeSomeHasTag(5, b.blockHeight);
    BlobsHaveTag(6, b.transactions);
    MaybeHasTag(b.parentSlot != 0, Uint(7, b.parentSlot));
    MaybeHasTag(b.parentBlockhash != [], Blob(8, b.parentBlockhash));
    MaybeHasTag(b.executedTransactionCount != 0, Uint(9, b.executedTransactionCount));
    MaybeHasTag(b.updatedAccountCount != 0, Uint(10, b.updatedAccountCount));
    BlobsHaveTag(11, EncodedAccounts(b.accounts));
    MaybeHasTag(b.entriesCount != 0, Uint(12, b.entriesCount));
    BlobsHaveTag(13, b.entries);
    MaybeHasTag(b.bankId != 0, Uint(14, b.bankId));
    FourteenGroups(Maybe(b.slot != 0, Uint(1, b.slot)), Maybe(b.blockhash != [], Blob(2, b.blockhash)),
                   MaybeSome(3, b.rewards), MaybeSome(4, b.blockTime), MaybeSome(5, b.blockHeight),
                   Blobs(6, b.transactions), Maybe(b.parentSlot != 0, Uint(7, b.parentSlot)),
                   Maybe(b.parentBlockhash != [], Blob(8, b.parentBlockhash)),
                   Maybe(b.executedTransactionCount != 0, Uint(9, b.executedTransactionCount)),
                   Maybe(b.updatedAccountCount != 0, Uint(10, b.updatedAccountCount)),
                   Blobs(11, EncodedAccounts(b.accounts)), Maybe(b.entriesCount != 0, Uint(12, b.entriesCount)),
                   Blobs(13, b.entries), Maybe(b.bankId != 0, Uint(14, b.bankId)));
  }

  /** A reader gets the block back, field by field, and the repeated ones in order; its accounts as encoded accounts. */
  lemma BlockIsRead(b: Block)
    requires BlockFits(b)
    ensures var r := ReadAll(BlockBytes(b), 0);
      && r.Some?
      && NumberOf(r.value, 1) == b.slot && StringOf(r.value, 2) == b.blockhash
      && MessageOf(r.value, 3) == b.rewards && MessageOf(r.value, 4) == b.blockTime
      && MessageOf(r.value, 5) == b.blockHeight && Strings(r.value, 6) == b.transactions
      && NumberOf(r.value, 7) == b.parentSlot && StringOf(r.value, 8) == b.parentBlockhash
      && NumberOf(r.value, 9) == b.executedTransactionCount && NumberOf(r.value, 10) == b.updatedAccountCount
      && Strings(r.value, 11) == EncodedAccounts(b.accounts) && NumberOf(r.value, 12) == b.entriesCount
      && Strings(r.value, 13) == b.entries && NumberOf(r.value, 14) == b.bankId
  {
    hide ReadAll, BlockBytes, GroupBytes, Flat, AllMeant, NumberOf, StringOf, MessageOf, Strings, Grouped, Maybe,
         MaybeSome, Blobs, EncodedAccounts;
    var g := BlockGroups(b);
    BlockBytesAre(b);
    BlockIsGrouped(b);
    GroupsAreRead(BlockBytes(b), g);
    NumberIsRead(g, 1, b.slot);
    StringIsRead(g, 2, b.blockhash);
    MessageIsRead(g, 3, b.rewards);
    MessageIsRead(g, 4, b.blockTime);
    MessageIsRead(g, 5, b.blockHeight);
    ItemsAreRead(g, 6, b.transactions);
    NumberIsRead(g, 7, b.parentSlot);
    StringIsRead(g, 8, b.parentBlockhash);
    NumberIsRead(g, 9, b.executedTransactionCount);
    NumberIsRead(g, 10, b.updatedAccountCount);
    ItemsAreRead(g, 11, EncodedAccounts(b.accounts));
    NumberIsRead(g, 12, b.entriesCount);
    ItemsAreRead(g, 13, b.entries);
    NumberIsRead(g, 14, b.bankId);
  }

  // ----- the whole update -----

  lemma OneConcat(f: WireField)
    ensures Concat([f]) == FieldBytes(f)
  {
    assert [f][1..] == [];
  }

  /** A reader finds the filters, one field with its contents and the time, if they were written one after the other. */
  lemma ThreePartsAreRead(filters: seq<Bytes>, tag: nat, contents: Bytes, createdAt: Bytes)
    requires Short(filters) && 1 <= tag < 16 && |contents| < U64_LIMIT && |createdAt| < U64_LIMIT
    ensures ReadAll(Repeated(1, filters) + FieldBytes(Blob(tag, contents)) + FieldBytes(Blob(11, createdAt)), 0) ==
            Some(AllMeant(Blobs(1, filters)) + [Str(tag, contents)] + [Str(11, createdAt)])
  {
    hide FieldBytes, Repeated, ReadAll, Concat;
    var update, time := Blob(tag, contents), Blob(11, createdAt);
    var fs := Blobs(1, filters) + [update] + [time];
    BlobsBytes(1, filters);
    OneConcat(update);
    OneConcat(time);
    ConcatAppend(Blobs(1, filters), [update]);
    ConcatAppend(Blobs(1, filters) + [update], [time]);
    BlobsHaveTag(1, filters);
    var b := Repeated(1, filters) + FieldBytes(Blob(tag, contents)) + FieldBytes(Blob(11, createdAt));
    assert b[0..] == b;
    FieldsAreRead(b, 0, fs);
    AllMeantAppend(Blobs(1, filters), [update]);
    AllMeantAppend(Blobs(1, filters) + [update], [time]);
    assert AllMeant([update]) == [Meant(update)] && AllMeant([time]) == [Meant(time)];
  }
}
