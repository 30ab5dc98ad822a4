/** The hand-written encoders of `filter/src/protobuf/encode.rs` and `filter/src/protobuf/mod.rs`: what
    `encode_raw` appends, what `encoded_len` announces, and that the two agree. Nested messages that
    prost encodes (timestamps, rewards, errors) are given as their bytes. */
module Encode {
  import opened Basics
  import opened Wire

  // ----- single fields -----

  /** One field as an encoder appends it: `uint64::encode`, `bool::encode`, `bytes_encode`. */
  datatype WireField = Uint(tag: nat, value: nat) | Bool(tag: nat, flag: bool) | Blob(tag: nat, bytes: Bytes)

  /** `uint64::encoded_len`, `bool::encoded_len`, `bytes_encoded_len` */
  function FieldLen(f: WireField): nat {
    match f
    case Uint(tag, value) => KeyLen(tag) + VarintLen(value)
    case Bool(tag, _) => KeyLen(tag) + 1
    case Blob(tag, bytes) => KeyLen(tag) + VarintLen(|bytes|) + |bytes|
  }

  /** A wire type never lengthens a key. */
  lemma KeyLenIsLength(tag: nat, wire: WireType)
    ensures |EncodeKey(tag, wire)| == KeyLen(tag)
  {
    var key := 8 * tag + WireCode(wire);
    VarintLenIsLength(key);
    if key >= 128 {
      assert key / 128 == 8 * tag / 128;
    }
  }

  function FieldBytes(f: WireField): (r: Bytes)
    ensures |r| == FieldLen(f)
  {
    KeyLenIsLength(f.tag, VarintType);
    KeyLenIsLength(f.tag, LengthDelimited);
    match f
    case Uint(tag, value) =>
      VarintLenIsLength(value);
      EncodeKey(tag, VarintType) + EncodeVarint(value)
    case Bool(tag, flag) =>
      EncodeKey(tag, VarintType) + EncodeVarint(if flag then 1 else 0)
    case Blob(tag, bytes) =>
      VarintLenIsLength(|bytes|);
      EncodeKey(tag, LengthDelimited) + EncodeVarint(|bytes|) + bytes
  }

  function WhenLen(written: bool, f: WireField): nat {
    if written then FieldLen(f) else 0
  }

  function WhenSomeLen(tag: nat, bytes: Option<Bytes>): nat {
    if bytes.Some? then FieldLen(Blob(tag, bytes.value)) else 0
  }

  /** A field that is written only under a condition. */
  function When(written: bool, f: WireField): (r: Bytes)
    ensures |r| == WhenLen(written, f)
  {
    if written then FieldBytes(f) else []
  }

  function WhenSome(tag: nat, bytes: Option<Bytes>): (r: Bytes)
    ensures |r| == WhenSomeLen(tag, bytes)
  {
    if bytes.Some? then FieldBytes(Blob(tag, bytes.value)) else []
  }

  /** A repeated length-delimited field. */
  function Repeated(tag: nat, items: seq<Bytes>): Bytes {
    if items == [] then [] else Repeated(tag, items[..|items| - 1]) + FieldBytes(Blob(tag, items[|items| - 1]))
  }

  /** Every item with its length, without the keys. */
  function ItemsLen(items: seq<Bytes>): nat {
    if items == [] then 0
    else ItemsLen(items[..|items| - 1]) + |items[|items| - 1]| + VarintLen(|items[|items| - 1]|)
  }

  /** All keys at once, then the items: `key_len(tag) * n + sum`. */
  function RepeatedLen(tag: nat, items: seq<Bytes>): nat {
    Times(KeyLen(tag), |items|) + ItemsLen(items)
  }

  function Times(a: nat, b: nat): nat {
    a * b
  }

  lemma {:induction false} RepeatedLength(tag: nat, items: seq<Bytes>)
    ensures |Repeated(tag, items)| == RepeatedLen(tag, items)
  {
    hide KeyLen, VarintLen, FieldBytes;
    if items != [] {
      var n := |items| - 1;
      RepeatedLength(tag, items[..n]);
      assert Times(KeyLen(tag), n + 1) == Times(KeyLen(tag), n) + KeyLen(tag);
    }
  }

  // ----- accounts -----

  datatype AccountInner = AccountInner(
    pubkey: Bytes, lamports: nat, owner: Bytes, executable: bool, rentEpoch: nat, data: Bytes,
    writeVersion: nat, txnSignature: Option<Bytes>)

  /** `UpdateOneofLimitedEncodeAccountInner::encoded_len` */
  function AccountInnerLen(a: AccountInner): nat {
    FieldLen(Blob(1, a.pubkey))
    + WhenLen(a.lamports != 0, Uint(2, a.lamports))
    + FieldLen(Blob(3, a.owner))
    + WhenLen(a.executable, Bool(4, a.executable))
    + WhenLen(a.rentEpoch != 0, Uint(5, a.rentEpoch))
    + WhenLen(a.data != [], Blob(6, a.data))
    + WhenLen(a.writeVersion != 0, Uint(7, a.writeVersion))
    + WhenSomeLen(8, a.txnSignature)
  }

  /** `UpdateOneofLimitedEncodeAccountInner::encode_raw` */
  function AccountInnerBytes(a: AccountInner): (r: Bytes)
    ensures |r| == AccountInnerLen(a)
  {
    FieldBytes(Blob(1, a.pubkey))
    + (When(a.lamports != 0, Uint(2, a.lamports))
    + (FieldBytes(Blob(3, a.owner))
    + (When(a.executable, Bool(4, a.executable))
    + (When(a.rentEpoch != 0, Uint(5, a.rentEpoch))
    + (When(a.data != [], Blob(6, a.data))
    + (When(a.writeVersion != 0, Uint(7, a.writeVersion))
    + WhenSome(8, a.txnSignature)))))))
  }

  datatype AccountUpdate =
    | Slice(bytes: Bytes)
    | Fields(account: AccountInner, slot: nat, isStartup: bool, bankId: Option<nat>)

  /** `UpdateOneofLimitedEncodeAccount::encoded_len` */
  function AccountUpdateLen(u: AccountUpdate): nat {
    match u
    case Slice(bytes) => |bytes|
    case Fields(account, slot, isStartup, bankId) =>
      var len := AccountInnerLen(account);
      KeyLen(1) + VarintLen(len) + len
      + WhenLen(slot != 0, Uint(2, slot))
      + WhenLen(!isStartup, Bool(3, isStartup))
      + (if bankId.Some? then FieldLen(Uint(4, bankId.value)) else 0)
  }

  /** `UpdateOneofLimitedEncodeAccount::encode_raw`: the length of the nested account is announced
      before it is written. */
  function AccountUpdateBytes(u: AccountUpdate): (r: Bytes)
    ensures |r| == AccountUpdateLen(u)
  {
    match u
    case Slice(bytes) => bytes
    case Fields(account, slot, isStartup, bankId) =>
      KeyLenIsLength(1, LengthDelimited);
      VarintLenIsLength(AccountInnerLen(account));
      EncodeKey(1, LengthDelimited) + EncodeVarint(AccountInnerLen(account)) + AccountInnerBytes(account)
      + When(slot != 0, Uint(2, slot))
      + When(!isStartup, Bool(3, isStartup))
      + if bankId.Some? then FieldBytes(Uint(4, bankId.value)) else []
  }

  // ----- transaction status -----

  datatype TransactionStatus = TransactionStatus(
    slot: nat, signature: Bytes, isVote: bool, index: nat, err: Option<Bytes>, bankId: nat)

  function TransactionStatusLen(t: TransactionStatus): nat {
    WhenLen(t.slot != 0, Uint(1, t.slot))
    + WhenLen(t.signature != [], Blob(2, t.signature))
    + WhenLen(t.isVote, Bool(3, t.isVote))
    + WhenLen(t.index != 0, Uint(4, t.index))
    + WhenSomeLen(5, t.err)
    + WhenLen(t.bankId != 0, Uint(6, t.bankId))
  }

  function TransactionStatusBytes(t: TransactionStatus): (r: Bytes)
    ensures |r| == TransactionStatusLen(t)
  {
    When(t.slot != 0, Uint(1, t.slot))
    + When(t.signature != [], Blob(2, t.signature))
    + When(t.isVote, Bool(3, t.isVote))
    + When(t.index != 0, Uint(4, t.index))
    + WhenSome(5, t.err)
    + When(t.bankId != 0, Uint(6, t.bankId))
  }

  // ----- blocks -----

  datatype Block = Block(
    slot: nat, blockhash: Bytes, rewards: Option<Bytes>, blockTime: Option<Bytes>, blockHeight: Option<Bytes>,
    parentSlot: nat, parentBlockhash: Bytes, executedTransactionCount: nat, transactions: seq<Bytes>,
    updatedAccountCount: nat, accounts: seq<AccountInner>, entriesCount: nat, entries: seq<Bytes>, bankId: nat)

  /** The nested accounts, each encoded. */
  function EncodedAccounts(accounts: seq<AccountInner>): (r: seq<Bytes>)
    ensures |r| == |accounts|
  {
    seq(|accounts|, i requires 0 <= i < |accounts| => AccountInnerBytes(accounts[i]))
  }

  /** `UpdateOneofLimitedEncodeBlock::encoded_len` */
  function BlockLen(b: Block): nat {
    WhenLen(b.slot != 0, Uint(1, b.slot))
    + WhenLen(b.blockhash != [], Blob(2, b.blockhash))
    + WhenSomeLen(3, b.rewards)
    + WhenSomeLen(4, b.blockTime)
    + WhenSomeLen(5, b.blockHeight)
    + RepeatedLen(6, b.transactions)
    + WhenLen(b.parentSlot != 0, Uint(7, b.parentSlot))
    + WhenLen(b.parentBlockhash != [], Blob(8, b.parentBlockhash))
    + WhenLen(b.executedTransactionCount != 0, Uint(9, b.executedTransactionCount))
    + WhenLen(b.updatedAccountCount != 0, Uint(10, b.updatedAccountCount))
    + RepeatedLen(11, EncodedAccounts(b.accounts))
    + WhenLen(b.entriesCount != 0, Uint(12, b.entriesCount))
    + RepeatedLen(13, b.entries)
    + WhenLen(b.bankId != 0, Uint(14, b.bankId))
  }

  /** Fields 1 to 5 of a block, before the transactions. */
  function BlockHead(b: Block): (r: Bytes) {
    When(b.slot != 0, Uint(1, b.slot)) + When(b.blockhash != [], Blob(2, b.blockhash))
    + WhenSome(3, b.rewards) + WhenSome(4, b.blockTime) + WhenSome(5, b.blockHeight)
  }

  /** Fields 7 to 10, between the transactions and the accounts. */
  function BlockMiddle(b: Block): (r: Bytes) {
    When(b.parentSlot != 0, Uint(7, b.parentSlot)) + When(b.parentBlockhash != [], Blob(8, b.parentBlockhash))
    + When(b.executedTransactionCount != 0, Uint(9, b.executedTransactionCount))
    + When(b.updatedAccountCount != 0, Uint(10, b.updatedAccountCount))
  }

  /** `UpdateOneofLimitedEncodeBlock::encode_raw` */
  function BlockBytes(b: Block): Bytes {
    BlockHead(b) + Repeated(6, b.transactions) + BlockMiddle(b) + Repeated(11, EncodedAccounts(b.accounts))
    + When(b.entriesCount != 0, Uint(12, b.entriesCount)) + Repeated(13, b.entries)
    + When(b.bankId != 0, Uint(14, b.bankId))
  }

  lemma BlockLength(b: Block)
    ensures |BlockBytes(b)| == BlockLen(b)
  {
    RepeatedLength(6, b.transactions);
    RepeatedLength(11, EncodedAccounts(b.accounts));
    RepeatedLength(13, b.entries);
  }

  /** Appending key, announced length and contents, one after the other. */
  method PutBlob(tag: nat, len: nat, bytes: Bytes, buffer: Bytes) returns (r: Bytes)
    requires len == |bytes|
    ensures r == buffer + FieldBytes(Blob(tag, bytes))
  {
    hide EncodeKey, EncodeVarint;
    r := buffer + EncodeKey(tag, LengthDelimited);
    r := r + EncodeVarint(len);
    r := r + bytes;
    assert r == buffer + (EncodeKey(tag, LengthDelimited) + EncodeVarint(len) + bytes);
  }

  /** One more element of a repeated field. */
  lemma RepeatedNext(tag: nat, items: seq<Bytes>, i: nat, buffer: Bytes)
    requires i < |items|
    ensures buffer + Repeated(tag, items[..i]) + FieldBytes(Blob(tag, items[i])) ==
          buffer + Repeated(tag, items[..i + 1])
  {
    hide FieldBytes;
    assert items[..i + 1][..i] == items[..i];
  }

  /** A loop of `encode_raw` over ready-made slices. */
  method AppendBlobs(tag: nat, items: seq<Bytes>, buffer: Bytes) returns (r: Bytes)
    ensures r == buffer + Repeated(tag, items)
  {
    hide FieldBytes, Repeated;
    r := buffer;
    var i := 0;
    assert items[..0] == [] && Repeated(tag, []) == [] by {
      RepeatedEmpty(tag);
    }
    while i < |items|
      invariant 0 <= i <= |items|
      invariant r == buffer + Repeated(tag, items[..i])
    {
      RepeatedNext(tag, items, i, buffer);
      r := PutBlob(tag, |items[i]|, items[i], r);
      i := i + 1;
    }
    assert items[..i] == items;
  }

  lemma RepeatedEmpty(tag: nat)
    ensures Repeated(tag, []) == []
  {
  }

  /** The loop of `encode_raw` over nested accounts, whose length is computed, not measured. */
  method AppendAccounts(accounts: seq<AccountInner>, buffer: Bytes) returns (r: Bytes)
    ensures r == buffer + Repeated(11, EncodedAccounts(accounts))
  {
    hide FieldBytes, Repeated, AccountInnerBytes, AccountInnerLen;
    ghost var items := EncodedAccounts(accounts);
    r := buffer;
    var i := 0;
    assert items[..0] == [] && Repeated(11, []) == [] by {
      RepeatedEmpty(11);
    }
    while i < |accounts|
      invariant 0 <= i <= |accounts|
      invariant r == buffer + Repeated(11, items[..i])
    {
      RepeatedNext(11, items, i, buffer);
      r := PutBlob(11, AccountInnerLen(accounts[i]), AccountInnerBytes(accounts[i]), r);
      i := i + 1;
    }
    assert items[..i] == items;
  }

  /** `UpdateOneofLimitedEncodeBlock::encode_raw` as written: it appends to the buffer step by step. */
  method EncodeBlock(b: Block, buffer: Bytes) returns (r: Bytes)
    ensures r == buffer + BlockBytes(b)
    ensures |r| == |buffer| + BlockLen(b)
  {
    hide When, BlockHead, BlockMiddle, BlockLen, Repeated, EncodedAccounts;
    BlockLength(b);
    r := buffer + BlockHead(b);
    r := AppendBlobs(6, b.transactions, r);
    r := r + BlockMiddle(b);
    r := AppendAccounts(b.accounts, r);
    r := r + When(b.entriesCount != 0, Uint(12, b.entriesCount));
    r := AppendBlobs(13, b.entries, r);
    r := r + When(b.bankId != 0, Uint(14, b.bankId));
    Sevenfold(buffer, BlockHead(b), Repeated(6, b.transactions), BlockMiddle(b),
              Repeated(11, EncodedAccounts(b.accounts)), When(b.entriesCount != 0, Uint(12, b.entriesCount)),
              Repeated(13, b.entries), When(b.bankId != 0, Uint(14, b.bankId)));
  }

  lemma Sevenfold(z: Bytes, a: Bytes, b: Bytes, c: Bytes, d: Bytes, e: Bytes, f: Bytes, g: Bytes)
    ensures z + a + b + c + d + e + f + g == z + (a + b + c + d + e + f + g)
  {
    assert z + a + b == z + (a + b);
    assert z + (a + b) + c == z + (a + b + c);
    assert z + (a + b + c) + d == z + (a + b + c + d);
    assert z + (a + b + c + d) + e == z + (a + b + c + d + e);
    assert z + (a + b + c + d + e) + f == z + (a + b + c + d + e + f);
  }

  // ----- the whole update -----

  datatype Update =
    | AccountOf(account: AccountUpdate)
    | SlotOf(bytes: Bytes)
    | TransactionOf(bytes: Bytes)
    | TransactionStatusOf(status: TransactionStatus)
    | BlockOf(block: Block)
    | BlockMetaOf(bytes: Bytes)
    | EntryOf(bytes: Bytes)

  function Tag(u: Update): nat {
    match u
    case AccountOf(_) => 2
    case SlotOf(_) => 3
    case TransactionOf(_) => 4
    case TransactionStatusOf(_) => 10
    case BlockOf(_) => 5
    case BlockMetaOf(_) => 7
    case EntryOf(_) => 8
  }

  /** `UpdateOneofLimitedEncode::len`, announced in front of the contents. */
  function ContentsLen(u: Update): nat {
    match u
    case AccountOf(a) => AccountUpdateLen(a)
    case TransactionStatusOf(t) => TransactionStatusLen(t)
    case BlockOf(b) => BlockLen(b)
    case SlotOf(bytes) => |bytes|
    case TransactionOf(bytes) => |bytes|
    case BlockMetaOf(bytes) => |bytes|
    case EntryOf(bytes) => |bytes|
  }

  function Contents(u: Update): (r: Bytes)
    ensures |r| == ContentsLen(u)
  {
    match u
    case AccountOf(a) => AccountUpdateBytes(a)
    case TransactionStatusOf(t) => TransactionStatusBytes(t)
    case BlockOf(b) =>
      BlockLength(b);
      BlockBytes(b)
    case SlotOf(bytes) => bytes
    case TransactionOf(bytes) => bytes
    case BlockMetaOf(bytes) => bytes
    case EntryOf(bytes) => bytes
  }

  /** `UpdateOneofLimitedEncode::encode` */
  function UpdateBytes(u: Update): Bytes {
    EncodeKey(Tag(u), LengthDelimited) + EncodeVarint(ContentsLen(u)) + Contents(u)
  }

  /** The announced length is the real one, so the update is a well-formed length-delimited field. */
  lemma UpdateIsField(u: Update)
    ensures UpdateBytes(u) == FieldBytes(Blob(Tag(u), Contents(u)))
  {
  }

  /** `SubscribeUpdateMessageLimited`: filters, update, timestamp. */
  datatype Message = Message(filters: seq<Bytes>, update: Update, createdAt: Bytes)

  function MessageBytes(m: Message): Bytes {
    Repeated(1, m.filters) + UpdateBytes(m.update) + FieldBytes(Blob(11, m.createdAt))
  }

  /** `SubscribeUpdateMessageLimited::encoded_len` */
  function MessageLen(m: Message): nat {
    FiltersLen(m.filters)
    + (KeyLen(Tag(m.update)) + VarintLen(ContentsLen(m.update)) + ContentsLen(m.update))
    + FieldLen(Blob(11, m.createdAt))
  }

  /** `encoded_filters_len` */
  function FiltersLen(filters: seq<Bytes>): nat {
    if filters == [] then 0 else FiltersLen(filters[..|filters| - 1]) + FieldLen(Blob(1, filters[|filters| - 1]))
  }

  lemma {:induction false} FiltersLength(filters: seq<Bytes>)
    ensures |Repeated(1, filters)| == FiltersLen(filters)
  {
    if filters != [] {
      FiltersLength(filters[..|filters| - 1]);
    }
  }

  /** Every encoder emits exactly the number of bytes it reserves. */
  lemma MessageLength(m: Message)
    ensures |MessageBytes(m)| == MessageLen(m)
  {
    FiltersLength(m.filters);
    UpdateIsField(m.update);
  }
}
