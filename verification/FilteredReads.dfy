/** What a client reads in the bytes of a filtered update, `FilteredUpdate::encode` in `filter/src/filter.rs`: the
    filters, the update under the field number of its kind with what the filter lets through, the time. */
module FilteredReads {
  import opened Basics
  import opened Wire
  import opened Encode
  import opened AccountDecode
  import opened AccountRoundTrip
  import opened EncodeRoundTrip
  import opened EncodeCache

  /** A reader finds the names of the filters in order, then one field `tag` with `contents`, then the time. */
  ghost predicate ReadsAs(u: FilteredUpdate, tag: nat, contents: Bytes)
    requires Fitting(u)
  {
    ReadAll(EncodeToVec(u), 0) ==
      Some(AllMeant(Blobs(1, u.filters)) + [Str(tag, contents)] + [Str(11, u.source.createdAt)])
  }

  /** The strings given by others fit the wire. */
  ghost predicate NamesFit(u: FilteredUpdate) {
    Short(u.filters) && |u.source.createdAt| < U64_LIMIT
  }

  /** A field that another encoder wrote. */
  predicate IsField(bytes: Bytes, tag: nat, contents: Bytes) {
    1 <= tag < 16 && |contents| < U64_LIMIT && bytes == FieldBytes(Blob(tag, contents))
  }

  lemma FieldReadsAs(u: FilteredUpdate, tag: nat, contents: Bytes)
    requires Fitting(u) && NamesFit(u) && IsField(UpdateField(u.source, u.shape), tag, contents)
    ensures ReadsAs(u, tag, contents)
  {
    hide UpdateField, FieldBytes, ReadAll, Repeated, Concat;
    ThreePartsAreRead(u.filters, tag, contents, u.source.createdAt);
  }

  lemma UpdateReadsAs(u: FilteredUpdate, update: Update)
    requires Fitting(u) && NamesFit(u) && UpdateField(u.source, u.shape) == UpdateBytes(update)
    requires |Contents(update)| < U64_LIMIT
    ensures ReadsAs(u, Tag(update), Contents(update))
  {
    hide UpdateField, UpdateBytes, Contents, FieldBytes, ReadsAs, Fitting, NamesFit;
    UpdateIsField(update);
    FieldReadsAs(u, Tag(update), Contents(update));
  }

  /** Messages that are passed on as received, among them an account of which the whole data is wanted. */
  lemma PassedOnIsRead(u: FilteredUpdate)
    requires Fitting(u) && NamesFit(u)
    requires u.source.AccountSource? || u.source.SlotSource? || u.source.TransactionSource? || u.source.EntrySource?
             || u.source.BlockMetaSource?
    requires |u.source.bytes| < U64_LIMIT
    ensures u.shape == Account([]) ==> ReadsAs(u, 2, u.source.bytes)
    ensures u.shape == Slot ==> ReadsAs(u, 3, u.source.bytes)
    ensures u.shape == Transaction ==> ReadsAs(u, 4, u.source.bytes)
    ensures u.shape == BlockMeta ==> ReadsAs(u, 7, u.source.bytes)
    ensures u.shape == Entry ==> ReadsAs(u, 8, u.source.bytes)
  {
    hide UpdateBytes, ReadsAs, NamesFit, AccountUpdateLen, TransactionStatusLen, BlockLen;
    var bytes := u.source.bytes;
    match u.shape {
      case Account(slices) => if slices == [] { UpdateReadsAs(u, AccountOf(Slice(bytes))); }
      case Slot => UpdateReadsAs(u, SlotOf(bytes));
      case Transaction => UpdateReadsAs(u, TransactionOf(bytes));
      case BlockMeta => UpdateReadsAs(u, BlockMetaOf(bytes));
      case Entry => UpdateReadsAs(u, EntryOf(bytes));
      case _ =>
    }
  }

  /** A footer with or without its certificates and a new parent, both written by prost. */
  lemma ProstIsRead(u: FilteredUpdate, tag: nat, contents: Bytes)
    requires Fitting(u) && NamesFit(u) && (u.shape.BlockFooter? || u.shape.EntryUpdateParent?)
    requires u.shape == BlockFooter(true) ==> IsField(u.source.full, tag, contents)
    requires u.shape == BlockFooter(false) ==> IsField(u.source.stripped, tag, contents)
    requires u.shape.EntryUpdateParent? ==> IsField(u.source.bytes, tag, contents)
    ensures ReadsAs(u, tag, contents)
  {
    hide ReadsAs, NamesFit, FieldBytes;
    FieldReadsAs(u, tag, contents);
  }

  /** An account of which slices are wanted decodes to the account with just these bytes as its data. */
  lemma SlicedAccountIsRead(u: FilteredUpdate) returns (contents: Bytes)
    requires Fitting(u) && NamesFit(u) && u.shape.Account? && u.shape.dataSlices != []
    requires WellTyped(u.source.account) && |SliceOf(u.shape.dataSlices, u.source.account.data)| < U64_LIMIT
    requires AccountUpdateLen(Fields(SlicedAccount(u.source.account, u.shape.dataSlices), u.source.slot,
                                     u.source.isStartup, u.source.bankId)) < U64_LIMIT
    requires u.source.slot < U64_LIMIT && (u.source.bankId.Some? ==> u.source.bankId.value < U64_LIMIT)
    ensures ReadsAs(u, 2, contents) && Decode(contents).Some?
    ensures var e, a := Decode(contents).value, u.source.account;
      && e.info.pubkey == a.pubkey && e.info.owner == a.owner && e.info.lamports == a.lamports
      && e.info.executable == a.executable && e.info.rentEpoch == a.rentEpoch
      && e.info.slot == u.source.slot && e.info.bankId == u.source.bankId
      && (e.info.isStartup ==> u.source.isStartup)
      && e.at.dataStart <= e.at.dataEnd <= |contents|
      && contents[e.at.dataStart..e.at.dataEnd] == SliceOf(u.shape.dataSlices, a.data)
      && GotOffsets(e.at, contents, a.(data := SliceOf(u.shape.dataSlices, a.data)), 8)
  {
    hide ReadsAs, NamesFit, SliceOf, AccountUpdateBytes, AccountInnerLen, UpdateBytes, Decode, AccountFields,
         FieldBytes;
    var update := Fields(SlicedAccount(u.source.account, u.shape.dataSlices), u.source.slot, u.source.isStartup,
                         u.source.bankId);
    contents := AccountUpdateBytes(update);
    UpdateReadsAs(u, AccountOf(update));
    DecodeEncodedAccount(update);
  }

  /** The status of a transaction without the transaction. */
  lemma StatusOnlyIsRead(u: FilteredUpdate) returns (contents: Bytes)
    requires Fitting(u) && NamesFit(u) && u.shape.TransactionStatusOnly?
    requires StatusFits(u.source.status) && TransactionStatusLen(u.source.status) < U64_LIMIT
    ensures ReadsAs(u, 10, contents) && contents == TransactionStatusBytes(u.source.status)
    ensures var r, t := ReadAll(contents, 0), u.source.status;
      && r.Some?
      && NumberOf(r.value, 1) == t.slot && StringOf(r.value, 2) == t.signature
      && NumberOf(r.value, 3) == (if t.isVote then 1 else 0) && NumberOf(r.value, 4) == t.index
      && MessageOf(r.value, 5) == t.err && NumberOf(r.value, 6) == t.bankId
  {
    hide ReadsAs, NamesFit, StatusFits, TransactionStatusBytes, TransactionStatusLen, ReadAll, NumberOf, StringOf,
         MessageOf, UpdateBytes;
    contents := TransactionStatusBytes(u.source.status);
    UpdateReadsAs(u, TransactionStatusOf(u.source.status));
    TransactionStatusIsRead(u.source.status);
  }

  /** A block: the wanted transactions in the wanted order, the entries if they are wanted, the wanted accounts with
      their data sliced; the number of updated accounts counts them all, and the rest is that of the block. */
  lemma FilteredBlockIsRead(u: FilteredUpdate) returns (contents: Bytes, gs: seq<Got>)
    requires Fitting(u) && NamesFit(u) && u.shape.BlockOf?
    requires var b := FilteredBlock(u.source.block, u.shape.accounts, u.shape.transactions, u.shape.entries,
                                    u.shape.dataSlices);
      BlockFits(b) && BlockLen(b) < U64_LIMIT
    ensures ReadsAs(u, 5, contents) && ReadAll(contents, 0) == Some(gs)
    ensures var b := u.source.block;
      && NumberOf(gs, 1) == b.slot && StringOf(gs, 2) == b.blockhash && MessageOf(gs, 3) == b.rewards
      && MessageOf(gs, 4) == b.blockTime && MessageOf(gs, 5) == b.blockHeight && NumberOf(gs, 7) == b.parentSlot
      && StringOf(gs, 8) == b.parentBlockhash && NumberOf(gs, 9) == b.executedTransactionCount
      && NumberOf(gs, 10) == |b.accounts| && NumberOf(gs, 12) == b.entriesCount && NumberOf(gs, 14) == b.bankId
    ensures var wanted, sent := u.shape.transactions, Strings(gs, 6);
      |sent| == |wanted| && forall i :: 0 <= i < |wanted| ==> sent[i] == u.source.block.transactions[wanted[i]]
    ensures Strings(gs, 13) == if u.shape.entries then u.source.block.entries else []
    ensures var wanted, sent := u.shape.accounts, Strings(gs, 11);
      && |sent| == |wanted|
      && forall i :: 0 <= i < |wanted| ==>
           var a := u.source.block.accounts[wanted[i]];
           sent[i] == AccountInnerBytes(a.(data := SliceOf(u.shape.dataSlices, a.data)))
  {
    hide ReadsAs, NamesFit, BlockFits, BlockBytes, BlockLen, ReadAll, NumberOf, StringOf, MessageOf, Strings,
         UpdateBytes, AccountInnerBytes, SliceOf;
    var b := FilteredBlock(u.source.block, u.shape.accounts, u.shape.transactions, u.shape.entries, u.shape.dataSlices);
    contents := BlockBytes(b);
    BlockLength(b);
    UpdateReadsAs(u, Update.BlockOf(b));
    BlockIsRead(b);
    gs := ReadAll(contents, 0).value;
  }

  /** An account inside a block decodes like one of its own. */
  lemma NestedAccountIsRead(a: AccountInner)
    requires WellTyped(a) && AccountInnerLen(a) < U64_LIMIT
    ensures var b := AccountInnerBytes(a);
      var d := InnerLoop(DEFAULT, b, 0, |b|);
      d.Some? && GotInfo(d.value.info, a, 8) && GotOffsets(d.value.at, b, a, 8)
  {
    hide AccountInnerBytes, InnerLoop, AccountInnerLen, Rest;
    var b := AccountInnerBytes(a);
    RestIsAll(a);
    assert b[0..|b|] == b;
    InnerLoopReads(DEFAULT, b, 0, |b|, a, 0);
    GotAll(DEFAULT, b, 0, |b|, a, 0);
  }
}
