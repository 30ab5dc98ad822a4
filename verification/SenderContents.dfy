/** What the sender remembers of its open slots, told from what it has received: the contents of every candidate bank,
    the banks that were replaced, and the events that an earlier run has journaled. */
module SenderContents {
  import opened Basics
  import opened Messages
  import opened SlotTracking
  import opened SenderModel
  import opened SenderAdmission
  import opened SenderRetention
  import opened SenderStreams
  import opened SenderInvariant
  import opened SenderBounds
  import opened SenderRuns
  import BlockAssembly

  // ----- the records of what was received -----

  function Incoming(log: seq<Record>): seq<Record> {
    if log == [] then []
    else
      var last := log[|log| - 1];
      Incoming(log[..|log| - 1]) + if last.stream == Received then [last] else []
  }

  lemma IncomingPush(log: seq<Record>, r: Record)
    ensures Incoming(log + [r]) == Incoming(log) + if r.stream == Received then [r] else []
  {
    assert (log + [r])[..|log|] == log;
  }

  lemma {:induction false} IncomingEach(cfg: Config, st: State, stream: Stream, slot: Slot, ms: seq<Msg>)
    requires stream != Received
    ensures Incoming(PushEach(cfg, st, stream, slot, ms).log) == Incoming(st.log)
  {
    hide Incoming;
    if ms != [] {
      var n := |ms| - 1;
      IncomingEach(cfg, st, stream, slot, ms[..n]);
      var st1 := PushEach(cfg, st, stream, slot, ms[..n]);
      var journaled := Journaled(cfg, stream);
      IncomingPush(st1.log, Record(stream, st1.epoch, slot, if journaled then Some(st1.index) else None, ms[n]));
    }
  }

  lemma IncomingStored(cfg: Config, st: State, stream: Stream, slot: Slot, m: Msg)
    ensures Incoming(PushStored(cfg, st, stream, slot, m).log) ==
            Incoming(st.log) + if stream == Received then [Record(Received, st.epoch, slot, None, m)] else []
  {
    hide Incoming;
    var journaled := Journaled(cfg, stream);
    IncomingPush(st.log, Record(stream, st.epoch, slot, if journaled then Some(st.index) else None, m));
  }

  lemma IncomingIf(cfg: Config, st: State, condition: bool, stream: Stream, slot: Slot, ms: seq<Msg>)
    requires stream != Received
    ensures Incoming(PushIf(cfg, st, condition, stream, slot, ms).log) == Incoming(st.log)
  {
    IncomingEach(cfg, st, stream, slot, ms);
  }

  lemma IncomingStatus(cfg: Config, st: State, slot: Slot, m: Msg, selected: Option<Option<BankId>>)
    requires m.SlotStatus?
    ensures Incoming(PublishStatus(cfg, st, slot, m, selected).log) == Incoming(st.log)
  {
    hide Incoming, PushIf, PushStored, Stored;
    var bank := BankOf(st, slot, selected);
    var st1 := PushIf(cfg, st, cfg.confirmed, OnConfirmed, slot, [m]);
    IncomingIf(cfg, st, cfg.confirmed, OnConfirmed, slot, [m]);
    var st2 := PushIf(cfg, st1, cfg.finalized, OnFinalized, slot, [m]);
    IncomingIf(cfg, st1, cfg.finalized, OnFinalized, slot, [m]);
    var st3 := PushIf(cfg, st2, m.status == Confirmed && cfg.confirmed, OnConfirmed, slot, bank);
    IncomingIf(cfg, st2, m.status == Confirmed && cfg.confirmed, OnConfirmed, slot, bank);
    var st4 := PushIf(cfg, st3, m.status == Finalized && cfg.finalized, OnFinalized, slot, bank);
    IncomingIf(cfg, st3, m.status == Finalized && cfg.finalized, OnFinalized, slot, bank);
    var st5 :=
      if m.status != Finalized then st4
      else if cfg.finalized && selected.Some? then st4.(slotFinalized := slot, slots := st4.slots - {slot})
      else st4.(slotFinalized := slot);
    IncomingStored(cfg, st5, OnProcessed, slot, m);
  }

  /** Handling a message records it as received, once, and nothing else. */
  lemma IncomingHandle(cfg: Config, st: State, slot: Slot, m: Msg, selected: Option<Option<BankId>>)
    ensures Incoming(Handle(cfg, st, slot, m, selected).log) ==
            Incoming(st.log) + [Record(Received, st.epoch, slot, None, m)]
  {
    hide Incoming, PushIf, PushStored, PublishStatus, IdentOf, Known;
    IncomingStored(cfg, st, Received, slot, m);
    var st1 := Noted(PushStored(cfg, st, Received, slot, m), slot, m);
    if m.SlotStatus? {
      IncomingStatus(cfg, st1, slot, m, selected);
    } else {
      var condition := Follows(cfg, st1, slot, m);
      IncomingIf(cfg, st1, condition, OnConfirmed, slot, [m]);
      IncomingStored(cfg, PushIf(cfg, st1, condition, OnConfirmed, slot, [m]), OnProcessed, slot, m);
    }
  }

  /** The block that the bank makes of a message. */
  function BlockOf(st: State, slot: Slot, m: Msg): Option<Msg>
    requires Publishable(m)
  {
    if m.SlotStatus? then None else AbsorbMessage(Tracked(st, slot), m).1
  }

  /** One message is received, then the block that it completes. */
  lemma IncomingOne(cfg: Config, st: State, slot: Slot, m: Msg)
    requires Publishable(m)
    ensures var block := BlockOf(st, slot, m);
      Incoming(PublishOne(cfg, st, slot, m).log) ==
      Incoming(st.log) + [Record(Received, st.epoch, slot, None, m)]
      + if block.Some? then [Record(Received, st.epoch, slot, None, block.value)] else []
  {
    hide Incoming, Handle, AbsorbMessage;
    if m.SlotStatus? {
      var (info, selected) := Commit(Tracked(st, slot), m.status, m.bank);
      IncomingHandle(cfg, st.(slots := st.slots[slot := info]), slot, m, selected);
    } else {
      var (info, block) := AbsorbMessage(Tracked(st, slot), m);
      var st1 := st.(slots := st.slots[slot := info]);
      IncomingHandle(cfg, st1, slot, m, None);
      if block.Some? {
        AbsorbYieldsBlock(Tracked(st, slot), m);
        var st2 := Handle(cfg, st1, slot, m, None);
        HandleOther(cfg, st1, slot, m, 0, 0, m);
        IncomingHandle(cfg, st2, slot, block.value, None);
      }
    }
  }

  // ----- what was received of one bank -----

  predicate IsArrival(r: Record, e: nat, s: Slot, bank: Option<BankId>) {
    r.epoch == e && r.slot == s && r.msg.bank == bank && Storable(r.msg)
  }

  predicate IsBlock(r: Record, e: nat, s: Slot, bank: Option<BankId>) {
    r.epoch == e && r.slot == s && r.msg.bank == bank && r.msg.Block?
  }

  /** The messages of a bank that were received in an epoch, in order, without statuses and blocks. */
  function Arrived(incoming: seq<Record>, e: nat, s: Slot, bank: Option<BankId>): (r: seq<Msg>)
    ensures BlockAssembly.AllStorable(r)
  {
    if incoming == [] then []
    else
      var last := incoming[|incoming| - 1];
      Arrived(incoming[..|incoming| - 1], e, s, bank) + if IsArrival(last, e, s, bank) then [last.msg] else []
  }

  /** The blocks of a bank that were received, that is, made by the sender itself. */
  function Blocks(incoming: seq<Record>, e: nat, s: Slot, bank: Option<BankId>): seq<Msg> {
    if incoming == [] then []
    else
      var last := incoming[|incoming| - 1];
      Blocks(incoming[..|incoming| - 1], e, s, bank) + if IsBlock(last, e, s, bank) then [last.msg] else []
  }

  /** The bank was replaced. */
  ghost predicate WasCleared(incoming: seq<Record>, e: nat, s: Slot, b: BankId) {
    exists i :: 0 <= i < |incoming| && Clears(incoming[i], e, s, b)
  }

  predicate Clears(r: Record, e: nat, s: Slot, b: BankId) {
    r.epoch == e && r.slot == s && r.msg.EntryUpdateParent? && r.msg.bank == Some(b)
  }

  lemma ArrivedPush(incoming: seq<Record>, r: Record, e: nat, s: Slot, bank: Option<BankId>)
    ensures Arrived(incoming + [r], e, s, bank) ==
            Arrived(incoming, e, s, bank) + if IsArrival(r, e, s, bank) then [r.msg] else []
    ensures Blocks(incoming + [r], e, s, bank) ==
            Blocks(incoming, e, s, bank) + if IsBlock(r, e, s, bank) then [r.msg] else []
  {
    assert (incoming + [r])[..|incoming|] == incoming;
  }

  lemma ClearedPush(incoming: seq<Record>, r: Record, e: nat, s: Slot, b: BankId)
    ensures WasCleared(incoming + [r], e, s, b) <==> WasCleared(incoming, e, s, b) || Clears(r, e, s, b)
  {
    var all := incoming + [r];
    if WasCleared(incoming, e, s, b) {
      var i :| 0 <= i < |incoming| && Clears(incoming[i], e, s, b);
      assert Clears(all[i], e, s, b);
    }
    if Clears(r, e, s, b) {
      assert Clears(all[|incoming|], e, s, b);
    }
  }

  // ----- one bank -----

  /** The bank is what `BlockAssembly` makes of its arrivals; a replaced bank is gone; the blocks that were received
      are those that it made. */
  ghost predicate BankIs(info: SlotInfo, arrived: seq<Msg>, blocks: seq<Msg>, bank: Option<BankId>) {
    && BlockAssembly.AllStorable(arrived) && blocks == BlockAssembly.Run(arrived).1
    && (if (bank.Some? && bank.value in info.clearedBanks) || arrived == [] then bank !in info.banks
        else bank in info.banks && info.banks[bank].(landed := false) == BlockAssembly.Run(arrived).0)
  }

  lemma AbsorbIgnoresLanded(b: BlockAssembly.BankInfo, m: Msg)
    requires Storable(m)
    ensures var (b', block) := BlockAssembly.Absorb(b, m);
      BlockAssembly.Absorb(b.(landed := false), m) == (b'.(landed := false), block) && b'.landed == b.landed
  {
    assert BlockAssembly.Store(b.(landed := false), m) == BlockAssembly.Store(b, m).(landed := false);
  }

  lemma RunPush(ms: seq<Msg>, m: Msg)
    requires BlockAssembly.AllStorable(ms) && Storable(m)
    ensures BlockAssembly.AllStorable(ms + [m])
    ensures var (b, blocks) := BlockAssembly.Run(ms);
      var (b', block) := BlockAssembly.Absorb(b, m);
      BlockAssembly.Run(ms + [m]) == (b', if block.Some? then blocks + [block.value] else blocks)
  {
    hide BlockAssembly.Store, BlockAssembly.Complete, BlockAssembly.Tracks;
    assert (ms + [m])[..|ms|] == ms;
  }

  /** A message of the bank. */
  lemma AbsorbKeepsBank(info: SlotInfo, m: Msg, arrived: seq<Msg>, blocks: seq<Msg>)
    requires Storable(m) && BankIs(info, arrived, blocks, m.bank)
    requires !(m.bank.Some? && m.bank.value in info.clearedBanks)
    ensures var (info', block) := AbsorbMessage(info, m);
      BankIs(info', arrived + [m], blocks + (if block.Some? then [block.value] else []), m.bank)
  {
    hide BlockAssembly.Run, BlockAssembly.Absorb, BlockAssembly.AllStorable;
    RunPush(arrived, m);
    var b := Candidate(info, m.bank);
    CandidateIs(info, arrived, blocks, m.bank);
    AbsorbIgnoresLanded(b, m);
    var (info', block) := AbsorbMessage(info, m);
    assert info'.banks[m.bank] == BlockAssembly.Absorb(b, m).0 && block == BlockAssembly.Absorb(b, m).1;
    assert arrived + [m] != [];
    assert block.None? ==> blocks + [] == blocks;
  }

  /** The candidate that a message of the bank goes to. */
  function Candidate(info: SlotInfo, bank: Option<BankId>): BlockAssembly.BankInfo {
    if bank in info.banks then info.banks[bank] else BlockAssembly.EMPTY_BANK
  }

  lemma CandidateIs(info: SlotInfo, arrived: seq<Msg>, blocks: seq<Msg>, bank: Option<BankId>)
    requires BankIs(info, arrived, blocks, bank) && !(bank.Some? && bank.value in info.clearedBanks)
    ensures BlockAssembly.AllStorable(arrived)
    ensures (Candidate(info, bank).(landed := false), blocks) == BlockAssembly.Run(arrived)
  {
    hide BlockAssembly.Run;
    EmptyRun();
  }

  lemma EmptyRun()
    ensures BlockAssembly.Run([]) == (BlockAssembly.EMPTY_BANK, [])
  {
  }

  /** A message of another bank, or the notice that a bank is replaced. */
  lemma AbsorbElsewhere(info: SlotInfo, m: Msg, arrived: seq<Msg>, blocks: seq<Msg>, bank: Option<BankId>)
    requires Storable(m) || m.EntryUpdateParent?
    requires BankIs(info, arrived, blocks, bank) && (m.bank != bank || m.EntryUpdateParent?)
    ensures BankIs(AbsorbMessage(info, m).0, arrived, blocks, bank)
  {
    hide BlockAssembly.Run, BlockAssembly.Absorb;
  }

  lemma CommitKeepsBank(info: SlotInfo, status: Status, named: Option<BankId>, arrived: seq<Msg>, blocks: seq<Msg>,
                        bank: Option<BankId>)
    requires BankIs(info, arrived, blocks, bank)
    ensures BankIs(Commit(info, status, named).0, arrived, blocks, bank)
  {
    hide BlockAssembly.Run, SelectBank;
  }

  /** A slot remembers nothing before its first message. */
  lemma NewSlotIs(index: nat, bank: Option<BankId>)
    ensures BankIs(NewSlot(index), [], [], bank)
  {
    EmptyRun();
  }

  // ----- one slot -----

  ghost predicate BankAt(st: State, s: Slot, bank: Option<BankId>) {
    var incoming := Incoming(st.log);
    BankIs(InfoOf(st, s), Arrived(incoming, st.epoch, s, bank), Blocks(incoming, st.epoch, s, bank), bank)
  }

  ghost predicate ClearedAt(st: State, s: Slot, b: BankId) {
    b in InfoOf(st, s).clearedBanks <==> WasCleared(Incoming(st.log), st.epoch, s, b)
  }

  /** The slot remembers exactly what was received of it. */
  ghost predicate ContentOk(st: State, s: Slot) {
    (forall bank :: BankAt(st, s, bank)) && (forall b :: ClearedAt(st, s, b))
  }

  /** The books of the slot after one message, if the message does not finalize it. */
  lemma BooksAfterOne(cfg: Config, st: State, s: Slot, m: Msg)
    requires Publishable(m) && !(Finalizes(st, s, m) && cfg.finalized)
    ensures InfoOf(PublishOne(cfg, st, s, m), s) ==
            if m.SlotStatus? then Commit(Tracked(st, s), m.status, m.bank).0 else AbsorbMessage(Tracked(st, s), m).0
  {
    hide PublishOne, Commit, AbsorbMessage, Tracked, Finalizes;
    PublishOneFrame(cfg, st, s, m);
  }

  lemma TrackedBank(st: State, s: Slot, arrived: seq<Msg>, blocks: seq<Msg>, bank: Option<BankId>)
    requires BankIs(InfoOf(st, s), arrived, blocks, bank)
    ensures BankIs(Tracked(st, s), arrived, blocks, bank) && Tracked(st, s).clearedBanks == InfoOf(st, s).clearedBanks
  {
  }

  lemma PublishOneBank(cfg: Config, st: State, s: Slot, m: Msg, bank: Option<BankId>)
    requires Publishable(m) && m.slot == s && !(Finalizes(st, s, m) && cfg.finalized) && BankAt(st, s, bank)
    requires BankBelongs(InfoOf(st, s), s, m.bank)
    requires Storable(m) && m.bank.Some? ==> m.bank.value !in InfoOf(st, s).clearedBanks
    ensures BankAt(PublishOne(cfg, st, s, m), s, bank)
  {
    hide PublishOne, Commit, AbsorbMessage, Tracked, Finalizes, BankIs, Incoming, Arrived, Blocks, InfoOf;
    var incoming, block, e := Incoming(st.log), BlockOf(st, s, m), st.epoch;
    var arrived, blocks := Arrived(incoming, e, s, bank), Blocks(incoming, e, s, bank);
    IncomingOne(cfg, st, s, m);
    BooksAfterOne(cfg, st, s, m);
    EpochStays(cfg, st, s, m);
    var r := Record(Received, e, s, None, m);
    ArrivedPush(incoming, r, e, s, bank);
    TrackedBank(st, s, arrived, blocks, bank);
    if block.Some? {
      BlockIsOf(st, s, m);
      ArrivedPush(incoming + [r], Record(Received, e, s, None, block.value), e, s, bank);
    } else {
      assert incoming + [r] + [] == incoming + [r];
    }
    if m.SlotStatus? {
      CommitKeepsBank(Tracked(st, s), m.status, m.bank, arrived, blocks, bank);
      assert arrived + [] == arrived && blocks + [] == blocks;
    } else if Storable(m) && m.bank == bank {
      AbsorbKeepsBank(Tracked(st, s), m, arrived, blocks);
      assert blocks + [] == blocks && arrived + [m] + [] == arrived + [m];
    } else {
      AbsorbElsewhere(Tracked(st, s), m, arrived, blocks, bank);
      assert arrived + [] == arrived && blocks + [] == blocks;
    }
  }

  lemma EpochStays(cfg: Config, st: State, s: Slot, m: Msg)
    requires Publishable(m)
    ensures PublishOne(cfg, st, s, m).epoch == st.epoch
  {
    hide PublishOne;
    PublishOneFrame(cfg, st, s, m);
  }

  lemma BlockIsOf(st: State, s: Slot, m: Msg)
    requires Publishable(m) && m.slot == s && BankBelongs(InfoOf(st, s), s, m.bank)
    ensures var block := BlockOf(st, s, m);
      block.Some? ==> block.value.Block? && block.value.bank == m.bank && Storable(m)
  {
    if !m.SlotStatus? {
      AbsorbFacts(st, s, m, Entry(s, m.bank, 0, 0));
    }
  }

  lemma PublishOneClears(cfg: Config, st: State, s: Slot, m: Msg, b: BankId)
    requires Publishable(m) && m.slot == s && !(Finalizes(st, s, m) && cfg.finalized) && ClearedAt(st, s, b)
    requires BankBelongs(InfoOf(st, s), s, m.bank)
    ensures ClearedAt(PublishOne(cfg, st, s, m), s, b)
  {
    hide PublishOne, Finalizes, BlockAssembly.Absorb, SelectBank, Incoming, WasCleared;
    var incoming, block, e := Incoming(st.log), BlockOf(st, s, m), st.epoch;
    IncomingOne(cfg, st, s, m);
    BooksAfterOne(cfg, st, s, m);
    EpochStays(cfg, st, s, m);
    var r := Record(Received, e, s, None, m);
    ClearedPush(incoming, r, e, s, b);
    if block.Some? {
      BlockIsOf(st, s, m);
      ClearedPush(incoming + [r], Record(Received, e, s, None, block.value), e, s, b);
    } else {
      assert incoming + [r] + [] == incoming + [r];
    }
  }

  lemma PublishOneContent(cfg: Config, st: State, s: Slot, m: Msg)
    requires Publishable(m) && m.slot == s && !(Finalizes(st, s, m) && cfg.finalized)
    requires ContentOk(st, s) && SlotOk(cfg, st, s)
    requires Storable(m) && m.bank.Some? ==> m.bank.value !in InfoOf(st, s).clearedBanks
    ensures ContentOk(PublishOne(cfg, st, s, m), s)
  {
    hide PublishOne, Finalizes, BankAt, ClearedAt, InfoOf, LedgerAt;
    assert BankBelongs(InfoOf(st, s), s, m.bank);
    forall bank: Option<BankId>
      ensures BankAt(PublishOne(cfg, st, s, m), s, bank)
    {
      PublishOneBank(cfg, st, s, m, bank);
    }
    forall b: BankId
      ensures ClearedAt(PublishOne(cfg, st, s, m), s, b)
    {
      PublishOneClears(cfg, st, s, m, b);
    }
  }

  /** Records of one slot do not concern another. */
  lemma PublishOneElsewhereContent(cfg: Config, st: State, slot: Slot, m: Msg, s: Slot)
    requires Publishable(m) && s != slot && ContentOk(st, s)
    ensures ContentOk(PublishOne(cfg, st, slot, m), s)
  {
    hide PublishOne, BankIs, Incoming, Arrived, Blocks, WasCleared, Commit, AbsorbMessage, Finalizes, BlockOf;
    var st' := PublishOne(cfg, st, slot, m);
    var incoming, block := Incoming(st.log), BlockOf(st, slot, m);
    IncomingOne(cfg, st, slot, m);
    PublishOneFrame(cfg, st, slot, m);
    assert InfoOf(st', s) == InfoOf(st, s);
    var r := Record(Received, st.epoch, slot, None, m);
    var rs := [r] + if block.Some? then [Record(Received, st.epoch, slot, None, block.value)] else [];
    assert Incoming(st'.log) == incoming + rs;
    forall bank: Option<BankId>
      ensures BankAt(st', s, bank)
    {
      assert BankAt(st, s, bank);
      ArrivedSame(incoming, rs, st.epoch, s, bank);
    }
    forall b: BankId
      ensures ClearedAt(st', s, b)
    {
      assert ClearedAt(st, s, b);
      ClearedSame(incoming, rs, st.epoch, s, b);
    }
  }

  ghost predicate NotOf(rs: seq<Record>, e: nat, s: Slot) {
    forall i :: 0 <= i < |rs| ==> rs[i].slot != s || rs[i].epoch != e
  }

  lemma {:induction false} ArrivedSame(incoming: seq<Record>, rs: seq<Record>, e: nat, s: Slot, bank: Option<BankId>)
    requires NotOf(rs, e, s)
    ensures Arrived(incoming + rs, e, s, bank) == Arrived(incoming, e, s, bank)
    ensures Blocks(incoming + rs, e, s, bank) == Blocks(incoming, e, s, bank)
  {
    hide Arrived, Blocks;
    if rs == [] {
      assert incoming + rs == incoming;
    } else {
      var n := |rs| - 1;
      ArrivedSame(incoming, rs[..n], e, s, bank);
      ArrivedPush(incoming + rs[..n], rs[n], e, s, bank);
      assert incoming + rs == incoming + rs[..n] + [rs[n]];
    }
  }

  lemma {:induction false} ClearedSame(incoming: seq<Record>, rs: seq<Record>, e: nat, s: Slot, b: BankId)
    requires NotOf(rs, e, s)
    ensures WasCleared(incoming + rs, e, s, b) <==> WasCleared(incoming, e, s, b)
  {
    hide WasCleared;
    if rs == [] {
      assert incoming + rs == incoming;
    } else {
      var n := |rs| - 1;
      ClearedSame(incoming, rs[..n], e, s, b);
      ClearedPush(incoming + rs[..n], rs[n], e, s, b);
      assert incoming + rs == incoming + rs[..n] + [rs[n]];
    }
  }

  // ----- one event -----

  lemma ClearedBanksStay(cfg: Config, st: State, s: Slot, m: Msg)
    requires Storable(m)
    ensures InfoOf(PublishOne(cfg, st, s, m), s).clearedBanks == InfoOf(st, s).clearedBanks
  {
    hide PublishOne, BlockAssembly.Absorb;
    PublishOneFrame(cfg, st, s, m);
  }

  lemma {:induction false} PublishAllContent(cfg: Config, st: State, s: Slot, ms: seq<Msg>, m: Msg)
    requires SlotOk(cfg, st, s) && ContentOk(st, s)
    requires Batch(ms, m) && m.slot == s && !m.SlotStatus? && AllPublishable(ms)
    requires !m.EntryUpdateParent? && m.bank.Some? ==> m.bank.value !in InfoOf(st, s).clearedBanks
    ensures var st' := PublishAll(cfg, st, s, ms);
      ContentOk(st', s) && (!m.EntryUpdateParent? ==> InfoOf(st', s).clearedBanks == InfoOf(st, s).clearedBanks)
  {
    hide PublishOne, SlotOk, ContentOk, InfoOf;
    if ms != [] {
      var n := |ms| - 1;
      assert InBatch(ms[n], m) && Batch(ms[..n], m);
      PublishAllContent(cfg, st, s, ms[..n], m);
      PublishAllKeeps(cfg, st, s, ms[..n], m);
      var st1 := PublishAll(cfg, st, s, ms[..n]);
      assert m.EntryUpdateParent? ==> ms[n] == m;
      PublishOneContent(cfg, st1, s, ms[n]);
      if Storable(ms[n]) {
        ClearedBanksStay(cfg, st1, s, ms[n]);
      }
    }
  }

  /** A batch for the slot keeps its contents, unless it finalizes the slot. */
  lemma BatchContent(cfg: Config, st: State, s: Slot, ms: seq<Msg>, m: Msg)
    requires SlotOk(cfg, st, s) && ContentOk(st, s) && Batch(ms, m) && m.slot == s && ms != [] && AllPublishable(ms)
    requires !m.EntryUpdateParent? && m.bank.Some? ==> m.bank.value !in InfoOf(st, s).clearedBanks
    ensures var st' := PublishAll(cfg, st, s, ms); st'.slotFinalized == s || ContentOk(st', s)
  {
    hide PublishOne, SlotOk, ContentOk, InfoOf;
    if m.SlotStatus? {
      assert ms[..0] == [] && PublishAll(cfg, st, s, []) == st;
      assert PublishAll(cfg, st, s, ms) == PublishOne(cfg, st, s, m);
      PublishOneFrame(cfg, st, s, m);
      if !(Finalizes(st, s, m) && cfg.finalized) {
        PublishOneContent(cfg, st, s, m);
      }
    } else {
      PublishAllContent(cfg, st, s, ms, m);
    }
  }

  lemma {:induction false} BatchContentElsewhere(cfg: Config, st: State, slot: Slot, ms: seq<Msg>, s: Slot)
    requires AllPublishable(ms) && s != slot && ContentOk(st, s)
    ensures ContentOk(PublishAll(cfg, st, slot, ms), s)
  {
    hide PublishOne, ContentOk;
    if ms != [] {
      var n := |ms| - 1;
      BatchContentElsewhere(cfg, st, slot, ms[..n], s);
      PublishOneElsewhereContent(cfg, PublishAll(cfg, st, slot, ms[..n]), slot, ms[n], s);
    }
  }

  lemma SameContent(st: State, st': State, s: Slot)
    requires ContentOk(st, s) && InfoOf(st', s) == InfoOf(st, s) && st'.log == st.log && st'.epoch == st.epoch
    ensures ContentOk(st', s)
  {
    hide BankIs, WasCleared;
    forall bank: Option<BankId>
      ensures BankAt(st', s, bank)
    {
      assert BankAt(st, s, bank);
    }
    forall b: BankId
      ensures ClearedAt(st', s, b)
    {
      assert ClearedAt(st, s, b);
    }
  }

  ghost predicate OpenContent(st: State, s: Slot) {
    s > Bound(st) ==> ContentOk(st, s)
  }

  ghost predicate ContentsOk(st: State) {
    && (forall s :: OpenContent(st, s))
    && (forall i :: 0 <= i < |st.log| ==> st.log[i].epoch <= st.epoch)
  }

  lemma PublishContent(cfg: Config, st: State, ms: seq<Msg>, m: Msg, s: Slot)
    requires Inv(cfg, st) && !Ignored(st, m) && Batch(ms, m) && AllPublishable(ms) && ms != []
    requires s > Bound(st) && ContentOk(st, s) && ContentOk(st, m.slot)
    ensures OpenContent(Publish(cfg, st, m.slot, ms), s)
  {
    hide PublishAll, Finish, SlotOk, AllSound, Unborn, DedupOk, RecoveredOk, ContentOk, InfoOf;
    var st0 := Entered(st, m.slot);
    EnteredInv(cfg, st, m.slot);
    SameInfo(st, st0, s);
    SameInfo(st, st0, m.slot);
    SameContent(st, st0, s);
    SameContent(st, st0, m.slot);
    assert OpenSlotOk(cfg, st0, m.slot);
    NotIgnoredBank(st, m);
    var st1 := PublishAll(cfg, st0, m.slot, ms);
    var clean := st1.slotFinalized != st.slotFinalized;
    var st2 := Finish(cfg, st1, clean);
    FinishKeeps(cfg, st1, clean);
    if s == m.slot {
      BatchContent(cfg, st0, s, ms, m);
    } else {
      BatchContentElsewhere(cfg, st0, m.slot, ms, s);
    }
    if s > Bound(st2) {
      FinishInfo(cfg, st1, clean, s);
      SameContent(st1, st2, s);
    }
  }

  lemma SameInfo(st: State, st': State, s: Slot)
    requires st'.slots == st.slots
    ensures InfoOf(st', s) == InfoOf(st, s)
  {
  }

  lemma FinishInfo(cfg: Config, st: State, clean: bool, s: Slot)
    requires s > Bound(Finish(cfg, st, clean))
    ensures InfoOf(Finish(cfg, st, clean), s) == InfoOf(st, s)
  {
    hide Finish;
    FinishKeeps(cfg, st, clean);
  }

  lemma NotIgnoredBank(st: State, m: Msg)
    requires !Ignored(st, m)
    ensures m.slot > Bound(st)
    ensures m.bank.Some? && !m.EntryUpdateParent? ==> m.bank.value !in InfoOf(st, m.slot).clearedBanks
  {
  }

  lemma {:induction false} IncomingIn(log: seq<Record>, k: nat) returns (i: nat)
    requires k < |Incoming(log)|
    ensures i < |log| && log[i].stream == Received && Incoming(log)[k] == log[i]
  {
    var n := |log| - 1;
    if k < |Incoming(log[..n])| {
      i := IncomingIn(log[..n], k);
    } else {
      i := n;
    }
  }

  /** In a new epoch nothing has been received yet. */
  lemma EpochContent(st: State, s: Slot)
    requires forall i :: 0 <= i < |st.log| ==> st.log[i].epoch <= st.epoch
    ensures ContentOk(BeginEpoch(st), s)
  {
    hide BankIs, Incoming, Arrived, Blocks, WasCleared;
    var st', incoming := BeginEpoch(st), Incoming(st.log);
    forall k | 0 <= k < |incoming|
      ensures incoming[k].epoch != st'.epoch
    {
      var i := IncomingIn(st.log, k);
    }
    assert [] + incoming == incoming;
    NothingArrived(st'.epoch, s);
    forall bank: Option<BankId>
      ensures BankAt(st', s, bank)
    {
      ArrivedSame([], incoming, st'.epoch, s, bank);
      NewSlotIs(0, bank);
    }
    forall b: BankId
      ensures ClearedAt(st', s, b)
    {
      ClearedSame([], incoming, st'.epoch, s, b);
    }
  }

  lemma NothingArrived(e: nat, s: Slot)
    ensures forall bank :: Arrived([], e, s, bank) == [] && Blocks([], e, s, bank) == []
    ensures forall b :: !WasCleared([], e, s, b)
  {
  }

  lemma StepContents(cfg: Config, st: State, e: Event, st': State)
    requires Inv(cfg, st) && Bounded(cfg, st) && ContentsOk(st) && Step(cfg, st, e, st')
    ensures ContentsOk(st')
  {
    hide Publish, Admit, SlotOk, AllSound, Unborn, DedupOk, RecoveredOk, ContentOk, Ignored, Bounded;
    StepBounds(cfg, st, e, st');
    StepEpochs(st, st');
    match e
    case BeginLiveEpoch =>
      forall s: Slot
        ensures OpenContent(st', s)
      {
        EpochContent(st, s);
      }
    case Deliver(required, source, m) =>
      if !Ignored(st, m) {
        AdmitIsBatch(st.dedup, required, source, m);
        var (dedup, ms) := Admit(st.dedup, required, source, m).value;
        var st1 := st.(dedup := dedup);
        DedupInv(cfg, st, dedup);
        DeliverContents(cfg, st, st1, ms, m);
      }
  }

  lemma StepEpochs(st: State, st': State)
    requires Advances(st, st') && (forall i :: 0 <= i < |st.log| ==> st.log[i].epoch <= st.epoch)
    ensures st'.epoch >= st.epoch ==> forall i :: 0 <= i < |st'.log| ==> st'.log[i].epoch <= st'.epoch
  {
    forall i | 0 <= i < |st'.log|
      ensures st'.log[i].epoch <= st.epoch
    {
      assert i < |st.log| ==> st'.log[i] == st.log[i];
    }
  }

  lemma DeliverContents(cfg: Config, st: State, st1: State, ms: seq<Msg>, m: Msg)
    requires Inv(cfg, st1) && st1 == st.(dedup := st1.dedup) && !Ignored(st, m) && Batch(ms, m) && AllPublishable(ms)
    requires forall s :: OpenContent(st, s)
    ensures forall s :: OpenContent(Publish(cfg, st1, m.slot, ms), s)
    ensures Publish(cfg, st1, m.slot, ms).epoch == st.epoch
  {
    hide Inv, ContentOk, PublishAll, Finish;
    var st2 := Publish(cfg, st1, m.slot, ms);
    if ms != [] {
      PublishAllFrame(cfg, Entered(st1, m.slot), m.slot, ms);
      FinishKeeps(cfg, PublishAll(cfg, Entered(st1, m.slot), m.slot, ms),
                  PublishAll(cfg, Entered(st1, m.slot), m.slot, ms).slotFinalized != st1.slotFinalized);
    }
    forall s: Slot
      ensures OpenContent(st2, s)
    {
      assert OpenContent(st, s) && OpenContent(st, m.slot);
      BoundRises(cfg, st1, ms, m);
      if s > Bound(st) {
        SameInfo(st, st1, s);
        SameInfo(st, st1, m.slot);
        SameContent(st, st1, s);
        SameContent(st, st1, m.slot);
        if ms != [] {
          PublishContent(cfg, st1, ms, m, s);
        }
      }
    }
  }

  lemma BoundRises(cfg: Config, st: State, ms: seq<Msg>, m: Msg)
    requires AllPublishable(ms) && !Ignored(st, m)
    ensures Bound(Publish(cfg, st, m.slot, ms)) >= Bound(st)
  {
    hide PublishAll, Finish, SameReplay;
    if ms != [] {
      PublishAllFrame(cfg, Entered(st, m.slot), m.slot, ms);
      FinishKeeps(cfg, PublishAll(cfg, Entered(st, m.slot), m.slot, ms),
                  PublishAll(cfg, Entered(st, m.slot), m.slot, ms).slotFinalized != st.slotFinalized);
    }
  }

  // ----- whole runs -----

  lemma {:induction false} RunKeepsContents(cfg: Config, states: seq<State>, events: seq<Event>, i: nat)
    requires SenderRuns.Run(cfg, states, events) && i < |states|
    ensures ContentsOk(states[i])
  {
    hide Step, ContentsOk, Inv, Bounded;
    if i == 0 {
      InitialContents(states[0]);
    } else {
      RunKeepsContents(cfg, states, events, i - 1);
      RunKeepsInv(cfg, states, events, i - 1);
      assert StepAt(cfg, states, events, i - 1);
      StepContents(cfg, states[i - 1], events[i - 1], states[i]);
    }
  }

  lemma InitialContents(st: State)
    requires Initial(st)
    ensures ContentsOk(st)
  {
    forall s: Slot
      ensures ContentOk(st, s)
    {
      forall bank: Option<BankId>
        ensures BankAt(st, s, bank)
      {
        NewSlotIs(0, bank);
      }
    }
  }

  /** Over any run, for every open slot: a bank that was not replaced is exactly what block assembly makes of the
      messages of it that were received, in order, and the blocks received are those it made; a replaced bank is
      gone. */
  lemma BankIsItsArrivals(cfg: Config, states: seq<State>, events: seq<Event>, i: nat, s: Slot, bank: Option<BankId>)
    requires SenderRuns.Run(cfg, states, events) && i < |states| && s > Bound(states[i])
    ensures BankAt(states[i], s, bank)
  {
    hide SenderRuns.Run, BankAt;
    RunKeepsContents(cfg, states, events, i);
    assert OpenContent(states[i], s);
  }

  /** Over any run: a delivery is ignored if and only if its slot is finalized or dropped, or its bank was replaced by
      an `EntryUpdateParent` that was received in this epoch. */
  lemma IgnoredIff(cfg: Config, states: seq<State>, events: seq<Event>, i: nat, m: Msg)
    requires SenderRuns.Run(cfg, states, events) && i < |states|
    ensures var st := states[i];
      Ignored(st, m) <==>
      || m.slot <= st.slotFinalized || m.slot <= st.slotDropped
      || (!m.EntryUpdateParent? && m.bank.Some? && WasCleared(Incoming(st.log), st.epoch, m.slot, m.bank.value))
  {
    hide SenderRuns.Run, WasCleared, Incoming, BankAt;
    var st := states[i];
    RunKeepsContents(cfg, states, events, i);
    RunKeepsInv(cfg, states, events, i);
    assert OpenContent(st, m.slot);
    if m.slot > Bound(st) && m.bank.Some? {
      assert ClearedAt(st, m.slot, m.bank.value);
    }
  }
}
