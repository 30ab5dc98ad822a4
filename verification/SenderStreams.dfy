/** What the commitment streams hold: one bank per slot above processed, nothing published more often
    than it arrived, and finalized within confirmed. */
module SenderStreams {
  import opened Basics
  import opened Messages
  import opened SlotTracking
  import opened SenderModel

  // ----- how often a message is on each stream -----

  predicate Matches(r: Record, stream: Stream, e: nat, s: Slot, x: Msg) {
    r.stream == stream && r.epoch == e && r.slot == s && r.msg == x
  }

  function Count(log: seq<Record>, stream: Stream, e: nat, s: Slot, x: Msg): nat {
    if log == [] then 0
    else Count(log[..|log| - 1], stream, e, s, x) + One(Matches(log[|log| - 1], stream, e, s, x))
  }

  datatype Tally = Tally(received: nat, processed: nat, confirmed: nat, finalized: nat) {
    function Add(stream: Stream, n: nat): Tally {
      match stream
      case Received => this.(received := received + n)
      case OnProcessed => this.(processed := processed + n)
      case OnConfirmed => this.(confirmed := confirmed + n)
      case OnFinalized => this.(finalized := finalized + n)
    }
  }

  function TallyOf(log: seq<Record>, e: nat, s: Slot, x: Msg): Tally {
    Tally(Count(log, Received, e, s, x), Count(log, OnProcessed, e, s, x),
          Count(log, OnConfirmed, e, s, x), Count(log, OnFinalized, e, s, x))
  }

  lemma CountPush(log: seq<Record>, r: Record, stream: Stream, e: nat, s: Slot, x: Msg)
    ensures Count(log + [r], stream, e, s, x) == Count(log, stream, e, s, x) + One(Matches(r, stream, e, s, x))
  {
    assert (log + [r])[..|log|] == log;
  }

  lemma TallyPush(cfg: Config, st: State, stream: Stream, slot: Slot, m: Msg, e: nat, s: Slot, x: Msg)
    ensures TallyOf(PushStored(cfg, st, stream, slot, m).log, e, s, x) ==
            TallyOf(st.log, e, s, x).Add(stream, One(st.epoch == e && slot == s && m == x))
  {
    hide Count;
    var r := Record(stream, st.epoch, slot, if Journaled(cfg, stream) then Some(st.index) else None, m);
    CountPush(st.log, r, Received, e, s, x);
    CountPush(st.log, r, OnProcessed, e, s, x);
    CountPush(st.log, r, OnConfirmed, e, s, x);
    CountPush(st.log, r, OnFinalized, e, s, x);
  }

  /** Pushing several messages adds each as often as it is among them, and touches only the log. */
  lemma {:induction false} TallyEach(cfg: Config, st: State, stream: Stream, slot: Slot, ms: seq<Msg>, e: nat,
                                     s: Slot, x: Msg)
    ensures var st' := PushEach(cfg, st, stream, slot, ms);
      && TallyOf(st'.log, e, s, x) ==
         TallyOf(st.log, e, s, x).Add(stream, if st.epoch == e && slot == s then multiset(ms)[x] else 0)
      && st' == st.(log := st'.log, index := st'.index)
  {
    if ms != [] {
      var n := |ms| - 1;
      TallyEach(cfg, st, stream, slot, ms[..n], e, s, x);
      TallyPush(cfg, PushEach(cfg, st, stream, slot, ms[..n]), stream, slot, ms[n], e, s, x);
      assert ms == ms[..n] + [ms[n]];
    }
  }

  lemma TallyIf(cfg: Config, st: State, condition: bool, stream: Stream, slot: Slot, ms: seq<Msg>, e: nat, s: Slot,
                x: Msg)
    ensures var st' := PushIf(cfg, st, condition, stream, slot, ms);
      && TallyOf(st'.log, e, s, x) ==
         TallyOf(st.log, e, s, x).Add(stream, if condition && st.epoch == e && slot == s then multiset(ms)[x] else 0)
      && st' == st.(log := st'.log, index := st'.index)
  {
    TallyEach(cfg, st, stream, slot, ms, e, s, x);
  }

  // ----- one message -----

  predicate Here(st: State, slot: Slot, e: nat, s: Slot) {
    st.epoch == e && slot == s
  }

  /** A message that is no status: what each stream gains, and that nothing else changes. */
  lemma HandleOther(cfg: Config, st: State, slot: Slot, m: Msg, e: nat, s: Slot, x: Msg)
    requires !m.SlotStatus?
    ensures var st', unknown := Handle(cfg, st, slot, m, None), !Known(st, slot, m);
      && st' == st.(log := st'.log, index := st'.index, replay := st'.replay)
      && TallyOf(st'.log, e, s, x) ==
         (if Here(st, slot, e, s) && m == x then
            TallyOf(st.log, e, s, x).Add(Received, 1).Add(OnConfirmed, One(unknown && Follows(cfg, st, slot, m)))
                                    .Add(OnProcessed, One(unknown))
          else TallyOf(st.log, e, s, x))
  {
    hide TallyOf, IdentOf, PushEach;
    var st0 := PushStored(cfg, st, Received, slot, m);
    TallyPush(cfg, st, Received, slot, m, e, s, x);
    if !Known(st, slot, m) {
      var st1 := Noted(st0, slot, m);
      var condition := Follows(cfg, st1, slot, m);
      TallyIf(cfg, st1, condition, OnConfirmed, slot, [m], e, s, x);
      TallyPush(cfg, PushIf(cfg, st1, condition, OnConfirmed, slot, [m]), OnProcessed, slot, m, e, s, x);
    }
  }

  function BankOf(st: State, slot: Slot, selected: Option<Option<BankId>>): seq<Msg> {
    if selected.Some? && slot in st.slots then Stored(st.slots[slot], selected.value) else []
  }

  /** A status: the messages that follow it, and the slot that is given up when it is finalized. */
  lemma HandleStatus(cfg: Config, st: State, slot: Slot, m: Msg, selected: Option<Option<BankId>>, e: nat, s: Slot,
                     x: Msg)
    requires m.SlotStatus? && !x.SlotStatus?
    ensures var st', unknown := Handle(cfg, st, slot, m, selected), !Known(st, slot, m);
      && st' == st.(log := st'.log, index := st'.index, replay := st'.replay,
                    slots := if unknown && m.status == Finalized && cfg.finalized && selected.Some?
                             then st.slots - {slot} else st.slots,
                    slotFinalized := if unknown && m.status == Finalized then slot else st.slotFinalized)
      && TallyOf(st'.log, e, s, x) ==
         (if Here(st, slot, e, s) && unknown then
            TallyOf(st.log, e, s, x)
              .Add(OnConfirmed, if m.status == Confirmed && cfg.confirmed
                    then multiset(BankOf(st, slot, selected))[x] else 0)
              .Add(OnFinalized, if m.status == Finalized && cfg.finalized
                    then multiset(BankOf(st, slot, selected))[x] else 0)
          else TallyOf(st.log, e, s, x))
  {
    hide TallyOf, IdentOf, PushEach, PushIf, PushStored, Stored;
    var st0 := PushStored(cfg, st, Received, slot, m);
    TallyPush(cfg, st, Received, slot, m, e, s, x);
    PushFrame(cfg, st, Received, slot, m);
    if !Known(st, slot, m) {
      var st1 := Noted(st0, slot, m);
      StatusTally(cfg, st1, slot, m, selected, e, s, x);
    }
  }

  lemma PushFrame(cfg: Config, st: State, stream: Stream, slot: Slot, m: Msg)
    ensures var st' := PushStored(cfg, st, stream, slot, m); st' == st.(log := st'.log, index := st'.index)
  {
  }

  lemma StatusTally(cfg: Config, st: State, slot: Slot, m: Msg, selected: Option<Option<BankId>>, e: nat, s: Slot,
                    x: Msg)
    requires m.SlotStatus? && !x.SlotStatus?
    ensures var st' := PublishStatus(cfg, st, slot, m, selected);
      && st' == st.(log := st'.log, index := st'.index,
                    slots := if m.status == Finalized && cfg.finalized && selected.Some?
                          then st.slots - {slot} else st.slots,
                    slotFinalized := if m.status == Finalized then slot else st.slotFinalized)
      && TallyOf(st'.log, e, s, x) ==
         (if Here(st, slot, e, s) then
            TallyOf(st.log, e, s, x)
              .Add(OnConfirmed, if m.status == Confirmed && cfg.confirmed
                    then multiset(BankOf(st, slot, selected))[x] else 0)
              .Add(OnFinalized, if m.status == Finalized && cfg.finalized
                    then multiset(BankOf(st, slot, selected))[x] else 0)
          else TallyOf(st.log, e, s, x))
  {
    hide TallyOf, PushIf, PushStored, Stored;
    var bank := BankOf(st, slot, selected);
    var st4 := FourPushes(cfg, st, slot, m, bank, e, s, x);
    var st5 := st4.(
      slots := if m.status == Finalized && cfg.finalized && selected.Some? then st4.slots - {slot} else st4.slots,
      slotFinalized := if m.status == Finalized then slot else st4.slotFinalized);
    PushFrame(cfg, st5, OnProcessed, slot, m);
    TallyPush(cfg, st5, OnProcessed, slot, m, e, s, x);
  }

  /** The status itself, then the bank, on confirmed and on finalized. */
  lemma FourPushes(cfg: Config, st: State, slot: Slot, m: Msg, bank: seq<Msg>, e: nat, s: Slot, x: Msg)
    returns (st': State)
    requires m.SlotStatus? && !x.SlotStatus?
    ensures var st1 := PushIf(cfg, st, cfg.confirmed, OnConfirmed, slot, [m]);
      var st2 := PushIf(cfg, st1, cfg.finalized, OnFinalized, slot, [m]);
      var st3 := PushIf(cfg, st2, m.status == Confirmed && cfg.confirmed, OnConfirmed, slot, bank);
      st' == PushIf(cfg, st3, m.status == Finalized && cfg.finalized, OnFinalized, slot, bank)
    ensures st' == st.(log := st'.log, index := st'.index)
    ensures var confirms, finalizes := m.status == Confirmed && cfg.confirmed, m.status == Finalized && cfg.finalized;
      TallyOf(st'.log, e, s, x) == TallyOf(st.log, e, s, x)
        .Add(OnConfirmed, if confirms && Here(st, slot, e, s) then multiset(bank)[x] else 0)
        .Add(OnFinalized, if finalizes && Here(st, slot, e, s) then multiset(bank)[x] else 0)
  {
    hide TallyOf, PushIf;
    var st2 := PushIf(cfg, PushIf(cfg, st, cfg.confirmed, OnConfirmed, slot, [m]),
                      cfg.finalized, OnFinalized, slot, [m]);
    TwoPushes(cfg, st, cfg.confirmed, cfg.finalized, slot, [m], e, s, x);
    assert [m][0] != x && multiset([m])[x] == 0;
    var confirms, finalizes := m.status == Confirmed && cfg.confirmed, m.status == Finalized && cfg.finalized;
    TwoPushes(cfg, st2, confirms, finalizes, slot, bank, e, s, x);
    st' := PushIf(cfg, PushIf(cfg, st2, confirms, OnConfirmed, slot, bank), finalizes, OnFinalized, slot, bank);
  }

  lemma TwoPushes(cfg: Config, st: State, confirms: bool, finalizes: bool, slot: Slot, ms: seq<Msg>, e: nat, s: Slot,
                  x: Msg)
    ensures var st' := PushIf(cfg, PushIf(cfg, st, confirms, OnConfirmed, slot, ms), finalizes, OnFinalized, slot, ms);
      && st' == st.(log := st'.log, index := st'.index)
      && TallyOf(st'.log, e, s, x) == TallyOf(st.log, e, s, x)
           .Add(OnConfirmed, if confirms && Here(st, slot, e, s) then multiset(ms)[x] else 0)
           .Add(OnFinalized, if finalizes && Here(st, slot, e, s) then multiset(ms)[x] else 0)
  {
    hide TallyOf, PushIf;
    TallyIf(cfg, st, confirms, OnConfirmed, slot, ms, e, s, x);
    TallyIf(cfg, PushIf(cfg, st, confirms, OnConfirmed, slot, ms), finalizes, OnFinalized, slot, ms, e, s, x);
  }

  // ----- the books of one slot -----

  function InfoOf(st: State, s: Slot): SlotInfo {
    if s in st.slots then st.slots[s] else NewSlot(0)
  }

  /** The books of a slot that is still open, for one message: nothing is stored or confirmed more often
      than it arrived, only the confirmed bank is on confirmed, and all it stores is already there. */
  predicate Ledger(cfg: Config, info: SlotInfo, t: Tally, x: Msg, recovered: bool) {
    && HeldIn(info, x.bank, x) <= t.received
    && t.finalized == 0 && t.confirmed <= t.received && t.processed <= t.received
    && (t.confirmed > 0 ==> info.confirmedBank == Some(x.bank) && !x.EntryUpdateParent?)
    && (!recovered ==> t.processed == t.received)
    && (!recovered && cfg.confirmed && info.confirmedBank == Some(x.bank) ==> HeldIn(info, x.bank, x) <= t.confirmed)
  }

  ghost predicate LedgerAt(cfg: Config, st: State, s: Slot, x: Msg) {
    !x.SlotStatus? ==> Ledger(cfg, InfoOf(st, s), TallyOf(st.log, st.epoch, s, x), x, s in st.recovered)
  }

  /** Identities read back from the journal make a slot a recovered one. */
  ghost predicate RecoveredOk(st: State, s: Slot) {
    s in st.replay && st.replay[s].messages.Some? ==> s in st.recovered
  }

  ghost predicate SlotOk(cfg: Config, st: State, s: Slot) {
    && (forall x :: LedgerAt(cfg, st, s, x))
    && (forall b :: BankBelongs(InfoOf(st, s), s, b))
    && RecoveredOk(st, s)
  }

  /** The same slots with the same heads, and identities for the same slots. */
  ghost predicate SameReplay(a: map<Slot, ReplayInfo>, b: map<Slot, ReplayInfo>) {
    a.Keys == b.Keys && forall s :: s in a ==> a[s].head == b[s].head && a[s].messages.Some? == b[s].messages.Some?
  }

  lemma HandleReplay(cfg: Config, st: State, slot: Slot, m: Msg, selected: Option<Option<BankId>>)
    ensures SameReplay(st.replay, Handle(cfg, st, slot, m, selected).replay)
  {
    hide IdentOf, PushIf, PublishStatus, TallyOf, Known;
    var st1 := Noted(PushStored(cfg, st, Received, slot, m), slot, m);
    if m.SlotStatus? {
      StatusTally(cfg, st1, slot, m, selected, 0, 0, Entry(0, None, 0, 0));
    } else {
      TallyIf(cfg, st1, Follows(cfg, st1, slot, m), OnConfirmed, slot, [m], 0, 0, m);
    }
  }

  /** The arithmetic of one message and its block. */
  lemma LedgerGrows(cfg: Config, info: SlotInfo, info': SlotInfo, t: Tally, t': Tally, m: Msg, block: Option<Msg>,
                    x: Msg,
                    recovered: bool, newM: bool, newBlock: bool)
    requires Ledger(cfg, info, t, x, recovered) && info'.confirmedBank == info.confirmedBank
    requires block.Some? ==> block.value.bank == m.bank && block.value.Block? && !m.Block? && !m.EntryUpdateParent?
    requires HeldIn(info', x.bank, x) <= HeldIn(info, x.bank, x)
                                        + if x.bank == m.bank then One(m == x) + One(block == Some(x)) else 0
    requires m.EntryUpdateParent? && m == x ==> HeldIn(info', x.bank, x) == 0
    requires !recovered ==> newM && newBlock
    requires t'.received == t.received + One(m == x) + One(block == Some(x))
    requires t'.processed == t.processed + One(newM && m == x) + One(newBlock && block == Some(x))
    requires t'.finalized == t.finalized
    requires var follows := info.confirmedBank == Some(m.bank) && cfg.confirmed && !m.EntryUpdateParent?;
      t'.confirmed == t.confirmed + One(newM && follows && m == x) + One(newBlock && follows && block == Some(x))
    ensures Ledger(cfg, info', t', x, recovered)
  {
    hide HeldIn;
  }

  /** What the streams gain by a message and its block. */
  lemma PublishOtherTally(cfg: Config, st: State, s: Slot, m: Msg, x: Msg) returns (newM: bool, newBlock: bool)
    requires RecoveredOk(st, s) && m.slot == s && !m.SlotStatus? && Publishable(m)
    requires BankBelongs(InfoOf(st, s), s, m.bank)
    ensures s !in st.recovered ==> newM && newBlock
    ensures var (info, block) := AbsorbMessage(Tracked(st, s), m);
      var t, t' := TallyOf(st.log, st.epoch, s, x), TallyOf(PublishOne(cfg, st, s, m).log, st.epoch, s, x);
      var follows := info.confirmedBank == Some(m.bank) && cfg.confirmed && !m.EntryUpdateParent?;
      && t'.received == t.received + One(m == x) + One(block == Some(x))
      && t'.processed == t.processed + One(newM && m == x) + One(newBlock && block == Some(x))
      && t'.finalized == t.finalized
      && t'.confirmed == t.confirmed + One(newM && follows && m == x) + One(newBlock && follows && block == Some(x))
  {
    hide Handle, TallyOf, HeldIn, Known, AbsorbMessage;
    var (info, block) := AbsorbMessage(Tracked(st, s), m);
    var st1 := st.(slots := st.slots[s := info]);
    var st2 := Handle(cfg, st1, s, m, None);
    HandleOther(cfg, st1, s, m, st.epoch, s, x);
    HandleReplay(cfg, st1, s, m, None);
    KnownIsRecovered(st1, s, m);
    newM, newBlock := !Known(st1, s, m), true;
    if block.Some? {
      AbsorbFacts(st, s, m, m);
      HandleOther(cfg, st2, s, block.value, st.epoch, s, x);
      KnownIsRecovered(st2, s, block.value);
      newBlock := !Known(st2, s, block.value);
    }
  }

  lemma PublishOtherKeeps(cfg: Config, st: State, s: Slot, m: Msg, x: Msg)
    requires SlotOk(cfg, st, s) && m.slot == s && !m.SlotStatus? && Publishable(m)
    ensures LedgerAt(cfg, PublishOne(cfg, st, s, m), s, x)
  {
    hide PublishOne, TallyOf, HeldIn, AbsorbMessage, Ledger, BankBelongs, RecoveredOk;
    assert LedgerAt(cfg, st, s, x);
    if !x.SlotStatus? {
      var (info, block) := AbsorbMessage(Tracked(st, s), m);
      assert BankBelongs(InfoOf(st, s), s, m.bank) && BankBelongs(InfoOf(st, s), s, x.bank);
      AbsorbFacts(st, s, m, x);
      PublishOneFrame(cfg, st, s, m);
      var newM, newBlock := PublishOtherTally(cfg, st, s, m, x);
      LedgerGrows(cfg, InfoOf(st, s), info, TallyOf(st.log, st.epoch, s, x),
                  TallyOf(PublishOne(cfg, st, s, m).log, st.epoch, s, x), m, block, x, s in st.recovered, newM,
                          newBlock);
    }
  }

  lemma KnownIsRecovered(st: State, s: Slot, m: Msg)
    requires RecoveredOk(st, s)
    ensures Known(st, s, m) ==> s in st.recovered
  {
  }

  lemma AbsorbFacts(st: State, s: Slot, m: Msg, x: Msg)
    requires m.slot == s && !m.SlotStatus? && Publishable(m)
    requires BankBelongs(InfoOf(st, s), s, m.bank) && BankBelongs(InfoOf(st, s), s, x.bank)
    ensures var (info, block) := AbsorbMessage(Tracked(st, s), m);
      && info.confirmedBank == InfoOf(st, s).confirmedBank
      && HeldIn(info, x.bank, x) <= HeldIn(InfoOf(st, s), x.bank, x)
                                    + (if x.bank == m.bank then One(m == x) + One(block == Some(x)) else 0)
      && (m.EntryUpdateParent? && m == x ==> HeldIn(info, x.bank, x) == 0)
      && (block.Some? ==> block.value.bank == m.bank && block.value.Block? && !m.EntryUpdateParent?)
      && BankBelongs(info, s, x.bank)
  {
    AbsorbMessageHolds(Tracked(st, s), m, x.bank, x);
    AbsorbMessageBelongs(Tracked(st, s), m, s, x.bank);
    if m.EntryUpdateParent? && m == x && HeldIn(AbsorbMessage(Tracked(st, s), m).0, x.bank, x) > 0 {
      HeldInBelongs(AbsorbMessage(Tracked(st, s), m).0, s, x.bank, x);
    }
  }

  // ----- frames -----

  /** A status that finalizes its slot. */
  predicate Finalizes(st: State, slot: Slot, m: Msg) {
    m.SlotStatus? && m.status == Finalized && !Known(st, slot, m)
  }

  /** A message changes the books of its own slot only. */
  lemma PublishOneFrame(cfg: Config, st: State, slot: Slot, m: Msg)
    requires Publishable(m)
    ensures var st' := PublishOne(cfg, st, slot, m);
      && st' == st.(log := st'.log, index := st'.index, replay := st'.replay, slots := st'.slots,
                    slotFinalized := if Finalizes(st, slot, m) then slot else st.slotFinalized)
      && (!m.SlotStatus? ==> st'.slots == st.slots[slot := AbsorbMessage(Tracked(st, slot), m).0])
      && (m.SlotStatus? ==>
            var kept := st.slots[slot := Commit(Tracked(st, slot), m.status, m.bank).0];
            st'.slots == if Finalizes(st, slot, m) && cfg.finalized then kept - {slot} else kept)
  {
    hide Handle, TallyOf, AbsorbMessage, Tracked;
    var x := Entry(0, None, 0, 0);
    if m.SlotStatus? {
      var (info, selected) := Commit(Tracked(st, slot), m.status, m.bank);
      HandleStatus(cfg, st.(slots := st.slots[slot := info]), slot, m, selected, 0, 0, x);
    } else {
      var (info, block) := AbsorbMessage(Tracked(st, slot), m);
      var st1 := st.(slots := st.slots[slot := info]);
      HandleOther(cfg, st1, slot, m, 0, 0, x);
      if block.Some? {
        AbsorbYieldsBlock(Tracked(st, slot), m);
        HandleOther(cfg, Handle(cfg, st1, slot, m, None), slot, block.value, 0, 0, x);
      }
    }
  }

  lemma AbsorbYieldsBlock(info: SlotInfo, m: Msg)
    requires Storable(m) || m.EntryUpdateParent?
    ensures AbsorbMessage(info, m).1.Some? ==> AbsorbMessage(info, m).1.value.Block?
  {
  }

  lemma PublishOneElsewhere(cfg: Config, st: State, slot: Slot, m: Msg, e: nat, s: Slot, x: Msg)
    requires Publishable(m) && !Here(st, slot, e, s) && !x.SlotStatus?
    ensures TallyOf(PublishOne(cfg, st, slot, m).log, e, s, x) == TallyOf(st.log, e, s, x)
  {
    hide Handle, TallyOf, AbsorbMessage, Tracked;
    if m.SlotStatus? {
      var (info, selected) := Commit(Tracked(st, slot), m.status, m.bank);
      HandleStatus(cfg, st.(slots := st.slots[slot := info]), slot, m, selected, e, s, x);
    } else {
      var (info, block) := AbsorbMessage(Tracked(st, slot), m);
      var st1 := st.(slots := st.slots[slot := info]);
      HandleOther(cfg, st1, slot, m, e, s, x);
      if block.Some? {
        AbsorbYieldsBlock(Tracked(st, slot), m);
        HandleOther(cfg, Handle(cfg, st1, slot, m, None), slot, block.value, e, s, x);
      }
    }
  }

  lemma PublishOneReplay(cfg: Config, st: State, slot: Slot, m: Msg)
    requires Publishable(m)
    ensures SameReplay(st.replay, PublishOne(cfg, st, slot, m).replay)
  {
    hide Handle, AbsorbMessage, Tracked;
    if m.SlotStatus? {
      var (info, selected) := Commit(Tracked(st, slot), m.status, m.bank);
      HandleReplay(cfg, st.(slots := st.slots[slot := info]), slot, m, selected);
    } else {
      var (info, block) := AbsorbMessage(Tracked(st, slot), m);
      var st1 := st.(slots := st.slots[slot := info]);
      HandleReplay(cfg, st1, slot, m, None);
      if block.Some? {
        HandleReplay(cfg, Handle(cfg, st1, slot, m, None), slot, block.value, None);
      }
    }
  }

  // ----- statuses -----

  /** The status of a slot: what follows it on each stream is what the selected bank stores. */
  lemma PublishStatusTally(cfg: Config, st: State, s: Slot, m: Msg, x: Msg)
    requires m.SlotStatus? && !x.SlotStatus?
    ensures var (info, selected) := Commit(Tracked(st, s), m.status, m.bank);
      TallyOf(PublishOne(cfg, st, s, m).log, st.epoch, s, x) ==
      if Known(st, s, m) || selected.None? then TallyOf(st.log, st.epoch, s, x)
      else TallyOf(st.log, st.epoch, s, x)
             .Add(OnConfirmed, if m.status == Confirmed && cfg.confirmed
                   then HeldIn(InfoOf(st, s), selected.value, x) else 0)
             .Add(OnFinalized, if m.status == Finalized && cfg.finalized
                   then HeldIn(InfoOf(st, s), selected.value, x) else 0)
  {
    hide Handle, TallyOf, HeldIn, Stored;
    var (info, selected) := Commit(Tracked(st, s), m.status, m.bank);
    var st1 := st.(slots := st.slots[s := info]);
    HandleStatus(cfg, st1, s, m, selected, st.epoch, s, x);
    if selected.Some? {
      StoredCounts(info, selected.value, x);
      CommitHolds(Tracked(st, s), m.status, m.bank, selected.value, x);
      SameHeld(st, s, selected.value, x);
    }
  }

  lemma SameHeld(st: State, s: Slot, bank: Option<BankId>, x: Msg)
    ensures HeldIn(Tracked(st, s), bank, x) == HeldIn(InfoOf(st, s), bank, x)
  {
  }

  /** The arithmetic of a status. */
  lemma LedgerCommits(cfg: Config, info: SlotInfo, info': SlotInfo, t: Tally, t': Tally, x: Msg, recovered: bool,
                      status: Status, selected: Option<Option<BankId>>, known: bool)
    requires Ledger(cfg, info, t, x, recovered) && HeldIn(info', x.bank, x) == HeldIn(info, x.bank, x)
    requires known ==> recovered
    requires if status == Confirmed && selected.Some? then info.confirmedBank.None? && info'.confirmedBank == selected
             else info'.confirmedBank == info.confirmedBank
    requires selected.Some? && HeldIn(info, selected.value, x) > 0 ==> x.bank == selected.value && !x.EntryUpdateParent?
    requires t' == if !known && selected.Some? && status == Confirmed && cfg.confirmed
                   then t.Add(OnConfirmed, HeldIn(info, selected.value, x)) else t
    ensures Ledger(cfg, info', t', x, recovered)
  {
    hide HeldIn;
  }

  /** A status keeps the books of its slot, unless it finalizes the slot. */
  lemma PublishStatusKeeps(cfg: Config, st: State, s: Slot, m: Msg, x: Msg)
    requires SlotOk(cfg, st, s) && m.SlotStatus?
    requires !(Finalizes(st, s, m) && cfg.finalized)
    ensures LedgerAt(cfg, PublishOne(cfg, st, s, m), s, x)
  {
    hide Known, TallyOf, HeldIn, PublishOne, SelectBank, Commit, Ledger, BankBelongs, RecoveredOk;
    assert LedgerAt(cfg, st, s, x);
    PublishOneFrame(cfg, st, s, m);
    if !x.SlotStatus? {
      var (info, selected) := Commit(Tracked(st, s), m.status, m.bank);
      PublishStatusTally(cfg, st, s, m, x);
      CommitFixesBank(Tracked(st, s), m.status, m.bank);
      CommitHolds(Tracked(st, s), m.status, m.bank, x.bank, x);
      SameHeld(st, s, x.bank, x);
      KnownIsRecovered(st, s, m);
      if selected.Some? && HeldIn(InfoOf(st, s), selected.value, x) > 0 {
        assert BankBelongs(InfoOf(st, s), s, selected.value);
        HeldInBelongs(InfoOf(st, s), s, selected.value, x);
      }
      LedgerCommits(cfg, InfoOf(st, s), info, TallyOf(st.log, st.epoch, s, x),
                    TallyOf(PublishOne(cfg, st, s, m).log, st.epoch, s, x), x, s in st.recovered, m.status, selected,
                            Known(st, s, m));
    }
  }

  // ----- a finalized slot -----

  /** Everything of the slot on finalized is on confirmed too. */
  ghost predicate WithinConfirmed(log: seq<Record>, e: nat, s: Slot) {
    forall x :: CoveredAt(log, e, s, x)
  }

  ghost predicate CoveredAt(log: seq<Record>, e: nat, s: Slot, x: Msg) {
    !x.SlotStatus? ==> TallyOf(log, e, s, x).finalized <= TallyOf(log, e, s, x).confirmed
  }

  lemma {:induction false} KeptIsHeld(messages: seq<Option<Msg>>)
    requires Kept(messages) != []
    ensures exists x :: Held(messages, x) > 0
  {
    var n := |messages| - 1;
    if messages[n].Some? {
      assert Held(messages, messages[n].value) > 0;
    } else {
      KeptIsHeld(messages[..n]);
      var x :| Held(messages[..n], x) > 0;
      assert Held(messages, x) > 0;
    }
  }

  /** When a slot is finalized, its finalized messages are within the confirmed ones exactly if the bank
      selected for finalized is the confirmed one or has nothing stored. */
  lemma FinalizedWithinConfirmed(cfg: Config, st: State, s: Slot, m: Msg)
    requires SlotOk(cfg, st, s) && Finalizes(st, s, m) && s !in st.recovered
    requires cfg.confirmed && cfg.finalized
    ensures var bank := SelectBank(InfoOf(st, s), m.bank);
      WithinConfirmed(PublishOne(cfg, st, s, m).log, st.epoch, s) <==>
      InfoOf(st, s).confirmedBank == Some(bank) || Stored(InfoOf(st, s), bank) == []
  {
    hide TallyOf, HeldIn, PublishOne, Known, SelectBank;
    var info, bank, log := InfoOf(st, s), SelectBank(InfoOf(st, s), m.bank), PublishOne(cfg, st, s, m).log;
    forall x: Msg | !x.SlotStatus?
      ensures CoveredAt(log, st.epoch, s, x) <==>
              HeldIn(info, bank, x) <= TallyOf(st.log, st.epoch, s, x).confirmed
    {
      FinalizedTally(cfg, st, s, m, x);
      assert LedgerAt(cfg, st, s, x);
    }
    if info.confirmedBank == Some(bank) || Stored(info, bank) == [] {
      forall x: Msg
        ensures CoveredAt(log, st.epoch, s, x)
      {
        if !x.SlotStatus? {
          FinalizedIsCovered(cfg, st, s, bank, x);
        }
      }
    } else {
      var x := StoredElsewhere(cfg, st, s, bank);
      assert !CoveredAt(log, st.epoch, s, x);
    }
  }

  lemma FinalizedTally(cfg: Config, st: State, s: Slot, m: Msg, x: Msg)
    requires Finalizes(st, s, m) && cfg.finalized && !x.SlotStatus?
    ensures var t := TallyOf(st.log, st.epoch, s, x);
      TallyOf(PublishOne(cfg, st, s, m).log, st.epoch, s, x) ==
      t.(finalized := t.finalized + HeldIn(InfoOf(st, s), SelectBank(InfoOf(st, s), m.bank), x))
  {
    hide TallyOf, HeldIn, PublishOne, Known;
    PublishStatusTally(cfg, st, s, m, x);
  }

  lemma FinalizedIsCovered(cfg: Config, st: State, s: Slot, bank: Option<BankId>, x: Msg)
    requires SlotOk(cfg, st, s) && s !in st.recovered && cfg.confirmed && !x.SlotStatus?
    requires InfoOf(st, s).confirmedBank == Some(bank) || Stored(InfoOf(st, s), bank) == []
    ensures HeldIn(InfoOf(st, s), bank, x) <= TallyOf(st.log, st.epoch, s, x).confirmed
  {
    hide TallyOf;
    assert LedgerAt(cfg, st, s, x) && BankBelongs(InfoOf(st, s), s, bank);
    StoredCounts(InfoOf(st, s), bank, x);
    if HeldIn(InfoOf(st, s), bank, x) > 0 {
      HeldInBelongs(InfoOf(st, s), s, bank, x);
    }
  }

  lemma StoredElsewhere(cfg: Config, st: State, s: Slot, bank: Option<BankId>) returns (x: Msg)
    requires SlotOk(cfg, st, s) && InfoOf(st, s).confirmedBank != Some(bank) && Stored(InfoOf(st, s), bank) != []
    ensures !x.SlotStatus? && HeldIn(InfoOf(st, s), bank, x) > TallyOf(st.log, st.epoch, s, x).confirmed
  {
    hide TallyOf;
    KeptIsHeld(InfoOf(st, s).banks[bank].messages);
    x :| Held(InfoOf(st, s).banks[bank].messages, x) > 0;
    assert BankBelongs(InfoOf(st, s), s, bank);
    HeldInBelongs(InfoOf(st, s), s, bank, x);
    assert LedgerAt(cfg, st, s, x);
  }

  /** A confirmed bank with a real id is the finalized one unless the status names another. */
  lemma FinalizedFollowsConfirmed(cfg: Config, st: State, s: Slot, m: Msg, b: BankId)
    requires SlotOk(cfg, st, s) && Finalizes(st, s, m) && s !in st.recovered
    requires cfg.confirmed && cfg.finalized
    requires InfoOf(st, s).confirmedBank == Some(Some(b)) && (m.bank.None? || m.bank == Some(b))
    ensures WithinConfirmed(PublishOne(cfg, st, s, m).log, st.epoch, s)
  {
    FinalizedWithinConfirmed(cfg, st, s, m);
  }

  /** Messages without a bank are no real candidate: a slot confirmed without a bank is finalized with
      the latest bank there is, none of whose messages is on confirmed. */
  lemma FinalizedDiverges(cfg: Config, st: State, s: Slot, b: BankId)
    requires SlotOk(cfg, st, s) && s !in st.recovered && cfg.confirmed && cfg.finalized
    requires InfoOf(st, s).confirmedBank == Some(None) && LatestBank(InfoOf(st, s).banks) == Some(b)
    requires Stored(InfoOf(st, s), Some(b)) != [] && !Known(st, s, SlotStatus(s, None, Finalized))
    ensures !WithinConfirmed(PublishOne(cfg, st, s, SlotStatus(s, None, Finalized)).log, st.epoch, s)
  {
    FinalizedWithinConfirmed(cfg, st, s, SlotStatus(s, None, Finalized));
  }

  // ----- soundness of whole streams -----

  /** No stream has a message more often than it arrived. */
  ghost predicate Sound(log: seq<Record>, e: nat, s: Slot, x: Msg) {
    var t := TallyOf(log, e, s, x);
    !x.SlotStatus? ==> t.processed <= t.received && t.confirmed <= t.received && t.finalized <= t.received
  }

  /** Two messages of one slot on confirmed, or on finalized, are of one bank. */
  ghost predicate OneBank(log: seq<Record>, e: nat, s: Slot, x: Msg, y: Msg) {
    var t, u := TallyOf(log, e, s, x), TallyOf(log, e, s, y);
    !x.SlotStatus? && !y.SlotStatus? ==>
      && (t.confirmed > 0 && u.confirmed > 0 ==> x.bank == y.bank)
      && (t.finalized > 0 && u.finalized > 0 ==> x.bank == y.bank)
  }

  ghost predicate AllSound(log: seq<Record>, e: nat, s: Slot) {
    (forall x :: Sound(log, e, s, x)) && forall x, y :: OneBank(log, e, s, x, y)
  }

  lemma OpenIsSound(cfg: Config, st: State, s: Slot)
    requires SlotOk(cfg, st, s)
    ensures AllSound(st.log, st.epoch, s)
  {
    hide TallyOf, HeldIn;
    forall x: Msg
      ensures Sound(st.log, st.epoch, s, x)
    {
      assert LedgerAt(cfg, st, s, x);
    }
    forall x: Msg, y: Msg
      ensures OneBank(st.log, st.epoch, s, x, y)
    {
      assert LedgerAt(cfg, st, s, x) && LedgerAt(cfg, st, s, y);
    }
  }

  lemma FinalizedIsSound(cfg: Config, st: State, s: Slot, m: Msg)
    requires SlotOk(cfg, st, s) && Finalizes(st, s, m) && cfg.finalized
    ensures AllSound(PublishOne(cfg, st, s, m).log, st.epoch, s)
  {
    hide TallyOf, PublishOne, Known, SelectBank;
    var log, bank := PublishOne(cfg, st, s, m).log, SelectBank(InfoOf(st, s), m.bank);
    forall x: Msg
      ensures Sound(log, st.epoch, s, x)
      ensures !x.SlotStatus? && TallyOf(log, st.epoch, s, x).finalized > 0 ==> x.bank == bank
      ensures !x.SlotStatus? && TallyOf(log, st.epoch, s, x).confirmed > 0 ==>
            InfoOf(st, s).confirmedBank == Some(x.bank)
    {
      assert LedgerAt(cfg, st, s, x) && BankBelongs(InfoOf(st, s), s, bank);
      if !x.SlotStatus? {
        FinalizedTally(cfg, st, s, m, x);
        if HeldIn(InfoOf(st, s), bank, x) > 0 {
          HeldInBelongs(InfoOf(st, s), s, bank, x);
        }
      }
    }
    forall x: Msg, y: Msg
      ensures OneBank(log, st.epoch, s, x, y)
    {
      assert Sound(log, st.epoch, s, x) && Sound(log, st.epoch, s, y);
    }
  }
}
