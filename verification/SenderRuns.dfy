/** Theorems about whole runs of the sender: any deliveries from any sources and any recovery epochs. */
module SenderRuns {
  import opened Basics
  import opened Messages
  import opened SlotTracking
  import opened SenderModel
  import opened SenderAdmission
  import opened SenderRetention
  import opened SenderStreams
  import opened SenderInvariant
  import opened SenderBounds
  import opened SenderLog
  import Dedup
  import opened SenderCleared

  ghost predicate StepAt(cfg: Config, states: seq<State>, events: seq<Event>, i: nat)
    requires i < |events| < |states|
  {
    Step(cfg, states[i], events[i], states[i + 1])
  }

  /** A run from the start of the sender through any deliveries and recovery epochs. */
  ghost predicate Run(cfg: Config, states: seq<State>, events: seq<Event>) {
    && |states| == |events| + 1 && Initial(states[0])
    && forall i :: 0 <= i < |events| ==> StepAt(cfg, states, events, i)
  }

  lemma {:induction false} RunKeepsInv(cfg: Config, states: seq<State>, events: seq<Event>, i: nat)
    requires Run(cfg, states, events) && i < |states|
    ensures Inv(cfg, states[i]) && Bounded(cfg, states[i])
  {
    hide Inv, Step, Initial;
    if i == 0 {
      InitialInv(cfg, states[0]);
      InitialBounded(cfg, states[0]);
    } else {
      RunKeepsInv(cfg, states, events, i - 1);
      assert StepAt(cfg, states, events, i - 1);
      StepKeepsInv(cfg, states[i - 1], events[i - 1], states[i]);
      StepBounds(cfg, states[i - 1], events[i - 1], states[i]);
    }
  }

  lemma InitialBounded(cfg: Config, st: State)
    requires Initial(st)
    ensures Bounded(cfg, st)
  {
  }

  /** Over any run and in every epoch: on confirmed, and on finalized, a slot has the messages of one
      bank only, and no stream has a message more often than it was received. */
  lemma StreamsAreSound(cfg: Config, states: seq<State>, events: seq<Event>, i: nat, e: nat, s: Slot, x: Msg, y: Msg)
    requires Run(cfg, states, events) && i < |states|
    ensures OneBank(states[i].log, e, s, x, y) && Sound(states[i].log, e, s, x)
  {
    hide OneBank, Sound, TallyOf, Run;
    RunKeepsInv(cfg, states, events, i);
    assert AllSound(states[i].log, e, s);
  }

  /** Over any run: the tracked slots are bounded, the bound never falls, and nothing at or below it is
      tracked or published again. */
  lemma {:induction false} SettledForever(cfg: Config, states: seq<State>, events: seq<Event>, i: nat, j: nat, k: nat)
    requires Run(cfg, states, events) && i <= j < |states|
    ensures |states[j].slots| <= cfg.maxUnfinalizedSlots && AllAbove(states[j].slots, Bound(states[i]))
    ensures states[i].slotFinalized <= states[j].slotFinalized && Bound(states[i]) <= Bound(states[j])
    ensures states[i].log <= states[j].log
    ensures |states[i].log| <= k < |states[j].log| ==> states[j].log[k].slot > Bound(states[i])
    decreases j
  {
    hide Step, Initial;
    RunKeepsInv(cfg, states, events, j);
    if i < j {
      SettledForever(cfg, states, events, i, j - 1, k);
      RunKeepsInv(cfg, states, events, j - 1);
      assert StepAt(cfg, states, events, j - 1);
      StepBounds(cfg, states[j - 1], events[j - 1], states[j]);
    }
  }

  /** Over any run: once a bank is cleared, nothing of it is published for the rest of the epoch. */
  lemma {:induction false} SilentForever(cfg: Config, states: seq<State>, events: seq<Event>, i: nat, j: nat, s: Slot,
                                         b: BankId)
    requires Run(cfg, states, events) && i <= j < |states| && Cleared(states[i], s, b)
    requires forall k :: i <= k < j ==> events[k].Deliver?
    ensures Cleared(states[j], s, b) && Quiet(states[i].log, states[j].log, s, b)
    decreases j
  {
    hide Step, Initial, Inv, Cleared, Quiet;
    if i == j {
      QuietSelf(states[i].log, s, b);
    } else {
      SilentForever(cfg, states, events, i, j - 1, s, b);
      RunKeepsInv(cfg, states, events, j - 1);
      assert StepAt(cfg, states, events, j - 1);
      ClearedIsSilent(cfg, states[j - 1], events[j - 1], states[j], s, b);
      QuietTwice(states[i].log, states[j - 1].log, states[j].log, s, b);
    }
  }

  /** Over any run with storage the journal keeps every record of the slots it retains, and from the first
      publication on it spans at most `maxSlots` slot numbers. */
  lemma {:induction false} RunKeepsJournal(cfg: Config, states: seq<State>, events: seq<Event>, i: nat)
    requires Run(cfg, states, events) && i < |states| && cfg.storage.Some?
    ensures JournalOk(cfg.storage.value.maxSlots, states[i])
    ensures states[i].log == [] || SpanOk(cfg.storage.value.maxSlots, states[i].replay)
  {
    hide Step, JournalOk, SpanOk;
    if i == 0 {
      InitialJournal(cfg.storage.value.maxSlots, states[0]);
    } else {
      RunKeepsJournal(cfg, states, events, i - 1);
      assert StepAt(cfg, states, events, i - 1);
      StepJournal(cfg, states[i - 1], events[i - 1], states[i]);
    }
  }

  /** Record k was journaled in this epoch, for a slot that is still retained. */
  predicate InJournal(st: State, k: nat) {
    k < |st.log| && st.log[k].epoch == st.epoch && st.log[k].index.Some? && st.log[k].slot in st.replay
  }

  /** Over any run, whatever the step from state i trims: the slot is older than what is retained, the bound is
      at or below every retained head, and so no journal record of the epoch that belongs to a retained slot
      is below it. */
  lemma RunTrimsAreSafe(cfg: Config, states: seq<State>, events: seq<Event>, i: nat, t: nat, k: nat)
    requires Run(cfg, states, events) && i < |events| && cfg.storage.Some?
    ensures states[i].trims <= states[i + 1].trims
    ensures |states[i].trims| <= t < |states[i + 1].trims| ==>
      var st, trim := states[i + 1], states[i + 1].trims[t];
      && TrimIsSafe(trim, FirstRetained(st.replay, cfg.storage.value.maxSlots), st.replay)
      && (trim.until.Some? && InJournal(st, k) ==> trim.until.value <= st.log[k].index.value)
  {
    hide Step, JournalOk, FirstRetained, SpanOk;
    var maxSlots, st := cfg.storage.value.maxSlots, states[i + 1];
    RunKeepsJournal(cfg, states, events, i);
    RunKeepsJournal(cfg, states, events, i + 1);
    assert StepAt(cfg, states, events, i);
    StepJournal(cfg, states[i], events[i], st);
    if |states[i].trims| <= t < |st.trims| {
      assert TrimIsSafe(st.trims[t], FirstRetained(st.replay, maxSlots), st.replay);
      if st.trims[t].until.Some? && InJournal(st, k) {
        SpanIsRetained(maxSlots, st.replay, st.log[k].slot);
        TrimLosesNothing(maxSlots, st, st.trims[t], k);
      }
    }
  }

  lemma InitialJournal(maxSlots: nat, st: State)
    requires Initial(st)
    ensures JournalOk(maxSlots, st)
  {
  }

  /** Only a panic stops the sender. */
  lemma StepExists(cfg: Config, st: State, e: Event)
    requires Inv(cfg, st)
    requires e.Deliver? ==> !e.message.Block? && Admit(st.dedup, e.dedupRequired, e.source, e.message).Some?
    ensures exists st' :: Step(cfg, st, e, st')
  {
    hide Publish, Admit, SlotOk, AllSound, Unborn, DedupOk, RecoveredOk;
    if e.BeginLiveEpoch? {
      assert Step(cfg, st, e, BeginEpoch(st));
    } else if Ignored(st, e.message) {
      assert Step(cfg, st, e, st);
    } else {
      AdmitIsBatch(st.dedup, e.dedupRequired, e.source, e.message);
      var (dedup, ms) := Admit(st.dedup, e.dedupRequired, e.source, e.message).value;
      assert Step(cfg, st, e, Publish(cfg, st.(dedup := dedup), e.message.slot, ms));
    }
  }

  // ----- finalized within confirmed -----

  lemma {:induction false} CountExtends(log: seq<Record>, log': seq<Record>, stream: Stream, e: nat, s: Slot, x: Msg)
    requires log <= log' && forall k :: |log| <= k < |log'| ==> log'[k].slot != s
    ensures Count(log', stream, e, s, x) == Count(log, stream, e, s, x)
    decreases |log'|
  {
    if |log'| > |log| {
      CountExtends(log, log'[..|log'| - 1], stream, e, s, x);
    } else {
      assert log' == log;
    }
  }

  lemma TallyExtends(log: seq<Record>, log': seq<Record>, e: nat, s: Slot, x: Msg)
    requires log <= log' && forall k :: |log| <= k < |log'| ==> log'[k].slot != s
    ensures TallyOf(log', e, s, x) == TallyOf(log, e, s, x)
  {
    hide Count;
    CountExtends(log, log', Received, e, s, x);
    CountExtends(log, log', OnProcessed, e, s, x);
    CountExtends(log, log', OnConfirmed, e, s, x);
    CountExtends(log, log', OnFinalized, e, s, x);
  }

  /** The bank that the finalized status selects is the confirmed one, or it has nothing stored. */
  predicate Agrees(info: SlotInfo, named: Option<BankId>) {
    var bank := SelectBank(info, named);
    info.confirmedBank == Some(bank) || Stored(info, bank) == []
  }

  /** The step that finalizes a slot. */
  lemma FinalizingStep(cfg: Config, st: State, e: Event, st': State, m: Msg)
    requires Inv(cfg, st) && Step(cfg, st, e, st') && e.Deliver? && e.message == m && m.SlotStatus?
    requires m.status == Finalized
    requires !Ignored(st, m) && Admit(st.dedup, e.dedupRequired, e.source, m).value.1 == [m]
    requires m.slot !in st.recovered && cfg.confirmed && cfg.finalized
    ensures WithinConfirmed(st'.log, st.epoch, m.slot) <==> Agrees(InfoOf(st, m.slot), m.bank)
    ensures Bound(st') >= m.slot
  {
    hide PublishOne, Finish, Admit, SlotOk, AllSound, Unborn, DedupOk, RecoveredOk, WithinConfirmed, SelectBank, Stored;
    var s := m.slot;
    var dedup := Admit(st.dedup, e.dedupRequired, e.source, m).value.0;
    AdmitIsBatch(st.dedup, e.dedupRequired, e.source, m);
    DedupInv(cfg, st, dedup);
    var st0 := Entered(st.(dedup := dedup), s);
    EnteredInv(cfg, st.(dedup := dedup), s);
    assert [m][..0] == [] && PublishAll(cfg, st0, s, []) == st0;
    var st1 := PublishAll(cfg, st0, s, [m]);
    assert st1 == PublishOne(cfg, st0, s, m);
    assert OpenSlotOk(cfg, st0, s) && RecoveredOk(st0, s);
    KnownIsRecovered(st0, s, m);
    FinalizedWithinConfirmed(cfg, st0, s, m);
    assert InfoOf(st0, s) == InfoOf(st, s);
    PublishOneFrame(cfg, st0, s, m);
    FinishKeeps(cfg, st1, st1.slotFinalized != st.slotFinalized);
  }

  /** Over any run: what a slot has on finalized is, then and for ever, within what it has on confirmed,
      exactly if the bank selected for finalized is the confirmed one or is empty. Slots that a restart
      read back from the journal are excluded. */
  lemma FinalizedStaysWithinConfirmed(cfg: Config, states: seq<State>, events: seq<Event>, i: nat, j: nat, m: Msg)
    requires Run(cfg, states, events) && i < j < |states|
    requires events[i].Deliver? && events[i].message == m && m.SlotStatus? && m.status == Finalized
    requires !Ignored(states[i], m)
    requires Admit(states[i].dedup, events[i].dedupRequired, events[i].source, m).value.1 == [m]
    requires m.slot !in states[i].recovered && cfg.confirmed && cfg.finalized
    ensures WithinConfirmed(states[j].log, states[i].epoch, m.slot) <==> Agrees(InfoOf(states[i], m.slot), m.bank)
  {
    hide Step, Initial, Inv, Agrees, TallyOf, Admit, Ignored;
    RunKeepsInv(cfg, states, events, i);
    assert StepAt(cfg, states, events, i);
    FinalizingStep(cfg, states[i], events[i], states[i + 1], m);
    var log, log' := states[i + 1].log, states[j].log;
    SettledForever(cfg, states, events, i + 1, j, 0);
    forall k | |log| <= k < |log'|
      ensures log'[k].slot != m.slot
    {
      SettledForever(cfg, states, events, i + 1, j, k);
    }
    forall x: Msg
      ensures CoveredAt(log', states[i].epoch, m.slot, x) <==> CoveredAt(log, states[i].epoch, m.slot, x)
    {
      TallyExtends(log, log', states[i].epoch, m.slot, x);
    }
  }

  // ----- the confirmed bank -----

  /** Over any run: the books of every open slot balance. Only the confirmed bank is on confirmed; unless
      the slot was read back from the journal, everything received is on processed, and everything the
      confirmed bank stores is on confirmed. */
  lemma BooksBalance(cfg: Config, states: seq<State>, events: seq<Event>, i: nat, s: Slot, x: Msg)
    requires Run(cfg, states, events) && i < |states| && s > Bound(states[i]) && !x.SlotStatus?
    ensures var st := states[i];
      Ledger(cfg, InfoOf(st, s), TallyOf(st.log, st.epoch, s, x), x, s in st.recovered)
  {
    hide Ledger, TallyOf, Run;
    RunKeepsInv(cfg, states, events, i);
    assert OpenSlotOk(cfg, states[i], s);
    assert LedgerAt(cfg, states[i], s, x);
  }

  lemma PublishOneKeepsBank(cfg: Config, st: State, slot: Slot, m: Msg, s: Slot)
    requires Publishable(m) && InfoOf(st, s).confirmedBank.Some?
    ensures var st' := PublishOne(cfg, st, slot, m); s in st'.slots ==>
          st'.slots[s].confirmedBank == InfoOf(st, s).confirmedBank
  {
    hide PublishOne, Commit, AbsorbMessage;
    PublishOneFrame(cfg, st, slot, m);
    if m.SlotStatus? {
      CommitFixesBank(Tracked(st, slot), m.status, m.bank);
    } else {
      AbsorbMessageHolds(Tracked(st, slot), m, m.bank, m);
    }
  }

  lemma {:induction false} PublishAllKeepsBank(cfg: Config, st: State, slot: Slot, ms: seq<Msg>, m: Msg, s: Slot)
    requires AllPublishable(ms) && Batch(ms, m) && InfoOf(st, s).confirmedBank.Some?
    ensures var st' := PublishAll(cfg, st, slot, ms);
      && (s in st'.slots ==> st'.slots[s].confirmedBank == InfoOf(st, s).confirmedBank)
      && (!m.SlotStatus? ==> s in st'.slots)
  {
    hide PublishOne;
    if ms != [] {
      var n := |ms| - 1;
      assert InBatch(ms[n], m) && Batch(ms[..n], m);
      var st1 := PublishAll(cfg, st, slot, ms[..n]);
      PublishAllKeepsBank(cfg, st, slot, ms[..n], m, s);
      PublishOneFrame(cfg, st1, slot, ms[n]);
      if m.SlotStatus? {
        assert ms[..n] == [];
      }
      PublishOneKeepsBank(cfg, st1, slot, ms[n], s);
    }
  }

  /** The bank fixed by the first confirmed status stays fixed for as long as the slot is tracked. */
  lemma ConfirmedBankStays(cfg: Config, st: State, e: Event, st': State, s: Slot)
    requires Inv(cfg, st) && Step(cfg, st, e, st') && e.Deliver? && s in st'.slots && InfoOf(st, s).confirmedBank.Some?
    ensures st'.slots[s].confirmedBank == InfoOf(st, s).confirmedBank
  {
    hide Admit, PublishAll, Finish, SlotOk, AllSound, Unborn, DedupOk, RecoveredOk;
    var m := e.message;
    if !Ignored(st, m) {
      AdmitIsBatch(st.dedup, e.dedupRequired, e.source, m);
      var (dedup, ms) := Admit(st.dedup, e.dedupRequired, e.source, m).value;
      if ms != [] {
        var st0 := Entered(st.(dedup := dedup), m.slot);
        PublishAllKeepsBank(cfg, st0, m.slot, ms, m, s);
        var st1 := PublishAll(cfg, st0, m.slot, ms);
        FinishKeeps(cfg, st1, st1.slotFinalized != st.slotFinalized);
      }
    }
  }

  /** Over any run the journal indices of all streams together strictly increase, which is what every ring
      requires of its writer. */
  lemma {:induction false} RunIsNumbered(cfg: Config, states: seq<State>, events: seq<Event>, i: nat)
    requires Run(cfg, states, events) && i < |states|
    ensures Numbered(states[i].log, states[i].index)
  {
    hide Step;
    if i > 0 {
      hide Numbered;
      RunIsNumbered(cfg, states, events, i - 1);
      assert StepAt(cfg, states, events, i - 1);
      StepNumbered(cfg, states[i - 1], events[i - 1], states[i]);
    }
  }

  // ----- dedup over runs -----

  /** What a record knows: the source of bank-scoped messages, and the statuses that have passed. */
  ghost predicate KnowsAtLeast(d: DedupInfo, d': DedupInfo) {
    && (d.source.Some? ==> d'.source == d.source)
    && forall bank, status :: HasPassed(d, bank, status) ==> HasPassed(d', bank, status)
  }

  predicate HasPassed(d: DedupInfo, bank: Option<BankId>, status: Status) {
    bank in d.slots && status in d.slots[bank]
  }

  lemma AdmitToRemembers(d: DedupInfo, source: nat, m: Msg)
    requires AdmitTo(d, source, m).Some?
    ensures KnowsAtLeast(d, AdmitTo(d, source, m).value.0)
  {
  }

  lemma AdmitRemembers(dedup: map<Slot, DedupInfo>, required: bool, source: nat, m: Msg, s: Slot)
    requires Admit(dedup, required, source, m).Some? && s in dedup
    ensures var dedup' := Admit(dedup, required, source, m).value.0; s in dedup' && KnowsAtLeast(dedup[s], dedup'[s])
  {
    hide AdmitTo;
    if required && s == m.slot {
      AdmitToRemembers(dedup[s], source, m);
    }
  }

  /** A dedup record forgets nothing for as long as it is kept. */
  lemma StepRemembers(cfg: Config, st: State, e: Event, st': State, s: Slot)
    requires Step(cfg, st, e, st') && s in st.dedup && s in st'.dedup
    ensures KnowsAtLeast(st.dedup[s], st'.dedup[s])
  {
    hide Admit, KnowsAtLeast, Finish, PublishAll;
    SameRemembers(st.dedup[s]);
    if e.Deliver? && !Ignored(st, e.message) {
      AdmitRemembers(st.dedup, e.dedupRequired, e.source, e.message, s);
      var (dedup, ms) := Admit(st.dedup, e.dedupRequired, e.source, e.message).value;
      if ms != [] {
        var st0 := Entered(st.(dedup := dedup), e.message.slot);
        PublishAllFrame(cfg, st0, e.message.slot, ms);
        var st1 := PublishAll(cfg, st0, e.message.slot, ms);
        FinishKeeps(cfg, st1, st1.slotFinalized != st.slotFinalized);
      }
    }
  }

  lemma SameRemembers(d: DedupInfo)
    ensures KnowsAtLeast(d, d)
  {
  }

  /** The dedup record of slot `s` is kept from state i to state j. */
  ghost predicate KeptFrom(states: seq<State>, i: nat, j: nat, s: Slot)
    requires j < |states|
  {
    forall k :: i <= k <= j ==> s in states[k].dedup
  }

  lemma {:induction false} RecordRemembers(cfg: Config, states: seq<State>, events: seq<Event>, i: nat, j: nat, s: Slot)
    requires Run(cfg, states, events) && i <= j < |states| && KeptFrom(states, i, j, s)
    ensures KnowsAtLeast(states[i].dedup[s], states[j].dedup[s])
    decreases j
  {
    hide Step, Initial;
    if i == j {
      SameRemembers(states[i].dedup[s]);
    } else {
      RecordRemembers(cfg, states, events, i, j - 1, s);
      assert StepAt(cfg, states, events, j - 1);
      StepRemembers(cfg, states[j - 1], events[j - 1], states[j], s);
    }
  }

  /** Event e puts messages of slot `s` through dedup. */
  ghost predicate Passes(st: State, e: Event, s: Slot) {
    && e.Deliver? && e.dedupRequired && e.message.slot == s && !Ignored(st, e.message)
    && Admit(st.dedup, true, e.source, e.message).Some? && Admit(st.dedup, true, e.source, e.message).value.1 != []
  }

  /** After a message has passed, its record, if it is kept, names the source and the status. */
  lemma PassedIsKnown(cfg: Config, st: State, e: Event, st': State, s: Slot)
    requires Step(cfg, st, e, st') && Passes(st, e, s) && s in st'.dedup
    ensures e.message.bank.Some? ==> st'.dedup[s].source == Some(e.source)
    ensures e.message.SlotStatus? ==> HasPassed(st'.dedup[s], e.message.bank, e.message.status)
  {
    hide Finish, PublishAll, Dedup.Accept;
    var (dedup, ms) := Admit(st.dedup, true, e.source, e.message).value;
    var st0 := Entered(st.(dedup := dedup), s);
    PublishAllFrame(cfg, st0, s, ms);
    var st1 := PublishAll(cfg, st0, s, ms);
    FinishKeeps(cfg, st1, st1.slotFinalized != st.slotFinalized);
  }

  /** Over any run, for as long as the dedup record of a slot is kept: all bank-scoped messages of the slot that
      pass come from one source. */
  lemma OneSourceWhileKept(cfg: Config, states: seq<State>, events: seq<Event>, i: nat, j: nat, s: Slot)
    requires Run(cfg, states, events) && i < j < |events| && KeptFrom(states, i + 1, j, s)
    requires Passes(states[i], events[i], s) && Passes(states[j], events[j], s)
    requires events[i].message.bank.Some? && events[j].message.bank.Some?
    ensures events[i].source == events[j].source
  {
    hide Step, Initial, Passes;
    assert StepAt(cfg, states, events, i);
    PassedIsKnown(cfg, states[i], events[i], states[i + 1], s);
    RecordRemembers(cfg, states, events, i + 1, j, s);
    PassesAsKnown(states[j], events[j], s);
  }

  lemma PassesAsKnown(st: State, e: Event, s: Slot)
    requires Passes(st, e, s) && s in st.dedup
    ensures e.message.bank.Some? && st.dedup[s].source.Some? ==> st.dedup[s].source == Some(e.source)
    ensures e.message.SlotStatus? ==> !HasPassed(st.dedup[s], e.message.bank, e.message.status)
  {
    hide Dedup.Accept;
  }

  /** Likewise each status passes once per bank, whoever sends it and however much later. */
  lemma StatusOnceWhileKept(cfg: Config, states: seq<State>, events: seq<Event>, i: nat, j: nat, s: Slot)
    requires Run(cfg, states, events) && i < j < |events| && KeptFrom(states, i + 1, j, s)
    requires Passes(states[i], events[i], s) && Passes(states[j], events[j], s)
    requires events[i].message.SlotStatus? && events[j].message.SlotStatus?
    ensures events[i].message != events[j].message
  {
    hide Step, Initial, Admit;
    assert StepAt(cfg, states, events, i);
    PassedIsKnown(cfg, states[i], events[i], states[i + 1], s);
    RecordRemembers(cfg, states, events, i + 1, j, s);
    var m := events[i].message;
    assert HasPassed(states[j].dedup[s], m.bank, m.status);
    PassesAsKnown(states[j], events[j], s);
  }
}
