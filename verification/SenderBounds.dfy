/** Bounds on what the sender tracks, over any run. */
module SenderBounds {
  import opened Basics
  import opened Messages
  import opened SlotTracking
  import opened SenderModel
  import opened SenderRetention
  import opened SenderStreams
  import opened SenderLog

  /** What a batch keeps of the slots that it does not concern, and how the log grows. */
  ghost predicate BatchFrame(st: State, st': State, slot: Slot) {
    && st' == st.(log := st'.log, index := st'.index, replay := st'.replay, slots := st'.slots,
          slotFinalized := st'.slotFinalized)
    && (st'.slotFinalized == st.slotFinalized || st'.slotFinalized == slot)
    && (forall s :: s in st'.slots ==> s in st.slots || s == slot)
    && SameReplay(st.replay, st'.replay)
    && (Numbered(st.log, st.index) ==> Numbered(st'.log, st'.index))
    && st.log <= st'.log && st'.index >= st.index
    && forall i :: |st.log| <= i < |st'.log| ==> ComesFrom(st'.log[i], st.epoch, slot, st.index)
  }

  predicate ComesFrom(r: Record, e: nat, slot: Slot, index: nat) {
    r.epoch == e && r.slot == slot && (r.index.Some? ==> r.index.value >= index)
  }

  lemma PublishOneBatchFrame(cfg: Config, st: State, slot: Slot, m: Msg)
    requires Publishable(m)
    ensures BatchFrame(st, PublishOne(cfg, st, slot, m), slot)
  {
    hide PublishOne, AbsorbMessage, Commit, Tracked, Emitted, SameReplay;
    PublishOneFrame(cfg, st, slot, m);
    PublishOneReplay(cfg, st, slot, m);
    PublishOneGrows(cfg, st, slot, m);
    var st' := PublishOne(cfg, st, slot, m);
    forall i | |st.log| <= i < |st'.log|
      ensures ComesFrom(st'.log[i], st.epoch, slot, st.index)
    {
      assert Comes(st'.log[i], st.epoch, slot, st.index, Emitted(st, slot, m));
    }
  }

  lemma {:induction false} PublishAllFrame(cfg: Config, st: State, slot: Slot, ms: seq<Msg>)
    requires AllPublishable(ms)
    ensures BatchFrame(st, PublishAll(cfg, st, slot, ms), slot)
  {
    if ms != [] {
      hide PublishOne, BatchFrame;
      var n := |ms| - 1;
      PublishAllFrame(cfg, st, slot, ms[..n]);
      var st1 := PublishAll(cfg, st, slot, ms[..n]);
      PublishOneBatchFrame(cfg, st1, slot, ms[n]);
      BatchFrameTwice(st, st1, PublishOne(cfg, st1, slot, ms[n]), slot);
    }
  }

  lemma BatchFrameTwice(st: State, st1: State, st2: State, slot: Slot)
    requires BatchFrame(st, st1, slot) && BatchFrame(st1, st2, slot)
    ensures BatchFrame(st, st2, slot)
  {
    forall i | |st.log| <= i < |st2.log|
      ensures ComesFrom(st2.log[i], st.epoch, slot, st.index)
    {
      if i < |st1.log| {
        assert st2.log[i] == st1.log[i];
      }
    }
  }

  // ----- tracked slots -----

  /** At most `maxUnfinalizedSlots` slots are tracked, all of them above what is finalized or dropped. */
  ghost predicate Bounded(cfg: Config, st: State) {
    |st.slots| <= cfg.maxUnfinalizedSlots && AllAbove(st.slots, Bound(st))
  }

  lemma FinishBounds(cfg: Config, st: State, clean: bool)
    requires AllAbove(st.slots, st.slotDropped) && (!clean ==> AllAbove(st.slots, st.slotFinalized))
    ensures Bounded(cfg, Finish(cfg, st, clean))
  {
    hide DropExcess, DropDedup, Retain;
    var st1 := if clean then Cleaned(st) else st;
    var (slots, dropped) := DropExcess(st1.slots, cfg.maxUnfinalizedSlots, st1.slotDropped);
    DropExcessKeeps(st1.slots, cfg.maxUnfinalizedSlots, st1.slotDropped);
    assert AllAbove(st1.slots, st1.slotFinalized);
    RetainKeeps(cfg, st1.(slots := slots, slotDropped := dropped, dedup := DropDedup(st1.dedup,
                cfg.maxUnfinalizedSlots)));
  }

  lemma RetainKeeps(cfg: Config, st: State)
    ensures var st' := Retain(cfg, st); st' == st.(replay := st'.replay, trims := st'.trims)
  {
  }

  /** A slot that is finalized or dropped is never tracked again: the bound only rises, a finalized slot
      is above it, and records are added only above it. */
  ghost predicate Advances(st: State, st': State) {
    && st'.slotFinalized >= st.slotFinalized && st'.slotDropped >= st.slotDropped
    && (st'.slotFinalized != st.slotFinalized ==> st'.slotFinalized > Bound(st))
    && st.log <= st'.log
    && forall i :: |st.log| <= i < |st'.log| ==> st'.log[i].slot > Bound(st) && st'.log[i].epoch == st.epoch
  }

  lemma PublishBounds(cfg: Config, st: State, slot: Slot, ms: seq<Msg>)
    requires Bounded(cfg, st) && AllPublishable(ms) && slot > Bound(st)
    ensures Bounded(cfg, Publish(cfg, st, slot, ms)) && Advances(st, Publish(cfg, st, slot, ms))
  {
    hide Finish, PublishAll, SameReplay;
    if ms != [] {
      var st0 := Entered(st, slot);
      PublishAllFrame(cfg, st0, slot, ms);
      var st1 := PublishAll(cfg, st0, slot, ms);
      var clean := st1.slotFinalized != st.slotFinalized;
      FinishBounds(cfg, st1, clean);
      FinishKeeps(cfg, st1, clean);
      forall i | |st.log| <= i < |st1.log|
        ensures st1.log[i].slot > Bound(st) && st1.log[i].epoch == st.epoch
      {
        assert ComesFrom(st1.log[i], st0.epoch, slot, st0.index);
      }
    }
  }

  lemma StepBounds(cfg: Config, st: State, e: Event, st': State)
    requires Bounded(cfg, st) && Step(cfg, st, e, st')
    ensures Bounded(cfg, st') && Advances(st, st')
  {
    hide Publish, Admit;
    match e
    case BeginLiveEpoch =>
    case Deliver(required, source, m) =>
      if !Ignored(st, m) {
        var (dedup, ms) := Admit(st.dedup, required, source, m).value;
        PublishBounds(cfg, st.(dedup := dedup), m.slot, ms);
      }
  }

  // ----- journal indices -----

  /** Every event keeps the journal indices in order. */
  lemma StepNumbered(cfg: Config, st: State, e: Event, st': State)
    requires Step(cfg, st, e, st') && Numbered(st.log, st.index)
    ensures Numbered(st'.log, st'.index)
  {
    hide Numbered, Admit, PublishAll, Finish, SameReplay;
    match e
    case BeginLiveEpoch =>
    case Deliver(required, source, m) =>
      if !Ignored(st, m) {
        var (dedup, ms) := Admit(st.dedup, required, source, m).value;
        if ms != [] {
          var st0 := Entered(st.(dedup := dedup), m.slot);
          PublishAllFrame(cfg, st0, m.slot, ms);
          var st1 := PublishAll(cfg, st0, m.slot, ms);
          FinishKeeps(cfg, st1, st1.slotFinalized != st.slotFinalized);
        }
      }
  }

  // ----- the journal -----

  /** A record of this epoch is at or behind the head of its slot, or its slot is older than what the
      journal retains. */
  ghost predicate RecordKept(maxSlots: nat, st: State, i: nat)
    requires i < |st.log|
  {
    var r := st.log[i];
    r.epoch == st.epoch ==>
      || (r.slot in st.replay && (r.index.Some? ==> st.replay[r.slot].head <= r.index.value))
      || (st.replay != map[] && r.slot < FirstRetained(st.replay, maxSlots))
  }

  ghost predicate JournalOk(maxSlots: nat, st: State) {
    && (forall s :: s in st.replay ==> st.replay[s].head <= st.index)
    && (forall i :: 0 <= i < |st.log| ==> st.log[i].epoch <= st.epoch && RecordKept(maxSlots, st, i))
  }

  /** The journal covers at most `maxSlots` slot numbers (a limit of none keeps one). */
  ghost predicate SpanOk(maxSlots: nat, replay: map<Slot, ReplayInfo>) {
    forall s, u :: s in replay && u in replay ==> u - s < maxSlots || u <= s
  }

  lemma EnteredJournal(maxSlots: nat, st: State, slot: Slot)
    requires JournalOk(maxSlots, st)
    ensures JournalOk(maxSlots, Entered(st, slot))
  {
    var st' := Entered(st, slot);
    forall i | 0 <= i < |st'.log|
      ensures st'.log[i].epoch <= st'.epoch && RecordKept(maxSlots, st', i)
    {
      assert RecordKept(maxSlots, st, i);
      if slot !in st.replay && st.replay != map[] {
        assert Greatest(st.replay.Keys) in st'.replay.Keys;
      }
    }
  }

  lemma BatchJournal(maxSlots: nat, st: State, st': State, slot: Slot)
    requires JournalOk(maxSlots, st) && BatchFrame(st, st', slot) && slot in st.replay
    ensures JournalOk(maxSlots, st')
  {
    assert st'.replay.Keys == st.replay.Keys;
    assert FirstRetained(st'.replay, maxSlots) == FirstRetained(st.replay, maxSlots);
    forall i | 0 <= i < |st'.log|
      ensures st'.log[i].epoch <= st'.epoch && RecordKept(maxSlots, st', i)
    {
      if i < |st.log| {
        assert st'.log[i] == st.log[i];
        assert RecordKept(maxSlots, st, i);
      } else {
        assert ComesFrom(st'.log[i], st.epoch, slot, st.index);
      }
    }
  }

  lemma FirstRetainedKept(replay: map<Slot, ReplayInfo>, replay': map<Slot, ReplayInfo>, maxSlots: nat)
    requires replay != map[] && Within(replay', replay)
    requires forall s :: s in replay' <==> s in replay && s >= FirstRetained(replay, maxSlots)
    ensures replay' != map[] && FirstRetained(replay', maxSlots) == FirstRetained(replay, maxSlots)
    ensures SpanOk(maxSlots, replay')
  {
    var g := Greatest(replay.Keys);
    assert g in replay' && Greatest(replay'.Keys) == g;
  }

  /** The end of a push: no record of a retained slot is lost, and the journal is short enough. */
  lemma FinishJournal(cfg: Config, st: State, clean: bool)
    requires cfg.storage.Some? && JournalOk(cfg.storage.value.maxSlots, st) && st.replay != map[]
    ensures var st', maxSlots := Finish(cfg, st, clean), cfg.storage.value.maxSlots;
      && JournalOk(maxSlots, st') && st'.replay != map[]
      && SpanOk(maxSlots, st'.replay)
      && st.trims <= st'.trims && TrimsAreSafe(st'.trims, |st.trims|, FirstRetained(st'.replay, maxSlots), st'.replay)
  {
    hide DropExcess, DropDedup, TrimReplay, FirstRetained;
    var maxSlots := cfg.storage.value.maxSlots;
    var first := FirstRetained(st.replay, maxSlots);
    TrimReplayKeeps(st.replay, first, st.trims);
    var st' := Finish(cfg, st, clean);
    FirstRetainedKept(st.replay, st'.replay, maxSlots);
    forall i | 0 <= i < |st'.log|
      ensures st'.log[i].epoch <= st'.epoch && RecordKept(maxSlots, st', i)
    {
      assert RecordKept(maxSlots, st, i);
    }
  }

  lemma PublishJournal(cfg: Config, st: State, slot: Slot, ms: seq<Msg>)
    requires cfg.storage.Some? && JournalOk(cfg.storage.value.maxSlots, st) && AllPublishable(ms) && ms != []
    ensures var st', maxSlots := Publish(cfg, st, slot, ms), cfg.storage.value.maxSlots;
      && JournalOk(maxSlots, st') && st'.replay != map[]
      && SpanOk(maxSlots, st'.replay)
      && st.trims <= st'.trims && TrimsAreSafe(st'.trims, |st.trims|, FirstRetained(st'.replay, maxSlots), st'.replay)
  {
    hide Finish, PublishAll, JournalOk;
    var maxSlots, st0 := cfg.storage.value.maxSlots, Entered(st, slot);
    EnteredJournal(maxSlots, st, slot);
    PublishAllFrame(cfg, st0, slot, ms);
    var st1 := PublishAll(cfg, st0, slot, ms);
    BatchJournal(maxSlots, st0, st1, slot);
    assert slot in st1.replay;
    FinishJournal(cfg, st1, st1.slotFinalized != st.slotFinalized);
  }

  /** What is retained on disk: exactly the recent ones of the slots that were there and of `slot`, each with its head;
      if anything was trimmed, then up to the least head that is left. */
  ghost predicate RetainsExactly(maxSlots: nat, st: State, st': State, slot: Slot) {
    var keys := st.replay.Keys + {slot};
    && (forall s :: s in st'.replay <==> s in keys && IsRecent(keys, maxSlots, s))
    && (forall s :: s in st'.replay ==>
          st'.replay[s].head == if s in st.replay then st.replay[s].head else st.index)
    && (|st'.trims| > |st.trims| ==> IsLeastHead(st'.trims[|st'.trims| - 1].until, st'.replay))
  }

  lemma PublishRetains(cfg: Config, st: State, slot: Slot, ms: seq<Msg>)
    requires cfg.storage.Some? && AllPublishable(ms) && ms != []
    ensures RetainsExactly(cfg.storage.value.maxSlots, st, Publish(cfg, st, slot, ms), slot)
  {
    hide PublishAll, Finish, IsLeastHead, IsRecent;
    var st0 := Entered(st, slot);
    PublishAllFrame(cfg, st0, slot, ms);
    var st1 := PublishAll(cfg, st0, slot, ms);
    FinishRetains(cfg, st1, st1.slotFinalized != st.slotFinalized);
    assert st1.replay.Keys == st.replay.Keys + {slot};
  }

  lemma FinishRetains(cfg: Config, st: State, clean: bool)
    requires cfg.storage.Some?
    ensures var st' := Finish(cfg, st, clean);
      && Within(st'.replay, st.replay)
      && (forall s :: s in st'.replay <==> s in st.replay && IsRecent(st.replay.Keys, cfg.storage.value.maxSlots, s))
      && (|st'.trims| > |st.trims| ==> IsLeastHead(st'.trims[|st'.trims| - 1].until, st'.replay))
  {
    hide DropExcess, DropDedup, TrimReplay, FirstRetained, IsLeastHead, IsRecent;
    var maxSlots := cfg.storage.value.maxSlots;
    TrimReplayKeeps(st.replay, FirstRetained(st.replay, maxSlots), st.trims);
    forall s | s in st.replay
      ensures s >= FirstRetained(st.replay, maxSlots) <==> IsRecent(st.replay.Keys, maxSlots, s)
    {
      FirstRetainedIs(st.replay, maxSlots, s);
    }
  }

  /** Every event keeps the journal in order, and whatever it trims is safe to trim. */
  lemma StepJournal(cfg: Config, st: State, e: Event, st': State)
    requires cfg.storage.Some? && JournalOk(cfg.storage.value.maxSlots, st) && Step(cfg, st, e, st')
    ensures var maxSlots := cfg.storage.value.maxSlots;
      && JournalOk(maxSlots, st') && st.trims <= st'.trims
      && TrimsAreSafe(st'.trims, |st.trims|, FirstRetained(st'.replay, maxSlots), st'.replay)
      && (SpanOk(maxSlots, st'.replay) || (st'.replay == st.replay && st'.log == st.log))
  {
    var maxSlots := cfg.storage.value.maxSlots;
    match e
    case BeginLiveEpoch =>
      forall i | 0 <= i < |st'.log|
        ensures st'.log[i].epoch <= st'.epoch && RecordKept(maxSlots, st', i)
      {
        assert RecordKept(maxSlots, st, i);
      }
    case Deliver(required, source, m) =>
      if !Ignored(st, m) {
        var (dedup, ms) := Admit(st.dedup, required, source, m).value;
        DeliverJournal(cfg, st, dedup, m.slot, ms);
      }
  }

  lemma DeliverJournal(cfg: Config, st: State, dedup: map<Slot, DedupInfo>, slot: Slot, ms: seq<Msg>)
    requires cfg.storage.Some? && JournalOk(cfg.storage.value.maxSlots, st) && AllPublishable(ms)
    ensures var maxSlots, st' := cfg.storage.value.maxSlots, Publish(cfg, st.(dedup := dedup), slot, ms);
      && JournalOk(maxSlots, st') && st.trims <= st'.trims
      && TrimsAreSafe(st'.trims, |st.trims|, FirstRetained(st'.replay, maxSlots), st'.replay)
      && (SpanOk(maxSlots, st'.replay) || (st'.replay == st.replay && st'.log == st.log))
  {
    var maxSlots, st1 := cfg.storage.value.maxSlots, st.(dedup := dedup);
    assert JournalOk(maxSlots, st1) by {
      forall i | 0 <= i < |st1.log|
        ensures st1.log[i].epoch <= st1.epoch && RecordKept(maxSlots, st1, i)
      {
        assert RecordKept(maxSlots, st, i);
      }
    }
    if ms != [] {
      hide Publish, JournalOk, SpanOk, TrimsAreSafe;
      PublishJournal(cfg, st1, slot, ms);
    }
  }

  /** Trimming up to `until` loses no record of this epoch that belongs to a retained slot. */
  lemma TrimLosesNothing(maxSlots: nat, st: State, t: Trim, i: nat)
    requires JournalOk(maxSlots, st) && TrimIsSafe(t, FirstRetained(st.replay, maxSlots), st.replay)
    requires i < |st.log| && st.log[i].epoch == st.epoch && st.log[i].index.Some? && t.until.Some?
    requires st.log[i].slot in st.replay && st.log[i].slot >= FirstRetained(st.replay, maxSlots)
    ensures t.until.value <= st.log[i].index.value
  {
    assert RecordKept(maxSlots, st, i);
  }

  lemma SpanIsRetained(maxSlots: nat, replay: map<Slot, ReplayInfo>, s: Slot)
    requires SpanOk(maxSlots, replay) && s in replay
    ensures s >= FirstRetained(replay, maxSlots)
  {
    assert Greatest(replay.Keys) in replay;
  }

  /** The newest slot of the journal is the newest slot published in the epoch. */
  lemma NewestIsKnown(maxSlots: nat, st: State, i: nat)
    requires JournalOk(maxSlots, st) && i < |st.log| && st.log[i].epoch == st.epoch
    ensures st.replay != map[] && st.log[i].slot <= Greatest(st.replay.Keys)
  {
    assert RecordKept(maxSlots, st, i);
  }

  // ----- the dedup map -----

  /** An account update whose transaction is still missing. */
  function Orphan(slot: Slot): Msg {
    Account(slot, None, Some(0), 0, 0, 0)
  }

  /** Admission adds the slot of the message to the dedup map, if dedup is required, and no other. */
  lemma AdmitKeys(dedup: map<Slot, DedupInfo>, required: bool, source: nat, m: Msg)
    requires Admit(dedup, required, source, m).Some?
    ensures Admit(dedup, required, source, m).value.0.Keys == dedup.Keys + (if required then {m.slot} else {})
  {
    hide AdmitTo;
  }

  /** A push that publishes nothing returns before the dedup map is trimmed: afterwards the map is within the
      limit exactly if something was published or there was room for the slot of the message. */
  lemma DedupIsBounded(cfg: Config, st: State, required: bool, source: nat, m: Msg, st': State)
    requires Step(cfg, st, Deliver(required, source, m), st') && !Ignored(st, m)
    ensures |st'.dedup| <= cfg.maxUnfinalizedSlots <==>
      || Admit(st.dedup, required, source, m).value.1 != []
      || |st.dedup.Keys + (if required then {m.slot} else {})| <= cfg.maxUnfinalizedSlots
  {
    hide Admit, PublishAll;
    var (dedup, ms) := Admit(st.dedup, required, source, m).value;
    AdmitKeys(st.dedup, required, source, m);
    assert |dedup| == |dedup.Keys|;
    if ms != [] {
      var st0 := Entered(st.(dedup := dedup), m.slot);
      var st1 := PublishAll(cfg, st0, m.slot, ms);
      var clean := st1.slotFinalized != st.slotFinalized;
      FinishDedup(cfg, st1, clean);
    }
  }

  lemma FinishDedup(cfg: Config, st: State, clean: bool)
    ensures |Finish(cfg, st, clean).dedup| <= cfg.maxUnfinalizedSlots
  {
    hide DropExcess, DropDedup, TrimReplay;
    DropDedupKeeps((if clean then Cleaned(st) else st).dedup, cfg.maxUnfinalizedSlots);
  }

  /** Account updates whose transactions never come, one per slot, grow the dedup map without limit. */
  lemma {:induction false} DedupGrows(cfg: Config, st: State, n: nat) returns (states: seq<State>, events: seq<Event>)
    requires st.dedup == map[] && st.slots == map[]
    ensures |events| == n && |states| == n + 1 && states[0] == st && |states[n].dedup| == n
    ensures forall i :: 0 <= i < n ==> Step(cfg, states[i], events[i], states[i + 1])
    ensures states[n] == st.(dedup := states[n].dedup)
    ensures forall s :: s in states[n].dedup ==> s <= Bound(st) + n
  {
    if n == 0 {
      states, events := [st], [];
    } else {
      states, events := DedupGrows(cfg, st, n - 1);
      var last, slot := states[n - 1], Bound(st) + n;
      var m := Orphan(slot);
      var next := OrphanWaits(cfg, last, m);
      states, events := states + [next], events + [Deliver(true, 0, m)];
    }
  }

  lemma OrphanIsHeld(dedup: map<Slot, DedupInfo>, m: Msg)
    requires m == Orphan(m.slot) && m.slot !in dedup
    ensures var r := Admit(dedup, true, 0, m); r.Some? && r.value.1 == [] && r.value.0.Keys == dedup.Keys + {m.slot}
  {
  }

  lemma OrphanWaits(cfg: Config, st: State, m: Msg) returns (st': State)
    requires m == Orphan(m.slot) && m.slot > Bound(st) && m.slot !in st.dedup && st.slots == map[]
    ensures Step(cfg, st, Deliver(true, 0, m), st')
    ensures st' == st.(dedup := st'.dedup) && st'.dedup.Keys == st.dedup.Keys + {m.slot}
    ensures |st'.dedup| == |st.dedup| + 1
  {
    OrphanIsHeld(st.dedup, m);
    hide Admit;
    var (dedup, ms) := Admit(st.dedup, true, 0, m).value;
    st' := st.(dedup := dedup);
    assert dedup.Keys == st.dedup.Keys + {m.slot};
    assert |dedup.Keys| == |st.dedup.Keys| + 1;
  }
}
