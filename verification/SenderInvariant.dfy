/** The invariant of the sender over any run of deliveries and recovery epochs. */
module SenderInvariant {
  import opened Basics
  import opened Messages
  import opened SlotTracking
  import opened SenderModel
  import opened SenderAdmission
  import opened SenderRetention
  import opened SenderStreams

  /** Nothing has been published in an epoch to come. */
  ghost predicate Unborn(st: State, e: nat, s: Slot, x: Msg) {
    e > st.epoch && !x.SlotStatus? ==> TallyOf(st.log, e, s, x) == Tally(0, 0, 0, 0)
  }

  ghost predicate OpenSlotOk(cfg: Config, st: State, s: Slot) {
    s > Bound(st) ==> SlotOk(cfg, st, s)
  }

  ghost predicate Inv(cfg: Config, st: State) {
    && (forall s :: OpenSlotOk(cfg, st, s))
    && (forall e, s :: AllSound(st.log, e, s))
    && (forall e, s, x :: Unborn(st, e, s, x))
    && (forall s :: DedupOk(st.dedup, s))
    && (forall s :: RecoveredOk(st, s))
  }

  lemma InitialInv(cfg: Config, st: State)
    requires Initial(st)
    ensures Inv(cfg, st)
  {
    forall e: nat, s: Slot, x: Msg
      ensures TallyOf(st.log, e, s, x) == Tally(0, 0, 0, 0)
    {
    }
    EmptyIsSound(cfg, st);
  }

  lemma EmptyIsSound(cfg: Config, st: State)
    requires forall e: nat, s: Slot, x: Msg :: TallyOf(st.log, e, s, x) == Tally(0, 0, 0, 0)
    requires st.slots == map[] && forall s :: RecoveredOk(st, s)
    ensures (forall s :: OpenSlotOk(cfg, st, s)) && forall e, s :: AllSound(st.log, e, s)
  {
    hide TallyOf;
    forall s: Slot
      ensures SlotOk(cfg, st, s)
    {
      forall x: Msg
        ensures LedgerAt(cfg, st, s, x)
      {
      }
    }
    forall e: nat, s: Slot
      ensures AllSound(st.log, e, s)
    {
    }
  }

  // ----- what a push leaves alone -----

  /** Apart from slot `slot` of the current epoch, the streams and the books are the same. */
  ghost predicate Elsewhere(st: State, st': State, slot: Slot) {
    && st'.epoch == st.epoch && st'.recovered == st.recovered && st'.slotDropped == st.slotDropped
    && st'.dedup == st.dedup
    && (forall s :: SameBooks(st, st', slot, s))
    && (forall e, s, x :: SameTally(st, st', slot, e, s, x))
    && (forall s :: RecoveredOk(st, s) ==> RecoveredOk(st', s))
  }

  ghost predicate SameBooks(st: State, st': State, slot: Slot, s: Slot) {
    s != slot ==> InfoOf(st', s) == InfoOf(st, s)
  }

  ghost predicate SameTally(st: State, st': State, slot: Slot, e: nat, s: Slot, x: Msg) {
    !Here(st, slot, e, s) && !x.SlotStatus? ==> TallyOf(st'.log, e, s, x) == TallyOf(st.log, e, s, x)
  }

  lemma PublishOneElsewhereAll(cfg: Config, st: State, slot: Slot, m: Msg)
    requires Publishable(m)
    ensures Elsewhere(st, PublishOne(cfg, st, slot, m), slot)
  {
    hide PublishOne, TallyOf, AbsorbMessage, Commit, Tracked;
    var st' := PublishOne(cfg, st, slot, m);
    PublishOneFrame(cfg, st, slot, m);
    forall e: nat, s: Slot, x: Msg
      ensures SameTally(st, st', slot, e, s, x)
    {
      if !Here(st, slot, e, s) && !x.SlotStatus? {
        PublishOneElsewhere(cfg, st, slot, m, e, s, x);
      }
    }
    PublishOneReplay(cfg, st, slot, m);
  }

  lemma ElsewhereTwice(st: State, st1: State, st2: State, slot: Slot)
    requires Elsewhere(st, st1, slot) && Elsewhere(st1, st2, slot)
    ensures Elsewhere(st, st2, slot)
  {
    hide TallyOf, RecoveredOk;
    forall s: Slot
      ensures SameBooks(st, st2, slot, s)
    {
      assert SameBooks(st, st1, slot, s) && SameBooks(st1, st2, slot, s);
    }
    forall e: nat, s: Slot, x: Msg
      ensures SameTally(st, st2, slot, e, s, x)
    {
      assert SameTally(st, st1, slot, e, s, x) && SameTally(st1, st2, slot, e, s, x);
    }
  }

  // ----- one batch -----

  lemma PublishOtherSlotOk(cfg: Config, st: State, s: Slot, m: Msg)
    requires SlotOk(cfg, st, s) && m.slot == s && !m.SlotStatus? && Publishable(m)
    ensures SlotOk(cfg, PublishOne(cfg, st, s, m), s)
  {
    hide PublishOne, TallyOf, HeldIn, LedgerAt, BankBelongs;
    var st' := PublishOne(cfg, st, s, m);
    forall x: Msg
      ensures LedgerAt(cfg, st', s, x)
    {
      PublishOtherKeeps(cfg, st, s, m, x);
    }
    PublishOneFrame(cfg, st, s, m);
    PublishOneReplay(cfg, st, s, m);
    forall b: Option<BankId>
      ensures BankBelongs(InfoOf(st', s), s, b)
    {
      assert BankBelongs(InfoOf(st, s), s, b) && BankBelongs(InfoOf(st, s), s, m.bank);
      AbsorbFacts(st, s, m, Entry(s, b, 0, 0));
    }
  }

  lemma PublishStatusSlotOk(cfg: Config, st: State, s: Slot, m: Msg)
    requires SlotOk(cfg, st, s) && m.SlotStatus? && !(Finalizes(st, s, m) && cfg.finalized)
    ensures SlotOk(cfg, PublishOne(cfg, st, s, m), s)
  {
    hide PublishOne, TallyOf, HeldIn, LedgerAt, Finalizes;
    var st' := PublishOne(cfg, st, s, m);
    forall x: Msg
      ensures LedgerAt(cfg, st', s, x)
    {
      PublishStatusKeeps(cfg, st, s, m, x);
    }
    PublishOneFrame(cfg, st, s, m);
    PublishOneReplay(cfg, st, s, m);
    forall b: Option<BankId>
      ensures BankBelongs(InfoOf(st', s), s, b)
    {
      assert BankBelongs(InfoOf(st, s), s, b);
    }
  }

  lemma {:induction false} PublishAllKeeps(cfg: Config, st: State, s: Slot, ms: seq<Msg>, m: Msg)
    requires SlotOk(cfg, st, s) && Batch(ms, m) && m.slot == s && !m.SlotStatus? && AllPublishable(ms)
    ensures var st' := PublishAll(cfg, st, s, ms);
      SlotOk(cfg, st', s) && Elsewhere(st, st', s) && st'.slotFinalized == st.slotFinalized
  {
    hide PublishOne, SlotOk, Elsewhere;
    if ms == [] {
      ElsewhereSelf(st, s);
    } else {
      var n := |ms| - 1;
      assert InBatch(ms[n], m);
      PublishAllKeeps(cfg, st, s, ms[..n], m);
      var st1 := PublishAll(cfg, st, s, ms[..n]);
      PublishOtherSlotOk(cfg, st1, s, ms[n]);
      PublishOneElsewhereAll(cfg, st1, s, ms[n]);
      PublishOneFrame(cfg, st1, s, ms[n]);
      ElsewhereTwice(st, st1, PublishOne(cfg, st1, s, ms[n]), s);
    }
  }

  lemma ElsewhereSelf(st: State, s: Slot)
    ensures Elsewhere(st, st, s)
  {
  }

  /** After a batch the slot is in order, or it has just been finalized and its streams are sound. */
  ghost predicate Done(cfg: Config, st: State, st': State, s: Slot) {
    && Elsewhere(st, st', s) && AllSound(st'.log, st'.epoch, s)
    && (st'.slotFinalized == s || (st'.slotFinalized == st.slotFinalized && SlotOk(cfg, st', s)))
  }

  lemma BatchIsDone(cfg: Config, st: State, s: Slot, ms: seq<Msg>, m: Msg)
    requires SlotOk(cfg, st, s) && Batch(ms, m) && m.slot == s && ms != [] && AllPublishable(ms)
    ensures Done(cfg, st, PublishAll(cfg, st, s, ms), s)
  {
    hide PublishOne, SlotOk, Elsewhere, AllSound, Finalizes;
    var st' := PublishAll(cfg, st, s, ms);
    if m.SlotStatus? {
      assert ms[..0] == [] && PublishAll(cfg, st, s, []) == st;
      assert st' == PublishOne(cfg, st, s, m);
      PublishOneElsewhereAll(cfg, st, s, m);
      PublishOneFrame(cfg, st, s, m);
      if Finalizes(st, s, m) && cfg.finalized {
        FinalizedIsSound(cfg, st, s, m);
      } else {
        PublishStatusSlotOk(cfg, st, s, m);
        OpenIsSound(cfg, st', s);
      }
    } else {
      PublishAllKeeps(cfg, st, s, ms, m);
      OpenIsSound(cfg, st', s);
    }
    ElsewhereKeepsEpoch(st, st', s);
  }

  lemma ElsewhereKeepsEpoch(st: State, st': State, s: Slot)
    requires Elsewhere(st, st', s)
    ensures st'.epoch == st.epoch
  {
  }

  // ----- one event -----

  lemma ElsewhereSlotOk(cfg: Config, st: State, st': State, slot: Slot, u: Slot)
    requires Elsewhere(st, st', slot) && SlotOk(cfg, st, u) && u != slot
    ensures SlotOk(cfg, st', u)
  {
    hide TallyOf, Ledger, RecoveredOk, BankBelongs;
    assert SameBooks(st, st', slot, u);
    forall x: Msg
      ensures LedgerAt(cfg, st', u, x)
    {
      assert LedgerAt(cfg, st, u, x) && SameTally(st, st', slot, st.epoch, u, x);
    }
    forall b: Option<BankId>
      ensures BankBelongs(InfoOf(st', u), u, b)
    {
      assert BankBelongs(InfoOf(st, u), u, b);
    }
  }

  lemma ElsewhereSound(st: State, st': State, slot: Slot, e: nat, u: Slot)
    requires Elsewhere(st, st', slot) && AllSound(st.log, e, u) && !Here(st, slot, e, u)
    ensures AllSound(st'.log, e, u)
  {
    hide TallyOf;
    forall x: Msg
      ensures Sound(st'.log, e, u, x)
    {
      assert Sound(st.log, e, u, x) && SameTally(st, st', slot, e, u, x);
    }
    forall x: Msg, y: Msg
      ensures OneBank(st'.log, e, u, x, y)
    {
      assert OneBank(st.log, e, u, x, y) && SameTally(st, st', slot, e, u, x) && SameTally(st, st', slot, e, u, y);
    }
  }

  /** Forgetting keeps the books of every slot that is not forgotten. */
  lemma FinishSlotOk(cfg: Config, st: State, clean: bool, u: Slot)
    requires SlotOk(cfg, st, u) && u > Bound(Finish(cfg, st, clean))
    ensures SlotOk(cfg, Finish(cfg, st, clean), u)
  {
    hide Finish, TallyOf, Ledger, BankBelongs;
    var st' := Finish(cfg, st, clean);
    FinishKeeps(cfg, st, clean);
    assert InfoOf(st', u) == InfoOf(st, u);
    forall x: Msg
      ensures LedgerAt(cfg, st', u, x)
    {
      assert LedgerAt(cfg, st, u, x);
    }
    forall b: Option<BankId>
      ensures BankBelongs(InfoOf(st', u), u, b)
    {
      assert BankBelongs(InfoOf(st, u), u, b);
    }
  }

  lemma EnteredSlotOk(cfg: Config, st: State, slot: Slot, u: Slot)
    requires SlotOk(cfg, st, u)
    ensures SlotOk(cfg, Entered(st, slot), u)
  {
    hide TallyOf, Ledger, BankBelongs;
    var st' := Entered(st, slot);
    forall x: Msg
      ensures LedgerAt(cfg, st', u, x)
    {
      assert LedgerAt(cfg, st, u, x);
    }
    forall b: Option<BankId>
      ensures BankBelongs(InfoOf(st', u), u, b)
    {
      assert BankBelongs(InfoOf(st, u), u, b);
    }
  }

  lemma EnteredInv(cfg: Config, st: State, slot: Slot)
    requires Inv(cfg, st)
    ensures Inv(cfg, Entered(st, slot))
  {
    hide SlotOk, AllSound, TallyOf, DedupOk;
    var st' := Entered(st, slot);
    forall u: Slot
      ensures OpenSlotOk(cfg, st', u)
    {
      assert OpenSlotOk(cfg, st, u);
      if u > Bound(st) {
        EnteredSlotOk(cfg, st, slot, u);
      }
    }
    forall e: nat, u: Slot, x: Msg
      ensures Unborn(st', e, u, x)
    {
      assert Unborn(st, e, u, x);
    }
    forall u: Slot
      ensures RecoveredOk(st', u)
    {
      assert RecoveredOk(st, u);
    }
  }

  /** The parts of the invariant that speak of the streams. */
  lemma BatchKeepsStreams(cfg: Config, st: State, st': State, s: Slot)
    requires Inv(cfg, st) && Done(cfg, st, st', s)
    ensures (forall e, u :: AllSound(st'.log, e, u)) && (forall e, u, x :: Unborn(st', e, u, x))
    ensures (forall u :: RecoveredOk(st', u)) && st'.dedup == st.dedup && st'.epoch == st.epoch
          && st'.slotDropped == st.slotDropped
  {
    hide SlotOk, TallyOf, AllSound, RecoveredOk;
    forall e: nat, u: Slot
      ensures AllSound(st'.log, e, u)
    {
      assert AllSound(st.log, e, u);
      if !Here(st, s, e, u) {
        ElsewhereSound(st, st', s, e, u);
      }
    }
    forall e: nat, u: Slot, x: Msg
      ensures Unborn(st', e, u, x)
    {
      assert Unborn(st, e, u, x) && SameTally(st, st', s, e, u, x);
    }
  }

  lemma BatchKeepsBooks(cfg: Config, st: State, st': State, s: Slot, u: Slot)
    requires Inv(cfg, st) && Done(cfg, st, st', s) && s > Bound(st) && u > Bound(st)
    requires (st'.slotFinalized == s ==> u > s)
    ensures SlotOk(cfg, st', u)
  {
    hide SlotOk, AllSound, Elsewhere;
    if u != s {
      assert OpenSlotOk(cfg, st, u);
      ElsewhereSlotOk(cfg, st, st', s, u);
    }
  }

  lemma PublishKeepsInv(cfg: Config, st: State, s: Slot, ms: seq<Msg>, m: Msg)
    requires Inv(cfg, st) && s > Bound(st) && m.slot == s && Batch(ms, m) && ms != [] && AllPublishable(ms)
    ensures Inv(cfg, Publish(cfg, st, s, ms))
  {
    hide SlotOk, AllSound, TallyOf, DedupOk, RecoveredOk, Finish, PublishAll, Elsewhere;
    var st0 := Entered(st, s);
    EnteredInv(cfg, st, s);
    assert OpenSlotOk(cfg, st0, s);
    BatchIsDone(cfg, st0, s, ms, m);
    var st1 := PublishAll(cfg, st0, s, ms);
    BatchKeepsStreams(cfg, st0, st1, s);
    var clean := st1.slotFinalized != st.slotFinalized;
    var st2 := Finish(cfg, st1, clean);
    FinishKeeps(cfg, st1, clean);
    forall u: Slot
      ensures OpenSlotOk(cfg, st2, u)
    {
      if u > Bound(st2) {
        BatchKeepsBooks(cfg, st0, st1, s, u);
        FinishSlotOk(cfg, st1, clean, u);
      }
    }
    DedupSubset(st1.dedup, st2.dedup);
    FinishRest(st1, st2);
  }

  lemma FinishRest(st: State, st': State)
    requires (forall e, s, x :: Unborn(st, e, s, x)) && forall s :: RecoveredOk(st, s)
    requires st'.epoch == st.epoch && st'.log == st.log && st'.recovered == st.recovered
    requires Within(st'.replay, st.replay)
    ensures (forall e, s, x :: Unborn(st', e, s, x)) && forall s :: RecoveredOk(st', s)
  {
    hide TallyOf;
    forall e: nat, u: Slot, x: Msg
      ensures Unborn(st', e, u, x)
    {
      assert Unborn(st, e, u, x);
    }
    forall u: Slot
      ensures RecoveredOk(st', u)
    {
      assert RecoveredOk(st, u);
    }
  }

  lemma BeginEpochInv(cfg: Config, st: State)
    requires Inv(cfg, st)
    ensures Inv(cfg, BeginEpoch(st))
  {
    hide TallyOf, AllSound;
    var st' := BeginEpoch(st);
    forall s: Slot
      ensures SlotOk(cfg, st', s)
    {
      forall x: Msg
        ensures LedgerAt(cfg, st', s, x)
      {
        assert Unborn(st, st'.epoch, s, x);
      }
    }
    forall e: nat, s: Slot, x: Msg
      ensures Unborn(st', e, s, x)
    {
      assert Unborn(st, e, s, x);
    }
  }

  /** Every event keeps the invariant. */
  lemma StepKeepsInv(cfg: Config, st: State, e: Event, st': State)
    requires Inv(cfg, st) && Step(cfg, st, e, st')
    ensures Inv(cfg, st')
  {
    hide SlotOk, AllSound, Unborn, DedupOk, RecoveredOk, Publish, Admit, Ignored;
    match e
    case BeginLiveEpoch => BeginEpochInv(cfg, st);
    case Deliver(required, source, m) =>
      if !Ignored(st, m) {
        AdmitIsBatch(st.dedup, required, source, m);
        var (dedup, ms) := Admit(st.dedup, required, source, m).value;
        var st1 := st.(dedup := dedup);
        DedupInv(cfg, st, dedup);
        NotIgnored(st, m);
        if ms == [] {
          PublishNothing(cfg, st1, m.slot);
        } else {
          PublishKeepsInv(cfg, st1, m.slot, ms, m);
        }
      }
  }

  lemma NotIgnored(st: State, m: Msg)
    requires !Ignored(st, m)
    ensures m.slot > Bound(st)
  {
  }

  lemma PublishNothing(cfg: Config, st: State, slot: Slot)
    ensures Publish(cfg, st, slot, []) == st
  {
  }

  lemma DedupInv(cfg: Config, st: State, dedup: map<Slot, DedupInfo>)
    requires Inv(cfg, st) && forall s :: DedupOk(dedup, s)
    ensures Inv(cfg, st.(dedup := dedup))
  {
    hide TallyOf, Ledger, BankBelongs, AllSound, DedupOk;
    var st' := st.(dedup := dedup);
    forall s: Slot
      ensures OpenSlotOk(cfg, st', s)
    {
      assert OpenSlotOk(cfg, st, s);
      forall x: Msg
        ensures s > Bound(st) ==> LedgerAt(cfg, st', s, x)
      {
        assert s > Bound(st) ==> LedgerAt(cfg, st, s, x);
      }
      forall b: Option<BankId>
        ensures s > Bound(st) ==> BankBelongs(InfoOf(st', s), s, b)
      {
        assert s > Bound(st) ==> BankBelongs(InfoOf(st, s), s, b);
      }
      assert RecoveredOk(st, s);
    }
    FinishRest(st, st');
  }
}
