/** Runs in which a slot has messages on finalized that are not on confirmed. */
module SenderDivergence {
  import opened Basics
  import opened Messages
  import BlockAssembly
  import opened SlotTracking
  import opened SenderModel
  import opened SenderRetention
  import opened SenderStreams
  import opened SenderInvariant
  import opened SenderRuns


  /** The books of the slot of `m` after `m`. */
  function BooksAfter(st: State, m: Msg): SlotInfo
    requires Publishable(m)
  {
    if m.SlotStatus? then Commit(Tracked(Entered(st, m.slot), m.slot), m.status, m.bank).0
    else AbsorbMessage(Tracked(Entered(st, m.slot), m.slot), m).0
  }

  predicate Undisturbed(st: State, st': State) {
    Bound(st') == Bound(st) && st'.recovered == st.recovered && st'.epoch == st.epoch
  }

  /** A message that finalizes nothing, with room for its slot: only the books of the slot change. */
  lemma DeliverOne(cfg: Config, st: State, m: Msg) returns (st': State)
    requires Publishable(m) && !Ignored(st, m) && !Finalizes(st, m.slot, m)
    requires |st.slots.Keys + {m.slot}| <= cfg.maxUnfinalizedSlots
    ensures Step(cfg, st, Deliver(false, 0, m), st')
    ensures Undisturbed(st, st') && st'.slots == st.slots[m.slot := BooksAfter(st, m)]
  {
    hide PublishOne, Commit, AbsorbMessage, Tracked, Finish;
    var st0 := Entered(st, m.slot);
    var st1 := PublishOne(cfg, st0, m.slot, m);
    PublishOneFrame(cfg, st0, m.slot, m);
    assert st1.slots.Keys == st.slots.Keys + {m.slot};
    NothingDropped(cfg, st1);
    FinishKeeps(cfg, st1, false);
    PublishOnly(cfg, st, m);
    st' := Finish(cfg, st1, false);
  }

  lemma PublishOnly(cfg: Config, st: State, m: Msg)
    requires Publishable(m) && !Finalizes(st, m.slot, m)
    ensures AllPublishable([m])
    ensures Publish(cfg, st, m.slot, [m]) == Finish(cfg, PublishOne(cfg, Entered(st, m.slot), m.slot, m), false)
  {
    hide PublishOne, Finish;
    var st0 := Entered(st, m.slot);
    PublishOneFrame(cfg, st0, m.slot, m);
    assert [m][..0] == [] && PublishAll(cfg, st0, m.slot, []) == st0;
    assert PublishAll(cfg, st0, m.slot, [m]) == PublishOne(cfg, st0, m.slot, m);
  }

  lemma NothingDropped(cfg: Config, st: State)
    requires |st.slots.Keys| <= cfg.maxUnfinalizedSlots
    ensures var st' := Finish(cfg, st, false); st'.slots == st.slots && st'.slotDropped == st.slotDropped
  {
    hide TrimReplay, FirstRetained;
  }

  /** Finalizing a slot always has a next state. */
  lemma FinalizeOne(cfg: Config, st: State, m: Msg) returns (st': State)
    requires Publishable(m) && !Ignored(st, m)
    ensures Step(cfg, st, Deliver(false, 0, m), st')
  {
    hide Publish;
    st' := Publish(cfg, st, m.slot, [m]);
  }

  /** The candidate of bank `b` with one entry. */
  lemma CandidateBooks(info: SlotInfo, slot: Slot, b: BankId)
    requires info.banks == map[]
    ensures var info' := AbsorbMessage(info, Entry(slot, Some(b), 0, 0)).0;
      && info'.confirmedBank == info.confirmedBank
      && LatestBank(info'.banks) == Some(b) && Stored(info', Some(b)) == [Entry(slot, Some(b), 0, 0)]
  {
    hide LatestBank, Kept;
    var m := Entry(slot, Some(b), 0, 0);
    var info' := AbsorbMessage(info, m).0;
    FirstEntry(m);
    assert info'.banks.Keys == {Some(b)};
    SelectBankIsRight(info'.(confirmedBank := None), None);
    OneKept(m);
  }

  lemma FirstEntry(m: Msg)
    requires m.Entry?
    ensures BlockAssembly.Absorb(BlockAssembly.EMPTY_BANK, m).0.messages == [Some(m)]
  {
  }

  lemma OneKept(m: Msg)
    ensures Kept([Some(m)]) == [m]
  {
    assert [Some(m)][..0] == [];
  }

  /** The first confirmed status of a slot without candidates, naming no bank. */
  lemma ConfirmedWithoutBank(index: nat)
    ensures Commit(NewSlot(index), Confirmed, None).0 == NewSlot(index).(confirmedBank := Some(None))
  {
    hide LatestBank;
    SelectBankIsRight(NewSlot(index), None);
  }

  /** A slot that is confirmed before anything of it has arrived, and finalized, both without a bank: the
      candidate that came in between is on finalized and not on confirmed. From any start of the sender. */
  lemma FinalizedCanDiverge(cfg: Config, st: State, slot: Slot, b: BankId) returns (states: seq<State>,
                            events: seq<Event>)
    requires Initial(st) && cfg.confirmed && cfg.finalized && cfg.maxUnfinalizedSlots > 0
    requires slot > Bound(st) && slot !in st.recovered
    ensures Run(cfg, states, events) && states[0] == st
    ensures events == [Deliver(false, 0, SlotStatus(slot, None, Confirmed)),
                       Deliver(false, 0, Entry(slot, Some(b), 0, 0)),
                       Deliver(false, 0, SlotStatus(slot, None, Finalized))]
    ensures !WithinConfirmed(states[3].log, 0, slot)
  {
    hide Step, BooksAfter, Finalizes, Inv, WithinConfirmed, AbsorbMessage, Stored, LatestBank;
    var m1, m2, m3 := SlotStatus(slot, None, Confirmed), Entry(slot, Some(b), 0, 0), SlotStatus(slot, None, Finalized);
    events := [Deliver(false, 0, m1), Deliver(false, 0, m2), Deliver(false, 0, m3)];
    NotFinalizing(st, slot, m1);
    var st1 := DeliverOne(cfg, st, m1);
    FirstBooks(st, m1);
    NotFinalizing(st1, slot, m2);
    assert st1.slots.Keys + {slot} == {slot};
    var st2 := DeliverOne(cfg, st1, m2);
    SecondBooks(st1, m2, b);
    var st3 := FinalizeOne(cfg, st2, m3);
    states := [st, st1, st2, st3];
    forall i | 0 <= i < |events|
      ensures StepAt(cfg, states, events, i)
    {
    }
    RunKeepsInv(cfg, states, events, 2);
    FinalizingStep(cfg, st2, events[2], st3, m3);
    Disagrees(st2.slots[slot], b);
  }

  lemma NotFinalizing(st: State, slot: Slot, m: Msg)
    requires !m.SlotStatus? || m.status != Finalized
    ensures !Finalizes(st, slot, m)
  {
  }

  lemma FirstBooks(st: State, m: Msg)
    requires st.slots == map[] && m == SlotStatus(m.slot, None, Confirmed)
    ensures var info := BooksAfter(st, m);
      info.confirmedBank == Some(None) && info.banks == map[] && info.clearedBanks == {}
  {
    ConfirmedWithoutBank(Tracked(Entered(st, m.slot), m.slot).index);
  }

  lemma SecondBooks(st: State, m: Msg, b: BankId)
    requires m == Entry(m.slot, Some(b), 0, 0) && m.slot in st.slots && st.slots[m.slot].banks == map[]
    ensures var info := BooksAfter(st, m);
      && info.confirmedBank == st.slots[m.slot].confirmedBank
      && LatestBank(info.banks) == Some(b) && Stored(info, Some(b)) == [m]
  {
    CandidateBooks(st.slots[m.slot], m.slot, b);
  }

  lemma Disagrees(info: SlotInfo, b: BankId)
    requires info.confirmedBank == Some(None) && LatestBank(info.banks) == Some(b) && Stored(info, Some(b)) != []
    ensures !Agrees(info, None)
  {
  }
}
