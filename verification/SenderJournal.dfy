/** What a restart has read back from the journal, and which messages are therefore not published again. */
module SenderJournal {
  import opened Basics
  import opened Messages
  import opened SlotTracking
  import opened SenderModel
  import opened SenderRetention
  import opened SenderStreams
  import opened SenderBounds
  import opened SenderRuns
  import opened SenderContents

  /** The same event, by the fields that identify it: content does not count, nor does the place of a transaction. */
  predicate SameEvent(a: Msg, b: Msg) {
    && a.slot == b.slot && a.bank == b.bank
    && (a.SlotStatus? <==> b.SlotStatus?) && (a.Account? <==> b.Account?) && (a.Transaction? <==> b.Transaction?)
    && (a.Entry? <==> b.Entry?) && (a.BlockMeta? <==> b.BlockMeta?) && (a.Block? <==> b.Block?)
    && (a.BlockFooter? <==> b.BlockFooter?) && (a.EntryUpdateParent? <==> b.EntryUpdateParent?)
    && (a.SlotStatus? && b.SlotStatus? ==> a.status == b.status)
    && (a.Account? && b.Account? ==>
          a.pubkey == b.pubkey && a.writeVersion == b.writeVersion && a.signature == b.signature)
    && (a.Transaction? && b.Transaction? ==> a.txSignature == b.txSignature)
    && (a.Entry? && b.Entry? ==> a.index == b.index)
  }

  /** Two messages have the same identity exactly if they are the same event. */
  lemma IdentIff(a: Msg, b: Msg)
    ensures IdentOf(a) == IdentOf(b) <==> SameEvent(a, b)
  {
  }

  /** A message with this identity was received for the slot. */
  ghost predicate Heard(incoming: seq<Record>, s: Slot, id: Ident) {
    exists i :: 0 <= i < |incoming| && HeardAs(incoming[i], s, id)
  }

  predicate HeardAs(r: Record, s: Slot, id: Ident) {
    r.slot == s && IdentOf(r.msg) == id
  }

  lemma HeardPush(incoming: seq<Record>, r: Record, s: Slot, id: Ident)
    ensures Heard(incoming + [r], s, id) <==> Heard(incoming, s, id) || HeardAs(r, s, id)
  {
    var all := incoming + [r];
    if Heard(incoming, s, id) {
      var i :| 0 <= i < |incoming| && HeardAs(incoming[i], s, id);
      assert HeardAs(all[i], s, id);
    }
    if HeardAs(r, s, id) {
      assert HeardAs(all[|incoming|], s, id);
    }
  }

  predicate Recovers(replay: map<Slot, ReplayInfo>, s: Slot) {
    s in replay && replay[s].messages.Some?
  }

  /** While a slot recovers it knows what the journal held at the start and what was received since. */
  ghost predicate KnowsExactly(st: State, start: map<Slot, ReplayInfo>, s: Slot) {
    Recovers(st.replay, s) ==>
      && Recovers(start, s)
      && forall id :: id in st.replay[s].messages.value <==>
           id in start[s].messages.value || Heard(Incoming(st.log), s, id)
  }

  /** Handling a message makes it known. */
  lemma HandleNotes(cfg: Config, st: State, slot: Slot, m: Msg, selected: Option<Option<BankId>>, s: Slot)
    ensures var st' := Handle(cfg, st, slot, m, selected);
      && (Recovers(st'.replay, s) <==> Recovers(st.replay, s))
      && (Recovers(st.replay, s) ==> forall id :: id in st'.replay[s].messages.value <==>
            id in st.replay[s].messages.value || (s == slot && id == IdentOf(m)))
  {
    hide IdentOf, PushIf, PublishStatus, TallyOf;
    var st1 := Noted(PushStored(cfg, st, Received, slot, m), slot, m);
    if m.SlotStatus? {
      StatusTally(cfg, st1, slot, m, selected, 0, 0, Entry(0, None, 0, 0));
    } else {
      TallyIf(cfg, st1, Follows(cfg, st1, slot, m), OnConfirmed, slot, [m], 0, 0, m);
    }
  }

  lemma HandleKnows(cfg: Config, st: State, slot: Slot, m: Msg, selected: Option<Option<BankId>>,
                    start: map<Slot, ReplayInfo>, s: Slot)
    requires KnowsExactly(st, start, s)
    ensures KnowsExactly(Handle(cfg, st, slot, m, selected), start, s)
  {
    hide Handle, Heard, IdentOf, Incoming, Recovers;
    var st' := Handle(cfg, st, slot, m, selected);
    HandleNotes(cfg, st, slot, m, selected, s);
    IncomingHandle(cfg, st, slot, m, selected);
    if Recovers(st.replay, s) {
      RecoversMessages(st.replay, s);
      RecoversMessages(st'.replay, s);
      RecoversMessages(start, s);
      forall id: Ident
        ensures id in st'.replay[s].messages.value <==>
                id in start[s].messages.value || Heard(Incoming(st'.log), s, id)
      {
        HeardPush(Incoming(st.log), Record(Received, st.epoch, slot, None, m), s, id);
      }
    }
  }

  lemma RecoversMessages(replay: map<Slot, ReplayInfo>, s: Slot)
    requires Recovers(replay, s)
    ensures s in replay && replay[s].messages.Some?
  {
  }

  lemma PublishOneKnows(cfg: Config, st: State, slot: Slot, m: Msg, start: map<Slot, ReplayInfo>, s: Slot)
    requires Publishable(m) && KnowsExactly(st, start, s)
    ensures KnowsExactly(PublishOne(cfg, st, slot, m), start, s)
  {
    hide Handle, AbsorbMessage, Tracked, Heard;
    if m.SlotStatus? {
      var (info, selected) := Commit(Tracked(st, slot), m.status, m.bank);
      HandleKnows(cfg, st.(slots := st.slots[slot := info]), slot, m, selected, start, s);
    } else {
      var (info, block) := AbsorbMessage(Tracked(st, slot), m);
      var st1 := st.(slots := st.slots[slot := info]);
      HandleKnows(cfg, st1, slot, m, None, start, s);
      if block.Some? {
        HandleKnows(cfg, Handle(cfg, st1, slot, m, None), slot, block.value, None, start, s);
      }
    }
  }

  lemma {:induction false} PublishAllKnows(cfg: Config, st: State, slot: Slot, ms: seq<Msg>,
                                           start: map<Slot, ReplayInfo>, s: Slot)
    requires AllPublishable(ms) && KnowsExactly(st, start, s)
    ensures KnowsExactly(PublishAll(cfg, st, slot, ms), start, s)
  {
    hide PublishOne, KnowsExactly;
    if ms != [] {
      var n := |ms| - 1;
      PublishAllKnows(cfg, st, slot, ms[..n], start, s);
      PublishOneKnows(cfg, PublishAll(cfg, st, slot, ms[..n]), slot, ms[n], start, s);
    }
  }

  lemma StepKnows(cfg: Config, st: State, e: Event, st': State, start: map<Slot, ReplayInfo>, s: Slot)
    requires Step(cfg, st, e, st') && KnowsExactly(st, start, s)
    ensures KnowsExactly(st', start, s)
  {
    hide Admit, PublishAll, Finish, Heard, Incoming;
    match e
    case BeginLiveEpoch =>
    case Deliver(required, source, m) =>
      if !Ignored(st, m) {
        var (dedup, ms) := Admit(st.dedup, required, source, m).value;
        if ms != [] {
          var st0 := Entered(st.(dedup := dedup), m.slot);
          PublishAllKnows(cfg, st0, m.slot, ms, start, s);
          var st1 := PublishAll(cfg, st0, m.slot, ms);
          FinishKeeps(cfg, st1, st1.slotFinalized != st.slotFinalized);
        }
      }
  }

  lemma {:induction false} RunKnows(cfg: Config, states: seq<State>, events: seq<Event>, i: nat, s: Slot)
    requires Run(cfg, states, events) && i < |states|
    ensures KnowsExactly(states[i], states[0].replay, s)
  {
    hide Step, KnowsExactly;
    if i == 0 {
      NothingHeard(states[0], s);
    } else {
      RunKnows(cfg, states, events, i - 1, s);
      assert StepAt(cfg, states, events, i - 1);
      StepKnows(cfg, states[i - 1], events[i - 1], states[i], states[0].replay, s);
    }
  }

  lemma NothingHeard(st: State, s: Slot)
    requires Initial(st)
    ensures KnowsExactly(st, st.replay, s)
  {
  }

  /** Over any run: a message counts as journaled exactly if its slot was read back at the start and is still
      retained, and the same event is in what was read back or has been received since. Everything else is
      published. */
  lemma KnownIff(cfg: Config, states: seq<State>, events: seq<Event>, i: nat, s: Slot, m: Msg)
    requires Run(cfg, states, events) && i < |states|
    ensures Known(states[i], s, m) <==>
      && Recovers(states[i].replay, s) && Recovers(states[0].replay, s)
      && (IdentOf(m) in states[0].replay[s].messages.value || ReceivedAlready(Incoming(states[i].log), s, m))
  {
    hide Heard, IdentOf, Incoming, ReceivedAlready;
    RunKnows(cfg, states, events, i, s);
    ReceivedIsHeard(Incoming(states[i].log), s, m);
  }

  /** The same event was received for the slot before. */
  ghost predicate ReceivedAlready(incoming: seq<Record>, s: Slot, m: Msg) {
    exists i :: 0 <= i < |incoming| && incoming[i].slot == s && SameEvent(incoming[i].msg, m)
  }

  lemma ReceivedIsHeard(incoming: seq<Record>, s: Slot, m: Msg)
    ensures ReceivedAlready(incoming, s, m) <==> Heard(incoming, s, IdentOf(m))
  {
    hide IdentOf, SameEvent;
    forall i | 0 <= i < |incoming|
      ensures SameEvent(incoming[i].msg, m) <==> IdentOf(incoming[i].msg) == IdentOf(m)
    {
      IdentIff(incoming[i].msg, m);
    }
    if ReceivedAlready(incoming, s, m) {
      var i :| 0 <= i < |incoming| && incoming[i].slot == s && SameEvent(incoming[i].msg, m);
      assert HeardAs(incoming[i], s, IdentOf(m));
    }
  }
}
