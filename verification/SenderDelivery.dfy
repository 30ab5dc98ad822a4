/** Which deliveries the sender accepts, over any run and told without its dedup records: by the deliveries that came
    before and by what was received of them. */
module SenderDelivery {
  import opened Basics
  import opened Messages
  import opened SlotTracking
  import opened SenderModel
  import opened SenderAdmission
  import opened SenderRetention
  import opened SenderStreams
  import opened SenderInvariant
  import opened SenderLog
  import opened SenderBounds
  import opened SenderRuns
  import Dedup
  import DedupLaws

  // ----- what a step receives -----

  /** The messages without the blocks that the sender makes itself. */
  function NoBlocks(ms: seq<Msg>): seq<Msg> {
    if ms == [] then []
    else NoBlocks(ms[..|ms| - 1]) + if ms[|ms| - 1].Block? then [] else [ms[|ms| - 1]]
  }

  /** What a step has received: the messages that it adds to the `Received` stream. */
  function Gain(st: State, st': State): seq<Msg> {
    if |st.log| <= |st'.log| then NoBlocks(On(st'.log[|st.log|..], Received)) else []
  }

  lemma NoBlocksPush(ms: seq<Msg>, m: Msg)
    ensures NoBlocks(ms + [m]) == NoBlocks(ms) + if m.Block? then [] else [m]
  {
    assert (ms + [m])[..|ms|] == ms;
  }

  lemma {:induction false} NoBlocksSplit(a: seq<Msg>, b: seq<Msg>)
    ensures NoBlocks(a + b) == NoBlocks(a) + NoBlocks(b)
  {
    if b == [] {
      assert a + b == a;
    } else {
      var n := |b| - 1;
      NoBlocksSplit(a, b[..n]);
      assert a + b == (a + b[..n]) + [b[n]];
      NoBlocksPush(a + b[..n], b[n]);
      assert NoBlocks(a + b[..n]) + (if b[n].Block? then [] else [b[n]]) ==
             NoBlocks(a) + (NoBlocks(b[..n]) + if b[n].Block? then [] else [b[n]]);
    }
  }

  lemma {:induction false} OnSplit(a: seq<Record>, b: seq<Record>, stream: Stream)
    ensures On(a + b, stream) == On(a, stream) + On(b, stream)
  {
    if b == [] {
      assert a + b == a;
    } else {
      var n := |b| - 1;
      OnSplit(a, b[..n], stream);
      assert (a + b)[..|a| + n] == a + b[..n];
    }
  }

  /** Handling one message receives it, whether or not it is published. */
  lemma HandleReceives(cfg: Config, st: State, slot: Slot, m: Msg, selected: Option<Option<BankId>>)
    ensures On(Handle(cfg, st, slot, m, selected).log, Received) == On(st.log, Received) + [m]
  {
    hide On, PushStored, PublishStatus, PublishOther, IdentOf, Known, StatusGain;
    OnPush(cfg, st, Received, slot, m, Received);
    var st1 := Noted(PushStored(cfg, st, Received, slot, m), slot, m);
    if m.SlotStatus? {
      StatusEmits(cfg, st1, slot, m, selected, Received);
      NoStatusGain(cfg, m, BankOf(st1, slot, selected));
    } else {
      OtherEmits(cfg, st1, slot, m, Received);
    }
  }

  lemma NoStatusGain(cfg: Config, m: Msg, bank: seq<Msg>)
    requires m.SlotStatus?
    ensures StatusGain(cfg, m, bank, Received) == []
  {
  }

  lemma PublishOneReceives(cfg: Config, st: State, slot: Slot, m: Msg)
    requires Publishable(m)
    ensures NoBlocks(On(PublishOne(cfg, st, slot, m).log, Received)) == NoBlocks(On(st.log, Received)) + [m]
  {
    hide On, Handle, AbsorbMessage, NoBlocks;
    if m.SlotStatus? {
      var (info, selected) := Commit(Tracked(st, slot), m.status, m.bank);
      var st1 := st.(slots := st.slots[slot := info]);
      HandleReceives(cfg, st1, slot, m, selected);
      NoBlocksPush(On(st.log, Received), m);
    } else {
      var (info, block) := AbsorbMessage(Tracked(st, slot), m);
      var st1 := st.(slots := st.slots[slot := info]);
      HandleReceives(cfg, st1, slot, m, None);
      NoBlocksPush(On(st.log, Received), m);
      if block.Some? {
        AbsorbYieldsBlock(Tracked(st, slot), m);
        var st2 := Handle(cfg, st1, slot, m, None);
        HandleReceives(cfg, st2, slot, block.value, None);
        NoBlocksPush(On(st2.log, Received), block.value);
      }
    }
  }

  lemma {:induction false} PublishAllReceives(cfg: Config, st: State, slot: Slot, ms: seq<Msg>)
    requires AllPublishable(ms)
    ensures NoBlocks(On(PublishAll(cfg, st, slot, ms).log, Received)) == NoBlocks(On(st.log, Received)) + ms
  {
    hide On, NoBlocks, PublishOne;
    if ms != [] {
      var n := |ms| - 1;
      PublishAllReceives(cfg, st, slot, ms[..n]);
      PublishOneReceives(cfg, PublishAll(cfg, st, slot, ms[..n]), slot, ms[n]);
      assert ms == ms[..n] + [ms[n]];
    }
  }

  /** A delivery that is not ignored receives exactly what passes dedup; an ignored one nothing. */
  lemma StepReceives(cfg: Config, st: State, e: Event, st': State)
    requires Step(cfg, st, e, st')
    ensures st.log <= st'.log
    ensures Gain(st, st') ==
      if e.Deliver? && !Ignored(st, e.message)
      then Admit(st.dedup, e.dedupRequired, e.source, e.message).value.1 else []
  {
    hide On, NoBlocks, Admit, PublishAll, Finish, BatchFrame;
    NothingGained(st.log);
    if e.Deliver? && !Ignored(st, e.message) {
      var (dedup, ms) := Admit(st.dedup, e.dedupRequired, e.source, e.message).value;
      if ms != [] {
        var st0 := Entered(st.(dedup := dedup), e.message.slot);
        var st1 := PublishAll(cfg, st0, e.message.slot, ms);
        PublishAllReceives(cfg, st0, e.message.slot, ms);
        LogExtends(cfg, st0, e.message.slot, ms);
        FinishKeeps(cfg, st1, st1.slotFinalized != st.slotFinalized);
        GainIs(st.log, st'.log, ms);
      }
    }
  }

  lemma NothingGained(log: seq<Record>)
    ensures log[|log|..] == [] && NoBlocks(On(log[|log|..], Received)) == []
  {
  }

  lemma LogExtends(cfg: Config, st: State, slot: Slot, ms: seq<Msg>)
    requires AllPublishable(ms)
    ensures st.log <= PublishAll(cfg, st, slot, ms).log
  {
    hide PublishAll;
    PublishAllFrame(cfg, st, slot, ms);
  }

  lemma GainIs(log: seq<Record>, log': seq<Record>, ms: seq<Msg>)
    requires log <= log' && NoBlocks(On(log', Received)) == NoBlocks(On(log, Received)) + ms
    ensures NoBlocks(On(log'[|log|..], Received)) == ms
  {
    hide On, NoBlocks;
    var new_ := log'[|log|..];
    assert log' == log + new_;
    OnSplit(log, new_, Received);
    NoBlocksSplit(On(log, Received), On(new_, Received));
    var a := NoBlocks(On(log, Received));
    assert (a + NoBlocks(On(new_, Received)))[|a|..] == NoBlocks(On(new_, Received));
    assert (a + ms)[|a|..] == ms;
  }

  // ----- deliveries that dedup looks at, and the source it listens to -----

  /** A delivery for slot `s` that is subject to dedup. */
  predicate Considered(st: State, e: Event, s: Slot) {
    e.Deliver? && e.dedupRequired && e.message.slot == s && !Ignored(st, e.message)
  }

  /** The dedup record of slot `s` was made by the event after state i and is kept up to state k. */
  ghost predicate FreshSince(states: seq<State>, i: nat, k: nat, s: Slot) {
    i <= k < |states| && s !in states[i].dedup && forall q :: i < q <= k ==> s in states[q].dedup
  }

  /** The source of the first considered delivery with a bank, from event i on. */
  ghost function FirstSource(states: seq<State>, events: seq<Event>, i: nat, k: nat, s: Slot): Option<nat>
    requires i <= k <= |events| < |states|
  {
    if k == i then None
    else
      var before := FirstSource(states, events, i, k - 1, s);
      if before.Some? then before
      else if Considered(states[k - 1], events[k - 1], s) && events[k - 1].message.bank.Some? then
        Some(events[k - 1].source)
      else None
  }

  /** Event q is considered, and it names no bank, or comes from the first source that did. */
  ghost predicate Allowed(states: seq<State>, events: seq<Event>, i: nat, q: nat, s: Slot)
    requires i <= q < |events| < |states|
  {
    && Considered(states[q], events[q], s)
    && (events[q].message.bank.None? || FirstSource(states, events, i, q, s) in {None, Some(events[q].source)})
  }

  /** Event q received its own message. */
  ghost predicate Accepted(states: seq<State>, events: seq<Event>, q: nat)
    requires q < |events| < |states|
  {
    events[q].Deliver? && events[q].message in Gain(states[q], states[q + 1])
  }

  /** A considered delivery of the message was accepted before event k. */
  ghost predicate AcceptedBefore(states: seq<State>, events: seq<Event>, i: nat, k: nat, s: Slot, m: Msg)
    requires i <= k <= |events| < |states|
  {
    exists q :: i <= q < k && AcceptedAt(states, events, q, s, m)
  }

  ghost predicate AcceptedAt(states: seq<State>, events: seq<Event>, q: nat, s: Slot, m: Msg)
    requires q < |events| < |states|
  {
    Considered(states[q], events[q], s) && events[q].message == m && Accepted(states, events, q)
  }

  /** Event q brings a message of bank `bank` that is no status. */
  ghost predicate Brings(states: seq<State>, events: seq<Event>, i: nat, q: nat, s: Slot, bank: Option<BankId>)
    requires i <= q < |events| < |states|
  {
    Allowed(states, events, i, q, s) && !events[q].message.SlotStatus? && events[q].message.bank == bank
  }

  /** The messages of the bank that were delivered, in order. */
  ghost function Brought(states: seq<State>, events: seq<Event>, i: nat, k: nat, s: Slot,
                         bank: Option<BankId>): seq<Msg>
    requires i <= k <= |events| < |states|
  {
    if k == i then []
    else
      Brought(states, events, i, k - 1, s, bank)
      + if Brings(states, events, i, k - 1, s, bank) then [events[k - 1].message] else []
  }

  /** What was received by these deliveries, in order. */
  ghost function Taken(states: seq<State>, events: seq<Event>, i: nat, k: nat, s: Slot, bank: Option<BankId>): seq<Msg>
    requires i <= k <= |events| < |states|
  {
    if k == i then []
    else
      Taken(states, events, i, k - 1, s, bank)
      + if Brings(states, events, i, k - 1, s, bank) then Gain(states[k - 1], states[k]) else []
  }

  // ----- what the dedup record knows -----

  function RecordOf(st: State, s: Slot): DedupInfo {
    if s in st.dedup then st.dedup[s] else NEW_DEDUP
  }

  function BankRecord(d: DedupInfo, bank: Option<BankId>): Dedup.DedupBank {
    if bank in d.banks then d.banks[bank] else Dedup.NEW_DEDUP_BANK
  }

  /** The record's source, statuses and banks are those of the deliveries from event i to event k. */
  ghost predicate StatusesAre(d: DedupInfo, states: seq<State>, events: seq<Event>, i: nat, k: nat, s: Slot)
    requires i <= k <= |events| < |states|
  {
    forall bank, status ::
      HasPassed(d, bank, status) <==> AcceptedBefore(states, events, i, k, s, SlotStatus(s, bank, status))
  }

  ghost predicate BankIs(d: DedupInfo, states: seq<State>, events: seq<Event>, i: nat, k: nat, s: Slot,
                         bank: Option<BankId>)
    requires i <= k <= |events| < |states|
  {
    Dedup.Run(Brought(states, events, i, k, s, bank)) ==
    Some((BankRecord(d, bank), Taken(states, events, i, k, s, bank)))
  }

  ghost predicate RecordIs(d: DedupInfo, states: seq<State>, events: seq<Event>, i: nat, k: nat, s: Slot)
    requires i <= k <= |events| < |states|
  {
    && d.source == FirstSource(states, events, i, k, s)
    && StatusesAre(d, states, events, i, k, s)
    && forall bank :: BankIs(d, states, events, i, k, s, bank)
  }

  lemma RecordAtFirst(states: seq<State>, events: seq<Event>, i: nat, s: Slot)
    requires i <= |events| < |states|
    ensures RecordIs(NEW_DEDUP, states, events, i, i, s)
  {
    forall bank: Option<BankId>
      ensures BankIs(NEW_DEDUP, states, events, i, i, s, bank)
    {
    }
  }

  // ----- one delivery -----

  /** What one considered delivery does to the record and receives. */
  lemma ConsideredStep(cfg: Config, st: State, e: Event, st': State, s: Slot)
    requires Step(cfg, st, e, st') && Considered(st, e, s)
    ensures !e.message.Block? && AdmitTo(RecordOf(st, s), e.source, e.message).Some?
    ensures var (d, ms) := AdmitTo(RecordOf(st, s), e.source, e.message).value;
      Gain(st, st') == ms && (s in st'.dedup ==> st'.dedup[s] == d)
  {
    hide AdmitTo, Finish, PublishAll, Gain;
    StepReceives(cfg, st, e, st');
    var (dedup, ms) := Admit(st.dedup, true, e.source, e.message).value;
    if ms != [] {
      var st0 := Entered(st.(dedup := dedup), s);
      PublishAllFrame(cfg, st0, s, ms);
      var st1 := PublishAll(cfg, st0, s, ms);
      FinishKeeps(cfg, st1, st1.slotFinalized != st.slotFinalized);
    }
  }

  /** Any other event leaves the record alone for as long as it is kept, and makes none. */
  lemma OtherStep(cfg: Config, st: State, e: Event, st': State, s: Slot)
    requires Step(cfg, st, e, st') && !Considered(st, e, s) && s in st'.dedup
    ensures s in st.dedup && st'.dedup[s] == st.dedup[s]
  {
    hide AdmitTo, Finish, PublishAll;
    if e.Deliver? && !Ignored(st, e.message) {
      var (dedup, ms) := Admit(st.dedup, e.dedupRequired, e.source, e.message).value;
      if ms != [] {
        var st0 := Entered(st.(dedup := dedup), e.message.slot);
        PublishAllFrame(cfg, st0, e.message.slot, ms);
        var st1 := PublishAll(cfg, st0, e.message.slot, ms);
        FinishKeeps(cfg, st1, st1.slotFinalized != st.slotFinalized);
      }
    }
  }

  /** Admission of a status. */
  lemma AdmitToStatus(d: DedupInfo, source: nat, m: Msg)
    requires m.SlotStatus?
    ensures AdmitTo(d, source, m).Some?
    ensures var (d', ms) := AdmitTo(d, source, m).value;
      var allowed := m.bank.None? || d.source in {None, Some(source)};
      && ms == (if allowed && !HasPassed(d, m.bank, m.status) then [m] else [])
      && d'.source == (if m.bank.Some? && d.source.None? then Some(source) else d.source)
      && d'.banks == d.banks
      && forall bank, status :: HasPassed(d', bank, status) <==>
           HasPassed(d, bank, status) || (allowed && bank == m.bank && status == m.status)
  {
  }

  /** Admission of anything else. */
  lemma AdmitToBank(d: DedupInfo, source: nat, m: Msg)
    requires !m.SlotStatus? && AdmitTo(d, source, m).Some?
    ensures var (d', ms) := AdmitTo(d, source, m).value;
      var allowed := m.bank.None? || d.source in {None, Some(source)};
      && d'.source == (if m.bank.Some? && d.source.None? then Some(source) else d.source)
      && (forall bank, status :: HasPassed(d', bank, status) <==> HasPassed(d, bank, status))
      && (!allowed ==> ms == [] && d' == d)
      && (allowed ==> Dedup.Accept(BankRecord(d, m.bank), m) == Some((BankRecord(d', m.bank), ms)))
      && forall bank :: bank != m.bank ==> BankRecord(d', bank) == BankRecord(d, bank)
  {
    hide Dedup.Accept;
  }

  // ----- whole runs -----

  lemma AcceptedNext(states: seq<State>, events: seq<Event>, i: nat, q: nat, s: Slot, m: Msg)
    requires i <= q < |events| < |states|
    ensures AcceptedBefore(states, events, i, q + 1, s, m) <==>
            AcceptedBefore(states, events, i, q, s, m) || AcceptedAt(states, events, q, s, m)
  {
  }

  lemma StatusesNext(d: DedupInfo, d': DedupInfo, ms: seq<Msg>, states: seq<State>, events: seq<Event>, i: nat, q: nat,
                     next: nat, s: Slot)
    requires i <= q < |events| < |states| && next == q + 1 && StatusesAre(d, states, events, i, q, s)
    requires d.source == FirstSource(states, events, i, q, s) && Considered(states[q], events[q], s)
    requires AdmitTo(d, events[q].source, events[q].message) == Some((d', ms)) && Gain(states[q], states[q + 1]) == ms
    ensures StatusesAre(d', states, events, i, next, s)
  {
    hide AdmitTo, Gain, Ignored, AcceptedBefore, FirstSource;
    var m := events[q].message;
    if m.SlotStatus? {
      AdmitToStatus(d, events[q].source, m);
    } else {
      AdmitToBank(d, events[q].source, m);
    }
    forall bank, status
      ensures HasPassed(d', bank, status) <==>
              AcceptedBefore(states, events, i, next, s, SlotStatus(s, bank, status))
    {
      AcceptedNext(states, events, i, q, s, SlotStatus(s, bank, status));
      assert HasPassed(d, bank, status) <==> AcceptedBefore(states, events, i, q, s, SlotStatus(s, bank, status));
    }
  }

  lemma RunNext(ms: seq<Msg>, m: Msg, b: Dedup.DedupBank, log: seq<Msg>, b': Dedup.DedupBank, out: seq<Msg>)
    requires Dedup.Run(ms) == Some((b, log)) && Dedup.Accept(b, m) == Some((b', out))
    ensures Dedup.Run(ms + [m]) == Some((b', log + out))
  {
    hide Dedup.Accept;
    assert (ms + [m])[..|ms|] == ms;
  }

  lemma BankNext(d: DedupInfo, d': DedupInfo, ms: seq<Msg>, states: seq<State>, events: seq<Event>, i: nat, q: nat,
                 next: nat, s: Slot, bank: Option<BankId>)
    requires i <= q < |events| < |states| && next == q + 1 && BankIs(d, states, events, i, q, s, bank)
    requires d.source == FirstSource(states, events, i, q, s) && Considered(states[q], events[q], s)
    requires AdmitTo(d, events[q].source, events[q].message) == Some((d', ms)) && Gain(states[q], states[q + 1]) == ms
    ensures BankIs(d', states, events, i, next, s, bank)
  {
    hide AdmitTo, Gain, Ignored, FirstSource, Dedup.Run, Dedup.Accept;
    var m := events[q].message;
    assert !Brings(states, events, i, q, s, bank) ==>
      && Brought(states, events, i, next, s, bank) == Brought(states, events, i, q, s, bank)
      && Taken(states, events, i, next, s, bank) == Taken(states, events, i, q, s, bank);
    if m.SlotStatus? {
      AdmitToStatus(d, events[q].source, m);
    } else {
      AdmitToBank(d, events[q].source, m);
      if Brings(states, events, i, q, s, bank) {
        RunNext(Brought(states, events, i, q, s, bank), m, BankRecord(d, bank), Taken(states, events, i, q, s, bank),
                BankRecord(d', bank), ms);
      }
    }
  }

  lemma RecordNext(d: DedupInfo, d': DedupInfo, ms: seq<Msg>, states: seq<State>, events: seq<Event>, i: nat, q: nat,
                   next: nat, s: Slot)
    requires i <= q < |events| < |states| && next == q + 1 && RecordIs(d, states, events, i, q, s)
    requires Considered(states[q], events[q], s)
    requires AdmitTo(d, events[q].source, events[q].message) == Some((d', ms)) && Gain(states[q], states[q + 1]) == ms
    ensures RecordIs(d', states, events, i, next, s)
  {
    hide AdmitTo, Gain, Ignored, StatusesAre, BankIs;
    if events[q].message.SlotStatus? {
      AdmitToStatus(d, events[q].source, events[q].message);
    } else {
      AdmitToBank(d, events[q].source, events[q].message);
    }
    StatusesNext(d, d', ms, states, events, i, q, next, s);
    forall bank: Option<BankId>
      ensures BankIs(d', states, events, i, next, s, bank)
    {
      BankNext(d, d', ms, states, events, i, q, next, s, bank);
    }
  }

  /** An event that is not considered changes none of it. */
  lemma RecordRests(d: DedupInfo, states: seq<State>, events: seq<Event>, i: nat, q: nat, next: nat, s: Slot)
    requires i <= q < |events| < |states| && next == q + 1 && RecordIs(d, states, events, i, q, s)
    requires !Considered(states[q], events[q], s)
    ensures RecordIs(d, states, events, i, next, s)
  {
    hide Considered, Dedup.Run, AcceptedBefore;
    forall bank, status
      ensures HasPassed(d, bank, status) <==>
              AcceptedBefore(states, events, i, next, s, SlotStatus(s, bank, status))
    {
      AcceptedNext(states, events, i, q, s, SlotStatus(s, bank, status));
      assert HasPassed(d, bank, status) <==> AcceptedBefore(states, events, i, q, s, SlotStatus(s, bank, status));
    }
    forall bank: Option<BankId>
      ensures BankIs(d, states, events, i, next, s, bank)
    {
      assert BankIs(d, states, events, i, q, s, bank);
      assert Brought(states, events, i, next, s, bank) == Brought(states, events, i, q, s, bank);
      assert Taken(states, events, i, next, s, bank) == Taken(states, events, i, q, s, bank);
    }
  }

  lemma {:induction false} RecordIsExact(cfg: Config, states: seq<State>, events: seq<Event>, i: nat, k: nat, s: Slot)
    requires Run(cfg, states, events) && FreshSince(states, i, k, s)
    ensures RecordIs(RecordOf(states[k], s), states, events, i, k, s)
    decreases k
  {
    hide Step, Initial, RecordIs, Considered, AdmitTo, Gain;
    if k == i {
      RecordAtFirst(states, events, i, s);
    } else {
      RecordIsExact(cfg, states, events, i, k - 1, s);
      assert StepAt(cfg, states, events, k - 1);
      var d := RecordOf(states[k - 1], s);
      if Considered(states[k - 1], events[k - 1], s) {
        ConsideredIsDelivery(states[k - 1], events[k - 1], s);
        ConsideredStep(cfg, states[k - 1], events[k - 1], states[k], s);
        var (d', ms) := AdmitTo(d, events[k - 1].source, events[k - 1].message).value;
        RecordNext(d, d', ms, states, events, i, k - 1, k, s);
      } else {
        OtherStep(cfg, states[k - 1], events[k - 1], states[k], s);
        RecordRests(d, states, events, i, k - 1, k, s);
      }
    }
  }

  lemma ConsideredIsDelivery(st: State, e: Event, s: Slot)
    requires Considered(st, e, s)
    ensures e.Deliver? && e.message.slot == s
  {
  }

  /** Over any run, while the dedup record of a slot is kept: a status is accepted if and only if it names no bank or
      comes from the first source that named one, and no earlier delivery of that bank and status was accepted. */
  lemma StatusPassesIff(cfg: Config, states: seq<State>, events: seq<Event>, i: nat, k: nat, s: Slot)
    requires Run(cfg, states, events) && k < |events| && FreshSince(states, i, k, s)
    requires Considered(states[k], events[k], s) && events[k].message.SlotStatus?
    ensures Accepted(states, events, k) <==>
            Allowed(states, events, i, k, s) && !AcceptedBefore(states, events, i, k, s, events[k].message)
  {
    hide Step, Initial, Run, AdmitTo, Gain, AcceptedBefore, FirstSource, Ignored;
    RecordIsExact(cfg, states, events, i, k, s);
    StepOfRun(cfg, states, events, k);
    assert StepAt(cfg, states, events, k);
    ConsideredStep(cfg, states[k], events[k], states[k + 1], s);
    var m := events[k].message;
    AdmitToStatus(RecordOf(states[k], s), events[k].source, m);
    assert m == SlotStatus(s, m.bank, m.status);
  }

  lemma StepOfRun(cfg: Config, states: seq<State>, events: seq<Event>, k: nat)
    requires Run(cfg, states, events) && k < |events|
    ensures |states| == |events| + 1 && StepAt(cfg, states, events, k)
  {
  }

  /** Likewise for the messages of a bank: what has been received of those that were delivered, from the source that is
      listened to, is what dedup owes of them: each transaction, entry and account once, as the laws of `DedupLaws`
      say. */
  lemma BankReceivesExactly(cfg: Config, states: seq<State>, events: seq<Event>, i: nat, k: nat, s: Slot,
                            bank: Option<BankId>)
    requires Run(cfg, states, events) && k < |events| && FreshSince(states, i, k, s)
    ensures Dedup.Published(Taken(states, events, i, k + 1, s, bank), Brought(states, events, i, k + 1, s, bank))
  {
    hide Step, Initial, Run, AdmitTo, Gain, RecordIs, Considered, Dedup.Published, Dedup.Run;
    RecordIsExact(cfg, states, events, i, k, s);
    StepOfRun(cfg, states, events, k);
    assert StepAt(cfg, states, events, k);
    var d := RecordOf(states[k], s);
    if Considered(states[k], events[k], s) {
      ConsideredIsDelivery(states[k], events[k], s);
      ConsideredStep(cfg, states[k], events[k], states[k + 1], s);
      var (d', ms) := AdmitTo(d, events[k].source, events[k].message).value;
      RecordNext(d, d', ms, states, events, i, k, k + 1, s);
      BankOfRecord(d', states, events, i, k + 1, s, bank);
    } else {
      RecordRests(d, states, events, i, k, k + 1, s);
      BankOfRecord(d, states, events, i, k + 1, s, bank);
    }
    Dedup.RunPublishes(Brought(states, events, i, k + 1, s, bank));
  }

  /** So, as long as the record of the slot is kept, an account of a transaction that was brought is received exactly
      once when its transaction has been brought too, with the version that the transaction gives it. */
  lemma AccountIsReceived(cfg: Config, states: seq<State>, events: seq<Event>, i: nat, k: nat, s: Slot,
                          bank: Option<BankId>, signature: Signature, pubkey: Pubkey, a: nat, t: nat)
    requires Run(cfg, states, events) && k < |events| && FreshSince(states, i, k, s)
    requires var ms := Brought(states, events, i, k + 1, s, bank);
      && DedupLaws.FirstOf(ms, m => DedupLaws.IsAccount(m, Some(signature), pubkey), a)
      && DedupLaws.FirstOf(ms, m => DedupLaws.IsTransaction(m, signature), t)
    ensures var ms := Brought(states, events, i, k + 1, s, bank);
      DedupLaws.OnlyOne(Taken(states, events, i, k + 1, s, bank),
                        m => DedupLaws.IsAccount(m, Some(signature), pubkey),
                        ms[a].(writeVersion := ms[t].index + 1000))
  {
    hide Run, Brought, Taken, Dedup.Published;
    StepOfRun(cfg, states, events, k);
    BankReceivesExactly(cfg, states, events, i, k, s, bank);
    DedupLaws.SignedAccountIsPublished(Taken(states, events, i, k + 1, s, bank),
                                       Brought(states, events, i, k + 1, s, bank), signature, pubkey, a, t);
  }

  lemma BankOfRecord(d: DedupInfo, states: seq<State>, events: seq<Event>, i: nat, k: nat, s: Slot,
                     bank: Option<BankId>)
    requires i <= k <= |events| < |states| && RecordIs(d, states, events, i, k, s)
    ensures Dedup.Run(Brought(states, events, i, k, s, bank)) ==
            Some((BankRecord(d, bank), Taken(states, events, i, k, s, bank)))
  {
    assert BankIs(d, states, events, i, k, s, bank);
  }

  /** Nothing is received from another source. */
  lemma OthersAreUnheard(cfg: Config, states: seq<State>, events: seq<Event>, i: nat, k: nat, s: Slot)
    requires Run(cfg, states, events) && k < |events| && FreshSince(states, i, k, s)
    requires Considered(states[k], events[k], s) && !Allowed(states, events, i, k, s)
    ensures Gain(states[k], states[k + 1]) == []
  {
    hide Step, Initial, Run, AdmitTo, Gain, FirstSource, Ignored, StatusesAre, BankIs;
    RecordIsExact(cfg, states, events, i, k, s);
    StepOfRun(cfg, states, events, k);
    assert StepAt(cfg, states, events, k);
    ConsideredStep(cfg, states[k], events[k], states[k + 1], s);
    if events[k].message.SlotStatus? {
      AdmitToStatus(RecordOf(states[k], s), events[k].source, events[k].message);
    } else {
      AdmitToBank(RecordOf(states[k], s), events[k].source, events[k].message);
    }
  }

  /** Without dedup every delivery that is not ignored is received as it is. */
  lemma WithoutDedup(cfg: Config, st: State, e: Event, st': State)
    requires Step(cfg, st, e, st') && e.Deliver? && !e.dedupRequired
    ensures Gain(st, st') == if Ignored(st, e.message) then [] else [e.message]
  {
    hide Gain, PublishAll, Finish;
    StepReceives(cfg, st, e, st');
  }
}
