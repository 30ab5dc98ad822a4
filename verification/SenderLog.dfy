/** Which records one event adds to the streams. */
module SenderLog {
  import opened Basics
  import opened Messages
  import opened SlotTracking
  import opened SenderModel
  import opened SenderStreams
  import opened SenderRetention

  // ----- journal indices -----

  ghost predicate BelowNext(log: seq<Record>, index: nat, i: nat)
    requires i < |log|
  {
    log[i].index.Some? ==> log[i].index.value < index
  }

  ghost predicate InOrder(log: seq<Record>, i: nat, j: nat)
    requires i < j < |log|
  {
    log[i].index.Some? && log[j].index.Some? ==> log[i].index.value < log[j].index.value
  }

  /** Journal indices strictly increase along the log, and the next one is above them all: what every ring
      demands of the indices it is given. */
  ghost predicate Numbered(log: seq<Record>, index: nat) {
    && (forall i :: 0 <= i < |log| ==> BelowNext(log, index, i))
    && (forall i, j :: 0 <= i < j < |log| ==> InOrder(log, i, j))
  }

  // ----- how the log grows -----

  /** A record of the given slot and epoch, not older in the journal than `index`. */
  predicate Comes(r: Record, e: nat, slot: Slot, index: nat, ms: seq<Msg>) {
    r.epoch == e && r.slot == slot && r.msg in ms && (r.index.Some? ==> r.index.value >= index)
  }

  /** The log has grown by records of the messages `ms`. */
  ghost predicate Grew(st: State, st': State, slot: Slot, ms: seq<Msg>) {
    && st.log <= st'.log && st'.index >= st.index && st'.epoch == st.epoch
    && (Numbered(st.log, st.index) ==> Numbered(st'.log, st'.index))
    && forall i :: |st.log| <= i < |st'.log| ==> Comes(st'.log[i], st.epoch, slot, st.index, ms)
  }

  lemma GrewTwice(st: State, st1: State, st2: State, slot: Slot, ms1: seq<Msg>, ms2: seq<Msg>, ms: seq<Msg>)
    requires Grew(st, st1, slot, ms1) && Grew(st1, st2, slot, ms2)
    requires forall m :: m in ms1 || m in ms2 ==> m in ms
    ensures Grew(st, st2, slot, ms)
  {
    forall i | |st.log| <= i < |st2.log|
      ensures Comes(st2.log[i], st.epoch, slot, st.index, ms)
    {
      if i < |st1.log| {
        assert st2.log[i] == st1.log[i];
        assert Comes(st1.log[i], st.epoch, slot, st.index, ms1);
      } else {
        assert Comes(st2.log[i], st1.epoch, slot, st1.index, ms2);
      }
    }
  }

  lemma PushGrows(cfg: Config, st: State, stream: Stream, slot: Slot, m: Msg)
    ensures Grew(st, PushStored(cfg, st, stream, slot, m), slot, [m])
  {
    var st' := PushStored(cfg, st, stream, slot, m);
    if Numbered(st.log, st.index) {
      forall i | 0 <= i < |st'.log|
        ensures BelowNext(st'.log, st'.index, i)
      {
        assert i < |st.log| ==> BelowNext(st.log, st.index, i);
      }
      forall i, j | 0 <= i < j < |st'.log|
        ensures InOrder(st'.log, i, j)
      {
        assert BelowNext(st.log, st.index, i);
        assert j < |st.log| ==> InOrder(st.log, i, j);
      }
    }
  }

  lemma {:induction false} PushEachGrows(cfg: Config, st: State, stream: Stream, slot: Slot, ms: seq<Msg>)
    ensures Grew(st, PushEach(cfg, st, stream, slot, ms), slot, ms)
  {
    if ms != [] {
      var n := |ms| - 1;
      var st1 := PushEach(cfg, st, stream, slot, ms[..n]);
      PushEachGrows(cfg, st, stream, slot, ms[..n]);
      PushGrows(cfg, st1, stream, slot, ms[n]);
      GrewTwice(st, st1, PushEach(cfg, st, stream, slot, ms), slot, ms[..n], [ms[n]], ms);
    }
  }

  lemma PushIfGrows(cfg: Config, st: State, condition: bool, stream: Stream, slot: Slot, ms: seq<Msg>)
    ensures Grew(st, PushIf(cfg, st, condition, stream, slot, ms), slot, ms)
  {
    PushEachGrows(cfg, st, stream, slot, ms);
  }

  lemma StatusGrows(cfg: Config, st: State, slot: Slot, m: Msg, selected: Option<Option<BankId>>)
    requires m.SlotStatus?
    ensures Grew(st, PublishStatus(cfg, st, slot, m, selected), slot, [m] + BankOf(st, slot, selected))
  {
    hide Grew, PushIf, PushStored, Stored;
    var bank := BankOf(st, slot, selected);
    var all := [m] + bank;
    var st1 := PushIf(cfg, st, cfg.confirmed, OnConfirmed, slot, [m]);
    PushIfGrows(cfg, st, cfg.confirmed, OnConfirmed, slot, [m]);
    var st2 := PushIf(cfg, st1, cfg.finalized, OnFinalized, slot, [m]);
    PushIfGrows(cfg, st1, cfg.finalized, OnFinalized, slot, [m]);
    GrewTwice(st, st1, st2, slot, [m], [m], all);
    var st3 := PushIf(cfg, st2, m.status == Confirmed && cfg.confirmed, OnConfirmed, slot, bank);
    PushIfGrows(cfg, st2, m.status == Confirmed && cfg.confirmed, OnConfirmed, slot, bank);
    GrewTwice(st, st2, st3, slot, all, bank, all);
    var st4 := PushIf(cfg, st3, m.status == Finalized && cfg.finalized, OnFinalized, slot, bank);
    PushIfGrows(cfg, st3, m.status == Finalized && cfg.finalized, OnFinalized, slot, bank);
    GrewTwice(st, st3, st4, slot, all, bank, all);
    var st5 :=
      if m.status != Finalized then st4
      else if cfg.finalized && selected.Some? then st4.(slotFinalized := slot, slots := st4.slots - {slot})
      else st4.(slotFinalized := slot);
    GrewSame(st, st4, st5, slot, all);
    PushGrows(cfg, st5, OnProcessed, slot, m);
    GrewTwice(st, st5, PushStored(cfg, st5, OnProcessed, slot, m), slot, all, [m], all);
  }

  lemma GrewSame(st: State, st1: State, st2: State, slot: Slot, ms: seq<Msg>)
    requires Grew(st, st1, slot, ms) && st2.log == st1.log && st2.index == st1.index && st2.epoch == st1.epoch
    ensures Grew(st, st2, slot, ms)
  {
  }

  lemma GrewFrom(st: State, st1: State, st2: State, slot: Slot, ms: seq<Msg>)
    requires Grew(st1, st2, slot, ms) && st.log == st1.log && st.index == st1.index && st.epoch == st1.epoch
    ensures Grew(st, st2, slot, ms)
  {
  }

  lemma HandleGrows(cfg: Config, st: State, slot: Slot, m: Msg, selected: Option<Option<BankId>>)
    ensures Grew(st, Handle(cfg, st, slot, m, selected), slot, [m] + BankOf(st, slot, selected))
  {
    hide Grew, PushIf, PushStored, Stored, PublishStatus, Known, IdentOf;
    var st0, all := PushStored(cfg, st, Received, slot, m), [m] + BankOf(st, slot, selected);
    PushGrows(cfg, st, Received, slot, m);
    PushFrame(cfg, st, Received, slot, m);
    GrewTwice(st, st, st0, slot, [], [m], all) by {
      GrewSelf(st, slot);
    }
    if !Known(st, slot, m) {
      var st1 := Noted(st0, slot, m);
      GrewSame(st, st0, st1, slot, all);
      if m.SlotStatus? {
        StatusGrows(cfg, st1, slot, m, selected);
        GrewTwice(st, st1, PublishStatus(cfg, st1, slot, m, selected), slot, all, all, all);
      } else {
        OtherGrows(cfg, st1, slot, m);
        GrewTwice(st, st1, PublishOther(cfg, st1, slot, m), slot, all, [m], all);
      }
    }
  }

  lemma GrewSelf(st: State, slot: Slot)
    ensures Grew(st, st, slot, [])
  {
  }

  lemma OtherGrows(cfg: Config, st: State, slot: Slot, m: Msg)
    ensures Grew(st, PublishOther(cfg, st, slot, m), slot, [m])
  {
    hide Grew, PushIf, PushStored;
    var st1 := PushIf(cfg, st, Follows(cfg, st, slot, m), OnConfirmed, slot, [m]);
    PushIfGrows(cfg, st, Follows(cfg, st, slot, m), OnConfirmed, slot, [m]);
    PushGrows(cfg, st1, OnProcessed, slot, m);
    GrewTwice(st, st1, PushStored(cfg, st1, OnProcessed, slot, m), slot, [m], [m], [m]);
  }

  /** The messages that one arrival puts on the streams: itself, its block, or the bank that its status
      selects. */
  function Emitted(st: State, slot: Slot, m: Msg): seq<Msg>
    requires Publishable(m)
  {
    if m.SlotStatus? then
      var selected := Commit(Tracked(st, slot), m.status, m.bank).1;
      [m] + if selected.Some? then Stored(Tracked(st, slot), selected.value) else []
    else
      var block := AbsorbMessage(Tracked(st, slot), m).1;
      [m] + if block.Some? then [block.value] else []
  }

  lemma PublishOneGrows(cfg: Config, st: State, slot: Slot, m: Msg)
    requires Publishable(m)
    ensures Grew(st, PublishOne(cfg, st, slot, m), slot, Emitted(st, slot, m))
  {
    hide Grew, Handle, AbsorbMessage, Tracked, Stored;
    if m.SlotStatus? {
      var (info, selected) := Commit(Tracked(st, slot), m.status, m.bank);
      var st1 := st.(slots := st.slots[slot := info]);
      HandleGrows(cfg, st1, slot, m, selected);
      if selected.Some? {
        CommitHolds(Tracked(st, slot), m.status, m.bank, selected.value, m);
      }
      GrewFrom(st, st1, Handle(cfg, st1, slot, m, selected), slot, Emitted(st, slot, m));
    } else {
      var (info, block) := AbsorbMessage(Tracked(st, slot), m);
      var st1 := st.(slots := st.slots[slot := info]);
      var st2 := Handle(cfg, st1, slot, m, None);
      HandleGrows(cfg, st1, slot, m, None);
      assert [m] + BankOf(st1, slot, None) == [m];
      GrewFrom(st, st1, st2, slot, [m]);
      if block.Some? {
        HandleGrows(cfg, st2, slot, block.value, None);
        assert [block.value] + BankOf(st2, slot, None) == [block.value];
        GrewTwice(st, st2, Handle(cfg, st2, slot, block.value, None), slot, [m], [block.value], Emitted(st, slot, m));
      }
    }
  }

  // ----- what each stream gains, in order -----

  /** The messages of one stream, in order. */
  function On(log: seq<Record>, stream: Stream): seq<Msg> {
    if log == [] then []
    else On(log[..|log| - 1], stream) + if log[|log| - 1].stream == stream then [log[|log| - 1].msg] else []
  }

  lemma OnPush(cfg: Config, st: State, to: Stream, slot: Slot, m: Msg, stream: Stream)
    ensures On(PushStored(cfg, st, to, slot, m).log, stream) == On(st.log, stream) + if to == stream then [m] else []
  {
    var log := PushStored(cfg, st, to, slot, m).log;
    assert log[..|log| - 1] == st.log;
  }

  lemma {:induction false} OnEach(cfg: Config, st: State, to: Stream, slot: Slot, ms: seq<Msg>, stream: Stream)
    ensures On(PushEach(cfg, st, to, slot, ms).log, stream) == On(st.log, stream) + if to == stream then ms else []
  {
    hide On, PushStored;
    if ms != [] {
      var n := |ms| - 1;
      OnEach(cfg, st, to, slot, ms[..n], stream);
      OnPush(cfg, PushEach(cfg, st, to, slot, ms[..n]), to, slot, ms[n], stream);
      assert ms == ms[..n] + [ms[n]];
      assert On(st.log, stream) + ms[..n] + [ms[n]] == On(st.log, stream) + ms;
    }
  }

  lemma OnIf(cfg: Config, st: State, condition: bool, to: Stream, slot: Slot, ms: seq<Msg>, stream: Stream)
    ensures On(PushIf(cfg, st, condition, to, slot, ms).log, stream) ==
            On(st.log, stream) + if condition && to == stream then ms else []
  {
    OnEach(cfg, st, to, slot, ms, stream);
  }

  /** The status itself on every stream there is; behind it, on confirmed or finalized, the messages of the
      selected bank in the order in which they were stored. */
  function StatusGain(cfg: Config, m: Msg, bank: seq<Msg>, stream: Stream): seq<Msg>
    requires m.SlotStatus?
  {
    match stream
    case Received => []
    case OnProcessed => [m]
    case OnConfirmed => if !cfg.confirmed then [] else [m] + if m.status == Confirmed then bank else []
    case OnFinalized => if !cfg.finalized then [] else [m] + if m.status == Finalized then bank else []
  }

  /** A status that is new: each stream grows by exactly its gain, and nothing else. */
  lemma StatusEmits(cfg: Config, st: State, slot: Slot, m: Msg, selected: Option<Option<BankId>>, stream: Stream)
    requires m.SlotStatus?
    ensures On(PublishStatus(cfg, st, slot, m, selected).log, stream) ==
            On(st.log, stream) + StatusGain(cfg, m, BankOf(st, slot, selected), stream)
  {
    hide On, PushIf, PushStored, Stored, StatusGain, Gain;
    var bank := BankOf(st, slot, selected);
    var st2 := PushIf(cfg, PushIf(cfg, st, cfg.confirmed, OnConfirmed, slot, [m]), cfg.finalized, OnFinalized, slot,
                      [m]);
    OnTwo(cfg, st, cfg.confirmed, cfg.finalized, slot, [m], stream);
    var confirms, finalizes := m.status == Confirmed && cfg.confirmed, m.status == Finalized && cfg.finalized;
    var st4 := PushIf(cfg, PushIf(cfg, st2, confirms, OnConfirmed, slot, bank), finalizes, OnFinalized, slot, bank);
    OnTwo(cfg, st2, confirms, finalizes, slot, bank, stream);
    var st5 :=
      if m.status != Finalized then st4
      else if cfg.finalized && selected.Some? then st4.(slotFinalized := slot, slots := st4.slots - {slot})
      else st4.(slotFinalized := slot);
    OnPush(cfg, st5, OnProcessed, slot, m, stream);
    GainsAddUp(cfg, m, bank, stream, On(st.log, stream));
  }

  /** What two conditional pushes, to confirmed and to finalized, add to a stream. */
  function Gain(confirms: bool, finalizes: bool, ms: seq<Msg>, stream: Stream): seq<Msg> {
    if (confirms && stream.OnConfirmed?) || (finalizes && stream.OnFinalized?) then ms else []
  }

  lemma OnTwo(cfg: Config, st: State, confirms: bool, finalizes: bool, slot: Slot, ms: seq<Msg>, stream: Stream)
    ensures On(PushIf(cfg, PushIf(cfg, st, confirms, OnConfirmed, slot, ms), finalizes, OnFinalized, slot, ms).log,
          stream) ==
            On(st.log, stream) + Gain(confirms, finalizes, ms, stream)
  {
    hide On, PushIf;
    OnIf(cfg, st, confirms, OnConfirmed, slot, ms, stream);
    OnIf(cfg, PushIf(cfg, st, confirms, OnConfirmed, slot, ms), finalizes, OnFinalized, slot, ms, stream);
  }

  lemma GainsAddUp(cfg: Config, m: Msg, bank: seq<Msg>, stream: Stream, before: seq<Msg>)
    requires m.SlotStatus?
    ensures before + Gain(cfg.confirmed, cfg.finalized, [m], stream)
            + Gain(m.status == Confirmed && cfg.confirmed, m.status == Finalized && cfg.finalized, bank, stream)
            + (if OnProcessed == stream then [m] else [])
            == before + StatusGain(cfg, m, bank, stream)
  {
  }

  /** Any other message that is new: processed gains it, confirmed too if its bank is the confirmed one. */
  lemma OtherEmits(cfg: Config, st: State, slot: Slot, m: Msg, stream: Stream)
    ensures On(PublishOther(cfg, st, slot, m).log, stream) ==
            On(st.log, stream) + if stream.OnProcessed? || (stream.OnConfirmed? && Follows(cfg, st, slot, m))
                  then [m] else []
  {
    hide On, PushIf, PushStored;
    var condition := Follows(cfg, st, slot, m);
    OnIf(cfg, st, condition, OnConfirmed, slot, [m], stream);
    OnPush(cfg, PushIf(cfg, st, condition, OnConfirmed, slot, [m]), OnProcessed, slot, m, stream);
  }

  /** A message that the journal of an earlier run already has goes to no stream. */
  lemma KnownEmitsNothing(cfg: Config, st: State, slot: Slot, m: Msg, selected: Option<Option<BankId>>, stream: Stream)
    requires Known(st, slot, m) && stream != Received
    ensures On(Handle(cfg, st, slot, m, selected).log, stream) == On(st.log, stream)
  {
    hide On, PushStored, IdentOf;
    OnPush(cfg, st, Received, slot, m, stream);
  }
}
