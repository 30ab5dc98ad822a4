/** The sender and the rings it writes to, together: a ring that is given the records of its stream one by one
    always gets what its contract demands, and the cursors taken from it are complete. */
module SenderRings {
  import opened Basics
  import opened Messages
  import opened SenderModel
  import opened SenderBounds
  import opened SenderRuns
  import SenderLog
  import RingCore
  import CommitmentRing

  /** What the ring stores of a record; `encode` gives kind and size of a message. */
  function EventFor(r: Record, encode: Msg -> RingCore.Message): RingCore.Event {
    RingCore.Event(r.slot, encode(r.msg), r.index)
  }

  function EventsOn(log: seq<Record>, stream: Stream, encode: Msg -> RingCore.Message): seq<RingCore.Event> {
    if log == [] then []
    else
      var last := log[|log| - 1];
      EventsOn(log[..|log| - 1], stream, encode) + if last.stream == stream then [EventFor(last, encode)] else []
  }

  function OfEpoch(log: seq<Record>, e: nat): seq<Record> {
    if log == [] then []
    else
      var last := log[|log| - 1];
      OfEpoch(log[..|log| - 1], e) + if last.epoch == e then [last] else []
  }

  /** The ring has been given the records of its stream, and its epoch began where the sender's did. */
  ghost predicate Fed(past: CommitmentRing.Past, log: seq<Record>, e: nat, stream: Stream,
                      encode: Msg -> RingCore.Message) {
    && past.history == EventsOn(log, stream, encode) && past.epochStart <= |past.history|
    && past.history[past.epochStart..] == EventsOn(OfEpoch(log, e), stream, encode)
  }

  lemma FedAtFirst(stream: Stream, encode: Msg -> RingCore.Message, floor: nat)
    ensures Fed(CommitmentRing.Past([], 0, floor), [], 0, stream, encode)
  {
  }

  lemma EventsPush(log: seq<Record>, r: Record, stream: Stream, encode: Msg -> RingCore.Message)
    ensures EventsOn(log + [r], stream, encode) ==
            EventsOn(log, stream, encode) + if r.stream == stream then [EventFor(r, encode)] else []
  {
    assert (log + [r])[..|log|] == log;
  }

  /** One record of the running epoch. */
  lemma FedPush(past: CommitmentRing.Past, log: seq<Record>, e: nat, stream: Stream, encode: Msg -> RingCore.Message,
                r: Record)
    requires Fed(past, log, e, stream, encode) && r.epoch == e
    ensures var gain := if r.stream == stream then [EventFor(r, encode)] else [];
      Fed(past.(history := past.history + gain), log + [r], e, stream, encode)
  {
    hide EventsOn;
    assert (log + [r])[..|log|] == log && OfEpoch(log + [r], e) == OfEpoch(log, e) + [r];
    EventsPush(log, r, stream, encode);
    EventsPush(OfEpoch(log, e), r, stream, encode);
    var gain := if r.stream == stream then [EventFor(r, encode)] else [];
    assert (past.history + gain)[past.epochStart..] == past.history[past.epochStart..] + gain;
  }

  lemma {:induction false} NothingYet(log: seq<Record>, e: nat)
    requires forall i :: 0 <= i < |log| ==> log[i].epoch < e
    ensures OfEpoch(log, e) == []
  {
    if log != [] {
      NothingYet(log[..|log| - 1], e);
    }
  }

  /** The start of the next epoch. */
  lemma FedEpoch(past: CommitmentRing.Past, log: seq<Record>, e: nat, stream: Stream, encode: Msg -> RingCore.Message,
                 floor: nat)
    requires Fed(past, log, e, stream, encode) && forall i :: 0 <= i < |log| ==> log[i].epoch <= e
    ensures Fed(CommitmentRing.Past(past.history, |past.history|, floor), log, e + 1, stream, encode)
  {
    NothingYet(log, e + 1);
  }

  /** Every event of the ring is that of a record. */
  lemma {:induction false} RecordBehind(log: seq<Record>, stream: Stream, encode: Msg -> RingCore.Message, k: nat)
    returns (i: nat)
    requires k < |EventsOn(log, stream, encode)|
    ensures i < |log| && log[i].stream == stream && EventsOn(log, stream, encode)[k] == EventFor(log[i], encode)
  {
    var n := |log| - 1;
    if k < |EventsOn(log[..n], stream, encode)| {
      i := RecordBehind(log[..n], stream, encode, k);
    } else {
      i := n;
    }
  }

  lemma {:induction false} EpochBehind(log: seq<Record>, e: nat, k: nat) returns (i: nat)
    requires k < |OfEpoch(log, e)|
    ensures i < |log| && log[i].epoch == e && OfEpoch(log, e)[k] == log[i]
  {
    var n := |log| - 1;
    if k < |OfEpoch(log[..n], e)| {
      i := EpochBehind(log[..n], e, k);
    } else {
      i := n;
    }
  }

  /** The next journal index is one that the ring accepts. */
  lemma FedIndex(cfg: Config, states: seq<State>, events: seq<Event>, i: nat, stream: Stream,
                 encode: Msg -> RingCore.Message, r: CommitmentRing.Ring, past: CommitmentRing.Past, bytesMax: nat)
    requires Run(cfg, states, events) && i < |states|
    requires r.Valid(past, bytesMax, Journaled(cfg, stream))
    requires Fed(past, states[i].log, states[i].epoch, stream, encode)
    ensures RingCore.NextIndex(past.history, if Journaled(cfg, stream) then Some(states[i].index)
          else None, Journaled(cfg, stream))
  {
    hide Run;
    RunIsNumbered(cfg, states, events, i);
    if Journaled(cfg, stream) {
      forall k | 0 <= k < |past.history|
        ensures RingCore.IndexBelow(past.history, k, states[i].index)
      {
        var j := RecordBehind(states[i].log, stream, encode, k);
        assert SenderLog.BelowNext(states[i].log, states[i].index, j) && RingCore.Numbered(past.history, k, true);
      }
    }
  }

  function HeadsOf(replay: map<Slot, ReplayInfo>): map<Slot, nat> {
    map s | s in replay :: replay[s].head
  }

  /** Over any run with storage: whatever slot a client asks for, a memory cursor taken from the ring of a stream
      is live, and reading from it yields every event of the wanted slots that the sender has put on the stream
      in this epoch, in order. */
  lemma FedCursorIsRight(cfg: Config, states: seq<State>, events: seq<Event>, i: nat, stream: Stream,
                         encode: Msg -> RingCore.Message, r: CommitmentRing.Ring, past: CommitmentRing.Past,
                               bytesMax: nat,
                         from: Slot, storage: Option<CommitmentRing.StorageInfo>)
    requires Run(cfg, states, events) && i < |states| && cfg.storage.Some?
    requires r.Valid(past, bytesMax, Journaled(cfg, stream))
    requires Fed(past, states[i].log, states[i].epoch, stream, encode)
    ensures var st := states[i];
      var c := CommitmentRing.CurrentTailWithReplay(r.slots, r.core.tail, Some(from), HeadsOf(st.replay), storage);
      c.Located? && c.location.Memory? ==>
        && r.core.head <= c.location.pos <= r.core.tail + 1
        && r.core.Base() <= c.location.pos <= r.core.Base() + |past.history|
        && CommitmentRing.FromSlot(past.history[c.location.pos - r.core.Base()..], from)
           == CommitmentRing.FromSlot(EventsOn(OfEpoch(st.log, st.epoch), stream, encode), from)
  {
    hide Run, CommitmentRing.CurrentTailWithReplay, CommitmentRing.Ring.Valid, EventsOn, OfEpoch;
    var st := states[i];
    forall k | past.epochStart <= k < |past.history|
      ensures st.replay != map[] && past.history[k].slot <= Greatest(HeadsOf(st.replay).Keys)
    {
      NewestOnStream(cfg, states, events, i, stream, encode, past, k);
    }
    CommitmentRing.CursorIsRight(r, past, bytesMax, Journaled(cfg, stream), from, HeadsOf(st.replay), storage);
  }

  lemma NewestOnStream(cfg: Config, states: seq<State>, events: seq<Event>, i: nat, stream: Stream,
                       encode: Msg -> RingCore.Message, past: CommitmentRing.Past, k: nat)
    requires Run(cfg, states, events) && i < |states| && cfg.storage.Some?
    requires Fed(past, states[i].log, states[i].epoch, stream, encode) && past.epochStart <= k < |past.history|
    ensures states[i].replay != map[] && past.history[k].slot <= Greatest(HeadsOf(states[i].replay).Keys)
  {
    hide Run, JournalOk, OfEpoch, EventsOn;
    var st := states[i];
    RunKeepsJournal(cfg, states, events, i);
    var current := OfEpoch(st.log, st.epoch);
    var a := RecordBehind(current, stream, encode, k - past.epochStart);
    var b := EpochBehind(st.log, st.epoch, a);
    NewestIsKnown(cfg.storage.value.maxSlots, st, b);
    assert HeadsOf(st.replay).Keys == st.replay.Keys;
    assert past.history[past.epochStart..][k - past.epochStart] == past.history[k];
  }
}
