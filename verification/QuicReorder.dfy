/** The reorder buffer of the QUIC client, `client/src/quic.rs`: `QuicClientStream::poll_next` merges
    N unordered streams back into the sequence of message ids 0, 1, 2, ... */
module QuicReorder {
  import opened Basics

  datatype Frame = Frame(id: nat, body: nat)

  /** What polling one reader yields at the moment of the poll. */
  datatype Arrival = Arrived | NotArrived | Failed | Ended

  datatype PollResult = Ready(body: nat) | Error | Finished | Pending

  /** A frame of stream i, at index j. */
  ghost predicate InStreams(sent: seq<seq<Frame>>, i: int, j: int) {
    0 <= i < |sent| && 0 <= j < |sent[i]|
  }

  /** Message ids are partitioned over the streams and increase along each of them. */
  ghost predicate Partitioned(sent: seq<seq<Frame>>) {
    && (forall i, j, k :: InStreams(sent, i, j) && InStreams(sent, i, k) && j < k ==> sent[i][j].id < sent[i][k].id)
    && (forall i, j, k, l :: InStreams(sent, i, j) && InStreams(sent, k, l) && sent[i][j].id == sent[k][l].id ==>
          i == k)
  }

  /** Frame (i, j) has been read and is accounted for: delivered under its id, or buffered. */
  ghost predicate Accounted(sent: seq<seq<Frame>>, messages: map<nat, nat>, delivered: seq<nat>, i: int, j: int)
    requires InStreams(sent, i, j)
  {
    var f := sent[i][j];
    if f.id < |delivered| then delivered[f.id] == f.body else f.id in messages && messages[f.id] == f.body
  }

  /** Id k was carried by a frame that has been read. */
  ghost predicate Carried(sent: seq<seq<Frame>>, readCount: seq<nat>, k: nat) {
    exists i, j :: InStreams(sent, i, j) && i < |readCount| && j < readCount[i] && sent[i][j].id == k
  }

  /** Nothing is lost, nothing is invented. */
  ghost predicate Conserved(sent: seq<seq<Frame>>, readCount: seq<nat>, messages: map<nat, nat>, delivered: seq<nat>) {
    && |readCount| == |sent|
    && (forall i :: 0 <= i < |sent| ==> readCount[i] <= |sent[i]|)
    && (forall i, j :: InStreams(sent, i, j) && j < readCount[i] ==> Accounted(sent, messages, delivered, i, j))
    && (forall k :: 0 <= k < |delivered| ==> Carried(sent, readCount, k))
    && (forall k :: k in messages ==> k >= |delivered| && Carried(sent, readCount, k))
  }

  /** Reading a frame with a new id and buffering it keeps the books. */
  lemma BufferKeeps(sent: seq<seq<Frame>>, readCount: seq<nat>, messages: map<nat, nat>, delivered: seq<nat>, i: nat)
    requires Partitioned(sent) && Conserved(sent, readCount, messages, delivered)
    requires i < |sent| && readCount[i] < |sent[i]|
    ensures sent[i][readCount[i]].id !in messages && sent[i][readCount[i]].id >= |delivered|
    ensures var f := sent[i][readCount[i]];
      Conserved(sent, readCount[i := readCount[i] + 1], messages[f.id := f.body], delivered)
  {
    var f, readCount' := sent[i][readCount[i]], readCount[i := readCount[i] + 1];
    assert InStreams(sent, i, readCount[i]);
    assert !Carried(sent, readCount, f.id);
    forall k | Carried(sent, readCount, k)
      ensures Carried(sent, readCount', k)
    {
      var a, b :| InStreams(sent, a, b) && a < |readCount| && b < readCount[a] && sent[a][b].id == k;
      assert b < readCount'[a];
    }
    assert Carried(sent, readCount', f.id) by {
      assert readCount[i] < readCount'[i];
    }
    forall a, b | InStreams(sent, a, b) && b < readCount'[a]
      ensures Accounted(sent, messages[f.id := f.body], delivered, a, b)
    {
      if b < readCount[a] {
        assert Accounted(sent, messages, delivered, a, b);
      } else {
        assert a == i && b == readCount[i];
      }
    }
  }

  /** Delivering the buffered message with the next id keeps the books. */
  lemma DeliverKeeps(sent: seq<seq<Frame>>, readCount: seq<nat>, messages: map<nat, nat>, delivered: seq<nat>)
    requires Conserved(sent, readCount, messages, delivered) && |delivered| in messages
    ensures Conserved(sent, readCount, messages - {|delivered|}, delivered + [messages[|delivered|]])
  {
    var k := |delivered|;
    var messages', delivered' := messages - {k}, delivered + [messages[k]];
    forall i, j | InStreams(sent, i, j) && j < readCount[i]
      ensures Accounted(sent, messages', delivered', i, j)
    {
      assert Accounted(sent, messages, delivered, i, j);
    }
  }

  /** The next id is neither delivered nor buffered, so it is still unread, and it is the first unread
      frame of its stream. */
  lemma NextIdIsUnread(sent: seq<seq<Frame>>, readCount: seq<nat>, messages: map<nat, nat>, delivered: seq<nat>,
                       i: nat, j: int)
    requires Partitioned(sent) && Conserved(sent, readCount, messages, delivered)
    requires |delivered| !in messages && InStreams(sent, i, j) && sent[i][j].id == |delivered|
    ensures j == readCount[i]
  {
    assert j < readCount[i] ==> Accounted(sent, messages, delivered, i, j);
    if j >= readCount[i] {
      BufferKeeps(sent, readCount, messages, delivered, i);
      assert InStreams(sent, i, readCount[i]);
    }
  }

  /** Every frame with an id below the delivered count was delivered, at its id: ids come out as
      0, 1, 2, ... with no loss and no duplicate. */
  lemma DeliveredIsTheMessage(sent: seq<seq<Frame>>, readCount: seq<nat>, messages: map<nat, nat>,
                              delivered: seq<nat>, i: int, j: int)
    requires Partitioned(sent) && Conserved(sent, readCount, messages, delivered)
    requires InStreams(sent, i, j) && sent[i][j].id < |delivered|
    ensures j < readCount[i] && delivered[sent[i][j].id] == sent[i][j].body
  {
    var k := sent[i][j].id;
    assert Carried(sent, readCount, k);
    var a, b :| InStreams(sent, a, b) && a < |readCount| && b < readCount[a] && sent[a][b].id == k;
    assert Accounted(sent, messages, delivered, a, b);
    assert a == i;
  }

  /** Reader polled by the q-th iteration of a round-robin pass. */
  function Turn(start: nat, q: nat, n: nat): nat
    requires n > 0
  {
    (start + q) % n
  }

  /** A pass of n iterations polls every reader. */
  lemma EveryReaderHasATurn(start: nat, i: nat, n: nat) returns (q: nat)
    requires start < n && i < n
    ensures q < n && Turn(start, q, n) == i
  {
    if i >= start {
      q := i - start;
      LapRemainder(n, 0, i);
    } else {
      q := i + n - start;
      LapRemainder(n, 1, i);
    }
  }

  /** Two different iterations of one pass poll different readers. */
  lemma TurnsDiffer(start: nat, p: nat, q: nat, n: nat)
    requires n > 0 && p < q < n
    ensures Turn(start, p, n) != Turn(start, q, n)
  {
    if Turn(start, p, n) == Turn(start, q, n) {
      SameCell(start + p, start + q, n);
    }
  }

  lemma NextTurn(start: nat, q: nat, n: nat)
    requires n > 0
    ensures Turn(Turn(start, q, n), 1, n) == Turn(start, q + 1, n)
  {
    var x := start + q;
    assert x == n * (x / n) + x % n;
    if x % n + 1 < n {
      LapRemainder(n, 0, x % n + 1);
      LapRemainder(n, x / n, x % n + 1);
    } else {
      OneLap(0, n);
      assert x + 1 == n * (x / n + 1) + 0;
      LapRemainder(n, x / n + 1, 0);
    }
  }

  /** Stream i does not hold the message that is due, or its reader had nothing to offer. */
  ghost predicate Excused(sent: seq<seq<Frame>>, arrivals: seq<Arrival>, i: nat, due: nat)
    requires i < |sent| == |arrivals|
  {
    arrivals[i].NotArrived? || forall j :: InStreams(sent, i, j) ==> sent[i][j].id != due
  }

  /** The reader has an answer for the whole stream: it failed, it ended, or it holds the due message. */
  predicate Decides(reader: seq<Frame>, arrival: Arrival, due: nat, r: PollResult) {
    match arrival
    case NotArrived => false
    case Failed => r == Error
    case Ended => r == Finished
    case Arrived => reader != [] && reader[0].id == due && r == Ready(reader[0].body)
  }

  /** The reader has nothing to say: it waits, or it holds a message that is not due yet. */
  predicate Silent(reader: seq<Frame>, arrival: Arrival, due: nat) {
    arrival.NotArrived? || (arrival.Arrived? && reader != [] && reader[0].id != due)
  }

  /** A reader that was polled has given up its first frame, if one had arrived. */
  function Polled(reader: seq<Frame>, arrival: Arrival): seq<Frame> {
    if arrival.Arrived? && reader != [] then reader[1..] else reader
  }

  /** The pass over the readers from `start`: the first `q` are silent, then one decides; or all are silent and the
      answer is pending. Exactly the readers up to there have been polled. */
  ghost predicate PassIs(before: seq<seq<Frame>>, after: seq<seq<Frame>>, arrivals: seq<Arrival>, due: nat, start: nat,
                         q: nat, r: PollResult)
    requires |before| == |after| == |arrivals| > 0
  {
    var n := |arrivals|;
    && q <= n
    && (forall p :: 0 <= p < q ==> SilentAt(before, arrivals, due, Turn(start, p, n)))
    && (if q == n then r == Pending else Decides(before[Turn(start, q, n)], arrivals[Turn(start, q, n)], due, r))
    && (forall p :: 0 <= p < n ==> AdvancedAt(before, after, arrivals, Turn(start, p, n), p <= q))
  }

  predicate SilentAt(readers: seq<seq<Frame>>, arrivals: seq<Arrival>, due: nat, i: nat)
    requires i < |arrivals| == |readers|
  {
    Silent(readers[i], arrivals[i], due)
  }

  predicate AdvancedAt(before: seq<seq<Frame>>, after: seq<seq<Frame>>, arrivals: seq<Arrival>, i: nat, polled: bool)
    requires i < |arrivals| == |before| == |after|
  {
    after[i] == if polled then Polled(before[i], arrivals[i]) else before[i]
  }

  predicate Troubled(arrivals: seq<Arrival>) {
    exists i :: 0 <= i < |arrivals| && (arrivals[i].Failed? || arrivals[i].Ended?)
  }

  /** The due message is the first frame of a reader for which one has arrived. */
  ghost predicate AtFront(readers: seq<seq<Frame>>, arrivals: seq<Arrival>, due: nat, body: nat)
    requires |readers| == |arrivals|
  {
    exists i :: 0 <= i < |arrivals| && arrivals[i].Arrived? && readers[i] != [] && readers[i][0] == Frame(due, body)
  }

  /** What a pass means for its caller: it ends only if a reader ended, fails only if a reader failed, and without
      either it has the due message exactly if that is the first frame of a reader. */
  lemma PassMeans(before: seq<seq<Frame>>, after: seq<seq<Frame>>, arrivals: seq<Arrival>, due: nat, start: nat, q: nat,
                  r: PollResult)
    requires |before| == |after| == |arrivals| > 0 && start < |arrivals|
    requires PassIs(before, after, arrivals, due, start, q, r)
    ensures r.Finished? ==> exists i :: 0 <= i < |arrivals| && arrivals[i].Ended?
    ensures r.Error? ==> exists i :: 0 <= i < |arrivals| && arrivals[i].Failed?
    ensures r.Ready? ==> AtFront(before, arrivals, due, r.body)
    ensures !Troubled(arrivals) ==>
              (r.Ready? || r.Pending?) && (r.Ready? <==> exists body :: AtFront(before, arrivals, due, body))
  {
    var n := |arrivals|;
    if r.Pending? {
      forall i | 0 <= i < n
        ensures arrivals[i].Arrived? && before[i] != [] ==> before[i][0].id != due
      {
        var p := EveryReaderHasATurn(start, i, n);
        assert q == n && SilentAt(before, arrivals, due, Turn(start, p, n));
      }
    }
  }

  class QuicClientStream {
    /** Everything each stream will ever carry. */
    ghost const sent: seq<seq<Frame>>
    var readers: seq<seq<Frame>>
    var messages: map<nat, nat>
    var msgId: nat
    var index: nat
    ghost var readCount: seq<nat>
    ghost var delivered: seq<nat>

    ghost predicate Valid()
      reads this
    {
      && |readers| == |sent| > 0
      && index < |readers|
      && msgId == |delivered|
      && Partitioned(sent)
      && Conserved(sent, readCount, messages, delivered)
      && (forall i :: 0 <= i < |sent| ==> Remaining(sent, readers, readCount, i))
    }

    constructor (streams: seq<seq<Frame>>)
      requires streams != [] && Partitioned(streams)
      ensures Valid() && sent == streams && delivered == []
    {
      sent, readers, readCount := streams, streams, seq(|streams|, i => 0);
      messages, msgId, index, delivered := map[], 0, 0, [];
    }

    /** Polls reader `index` and moves on to the next one. */
    method PollReader(arrival: Arrival) returns (frame: Option<Frame>)
      requires Valid()
      requires arrival.Arrived? ==> readers[index] != []
      modifies this`readers, this`index, this`readCount
      ensures |readers| == |sent| && index == Turn(old(index), 1, |sent|)
      ensures frame.Some? <==> arrival.Arrived?
      ensures frame.Some? ==>
                && old(readCount[index]) < |sent[old(index)]|
                && frame.value == sent[old(index)][old(readCount[index])]
                && readCount == old(readCount)[old(index) := old(readCount[index]) + 1]
      ensures frame.None? ==> readCount == old(readCount)
      ensures forall i :: 0 <= i < |sent| && i != old(index) ==> readers[i] == old(readers)[i]
      ensures readers[old(index)] == Polled(old(readers[index]), arrival)
      ensures frame.Some? ==> frame.value == old(readers[index][0])
      ensures forall i :: 0 <= i < |sent| ==> Remaining(sent, readers, readCount, i)
    {
      frame := None;
      assert Remaining(sent, readers, readCount, index);
      if arrival.Arrived? {
        frame := Some(readers[index][0]);
        readers := readers[index := readers[index][1..]];
        readCount := readCount[index := readCount[index] + 1];
        forall i | 0 <= i < |sent|
          ensures Remaining(sent, readers, readCount, i)
        {
          assert Remaining(sent, old(readers), old(readCount), i);
        }
      }
      index := (index + 1) % |readers|;
    }

    /** Hands out the message that is due if the frame just read carries it, else buffers the frame. */
    method Accept(frame: Frame, ghost i: nat) returns (r: Option<nat>)
      requires |readers| == |sent| > 0 && index < |readers| && msgId == |delivered| && Partitioned(sent)
      requires i < |sent| == |readCount| && 0 < readCount[i] <= |sent[i]| && frame == sent[i][readCount[i] - 1]
      requires Conserved(sent, readCount[i := readCount[i] - 1], messages, delivered) && msgId !in messages
      requires forall k :: 0 <= k < |sent| ==> Remaining(sent, readers, readCount, k)
      modifies this`messages, this`msgId, this`delivered
      ensures Valid()
      ensures r.Some? <==> frame.id == old(msgId)
      ensures r.Some? ==> delivered == old(delivered) + [r.value] && r.value == frame.body
      ensures r.None? ==> delivered == old(delivered) && msgId !in messages
                          && forall j :: InStreams(sent, i, j) ==> sent[i][j].id != msgId
    {
      hide Conserved, Partitioned, Remaining;
      ghost var before := readCount[i := readCount[i] - 1];
      ghost var buffered := messages[frame.id := frame.body];
      BufferKeeps(sent, before, messages, delivered, i);
      assert before[i := before[i] + 1] == readCount;
      if frame.id == msgId {
        DeliverKeeps(sent, readCount, buffered, delivered);
        assert buffered - {msgId} == messages;
        delivered := delivered + [frame.body];
        msgId := msgId + 1;
        r := Some(frame.body);
      } else {
        forall j | InStreams(sent, i, j)
          ensures sent[i][j].id != msgId
        {
          if sent[i][j].id == msgId {
            NextIdIsUnread(sent, before, messages, delivered, i, j);
          }
        }
        messages := messages[frame.id := frame.body];
        r := None;
      }
    }

    /** One iteration: poll reader `index` and deal with what it yields. */
    method PollOne(arrival: Arrival) returns (r: PollResult)
      requires Valid() && msgId !in messages
      requires arrival.Arrived? ==> readers[index] != []
      modifies this
      ensures Valid() && index == Turn(old(index), 1, |sent|)
      ensures forall i :: 0 <= i < |sent| && i != old(index) ==> readers[i] == old(readers)[i]
      ensures r.Ready? ==> delivered == old(delivered) + [r.body]
      ensures !r.Ready? ==> delivered == old(delivered) && msgId !in messages
      ensures r.Pending? && !arrival.NotArrived? ==>
                forall j :: InStreams(sent, old(index), j) ==> sent[old(index)][j].id != msgId
      ensures readers[old(index)] == Polled(old(readers[index]), arrival)
      ensures if r.Pending? then Silent(old(readers[index]), arrival, old(msgId))
              else Decides(old(readers[index]), arrival, old(msgId), r)
    {
      ghost var i := index;
      var frame := PollReader(arrival);
      match arrival {
        case Arrived =>
          assert readCount[i := readCount[i] - 1] == old(readCount);
          var body := Accept(frame.value, i);
          r := if body.Some? then Ready(body.value) else Pending;
        case Failed => r := Error;
        case Ended => r := Finished;
        case NotArrived => r := Pending;
      }
    }

    /** `poll_next`: the delivered messages are exactly those with ids 0, 1, 2, ...; nothing read is
        lost; and `Pending` means that the reader holding the next id was itself pending. */
    method PollNext(arrivals: seq<Arrival>) returns (r: PollResult)
      requires Valid() && |arrivals| == |readers|
      requires forall i :: 0 <= i < |readers| && arrivals[i].Arrived? ==> readers[i] != []
      modifies this
      ensures Valid()
      ensures r.Ready? ==> delivered == old(delivered) + [r.body]
      ensures !r.Ready? ==> delivered == old(delivered)
      ensures r.Pending? ==> forall i :: 0 <= i < |sent| ==> Excused(sent, arrivals, i, |delivered|)
      ensures old(msgId in messages) ==>
                r == Ready(old(messages[msgId])) && readers == old(readers) && index == old(index)
      ensures old(msgId !in messages) ==>
                exists q :: PassIs(old(readers), readers, arrivals, old(msgId), old(index), q, r)
      ensures r.Finished? ==> exists i :: 0 <= i < |arrivals| && arrivals[i].Ended?
      ensures r.Error? ==> exists i :: 0 <= i < |arrivals| && arrivals[i].Failed?
      ensures !Troubled(arrivals) ==> r.Ready? || r.Pending?
      ensures !Troubled(arrivals) ==>
                (r.Ready? <==>
                   old(msgId in messages) || exists body :: AtFront(old(readers), arrivals, old(msgId), body))
    {
      if msgId in messages {
        var body := messages[msgId];
        DeliverKeeps(sent, readCount, messages, delivered);
        messages, delivered := messages - {msgId}, delivered + [body];
        msgId := msgId + 1;
        return Ready(body);
      }
      ghost var before, due, start := readers, msgId, index;
      ghost var q;
      r, q := PollAll(arrivals);
      PassMeans(before, readers, arrivals, due, start, q, r);
    }

    /** The round-robin pass of `poll_next`. */
    method PollAll(arrivals: seq<Arrival>) returns (r: PollResult, ghost q: nat)
      requires Valid() && msgId !in messages && |arrivals| == |readers|
      requires forall i :: 0 <= i < |readers| && arrivals[i].Arrived? ==> readers[i] != []
      modifies this
      ensures Valid()
      ensures r.Ready? ==> delivered == old(delivered) + [r.body]
      ensures !r.Ready? ==> delivered == old(delivered)
      ensures r.Pending? ==> forall i :: 0 <= i < |sent| ==> Excused(sent, arrivals, i, |delivered|)
      ensures PassIs(old(readers), readers, arrivals, old(msgId), old(index), q, r)
    {
      var polled := 0;
      ghost var start, n := index, |sent|;
      LapRemainder(n, 0, start);
      while true
        invariant Valid() && delivered == old(delivered) && msgId !in messages
        invariant polled < n && index == Turn(start, polled, n)
        invariant forall p :: polled <= p < n ==> readers[Turn(start, p, n)] == old(readers)[Turn(start, p, n)]
        invariant forall p :: 0 <= p < polled ==> Excused(sent, arrivals, Turn(start, p, n), |delivered|)
        invariant forall p :: 0 <= p < polled ==> SilentAt(old(readers), arrivals, msgId, Turn(start, p, n))
        invariant forall p :: 0 <= p < polled ==> AdvancedAt(old(readers), readers, arrivals, Turn(start, p, n), true)
        decreases n - polled
      {
        ghost var i := index;
        NextTurn(start, polled, n);
        forall p | 0 <= p < n && p != polled
          ensures Turn(start, p, n) != i
        {
          TurnsDiffer(start, if p < polled then p else polled, if p < polled then polled else p, n);
        }
        r := PollOne(arrivals[index]);
        q := polled;
        if !r.Pending? {
          return;
        }
        assert Excused(sent, arrivals, i, |delivered|);
        polled := polled + 1;
        if polled == |readers| {
          q := n;
          forall k | 0 <= k < n
            ensures Excused(sent, arrivals, k, |delivered|)
          {
            var p := EveryReaderHasATurn(start, k, n);
          }
          return;
        }
      }
    }
  }

  ghost predicate Remaining(sent: seq<seq<Frame>>, readers: seq<seq<Frame>>, readCount: seq<nat>, i: nat)
    requires i < |sent|
  {
    |readers| == |sent| == |readCount| && readCount[i] <= |sent[i]| && readers[i] == sent[i][readCount[i]..]
  }
}
