/** The receive/park protocol of the plugin ring, `plugin-agave/src/channel.rs`, as a state machine
    whose steps are what happens under one lock acquisition. Any number of pushes, closes and
    receivers interleave. */
module Wakeup {
  import opened Basics

  datatype Phase =
    | Polling     // inside `recv_ref`, about to peek at the cell
    | Rechecking  // the peek saw another position; about to take the state lock
    | Parked      // returned `Pending`
    | Finished    // returned `Closed` or `Lagged`

  datatype Receiver = Receiver(next: nat, phase: Phase)

  type Id = nat

  /** `pos` and `closed` describe the cells; cells at positions below `head` hold no data. `written`
      is the number of messages written by the push that holds the state lock, if one does. */
  datatype State = State(
    pos: seq<nat>, closed: seq<bool>, head: nat, tail: nat,
    lock: Lock,
    wakers: set<Id>,            // registered in `State::wakers`
    taken: set<Id>,             // taken by a push that has released the lock, not yet woken
    woken: set<Id>,             // `Waker::wake` was called since the receiver parked
    closers: map<Id, nat>,      // running `close` calls and how many cells each has closed
    receivers: map<Id, Receiver>)

  datatype Lock = Free | Held(written: nat)

  datatype Action =
    | PushBegin                 // acquire the state lock
    | PushWrite                 // write the next cell
    | PushEvict                 // empty the oldest cell
    | PushEnd                   // take the wakers, release the lock
    | Wake(r: Id)               // wake one taken waker
    | CloseBegin(c: Id)
    | CloseCell(c: Id)          // under the cell lock only
    | CloseDrain(c: Id)         // under the state lock
    | Subscribe(r: Id, next: nat)
    | Peek(r: Id)               // under the cell lock only
    | Recheck(r: Id)            // under the state lock and the cell lock
    | Poll(r: Id)               // the executor polls again, woken or not

  function CellOf(s: State, r: Id): nat
    requires r in s.receivers && |s.pos| > 0
  {
    s.receivers[r].next % |s.pos|
  }

  predicate Shaped(s: State) {
    |s.pos| > 0 && |s.closed| == |s.pos|
  }

  predicate InPhase(s: State, r: Id, phase: Phase) {
    r in s.receivers && s.receivers[r].phase == phase
  }

  predicate Enabled(s: State, a: Action) {
    Shaped(s) &&
    match a
    case PushBegin => s.lock.Free?
    case PushWrite => s.lock.Held?
    case PushEvict => s.lock.Held? && s.lock.written > 0 && s.head < s.tail
    case PushEnd => s.lock.Held? && s.lock.written > 0
    case Wake(r) => r in s.taken
    case CloseBegin(c) => c !in s.closers
    case CloseCell(c) => c in s.closers && s.closers[c] < |s.pos|
    case CloseDrain(c) => c in s.closers && s.closers[c] == |s.pos| && s.lock.Free?
    case Subscribe(r, _) => r !in s.receivers
    case Peek(r) => InPhase(s, r, Polling)
    case Recheck(r) => InPhase(s, r, Rechecking) && s.lock.Free?
    case Poll(r) => InPhase(s, r, Parked)
  }

  /** Outcome of reading a cell whose position matches, or that is closed. */
  function Received(s: State, r: Id): Receiver
    requires Shaped(s) && r in s.receivers
  {
    var me := s.receivers[r];
    if s.closed[CellOf(s, r)] || me.next < s.head then me.(phase := Finished)
    else Receiver(me.next + 1, Polling)
  }

  function Step(s: State, a: Action): State
    requires Enabled(s, a)
  {
    match a
    case PushBegin => s.(lock := Held(0))
    case PushWrite =>
      var tail := s.tail + 1;
      s.(tail := tail, pos := s.pos[tail % |s.pos| := tail],
         head := if tail + 1 - s.head > |s.pos| then s.head + 1 else s.head,
         lock := Held(s.lock.written + 1))
    case PushEvict => s.(head := s.head + 1)
    case PushEnd => s.(lock := Free, taken := s.taken + s.wakers, wakers := {})
    case Wake(r) => s.(taken := s.taken - {r}, woken := s.woken + {r})
    case CloseBegin(c) => s.(closers := s.closers[c := 0])
    case CloseCell(c) =>
      s.(closed := s.closed[s.closers[c] := true], closers := s.closers[c := s.closers[c] + 1])
    case CloseDrain(c) => s.(closers := s.closers - {c}, woken := s.woken + s.wakers, wakers := {})
    case Subscribe(r, next) => s.(receivers := s.receivers[r := Receiver(next, Polling)])
    case Peek(r) =>
      if s.closed[CellOf(s, r)] || s.pos[CellOf(s, r)] == s.receivers[r].next then
        s.(receivers := s.receivers[r := Received(s, r)])
      else s.(receivers := s.receivers[r := s.receivers[r].(phase := Rechecking)])
    case Recheck(r) =>
      if s.closed[CellOf(s, r)] || s.pos[CellOf(s, r)] == s.receivers[r].next then
        s.(receivers := s.receivers[r := Received(s, r)])
      else if s.pos[CellOf(s, r)] < s.receivers[r].next then
        s.(receivers := s.receivers[r := s.receivers[r].(phase := Parked)],
           wakers := s.wakers + {r}, woken := s.woken - {r})
      else s.(receivers := s.receivers[r := s.receivers[r].(phase := Finished)])
    case Poll(r) =>
      s.(receivers := s.receivers[r := s.receivers[r].(phase := Polling)])
  }

  predicate Initial(s: State) {
    && Shaped(s)
    && (forall i :: 0 <= i < |s.pos| ==> s.pos[i] == i && !s.closed[i])
    && s.head == |s.pos| + 1 && s.tail == |s.pos|
    && s.lock.Free? && s.wakers == s.taken == s.woken == {}
    && s.closers == map[] && s.receivers == map[]
  }

  // ----- what every step keeps -----

  /** A receiver that returned `Pending` and that nobody has woken since. */
  predicate Asleep(s: State, r: Id) {
    InPhase(s, r, Parked) && r !in s.woken
  }

  /** The receiver has something to do: its position is written, or its cell is closed. */
  predicate HasWork(s: State, r: Id)
    requires Shaped(s) && r in s.receivers
  {
    s.pos[CellOf(s, r)] >= s.receivers[r].next || s.closed[CellOf(s, r)]
  }

  /** A running call is already committed to waking the receiver. */
  ghost predicate Owed(s: State, r: Id)
    requires Shaped(s) && r in s.receivers
  {
    || r in s.taken
    || (r in s.wakers && s.lock.Held? && s.lock.written > 0)
    || (r in s.wakers && exists c :: c in s.closers && s.closers[c] > CellOf(s, r))
  }

  ghost predicate Safe(s: State, r: Id)
    requires Shaped(s)
  {
    Asleep(s, r) ==> (r in s.wakers || r in s.taken) && (HasWork(s, r) ==> Owed(s, r))
  }

  /** A published position is in its cell, or a later one has taken the cell; those of the last lap are
      still there. Positions up to the number of cells are never published. */
  ghost predicate Shown(s: State, p: nat)
    requires Shaped(s)
  {
    |s.pos| < p <= s.tail ==>
      s.pos[p % |s.pos|] >= p && (s.tail < p + |s.pos| ==> s.pos[p % |s.pos|] == p)
  }

  /** The live window is never longer than the ring. */
  predicate Windowed(s: State) {
    |s.pos| < s.head <= s.tail + 1 <= s.head + |s.pos|
  }

  ghost predicate Inv(s: State) {
    && Shaped(s) && Windowed(s)
    && (forall i :: 0 <= i < |s.pos| ==> s.pos[i] <= s.tail)
    && (forall p :: Shown(s, p))
    && (forall c :: c in s.closers ==> s.closers[c] <= |s.pos|)
    && (forall r :: Safe(s, r))
  }

  /** A push shows its position in the one cell that belongs to it. */
  lemma StepKeepsShown(s: State, a: Action, p: nat)
    requires Inv(s) && Enabled(s, a)
    ensures Shown(Step(s, a), p)
  {
    assert Shown(s, p);
    var n, tail := |s.pos|, s.tail + 1;
    if a.PushWrite? && n < p < tail < p + n && p % n == tail % n {
      SameCell(p, tail, n);
    }
  }

  lemma StepKeepsSafe(s: State, a: Action, r: Id)
    requires Inv(s) && Enabled(s, a)
    ensures Safe(Step(s, a), r)
  {
    assert Safe(s, r);
    var s' := Step(s, a);
    if Asleep(s', r) && a.CloseCell? {
      assert s'.closers[a.c] == s.closers[a.c] + 1;
      if HasWork(s, r) && !(r in s.taken) && !(s.lock.Held? && s.lock.written > 0) {
        var c :| c in s.closers && s.closers[c] > CellOf(s, r);
        assert c in s'.closers && s'.closers[c] > CellOf(s', r);
      }
    }
    if Asleep(s', r) && a.CloseBegin? && HasWork(s, r) && !(r in s.taken) && !(s.lock.Held? && s.lock.written > 0) {
      var c :| c in s.closers && s.closers[c] > CellOf(s, r);
      assert c in s'.closers && s'.closers[c] > CellOf(s', r);
    }
  }

  lemma StepKeepsInv(s: State, a: Action)
    requires Inv(s) && Enabled(s, a)
    ensures Inv(Step(s, a))
  {
    var s' := Step(s, a);
    forall r: Id
      ensures Safe(s', r)
    {
      StepKeepsSafe(s, a, r);
    }
    forall p: nat
      ensures Shown(s', p)
    {
      StepKeepsShown(s, a, p);
    }
  }

  /** An execution: any interleaving of enabled steps from an initial state. */
  ghost predicate IsRun(states: seq<State>, actions: seq<Action>) {
    && |states| == |actions| + 1
    && Initial(states[0])
    && forall i :: 0 <= i < |actions| ==> IsStep(states, actions, i)
  }

  ghost predicate IsStep(states: seq<State>, actions: seq<Action>, i: nat)
    requires i < |actions| && |states| == |actions| + 1
  {
    Enabled(states[i], actions[i]) && states[i + 1] == Step(states[i], actions[i])
  }

  lemma {:induction false} RunKeepsInv(states: seq<State>, actions: seq<Action>, i: nat)
    requires IsRun(states, actions) && i < |states|
    ensures Inv(states[i])
  {
    if i > 0 {
      RunKeepsInv(states, actions, i - 1);
      assert IsStep(states, actions, i - 1);
      StepKeepsInv(states[i - 1], actions[i - 1]);
    }
  }

  /** The next position of the receiver is published. */
  predicate Published(s: State, r: Id)
    requires r in s.receivers
  {
    |s.pos| < s.receivers[r].next <= s.tail
  }

  /** No lost wakeup: at every moment of every execution, a sleeping receiver whose next position is
      published, or whose cell is closed, is about to be woken by a call that is still running; and once
      no call is running there is no such receiver, while its waker is still registered for the next push
      or close. */
  lemma NoLostWakeup(states: seq<State>, actions: seq<Action>, i: nat, r: Id)
    requires IsRun(states, actions) && i < |states| && Asleep(states[i], r)
    ensures var s := states[i];
      && Shaped(s)
      && (Published(s, r) || HasWork(s, r) ==> Owed(s, r))
      && (s.lock.Free? && s.taken == {} && s.closers == map[] ==> !Published(s, r) && !HasWork(s, r) && r in s.wakers)
  {
    hide IsRun;
    RunKeepsInv(states, actions, i);
    assert Safe(states[i], r) && Shown(states[i], states[i].receivers[r].next);
  }

  /** And what was published is received: a receiver that polls a live position moves on to the next one,
      in the order of the pushes, and one whose position has left the window ends. */
  lemma PublishedIsReceived(states: seq<State>, actions: seq<Action>, i: nat, r: Id)
    requires IsRun(states, actions) && i < |states| && InPhase(states[i], r, Polling) && Published(states[i], r)
    requires Shaped(states[i]) && !states[i].closed[CellOf(states[i], r)]
    ensures var s, next := states[i], states[i].receivers[r].next;
      && (s.head <= next ==> Step(s, Peek(r)).receivers[r] == Receiver(next + 1, Polling))
      && (next < s.head && s.pos[CellOf(s, r)] == next ==> Step(s, Peek(r)).receivers[r].phase == Finished)
      && (s.pos[CellOf(s, r)] != next && s.lock.Free? ==>
            next < s.head && Step(Step(s, Peek(r)), Recheck(r)).receivers[r].phase == Finished)
  {
    hide IsRun;
    RunKeepsInv(states, actions, i);
    assert Shown(states[i], states[i].receivers[r].next);
  }

  /** A sleeping receiver's waker leaves the registry only in the hands of a push that has written
      something since it took the lock, or by being woken by a close. */
  lemma WakerStaysRegistered(s: State, a: Action, r: Id)
    requires Inv(s) && Enabled(s, a) && Asleep(s, r) && r in s.wakers
    ensures var s' := Step(s, a);
      || r in s'.wakers
      || (a.PushEnd? && s.lock.written > 0 && r in s'.taken)
      || (a.CloseDrain? && r in s'.woken)
  {
  }

  /** The state after a close has closed the cells it has left. */
  ghost function AllClosed(s: State, c: Id): State
    requires Shaped(s) && c in s.closers && s.closers[c] <= |s.pos|
    decreases |s.pos| - s.closers[c]
  {
    if s.closers[c] == |s.pos| then s else AllClosed(Step(s, CloseCell(c)), c)
  }

  /** Closing the rest of the cells keeps everybody who is registered, and leaves only the drain. */
  lemma {:induction false} ClosingKeepsWakers(s: State, c: Id)
    requires Shaped(s) && c in s.closers && s.closers[c] <= |s.pos|
    ensures var s' := AllClosed(s, c);
      && Shaped(s') && |s'.pos| == |s.pos| && c in s'.closers && s'.closers[c] == |s'.pos|
      && s'.lock == s.lock && s'.wakers == s.wakers && s'.woken == s.woken
    decreases |s.pos| - s.closers[c]
  {
    if s.closers[c] < |s.pos| {
      ClosingKeepsWakers(Step(s, CloseCell(c)), c);
    }
  }

  /** What is owed is delivered by the call that owes it: by its very next step if it is a push, after the
      cells that it has left to close if it is a close. */
  lemma OwedIsDelivered(s: State, r: Id)
    requires Inv(s) && r in s.receivers && Owed(s, r)
    ensures r in s.taken ==> Enabled(s, Wake(r)) && r in Step(s, Wake(r)).woken
    ensures r !in s.taken && s.lock.Held? && s.lock.written > 0 ==>
              Enabled(s, PushEnd) && r in Step(s, PushEnd).taken
    ensures r !in s.taken && s.lock.Free? ==>
              exists c :: c in s.closers && Enabled(AllClosed(s, c), CloseDrain(c))
                          && r in Step(AllClosed(s, c), CloseDrain(c)).woken
  {
    if r !in s.taken && s.lock.Free? {
      var c :| c in s.closers && s.closers[c] > CellOf(s, r);
      ClosingKeepsWakers(s, c);
      assert Enabled(AllClosed(s, c), CloseDrain(c));
    }
  }

  /** A receiver goes to sleep exactly if its cell is open and holds an older position; then it is registered, and
      nobody has woken it yet. */
  lemma SleepsIff(s: State, r: Id)
    requires Enabled(s, Recheck(r))
    ensures var s' := Step(s, Recheck(r));
      && (InPhase(s', r, Parked) <==> !s.closed[CellOf(s, r)] && s.pos[CellOf(s, r)] < s.receivers[r].next)
      && (InPhase(s', r, Parked) ==> Asleep(s', r) && r in s'.wakers)
  {
  }

  /** Its sleep ends only by being woken or by being polled again. */
  lemma SleepEnds(s: State, a: Action, r: Id)
    requires Enabled(s, a) && Asleep(s, r) && !Asleep(Step(s, a), r)
    ensures a == Poll(r) || a == Wake(r) || (a.CloseDrain? && r in s.wakers)
  {
  }

  /** A running close has closed the cells that it has counted. */
  lemma {:induction false} ClosedSoFar(states: seq<State>, actions: seq<Action>, i: nat, c: Id)
    requires IsRun(states, actions) && i < |states| && c in states[i].closers
    ensures states[i].closers[c] <= |states[i].pos| == |states[i].closed|
    ensures forall k :: 0 <= k < states[i].closers[c] ==> states[i].closed[k]
  {
    if i > 0 {
      assert IsStep(states, actions, i - 1);
      if c in states[i - 1].closers {
        ClosedSoFar(states, actions, i - 1, c);
      }
    }
  }

  /** When a close ends every cell is closed and nobody is registered. */
  lemma CloseIsComplete(states: seq<State>, actions: seq<Action>, i: nat, c: Id)
    requires IsRun(states, actions) && i < |actions| && actions[i] == CloseDrain(c)
    ensures var s' := states[i + 1];
      (forall k :: 0 <= k < |s'.closed| ==> s'.closed[k]) && s'.wakers == {} && states[i].wakers <= s'.woken
  {
    assert IsStep(states, actions, i);
    ClosedSoFar(states, actions, i, c);
  }

  function One(condition: bool): nat {
    if condition then 1 else 0
  }

  /** How often the receiver went to sleep, registering its waker, in the first `i` steps. */
  ghost function Registrations(states: seq<State>, actions: seq<Action>, i: nat, r: Id): nat
    requires i <= |actions| < |states|
  {
    if i == 0 then 0
    else
      Registrations(states, actions, i - 1, r) + One(actions[i - 1] == Recheck(r) && InPhase(states[i], r, Parked))
  }

  /** How often it was woken, by a push or by a close. */
  ghost function Wakes(states: seq<State>, actions: seq<Action>, i: nat, r: Id): nat
    requires i <= |actions| < |states|
  {
    if i == 0 then 0
    else
      Wakes(states, actions, i - 1, r)
      + One(actions[i - 1] == Wake(r) || (actions[i - 1].CloseDrain? && r in states[i - 1].wakers))
  }

  /** Over any execution a receiver is woken at most once for each time it registered: what is registered or taken now
      has not been used up. */
  lemma {:induction false} WokenAsRegistered(states: seq<State>, actions: seq<Action>, i: nat, r: Id)
    requires IsRun(states, actions) && i < |states|
    ensures Wakes(states, actions, i, r) + One(r in states[i].taken) + One(r in states[i].wakers)
            <= Registrations(states, actions, i, r)
  {
    if i > 0 {
      WokenAsRegistered(states, actions, i - 1, r);
      assert IsStep(states, actions, i - 1);
    }
  }

  // ----- the receiver of the commitment ring, for contrast -----

  datatype AsyncPhase = Idle | Reading | Sleeping

  /** `ReceiverAsync` of `richat/src/channel.rs`: it reads the published tail, takes what is there, then
      registers its waker. `pushing` is a push that has published and not yet drained the wakers. */
  datatype Async = Async(tail: nat, next: nat, seen: nat, phase: AsyncPhase, registered: bool, pushing: bool)

  datatype AsyncAction =
    | ReadTail
    | Deliver   // the next message is returned
    | Skip      // the next message is of a disabled kind
    | Register
    | PollAgain // the executor polls without a wakeup
    | Publish   // a push stores one more position
    | Drain     // and at its end wakes everybody who is registered

  predicate AsyncInitial(s: Async) {
    s.next <= s.tail && s.phase == Idle && !s.registered && !s.pushing && s.seen <= s.tail
  }

  predicate AsyncEnabled(s: Async, a: AsyncAction) {
    match a
    case ReadTail => s.phase == Idle
    case Deliver => s.phase == Reading && s.next <= s.seen
    case Skip => s.phase == Reading && s.next <= s.seen
    case Register => s.phase == Reading && s.next > s.seen
    case PollAgain => s.phase == Sleeping
    case Publish => true
    case Drain => s.pushing
  }

  function AsyncStep(s: Async, a: AsyncAction): Async
    requires AsyncEnabled(s, a)
  {
    match a
    case ReadTail => s.(seen := s.tail, phase := Reading)
    case Deliver => s.(next := s.next + 1, phase := Idle)
    case Skip => s.(next := s.next + 1)
    case Register => s.(registered := true, phase := Sleeping)
    case PollAgain => s.(phase := Idle)
    case Publish => s.(tail := s.tail + 1, pushing := true)
    case Drain =>
      s.(registered := false, pushing := false,
         phase := if s.registered && s.phase == Sleeping then Idle else s.phase)
  }

  /** One poll reads the tail once: whatever is skipped, the receiver comes to the end of what it saw without reading
      the tail again, and there it registers. */
  lemma {:induction false} SkipsToTheEnd(s: Async) returns (s': Async)
    requires s.phase == Reading && s.next <= s.seen + 1
    ensures s' == s.(next := s.seen + 1) && AsyncEnabled(s', Register) && !AsyncEnabled(s', ReadTail)
    decreases s.seen + 1 - s.next
  {
    s' := s;
    if AsyncEnabled(s, Skip) {
      s' := SkipsToTheEnd(AsyncStep(s, Skip));
    }
  }

  ghost predicate AsyncStepAt(states: seq<Async>, actions: seq<AsyncAction>, i: nat)
    requires i < |actions| < |states|
  {
    AsyncEnabled(states[i], actions[i]) && states[i + 1] == AsyncStep(states[i], actions[i])
  }

  ghost predicate AsyncRun(states: seq<Async>, actions: seq<AsyncAction>) {
    && |states| == |actions| + 1 && AsyncInitial(states[0])
    && forall i :: 0 <= i < |actions| ==> AsyncStepAt(states, actions, i)
  }

  /** Position `p` of the actions is a publication after position `from`. */
  predicate PublishedAt(actions: seq<AsyncAction>, from: nat, p: nat) {
    from < p < |actions| && actions[p] == Publish
  }

  /** A push published at `p` and drained at `d`, both between `from` and `to`. */
  predicate WholePush(actions: seq<AsyncAction>, from: nat, to: nat, p: nat, d: nat) {
    from < p < d < to <= |actions| && actions[p] == Publish && actions[d] == Drain
  }

  ghost predicate MissedPush(actions: seq<AsyncAction>, from: nat, to: nat) {
    exists p, d :: WholePush(actions, from, to, p, d)
  }

  /** The receiver is in the receive that began with the read of the tail at `read`. */
  ghost predicate ReadingSince(s: Async, actions: seq<AsyncAction>, read: nat) {
    && read < |actions| && actions[read] == ReadTail
    && (forall k :: read < k < |actions| ==> actions[k] in {Skip, Publish, Drain})
    && (s.seen < s.tail <==> exists p :: PublishedAt(actions, read, p))
    && (s.seen < s.tail && !s.pushing ==> MissedPush(actions, read, |actions|))
  }

  /** `read` and `register` are the last read of the tail and the registration that put the receiver to
      sleep; nothing was drained since. */
  ghost predicate SleepingSince(actions: seq<AsyncAction>, read: nat, register: nat) {
    && read < register < |actions| && actions[read] == ReadTail && actions[register] == Register
    && (forall k :: read < k < register ==> actions[k] in {Skip, Publish, Drain})
    && (forall k :: register < k < |actions| ==> actions[k] == Publish)
  }

  ghost predicate FellAsleep(s: Async, actions: seq<AsyncAction>, read: nat, register: nat) {
    && SleepingSince(actions, read, register) && s.next == s.seen + 1
    && (MissedPush(actions, read, register) ==> s.seen < s.tail)
    && (s.seen < s.tail && !s.pushing ==> MissedPush(actions, read, register))
  }

  ghost predicate AsyncInv(s: Async, actions: seq<AsyncAction>) {
    && s.next <= s.tail + 1 && s.seen <= s.tail
    && (s.phase == Sleeping ==> s.registered)
    && (s.phase == Reading ==> s.next <= s.seen + 1 && exists read :: ReadingSince(s, actions, read))
    && (s.phase == Sleeping ==> exists read, register :: FellAsleep(s, actions, read, register))
  }

  /** A whole push stays one when more happens. */
  lemma MissedPushGrows(actions: seq<AsyncAction>, a: AsyncAction, from: nat, to: nat)
    requires to <= |actions|
    ensures MissedPush(actions + [a], from, to) <==> MissedPush(actions, from, to)
  {
    if MissedPush(actions, from, to) {
      var p, d :| WholePush(actions, from, to, p, d);
      assert WholePush(actions + [a], from, to, p, d);
    }
    if MissedPush(actions + [a], from, to) {
      var p, d :| WholePush(actions + [a], from, to, p, d);
      assert WholePush(actions, from, to, p, d);
    }
  }

  /** While the receiver reads, a publication it has not seen becomes a whole push with the next drain. */
  lemma ReadingGoesOn(s: Async, actions: seq<AsyncAction>, a: AsyncAction, read: nat)
    requires ReadingSince(s, actions, read) && s.seen <= s.tail
    requires a in {Skip, Publish, Drain} && AsyncEnabled(s, a)
    ensures ReadingSince(AsyncStep(s, a), actions + [a], read)
  {
    var s', actions', n := AsyncStep(s, a), actions + [a], |actions|;
    if p: nat :| PublishedAt(actions, read, p) {
      assert PublishedAt(actions', read, p);
      if a == Drain {
        assert WholePush(actions', read, n + 1, p, n);
      }
    }
    if p: nat :| PublishedAt(actions', read, p) {
      assert p < n ==> PublishedAt(actions, read, p);
    }
    if a == Publish {
      assert PublishedAt(actions', read, n);
    }
    if MissedPush(actions, read, n) {
      var p, d :| WholePush(actions, read, n, p, d);
      assert WholePush(actions', read, n + 1, p, d);
    }
  }

  lemma FallsAsleep(s: Async, actions: seq<AsyncAction>, read: nat)
    requires ReadingSince(s, actions, read) && s.seen <= s.tail && s.next <= s.seen + 1 && AsyncEnabled(s, Register)
    ensures FellAsleep(AsyncStep(s, Register), actions + [Register], read, |actions|)
  {
    var actions', n := actions + [Register], |actions|;
    MissedPushGrows(actions, Register, read, n);
    if MissedPush(actions, read, n) {
      var p, d :| WholePush(actions, read, n, p, d);
      assert PublishedAt(actions, read, p);
    }
  }

  lemma StaysAsleep(s: Async, actions: seq<AsyncAction>, read: nat, register: nat)
    requires FellAsleep(s, actions, read, register)
    ensures FellAsleep(AsyncStep(s, Publish), actions + [Publish], read, register)
  {
    MissedPushGrows(actions, Publish, read, register);
  }

  lemma AsyncStepKeeps(s: Async, actions: seq<AsyncAction>, a: AsyncAction)
    requires AsyncInv(s, actions) && AsyncEnabled(s, a)
    ensures AsyncInv(AsyncStep(s, a), actions + [a])
  {
    hide ReadingSince, FellAsleep;
    if a == ReadTail {
      ReadsTail(s, actions);
    } else if s.phase == Reading {
      var read :| ReadingSince(s, actions, read);
      if a == Register {
        FallsAsleep(s, actions, read);
      } else if a != Deliver {
        ReadingGoesOn(s, actions, a, read);
      }
    } else if s.phase == Sleeping && a == Publish {
      var read, register :| FellAsleep(s, actions, read, register);
      StaysAsleep(s, actions, read, register);
    }
  }

  lemma ReadsTail(s: Async, actions: seq<AsyncAction>)
    requires AsyncEnabled(s, ReadTail)
    ensures ReadingSince(AsyncStep(s, ReadTail), actions + [ReadTail], |actions|)
  {
  }

  lemma {:induction false} AsyncRunKeeps(states: seq<Async>, actions: seq<AsyncAction>, i: nat)
    requires AsyncRun(states, actions) && i < |states|
    ensures AsyncInv(states[i], actions[..i])
  {
    hide AsyncInv, AsyncStep;
    if i == 0 {
      AsyncStart(states[0]);
    } else {
      AsyncRunKeeps(states, actions, i - 1);
      assert AsyncStepAt(states, actions, i - 1);
      AsyncStepKeeps(states[i - 1], actions[..i - 1], actions[i - 1]);
      assert actions[..i] == actions[..i - 1] + [actions[i - 1]];
    }
  }

  lemma AsyncStart(s: Async)
    requires AsyncInitial(s)
    ensures AsyncInv(s, [])
  {
  }

  /** Over every run: while no push is under way, a sleeping receiver of the commitment ring has a published
      message waiting if and only if a whole push, publication and drain, fell between its last read of the
      tail and its registration. */
  lemma AsyncSleepsOnWork(states: seq<Async>, actions: seq<AsyncAction>, i: nat) returns (read: nat, register: nat)
    requires AsyncRun(states, actions) && i < |states| && states[i].phase == Sleeping && !states[i].pushing
    ensures SleepingSince(actions[..i], read, register)
    ensures states[i].next <= states[i].tail <==> MissedPush(actions[..i], read, register)
  {
    hide MissedPush, SleepingSince;
    AsyncRunKeeps(states, actions, i);
    read, register :| FellAsleep(states[i], actions[..i], read, register);
  }

  /** Such a run: after its first message, a receiver reads the tail, a push publishes and drains, and the
      receiver then goes to sleep on the message just published. */
  lemma AsyncCanMissAWakeup(tail: nat) returns (states: seq<Async>, actions: seq<AsyncAction>)
    ensures AsyncRun(states, actions)
    ensures var s := states[|actions|]; s.phase == Sleeping && !s.pushing && s.next <= s.tail
  {
    actions := [ReadTail, Deliver, ReadTail, Publish, Drain, Register];
    var s0 := Async(tail, tail, tail, Idle, false, false);
    var s1 := AsyncStep(s0, ReadTail);
    var s2 := AsyncStep(s1, Deliver);
    var s3 := AsyncStep(s2, ReadTail);
    var s4 := AsyncStep(s3, Publish);
    var s5 := AsyncStep(s4, Drain);
    var s6 := AsyncStep(s5, Register);
    states := [s0, s1, s2, s3, s4, s5, s6];
    forall i | 0 <= i < |actions|
      ensures AsyncStepAt(states, actions, i)
    {
    }
  }
}
