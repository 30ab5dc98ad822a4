/** The recovery protocol of several sources, `GlobalReplayFromSlot` of `richat/src/channel.rs` and
    `Subscription::source_stream`, `Subscriptions` of `richat/src/source.rs`. Names of sources are
    distinct. */
module Recovery {
  import opened Basics

  type Name = nat

  // ----- the shared replay position -----

  /** `GlobalReplayFromSlotInner` */
  datatype Replay = Replay(value: Option<Slot>, failed: set<Name>, total: nat, epoch: nat)

  /** `store`: a later slot gives every source a new chance. */
  function Store(g: Replay, slot: Slot): Replay {
    if g.value.None? || slot > g.value.value then g.(value := Some(slot), failed := {}) else g
  }

  /** `update_sources` */
  function UpdateSources(g: Replay, total: nat): Replay {
    g.(total := total, failed := {})
  }

  /** A failure that speaks of the current position. */
  predicate Current(g: Replay, requested: Option<Slot>, epoch: nat) {
    requested.Some? && g.value == requested && g.epoch == epoch
  }

  /** `fallback_to_live`: whether the history is given up, and the state afterwards. */
  function FallbackToLive(g: Replay, name: Name, requested: Option<Slot>, epoch: nat): (Replay, bool) {
    if !Current(g, requested, epoch) then (g, false)
    else
      var failed := g.failed + {name};
      if |failed| < g.total then (g.(failed := failed), false)
      else (g.(value := None, epoch := g.epoch + 1, failed := {}), true)
  }

  /** The object that the source guards with a mutex. */
  class GlobalReplayFromSlot {
    var value: Option<Slot>
    var failed: set<Name>
    var total: nat
    var epoch: nat

    ghost function View(): Replay
      reads this
    {
      Replay(value, failed, total, epoch)
    }

    constructor (value: Option<Slot>, total: nat)
      ensures View() == Replay(value, {}, total, 0)
    {
      this.value, failed, this.total, epoch := value, {}, total, 0;
    }

    method StoreSlot(slot: Slot)
      modifies this
      ensures View() == Store(old(View()), slot)
      ensures value.Some? && value.value >= slot && (old(value).Some? ==> value.value >= old(value).value)
    {
      if value.None? || slot > value.value {
        failed := {};
      }
      var current := if value.Some? then value.value else slot;
      value := Some(if current > slot then current else slot);
    }

    method Fallback(name: Name, requested: Option<Slot>, epoch_: nat) returns (advanced: bool)
      modifies this
      ensures FallbackToLive(old(View()), name, requested, epoch_) == (View(), advanced)
      ensures epoch == old(epoch) + if advanced then 1 else 0
    {
      if requested.None? || value != requested || epoch != epoch_ {
        return false;
      }
      failed := failed + {name};
      if |failed| < total {
        return false;
      }
      value, epoch, failed := None, epoch + 1, {};
      advanced := true;
    }

    method SetSources(newTotal: nat)
      modifies this
      ensures View() == UpdateSources(old(View()), newTotal)
    {
      total, failed := newTotal, {};
    }
  }

  // ----- the merged stream -----

  datatype Phase = Idle | Subscribing | Open | Finished

  /** `requested` and `epoch` are the snapshot the subscription was opened with, `since` is how much had
      been delivered by then. */
  datatype Source = Source(reconnect: bool, phase: Phase, requested: Option<Slot>, epoch: nat, since: nat)

  datatype Output =
    | Message(source: Name, epoch: nat, since: nat)
    | ReplayGap(fromSlot: Slot)
    | Failure(source: Name)

  datatype Report = Report(name: Name, slot: Slot, epoch: nat)

  /** `output` is what the merged stream delivered; `reports` are the replay failures that counted. */
  datatype System = System(global: Replay, sources: map<Name, Source>, output: seq<Output>, reports: set<Report>)

  datatype Problem = ReplayFailed | SourceClosed | OtherProblem

  datatype Action =
    | Advance(slot: Slot)
    | Subscribe(name: Name)
    | Connected(name: Name)
    | Receive(name: Name)
    | Fail(name: Name, problem: Problem)
    | Remove(name: Name)
    | Reload(removed: set<Name>, added: map<Name, bool>)

  function FreshSource(reconnect: bool): Source {
    Source(reconnect, Idle, None, 0, 0)
  }

  ghost predicate Initial(sys: System) {
    && sys.global.failed == {} && sys.global.total == |sys.sources| && sys.global.epoch == 0
    && sys.output == [] && sys.reports == {}
    && forall n :: n in sys.sources ==> sys.sources[n] == FreshSource(sys.sources[n].reconnect)
  }

  function Set(sys: System, name: Name, s: Source): System {
    sys.(sources := sys.sources[name := s])
  }

  function WithSources(sys: System, sources: map<Name, Source>): System {
    sys.(sources := sources, global := UpdateSources(sys.global, |sources|))
  }

  /** `apply_reload` */
  function Reloaded(sources: map<Name, Source>, removed: set<Name>, added: map<Name, bool>): map<Name, Source> {
    (sources - removed) + map n | n in added && n !in sources - removed :: FreshSource(added[n])
  }

  /** A subscription of an earlier epoch. */
  predicate Stale(sys: System, s: Source) {
    s.epoch != sys.global.epoch
  }

  /** A source whose upstream has lost the requested history reports it, and yields the gap if it is the
      last one; it then starts over. */
  function HistoryLost(sys: System, name: Name, s: Source): System
    requires s.requested.Some?
  {
    var (g, advanced) := FallbackToLive(sys.global, name, s.requested, s.epoch);
    System(g, sys.sources[name := s.(phase := Idle)],
           if advanced then sys.output + [ReplayGap(s.requested.value)] else sys.output,
           if Current(sys.global, s.requested, s.epoch)
           then sys.reports + {Report(name, s.requested.value, s.epoch)} else sys.reports)
  }

  /** The end of a failed attempt: anything but a lost history is retried, or ends the source. */
  function Failed(sys: System, name: Name, s: Source, problem: Problem): System {
    if problem == ReplayFailed && s.requested.Some? then HistoryLost(sys, name, s)
    else if s.reconnect then Set(sys, name, s.(phase := Idle))
    else if problem == SourceClosed then Set(sys, name, s.(phase := Finished))
    else Set(sys, name, s.(phase := Finished)).(output := sys.output + [Failure(name)])
  }

  /** One step of one source, of the sender's position or of the set of sources. The sources are polled
      one at a time. */
  ghost predicate Step(sys: System, a: Action, sys': System) {
    match a
    case Advance(slot) => sys' == sys.(global := Store(sys.global, slot))
    case Subscribe(n) =>
      && n in sys.sources
      && var s := sys.sources[n];
      && (s.phase.Idle? || (s.phase.Open? && Stale(sys, s)))
      && sys' == Set(sys, n, s.(phase := Subscribing, requested := sys.global.value, epoch := sys.global.epoch,
                                since := |sys.output|))
    case Connected(n) =>
      && n in sys.sources && sys.sources[n].phase.Subscribing?
      && sys' == Set(sys, n, sys.sources[n].(phase := Open))
    case Receive(n) =>
      && n in sys.sources && sys.sources[n].phase.Open?
      && var s := sys.sources[n];
      sys' == if Stale(sys, s) then Set(sys, n, s.(phase := Idle))
              else sys.(output := sys.output + [Message(n, s.epoch, s.since)])
    case Fail(n, problem) =>
      && n in sys.sources
      && var s := sys.sources[n];
      && (s.phase.Subscribing? || s.phase.Open?)
      && sys' == if s.phase.Open? && Stale(sys, s) then Set(sys, n, s.(phase := Idle)) else Failed(sys, n, s, problem)
    case Remove(n) =>
      && n in sys.sources
      && sys' == WithSources(sys, sys.sources - {n})
    case Reload(removed, added) =>
      sys' == WithSources(sys, Reloaded(sys.sources, removed, added))
  }

  // ----- epochs told from the output -----

  function Gaps(output: seq<Output>): nat {
    if output == [] then 0 else Gaps(output[..|output| - 1]) + if output[|output| - 1].ReplayGap? then 1 else 0
  }

  /** A delivered message belongs to the epoch it is delivered in: it carries the number of gaps before
      it, and no gap lies between the opening of its subscription and its delivery. */
  ghost predicate FencedAt(output: seq<Output>, i: nat)
    requires i < |output|
  {
    output[i].Message? ==>
      && output[i].epoch == Gaps(output[..i])
      && output[i].since <= i
      && forall k :: output[i].since <= k < i ==> !output[k].ReplayGap?
  }

  /** The epoch of a subscription is the number of gaps when it was opened. */
  ghost predicate OpenedIn(sys: System, n: Name) {
    n in sys.sources ==>
      var s := sys.sources[n];
      s.since <= |sys.output| && s.epoch == Gaps(sys.output[..s.since])
  }

  ghost predicate Reported(sys: System, n: Name) {
    n in sys.global.failed ==>
      && n in sys.sources && sys.global.value.Some?
      && Report(n, sys.global.value.value, sys.global.epoch) in sys.reports
  }

  ghost predicate Inv(sys: System) {
    && sys.global.total == |sys.sources|
    && sys.global.epoch == Gaps(sys.output)
    && (forall n :: OpenedIn(sys, n))
    && (forall n :: Reported(sys, n))
    && (forall i :: 0 <= i < |sys.output| ==> FencedAt(sys.output, i))
  }

  lemma GapsPush(output: seq<Output>, o: Output)
    ensures Gaps(output + [o]) == Gaps(output) + if o.ReplayGap? then 1 else 0
  {
    assert (output + [o])[..|output|] == output;
  }

  /** As many gaps in a prefix as in the whole means none after it. */
  lemma {:induction false} NoGapSince(output: seq<Output>, since: nat)
    requires since <= |output|
    ensures Gaps(output[..since]) <= Gaps(output)
    ensures Gaps(output[..since]) == Gaps(output) <==> forall k :: since <= k < |output| ==> !output[k].ReplayGap?
  {
    if since == |output| {
      assert output[..since] == output;
    } else {
      var n := |output| - 1;
      NoGapSince(output[..n], since);
      assert output[..n][..since] == output[..since];
      assert forall k :: since <= k < n ==> output[..n][k] == output[k];
    }
  }

  /** The source has kept its snapshot. */
  ghost predicate Kept(sys: System, sys': System, n: Name) {
    && n in sys'.sources && n in sys.sources
    && sys'.sources[n].since == sys.sources[n].since && sys'.sources[n].epoch == sys.sources[n].epoch
  }

  /** Appending to the output keeps what is true of the part before. */
  lemma OutputGrows(sys: System, sys': System, o: Output)
    requires Inv(sys) && sys'.output == sys.output + [o]
    ensures forall i :: 0 <= i < |sys.output| ==> FencedAt(sys'.output, i)
    ensures forall n :: Kept(sys, sys', n) ==> OpenedIn(sys', n)
  {
    forall i | 0 <= i < |sys.output|
      ensures FencedAt(sys'.output, i)
    {
      assert FencedAt(sys.output, i);
      assert sys'.output[..i] == sys.output[..i];
    }
    forall n | Kept(sys, sys', n)
      ensures OpenedIn(sys', n)
    {
      assert OpenedIn(sys, n);
      assert sys'.output[..sys.sources[n].since] == sys.output[..sys.sources[n].since];
    }
  }

  lemma ReceiveKeeps(sys: System, n: Name, sys': System)
    requires Inv(sys) && n in sys.sources && !Stale(sys, sys.sources[n])
    requires var s := sys.sources[n]; sys' == sys.(output := sys.output + [Message(n, s.epoch, s.since)])
    ensures Inv(sys')
  {
    var s := sys.sources[n];
    assert OpenedIn(sys, n);
    var o := Message(n, s.epoch, s.since);
    OutputGrows(sys, sys', o);
    GapsPush(sys.output, o);
    NoGapSince(sys.output, s.since);
    assert sys'.output[..|sys.output|] == sys.output;
    forall u: Name
      ensures Reported(sys', u) && OpenedIn(sys', u)
    {
      assert Reported(sys, u);
      assert u in sys.sources ==> Kept(sys, sys', u);
    }
  }

  /** A step that delivers nothing and reports nothing new. */
  lemma SameOutputKeeps(sys: System, sys': System)
    requires Inv(sys) && sys'.output == sys.output && sys'.global.epoch == sys.global.epoch
    requires sys'.global.total == |sys'.sources| && sys.reports <= sys'.reports
    requires forall n :: n in sys'.sources ==> SameOpening(sys, sys', n)
    requires forall n :: n in sys'.global.failed ==>
               n in sys.global.failed && n in sys'.sources && sys'.global.value == sys.global.value
    ensures Inv(sys')
  {
    forall n: Name
      ensures OpenedIn(sys', n) && Reported(sys', n)
    {
      assert OpenedIn(sys, n) && Reported(sys, n);
      if n in sys'.sources {
        assert SameOpening(sys, sys', n);
        assert sys.output[..|sys.output|] == sys.output;
      }
    }
  }

  /** The source kept its snapshot, has just taken one, or has never taken one. */
  ghost predicate SameOpening(sys: System, sys': System, n: Name)
    requires n in sys'.sources
  {
    var s' := sys'.sources[n];
    || Kept(sys, sys', n)
    || (s'.since == |sys.output| && s'.epoch == sys.global.epoch)
    || (s'.since == 0 && s'.epoch == 0)
  }

  lemma AllFailed(failed: set<Name>, sources: map<Name, Source>)
    requires failed <= sources.Keys && |failed| >= |sources|
    ensures failed == sources.Keys
  {
    if failed != sources.Keys {
      var n :| n in sources.Keys && n !in failed;
      var all := sources.Keys;
      assert failed <= all - {n};
      SubsetSize(failed, all - {n});
    }
  }

  lemma {:induction false} SubsetSize(a: set<Name>, b: set<Name>)
    requires a <= b
    ensures |a| <= |b|
    decreases a
  {
    if a != {} {
      var x :| x in a;
      SubsetSize(a - {x}, b - {x});
    }
  }

  /** A failed attempt that does not advance the epoch. */
  lemma FailedStays(sys: System, n: Name, sys': System, extra: set<Name>)
    requires Inv(sys) && n in sys.sources && sys'.sources.Keys == sys.sources.Keys
    requires forall u :: u in sys'.sources ==> Kept(sys, sys', u)
    requires extra <= {n} && sys'.global == sys.global.(failed := sys.global.failed + extra)
    requires extra != {} ==>
          sys.global.value.Some? && Report(n, sys.global.value.value, sys.global.epoch) in sys'.reports
    requires sys.reports <= sys'.reports
    requires sys'.output == sys.output || sys'.output == sys.output + [Failure(n)]
    ensures Inv(sys')
  {
    SameSize(sys.sources, n, sys'.sources);
    forall u: Name
      ensures OpenedIn(sys', u) && Reported(sys', u)
    {
      assert OpenedIn(sys, u) && Reported(sys, u);
      assert u in sys'.sources ==> Kept(sys, sys', u);
      if sys'.output != sys.output {
        OutputGrows(sys, sys', Failure(n));
      }
    }
    if sys'.output != sys.output {
      OutputGrows(sys, sys', Failure(n));
      GapsPush(sys.output, Failure(n));
    }
  }

  /** The failure that completes the count advances the epoch and puts one gap in the output. */
  lemma FailedAdvances(sys: System, n: Name, sys': System, slot: Slot)
    requires Inv(sys) && n in sys.sources && sys'.sources.Keys == sys.sources.Keys
    requires forall u :: u in sys'.sources ==> Kept(sys, sys', u)
    requires sys'.global == sys.global.(value := None, epoch := sys.global.epoch + 1, failed := {})
    requires sys'.output == sys.output + [ReplayGap(slot)]
    ensures Inv(sys')
  {
    SameSize(sys.sources, n, sys'.sources);
    OutputGrows(sys, sys', ReplayGap(slot));
    GapsPush(sys.output, ReplayGap(slot));
    forall u: Name
      ensures OpenedIn(sys', u) && Reported(sys', u)
    {
      assert u in sys'.sources ==> Kept(sys, sys', u);
    }
  }

  lemma HistoryLostKeeps(sys: System, n: Name, s: Source)
    requires Inv(sys) && n in sys.sources && s == sys.sources[n] && s.requested.Some?
    ensures Inv(HistoryLost(sys, n, s))
  {
    hide Inv;
    var sys' := HistoryLost(sys, n, s);
    assert sys'.sources.Keys == sys.sources.Keys;
    assert forall u :: u in sys'.sources ==> Kept(sys, sys', u);
    if FallbackToLive(sys.global, n, s.requested, s.epoch).1 {
      FailedAdvances(sys, n, sys', s.requested.value);
    } else if Current(sys.global, s.requested, s.epoch) {
      FailedStays(sys, n, sys', {n});
    } else {
      assert sys.global.failed + {} == sys.global.failed;
      FailedStays(sys, n, sys', {});
    }
  }

  lemma FailedKeeps(sys: System, n: Name, problem: Problem)
    requires Inv(sys) && n in sys.sources
    ensures Inv(Failed(sys, n, sys.sources[n], problem))
  {
    hide Inv, HistoryLost;
    var s, sys' := sys.sources[n], Failed(sys, n, sys.sources[n], problem);
    if problem == ReplayFailed && s.requested.Some? {
      HistoryLostKeeps(sys, n, s);
    } else {
      assert sys'.sources.Keys == sys.sources.Keys;
      assert sys.global.failed + {} == sys.global.failed;
      FailedStays(sys, n, sys', {});
    }
  }

  /** A step of one source that delivers nothing. */
  lemma SourceMoves(sys: System, n: Name, s: Source)
    requires Inv(sys) && n in sys.sources
    requires (s.since == sys.sources[n].since && s.epoch == sys.sources[n].epoch)
             || (s.since == |sys.output| && s.epoch == sys.global.epoch)
    ensures Inv(Set(sys, n, s))
  {
    var sys' := Set(sys, n, s);
    assert sys'.sources.Keys == sys.sources.Keys;
    SameSize(sys.sources, n, sys'.sources);
    forall u | u in sys.global.failed
      ensures u in sys'.sources
    {
      assert Reported(sys, u);
    }
    SameOutputKeeps(sys, sys');
  }

  lemma AdvanceKeeps(sys: System, slot: Slot)
    requires Inv(sys)
    ensures Inv(sys.(global := Store(sys.global, slot)))
  {
    var sys' := sys.(global := Store(sys.global, slot));
    forall u | u in sys'.global.failed
      ensures u in sys'.sources && u in sys.global.failed && sys'.global.value == sys.global.value
    {
      assert Reported(sys, u);
    }
    SameOutputKeeps(sys, sys');
  }

  lemma SourcesChange(sys: System, sources: map<Name, Source>)
    requires Inv(sys)
    requires forall n :: n in sources ==>
               (n in sys.sources && sources[n] == sys.sources[n]) || sources[n] == FreshSource(sources[n].reconnect)
    ensures Inv(WithSources(sys, sources))
  {
    SameOutputKeeps(sys, WithSources(sys, sources));
  }

  lemma ReloadKeeps(sys: System, removed: set<Name>, added: map<Name, bool>)
    requires Inv(sys)
    ensures Inv(WithSources(sys, Reloaded(sys.sources, removed, added)))
  {
    hide Inv;
    SourcesChange(sys, Reloaded(sys.sources, removed, added));
  }

  /** Every step keeps the protocol's invariant. */
  lemma StepKeepsInv(sys: System, a: Action, sys': System)
    requires Inv(sys) && Step(sys, a, sys')
    ensures Inv(sys')
  {
    hide Inv, Failed, Reloaded, WithSources;
    match a
    case Advance(slot) => AdvanceKeeps(sys, slot);
    case Subscribe(n) =>
      SourceMoves(sys, n, sys.sources[n].(phase := Subscribing, requested := sys.global.value,
                                          epoch := sys.global.epoch, since := |sys.output|));
    case Connected(n) => SourceMoves(sys, n, sys.sources[n].(phase := Open));
    case Receive(n) =>
      SourceMoves(sys, n, sys.sources[n].(phase := Idle));
      if !Stale(sys, sys.sources[n]) {
        ReceiveKeeps(sys, n, sys');
      }
    case Fail(n, problem) =>
      SourceMoves(sys, n, sys.sources[n].(phase := Idle));
      FailedKeeps(sys, n, problem);
    case Remove(n) => SourcesChange(sys, sys.sources - {n});
    case Reload(removed, added) => ReloadKeeps(sys, removed, added);
  }

  lemma SameSize(sources: map<Name, Source>, n: Name, sources': map<Name, Source>)
    requires n in sources && sources'.Keys == sources.Keys
    ensures |sources'| == |sources|
  {
    assert |sources'.Keys| == |sources.Keys|;
  }

  // ----- what the protocol promises -----

  /** A stale failure changes nothing; a current one advances the epoch exactly if it is the last source
      that was missing. */
  lemma FallbackIsRight(sys: System, name: Name, requested: Option<Slot>, epoch: nat)
    requires Inv(sys) && name in sys.sources
    ensures var (g, advanced) := FallbackToLive(sys.global, name, requested, epoch);
      && (!Current(sys.global, requested, epoch) ==> g == sys.global && !advanced)
      && (advanced <==> Current(sys.global, requested, epoch) && sys.global.failed + {name} == sys.sources.Keys)
  {
    var failed := sys.global.failed + {name};
    forall n | n in failed
      ensures n in sys.sources
    {
      assert Reported(sys, n);
    }
    if |failed| >= sys.global.total {
      AllFailed(failed, sys.sources);
    }
  }

  /** The epoch advances only by a step that puts one gap in the output, and only after every configured
      source has reported that it cannot replay the current slot in the current epoch. */
  lemma AdvanceNeedsAll(sys: System, a: Action, sys': System)
    requires Inv(sys) && Step(sys, a, sys') && sys'.global.epoch != sys.global.epoch
    ensures sys'.global.epoch == sys.global.epoch + 1 && sys'.global.value.None?
    ensures sys.global.value.Some? && sys'.output == sys.output + [ReplayGap(sys.global.value.value)]
    ensures forall n :: n in sys.sources ==> Report(n, sys.global.value.value, sys.global.epoch) in sys'.reports
  {
    hide Inv;
    var n := a.name;
    var s := sys.sources[n];
    FallbackIsRight(sys, n, s.requested, s.epoch);
    forall u | u in sys.sources
      ensures Report(u, sys.global.value.value, sys.global.epoch) in sys'.reports
    {
      FailedWasReported(sys, u);
      assert u in sys.global.failed + {n};
    }
  }

  lemma FailedWasReported(sys: System, n: Name)
    requires Inv(sys)
    ensures n in sys.global.failed ==>
      sys.global.value.Some? && Report(n, sys.global.value.value, sys.global.epoch) in sys.reports
  {
    assert Reported(sys, n);
  }

  /** A new subscription asks for the current position, in the current epoch. */
  lemma SubscriptionAsksForCurrent(sys: System, n: Name, sys': System)
    requires Step(sys, Subscribe(n), sys')
    ensures n in sys'.sources && sys'.sources[n].requested == sys.global.value
    ensures sys'.sources[n].epoch == sys.global.epoch && sys'.sources[n].since == |sys.output|
    ensures sys'.output == sys.output && sys'.global == sys.global
  {
  }

  /** How an attempt ends that fails while its subscription is current or still being opened: a lost history is always
      retried, with whatever position there is then; anything else is retried if the source reconnects, and otherwise
      ends the source, with a failure in the output unless the source just closed. */
  lemma FailureIsHandled(sys: System, n: Name, problem: Problem, sys': System)
    requires Step(sys, Fail(n, problem), sys')
    ensures var s := sys.sources[n];
      var stale, lost := s.phase.Open? && Stale(sys, s), problem == ReplayFailed && s.requested.Some?;
      && n in sys'.sources
      && (sys'.sources[n].phase.Finished? <==> !stale && !lost && !s.reconnect)
      && (!sys'.sources[n].phase.Finished? ==> sys'.sources[n].phase.Idle?)
      && (sys'.output == sys.output + [Failure(n)] <==>
            !stale && !lost && !s.reconnect && problem != SourceClosed)
      && (sys'.global == sys.global || (!stale && lost && Current(sys.global, s.requested, s.epoch)))
      && sys'.reports == sys.reports
                         + if !stale && lost && sys.global.value == s.requested && sys.global.epoch == s.epoch
                           then {Report(n, s.requested.value, s.epoch)} else {}
  {
    var gained := sys'.output[|sys.output|..];
    assert sys.output <= sys'.output && sys'.output == sys.output + gained;
    assert sys'.output == sys.output + [Failure(n)] <==> gained == [Failure(n)] by {
      assert (sys.output + [Failure(n)])[|sys.output|..] == [Failure(n)];
    }
  }

  /** What becomes of source `n` in a reload: it goes on as it is unless it is removed, and starts afresh if it is
      added, reconnecting if it is told to. */
  ghost predicate ReloadedAt(before: map<Name, Source>, removed: set<Name>, added: map<Name, bool>,
                             after: map<Name, Source>, n: Name) {
    var stays := n in before && n !in removed;
    && (n in after <==> stays || n in added)
    && (stays ==> after[n] == before[n])
    && (!stays && n in added ==> after[n].phase.Idle? && after[n].reconnect == added[n])
  }

  lemma ReloadIsAt(before: map<Name, Source>, removed: set<Name>, added: map<Name, bool>, n: Name)
    ensures ReloadedAt(before, removed, added, Reloaded(before, removed, added), n)
  {
  }

  /** The number of sources follows a reload, each has a new chance, and nothing else changes. */
  lemma ReloadIs(sys: System, removed: set<Name>, added: map<Name, bool>, sys': System)
    requires Step(sys, Reload(removed, added), sys')
    ensures forall n :: ReloadedAt(sys.sources, removed, added, sys'.sources, n)
    ensures sys'.global.total == |sys'.sources| && sys'.global.failed == {}
    ensures sys'.global.value == sys.global.value && sys'.global.epoch == sys.global.epoch && sys'.output == sys.output
  {
    hide ReloadedAt, Reloaded;
    forall n: Name
      ensures ReloadedAt(sys.sources, removed, added, sys'.sources, n)
    {
      ReloadIsAt(sys.sources, removed, added, n);
    }
  }

  ghost predicate StepAt(states: seq<System>, actions: seq<Action>, i: nat)
    requires i < |actions| < |states|
  {
    Step(states[i], actions[i], states[i + 1])
  }

  ghost predicate Run(states: seq<System>, actions: seq<Action>) {
    && |states| == |actions| + 1 && Initial(states[0])
    && forall i :: 0 <= i < |actions| ==> StepAt(states, actions, i)
  }

  lemma {:induction false} RunKeepsInv(states: seq<System>, actions: seq<Action>, i: nat)
    requires Run(states, actions) && i < |states|
    ensures Inv(states[i])
  {
    hide Step, Inv;
    if i == 0 {
      InitialInv(states[0]);
    } else {
      RunKeepsInv(states, actions, i - 1);
      assert StepAt(states, actions, i - 1);
      StepKeepsInv(states[i - 1], actions[i - 1], states[i]);
    }
  }

  lemma InitialInv(sys: System)
    requires Initial(sys)
    ensures Inv(sys)
  {
  }

  /** Over any run the output is fenced: there are as many gaps as the epoch says, and every message
      comes from a subscription opened after the last gap before it. */
  lemma OutputIsFenced(states: seq<System>, actions: seq<Action>, i: nat, k: nat)
    requires Run(states, actions) && i < |states| && k < |states[i].output|
    ensures FencedAt(states[i].output, k) && Gaps(states[i].output) == states[i].global.epoch
  {
    hide Run;
    RunKeepsInv(states, actions, i);
  }

  /** Between messages of consecutive epochs there is exactly one gap. */
  lemma OneGapBetween(states: seq<System>, actions: seq<Action>, i: nat, j: nat, k: nat)
    requires Run(states, actions) && i < |states| && j < k < |states[i].output|
    requires states[i].output[j].Message? && states[i].output[k].Message?
    ensures states[i].output[j].epoch <= states[i].output[k].epoch
    ensures states[i].output[k].epoch == states[i].output[j].epoch <==>
              forall g :: j <= g < k ==> !states[i].output[g].ReplayGap?
    ensures states[i].output[k].epoch == states[i].output[j].epoch + 1 ==>
              exists g :: IsOnlyGap(states[i].output, j, k, g)
  {
    hide Run;
    RunKeepsInv(states, actions, i);
    var output := states[i].output;
    assert FencedAt(output, j) && FencedAt(output, k);
    NoGapSince(output[..k], j);
    assert output[..k][..j] == output[..j];
    assert forall g :: j <= g < k ==> output[..k][g] == output[g];
    if output[k].epoch == output[j].epoch + 1 {
      var g := OnlyGap(output[..k], j);
      assert IsOnlyGap(output, j, k, g);
    }
  }

  ghost predicate IsOnlyGap(output: seq<Output>, j: nat, k: nat, g: nat)
    requires j <= k <= |output|
  {
    j <= g < k && output[g].ReplayGap? && forall h :: j <= h < k && h != g ==> !output[h].ReplayGap?
  }

  lemma {:induction false} OnlyGap(output: seq<Output>, j: nat) returns (g: nat)
    requires j < |output| && Gaps(output) == Gaps(output[..j]) + 1
    ensures IsOnlyGap(output, j, |output|, g)
    decreases |output|
  {
    var n := |output| - 1;
    assert output[..n][..j] == output[..j];
    if output[n].ReplayGap? {
      g := n;
      NoGapSince(output[..n], j);
      assert forall h :: j <= h < n ==> output[..n][h] == output[h];
    } else {
      g := OnlyGap(output[..n], j);
      assert forall h :: j <= h < n ==> output[..n][h] == output[h];
    }
  }

  // ----- polling the sources in turn -----

  datatype Polled = Ready | Ended | NotReady
  datatype Subscription = Subscription(name: Name, excludeOnFinish: bool)
  datatype PollResult = Item(name: Name) | EndOfStream | Pending

  /** A source that may leave the merged stream. */
  predicate Leaves(results: map<Name, Polled>, s: Subscription) {
    s.name in results && results[s.name].Ended? && s.excludeOnFinish
  }

  /** A source whose end is the end of the merged stream. */
  predicate Closes(results: map<Name, Polled>, s: Subscription) {
    s.name in results && results[s.name].Ended? && !s.excludeOnFinish
  }

  predicate Waits(results: map<Name, Polled>, s: Subscription) {
    s.name in results ==> results[s.name].NotReady?
  }

  /** The sources polled so far, in the turn that started after `init` and has reached `last`. */
  predicate Passed(init: nat, last: nat, wrapped: bool, i: nat) {
    if wrapped then i > init || i <= last else init < i <= last
  }

  /** The turn over the sources after the one polled last: the first that answers, or the same one again
      if all of them are waiting. */
  method NextToAnswer(streams: seq<Subscription>, init: nat, results: map<Name, Polled>) returns (pending: bool,
                      index: nat)
    requires init < |streams|
    ensures index < |streams|
    ensures pending ==> index == init && forall i :: 0 <= i < |streams| ==> Waits(results, streams[i])
    ensures !pending ==> !Waits(results, streams[index])
  {
    index := init;
    var wrapped := false;
    while true
      invariant index < |streams|
      invariant if wrapped then index < init else init <= index
      invariant forall i :: 0 <= i < |streams| && Passed(init, index, wrapped, i) ==> Waits(results, streams[i])
      decreases if wrapped then init - index else 2 * |streams| - index
    {
      wrapped := wrapped || index + 1 == |streams|;
      index := if index + 1 == |streams| then 0 else index + 1;
      if !Waits(results, streams[index]) {
        return false, index;
      }
      if index == init {
        return true, index;
      }
    }
  }

  lemma RemovedOnly(streams: seq<Subscription>, index: nat)
    requires index < |streams|
    ensures var rest := streams[..index] + streams[index + 1..];
      && |rest| == |streams| - 1
      && (forall s :: s in rest ==> s in streams)
      && (forall s :: s in streams ==> s in rest || s == streams[index])
  {
    var rest := streams[..index] + streams[index + 1..];
    forall s | s in streams
      ensures s in rest || s == streams[index]
    {
      var i :| 0 <= i < |streams| && streams[i] == s;
      assert i < index ==> rest[i] == s;
      assert i > index ==> rest[i - 1] == s;
    }
  }

  /** `Subscriptions`; `total` is what the shared position was last told about the number of sources. */
  class Subscriptions {
    var streams: seq<Subscription>
    var lastPolled: nat
    var total: nat

    ghost predicate Valid()
      reads this
    {
      (streams != [] ==> lastPolled < |streams|) && total == |streams|
    }

    constructor (streams: seq<Subscription>)
      ensures Valid() && this.streams == streams
    {
      this.streams, lastPolled, total := streams, 0, |streams|;
    }

    /** `poll_next`, given what each source answers in this call: pending means that every source that is
        left is waiting, and only sources that have ended leave. */
    method PollNext(results: map<Name, Polled>) returns (r: PollResult)
      requires Valid()
      modifies this
      ensures Valid()
      ensures forall s :: s in streams ==> s in old(streams)
      ensures forall s :: s in old(streams) ==> s in streams || Leaves(results, s)
      ensures r.Pending? ==> streams != [] && forall s :: s in streams ==> Waits(results, s)
      ensures r.Item? ==>
            streams != [] && streams[lastPolled].name == r.name && r.name in results && results[r.name].Ready?
      ensures r.EndOfStream? ==>
                streams == [] || exists s :: s in streams && Closes(results, s)
      decreases |streams|
    {
      if streams == [] {
        return EndOfStream;
      }
      var pending, index := NextToAnswer(streams, lastPolled, results);
      lastPolled := index;
      var s := streams[index];
      if pending {
        return Pending;
      }
      if results[s.name].Ready? {
        return Item(s.name);
      }
      if !s.excludeOnFinish {
        assert Closes(results, s);
        return EndOfStream;
      }
      RemovedOnly(streams, index);
      streams := streams[..index] + streams[index + 1..];
      lastPolled, total := 0, |streams|;
      r := PollNext(results);
    }

    /** `apply_reload`: the sources that stay keep their order, the new ones follow. */
    method ApplyReload(toRemove: set<Name>, newStreams: seq<Subscription>)
      modifies this
      ensures Valid()
      ensures streams == Staying(old(streams), toRemove) + newStreams && lastPolled == 0
    {
      var kept: seq<Subscription> := [];
      var i := 0;
      while i < |streams|
        invariant 0 <= i <= |streams| && streams == old(streams)
        invariant kept == Staying(streams[..i], toRemove)
      {
        assert streams[..i + 1][..i] == streams[..i];
        if streams[i].name !in toRemove {
          kept := kept + [streams[i]];
        }
        i := i + 1;
      }
      assert streams[..i] == streams;
      streams := kept + newStreams;
      total, lastPolled := |streams|, 0;
    }
  }

  /** The sources that are not removed, in order. */
  function Staying(streams: seq<Subscription>, toRemove: set<Name>): seq<Subscription> {
    if streams == [] then []
    else
      var last := streams[|streams| - 1];
      Staying(streams[..|streams| - 1], toRemove) + if last.name in toRemove then [] else [last]
  }

  /** Nothing else is dropped, and nothing is doubled. */
  lemma {:induction false} StayingCounts(streams: seq<Subscription>, toRemove: set<Name>, s: Subscription)
    ensures multiset(Staying(streams, toRemove))[s] == if s.name in toRemove then 0 else multiset(streams)[s]
  {
    if streams != [] {
      var n := |streams| - 1;
      StayingCounts(streams[..n], toRemove, s);
      assert streams == streams[..n] + [streams[n]];
    }
  }
}
