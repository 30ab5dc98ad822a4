/** What `Sender::push` forgets at its end: finalized slots, the oldest unfinalized slots, old dedup
    records and the oldest slots of the journal. */
module SenderRetention {
  import opened Basics
  import opened Messages
  import opened SlotTracking
  import opened SenderModel

  ghost predicate Within<V>(part: map<Slot, V>, whole: map<Slot, V>) {
    forall s :: s in part ==> s in whole && part[s] == whole[s]
  }

  ghost predicate AllAbove<V>(m: map<Slot, V>, bound: Slot) {
    forall s :: s in m ==> s > bound
  }

  /** Whatever `part` misses is at most `bound`. */
  ghost predicate MissesUpTo<V>(part: map<Slot, V>, whole: map<Slot, V>, bound: Slot) {
    forall s :: s in whole && s !in part ==> s <= bound
  }

  lemma {:induction false} DropExcessKeeps(slots: map<Slot, SlotInfo>, limit: nat, dropped: Slot)
    ensures var (slots', dropped') := DropExcess(slots, limit, dropped);
      && |slots'| == (if |slots| <= limit then |slots| else limit) && dropped' >= dropped
      && Within(slots', slots) && MissesUpTo(slots', slots, dropped')
      && (AllAbove(slots, dropped) ==> AllAbove(slots', dropped'))
      && (dropped' != dropped ==> dropped' in slots)
      && (limit > 0 && slots != map[] ==> Greatest(slots.Keys) in slots')
    decreases |slots|
  {
    if |slots| > limit {
      var s := Least(slots.Keys);
      assert (slots - {s}).Keys == slots.Keys - {s};
      DropExcessKeeps(slots - {s}, limit, if s > dropped then s else dropped);
      if limit > 0 {
        assert slots - {s} != map[] by {
          assert |slots - {s}| >= 1;
        }
        var g := Greatest(slots.Keys);
        assert Greatest((slots - {s}).Keys) == g by {
          var h := Greatest((slots - {s}).Keys);
          assert h in slots.Keys && h >= s && h <= g;
          assert g != s;
          assert g in (slots - {s}).Keys;
        }
      }
    }
  }

  lemma {:induction false} DropDedupKeeps(dedup: map<Slot, DedupInfo>, limit: nat)
    ensures var dedup' := DropDedup(dedup, limit);
      && |dedup'| == (if |dedup| <= limit then |dedup| else limit) && Within(dedup', dedup)
      && forall s, u :: s in dedup' && u in dedup && u !in dedup' ==> u < s
    decreases |dedup|
  {
    if |dedup| > limit {
      var s := Least(dedup.Keys);
      assert (dedup - {s}).Keys == dedup.Keys - {s};
      DropDedupKeeps(dedup - {s}, limit);
    }
  }

  /** The trim keeps every head of the slots that are retained. */
  ghost predicate TrimIsSafe(t: Trim, first: Slot, replay: map<Slot, ReplayInfo>) {
    && t.slot < first
    && (t.until.None? ==> replay == map[])
    && (t.until.Some? ==> forall s :: s in replay ==> t.until.value <= replay[s].head)
  }

  ghost predicate TrimsAreSafe(trims: seq<Trim>, from: nat, first: Slot, replay: map<Slot, ReplayInfo>) {
    forall i :: from <= i < |trims| ==> TrimIsSafe(trims[i], first, replay)
  }

  /** The trim goes up to the least head that is still needed, and no less far. */
  ghost predicate IsLeastHead(until: Option<nat>, replay: map<Slot, ReplayInfo>) {
    if replay == map[] then until.None?
    else
      && until.Some?
      && (exists s :: s in replay && replay[s].head == until.value)
      && (forall s :: s in replay ==> until.value <= replay[s].head)
  }

  lemma LeastHeadIs(replay: map<Slot, ReplayInfo>)
    ensures IsLeastHead(LeastHead(replay), replay)
  {
    if replay != map[] {
      var s :| s in replay;
      assert replay[s].head in Heads(replay);
      assert forall s :: s in replay ==> replay[s].head in Heads(replay);
    }
  }

  /** Slot `s` is among the `maxSlots` newest slot numbers (a limit of none keeps one). */
  ghost predicate IsRecent(keys: set<Slot>, maxSlots: nat, s: Slot) {
    forall u :: u in keys ==> u < s + if maxSlots == 0 then 1 else maxSlots
  }

  lemma FirstRetainedIs(replay: map<Slot, ReplayInfo>, maxSlots: nat, s: Slot)
    requires s in replay
    ensures s >= FirstRetained(replay, maxSlots) <==> IsRecent(replay.Keys, maxSlots, s)
  {
    assert Greatest(replay.Keys) in replay.Keys;
  }

  lemma {:induction false} TrimReplayKeeps(replay: map<Slot, ReplayInfo>, first: Slot, trims: seq<Trim>)
    ensures var (replay', trims') := TrimReplay(replay, first, trims);
      && Within(replay', replay)
      && (forall s :: s in replay' <==> s in replay && s >= first)
      && trims <= trims' && TrimsAreSafe(trims', |trims|, first, replay')
      && (trims' == trims <==> replay' == replay)
      && (trims' != trims ==> IsLeastHead(trims'[|trims'| - 1].until, replay'))
    decreases |replay|
  {
    if replay != map[] && Least(replay.Keys) < first {
      var s := Least(replay.Keys);
      var rest := replay - {s};
      assert rest.Keys == replay.Keys - {s};
      var t := Trim(s, LeastHead(rest));
      TrimReplayKeeps(rest, first, trims + [t]);
      var replay' := TrimReplay(rest, first, trims + [t]).0;
      forall u | u in replay'
        ensures t.until.Some? && t.until.value <= replay'[u].head
      {
        assert rest[u].head in Heads(rest);
      }
      assert TrimIsSafe(t, first, replay');
      LeastHeadIs(rest);
      assert s !in replay';
      assert TrimReplay(rest, first, trims + [t]).1 == trims + [t] ==> replay' == rest;
    }
  }

  /** The end of a push changes what is kept and nothing that was published. */
  lemma FinishKeeps(cfg: Config, st: State, clean: bool)
    ensures var st' := Finish(cfg, st, clean);
      && st' == st.(slots := st'.slots, slotDropped := st'.slotDropped, dedup := st'.dedup,
                    replay := st'.replay, trims := st'.trims)
      && Within(st'.slots, st.slots) && Within(st'.dedup, st.dedup) && Within(st'.replay, st.replay)
      && MissesUpTo(st'.slots, st.slots, Bound(st'))
      && st'.slotDropped >= st.slotDropped
  {
    hide DropExcess, DropDedup, TrimReplay, FirstRetained;
    var st1 := if clean then Cleaned(st) else st;
    DropExcessKeeps(st1.slots, cfg.maxUnfinalizedSlots, st1.slotDropped);
    DropDedupKeeps(st1.dedup, cfg.maxUnfinalizedSlots);
    if cfg.storage.Some? {
      TrimReplayKeeps(st.replay, FirstRetained(st.replay, cfg.storage.value.maxSlots), st.trims);
    }
  }
}
