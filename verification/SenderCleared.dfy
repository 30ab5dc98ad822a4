/** A bank that was replaced stays silent on every stream. */
module SenderCleared {
  import opened Basics
  import opened Messages
  import opened SlotTracking
  import opened SenderModel
  import opened SenderAdmission
  import opened SenderRetention
  import opened SenderStreams
  import opened SenderInvariant
  import opened SenderLog
  import opened SenderBounds

  /** Bank `b` was cleared by `EntryUpdateParent` and nothing of it is stored. */
  predicate ClearedIn(info: SlotInfo, b: BankId) {
    b in info.clearedBanks && Some(b) !in info.banks
  }

  /** Nothing of bank `b` of slot `s` can be published any more in this epoch. */
  predicate Cleared(st: State, s: Slot, b: BankId) {
    s <= Bound(st) || ClearedIn(InfoOf(st, s), b)
  }

  /** A record of bank `b` of slot `s`, other than the notice that the bank is replaced. */
  predicate Speaks(r: Record, s: Slot, b: BankId) {
    r.slot == s && r.msg.bank == Some(b) && !r.msg.EntryUpdateParent?
  }

  /** No record of the bank was added to any stream. */
  ghost predicate Quiet(old_: seq<Record>, new_: seq<Record>, s: Slot, b: BankId) {
    old_ <= new_ && forall i :: |old_| <= i < |new_| ==> !Speaks(new_[i], s, b)
  }

  lemma QuietTwice(l: seq<Record>, l1: seq<Record>, l2: seq<Record>, s: Slot, b: BankId)
    requires Quiet(l, l1, s, b) && Quiet(l1, l2, s, b)
    ensures Quiet(l, l2, s, b)
  {
    forall i | |l| <= i < |l2|
      ensures !Speaks(l2[i], s, b)
    {
      if i < |l1| {
        assert l2[i] == l1[i];
      }
    }
  }

  lemma StoredBelongs(info: SlotInfo, s: Slot, bank: Option<BankId>, x: Msg)
    requires BankBelongs(info, s, bank) && x in Stored(info, bank)
    ensures Belongs(x, s, bank)
  {
    StoredCounts(info, bank, x);
    HeldInBelongs(info, s, bank, x);
  }

  /** What one arrival for a slot with a cleared bank puts on the streams is not of that bank. */
  lemma EmittedIsQuiet(cfg: Config, st: State, s: Slot, m: Msg, b: BankId, x: Msg)
    requires SlotOk(cfg, st, s) && ClearedIn(InfoOf(st, s), b) && Publishable(m) && m.slot == s
    requires (m.bank != Some(b) || m.EntryUpdateParent?) && x in Emitted(st, s, m)
    ensures x.bank != Some(b) || x.EntryUpdateParent?
  {
    hide Stored, LedgerAt;
    if x != m {
      if m.SlotStatus? {
        var selected := Commit(Tracked(st, s), m.status, m.bank).1;
        assert BankBelongs(InfoOf(st, s), s, selected.value);
        SameStored(st, s, selected.value);
        if selected.value == Some(b) {
          NothingStored(InfoOf(st, s), Some(b));
        }
        StoredBelongs(InfoOf(st, s), s, selected.value, x);
      } else {
        assert BankBelongs(InfoOf(st, s), s, m.bank) && BankBelongs(InfoOf(st, s), s, x.bank);
        AbsorbFacts(st, s, m, x);
      }
    }
  }

  lemma SameStored(st: State, s: Slot, bank: Option<BankId>)
    ensures Stored(Tracked(st, s), bank) == Stored(InfoOf(st, s), bank)
  {
  }

  lemma NothingStored(info: SlotInfo, bank: Option<BankId>)
    requires bank !in info.banks
    ensures Stored(info, bank) == []
  {
  }

  lemma PublishOneCleared(cfg: Config, st: State, s: Slot, m: Msg, b: BankId)
    requires SlotOk(cfg, st, s) && ClearedIn(InfoOf(st, s), b) && Publishable(m) && m.slot == s
    requires m.bank != Some(b) || m.EntryUpdateParent?
    ensures var st' := PublishOne(cfg, st, s, m);
      && Quiet(st.log, st'.log, s, b)
      && (if Finalizes(st, s, m) then st'.slotFinalized == s else ClearedIn(InfoOf(st', s), b))
  {
    hide PublishOne, SlotOk, Emitted, SelectBank;
    var st' := PublishOne(cfg, st, s, m);
    PublishOneGrows(cfg, st, s, m);
    forall i | |st.log| <= i < |st'.log|
      ensures !Speaks(st'.log[i], s, b)
    {
      assert Comes(st'.log[i], st.epoch, s, st.index, Emitted(st, s, m));
      EmittedIsQuiet(cfg, st, s, m, b, st'.log[i].msg);
    }
    PublishOneFrame(cfg, st, s, m);
  }

  lemma {:induction false} PublishAllCleared(cfg: Config, st: State, s: Slot, ms: seq<Msg>, m: Msg, b: BankId)
    requires SlotOk(cfg, st, s) && ClearedIn(InfoOf(st, s), b)
    requires Batch(ms, m) && m.slot == s && AllPublishable(ms) && !m.SlotStatus?
    requires m.bank != Some(b) || m.EntryUpdateParent?
    ensures var st' := PublishAll(cfg, st, s, ms);
      Quiet(st.log, st'.log, s, b) && ClearedIn(InfoOf(st', s), b)
  {
    hide PublishOne, SlotOk, ClearedIn, InfoOf;
    if ms != [] {
      var n := |ms| - 1;
      assert InBatch(ms[n], m) && Batch(ms[..n], m);
      PublishAllCleared(cfg, st, s, ms[..n], m, b);
      PublishAllKeeps(cfg, st, s, ms[..n], m);
      var st1 := PublishAll(cfg, st, s, ms[..n]);
      PublishOneCleared(cfg, st1, s, ms[n], b);
      QuietTwice(st.log, st1.log, PublishOne(cfg, st1, s, ms[n]).log, s, b);
    }
  }

  /** A batch for the slot of a cleared bank. */
  lemma BatchCleared(cfg: Config, st: State, s: Slot, ms: seq<Msg>, m: Msg, b: BankId)
    requires SlotOk(cfg, st, s) && ClearedIn(InfoOf(st, s), b)
    requires Batch(ms, m) && ms != [] && m.slot == s && AllPublishable(ms)
    requires m.bank != Some(b) || m.EntryUpdateParent?
    ensures var st' := PublishAll(cfg, st, s, ms);
      Quiet(st.log, st'.log, s, b) && (st'.slotFinalized == s || ClearedIn(InfoOf(st', s), b))
  {
    hide PublishOne, SlotOk, ClearedIn, InfoOf, Quiet;
    if m.SlotStatus? {
      assert ms[..0] == [] && PublishAll(cfg, st, s, []) == st;
      assert PublishAll(cfg, st, s, ms) == PublishOne(cfg, st, s, m);
      PublishOneCleared(cfg, st, s, m, b);
    } else {
      PublishAllCleared(cfg, st, s, ms, m, b);
    }
  }

  /** A batch for another slot. */
  lemma BatchElsewhere(cfg: Config, st: State, slot: Slot, ms: seq<Msg>, m: Msg, s: Slot, b: BankId)
    requires SlotOk(cfg, st, slot) && slot != s && ClearedIn(InfoOf(st, s), b)
    requires Batch(ms, m) && ms != [] && m.slot == slot && AllPublishable(ms)
    ensures var st' := PublishAll(cfg, st, slot, ms); Quiet(st.log, st'.log, s, b) && ClearedIn(InfoOf(st', s), b)
  {
    hide PublishAll, SlotOk, SameTally, AllSound;
    var st' := PublishAll(cfg, st, slot, ms);
    BatchIsDone(cfg, st, slot, ms, m);
    assert SameBooks(st, st', slot, s);
    PublishAllFrame(cfg, st, slot, ms);
    forall i | |st.log| <= i < |st'.log|
      ensures !Speaks(st'.log[i], s, b)
    {
      assert ComesFrom(st'.log[i], st.epoch, slot, st.index);
    }
  }

  lemma FinishCleared(cfg: Config, st: State, clean: bool, s: Slot, b: BankId)
    requires st.slotFinalized == s || ClearedIn(InfoOf(st, s), b)
    ensures Cleared(Finish(cfg, st, clean), s, b)
  {
    hide Finish;
    FinishKeeps(cfg, st, clean);
  }

  lemma PublishCleared(cfg: Config, st: State, ms: seq<Msg>, m: Msg, s: Slot, b: BankId)
    requires Inv(cfg, st) && m.slot > Bound(st) && Batch(ms, m) && AllPublishable(ms) && Cleared(st, s, b)
    requires m.slot == s ==> m.bank != Some(b) || m.EntryUpdateParent?
    ensures var st' := Publish(cfg, st, m.slot, ms); Cleared(st', s, b) && Quiet(st.log, st'.log, s, b)
  {
    hide Finish, PublishAll, SlotOk, AllSound, Unborn, DedupOk, RecoveredOk, Quiet;
    if ms == [] {
      QuietSelf(st.log, s, b);
    } else {
      var st0 := Entered(st, m.slot);
      EnteredInv(cfg, st, m.slot);
      assert OpenSlotOk(cfg, st0, m.slot);
      var st1 := PublishAll(cfg, st0, m.slot, ms);
      var clean := st1.slotFinalized != st.slotFinalized;
      FinishKeeps(cfg, st1, clean);
      if s <= Bound(st) {
        SettledIsQuiet(cfg, st0, m.slot, ms, s, b);
      } else {
        if m.slot == s {
          BatchCleared(cfg, st0, s, ms, m, b);
        } else {
          BatchElsewhere(cfg, st0, m.slot, ms, m, s, b);
        }
        FinishCleared(cfg, st1, clean, s, b);
      }
    }
  }

  lemma QuietSelf(log: seq<Record>, s: Slot, b: BankId)
    ensures Quiet(log, log, s, b)
  {
  }

  /** A slot that is finalized or dropped has no records any more. */
  lemma SettledIsQuiet(cfg: Config, st: State, slot: Slot, ms: seq<Msg>, s: Slot, b: BankId)
    requires slot > Bound(st) >= s && AllPublishable(ms)
    ensures var st' := PublishAll(cfg, st, slot, ms);
      && Quiet(st.log, st'.log, s, b)
      && st'.slotDropped == st.slotDropped && st'.slotFinalized >= st.slotFinalized
  {
    hide PublishAll, SameReplay;
    var st' := PublishAll(cfg, st, slot, ms);
    PublishAllFrame(cfg, st, slot, ms);
    forall i | |st.log| <= i < |st'.log|
      ensures !Speaks(st'.log[i], s, b)
    {
      assert ComesFrom(st'.log[i], st.epoch, slot, st.index);
    }
  }

  /** A cleared bank is silent: no event of the same epoch puts any of its messages on any stream. */
  lemma ClearedIsSilent(cfg: Config, st: State, e: Event, st': State, s: Slot, b: BankId)
    requires Inv(cfg, st) && Step(cfg, st, e, st') && e.Deliver? && Cleared(st, s, b)
    ensures Cleared(st', s, b) && Quiet(st.log, st'.log, s, b)
  {
    hide Publish, Admit, SlotOk, AllSound, Unborn, DedupOk, RecoveredOk, Quiet;
    var m := e.message;
    if Ignored(st, m) {
      QuietSelf(st.log, s, b);
    } else {
      AdmitIsBatch(st.dedup, e.dedupRequired, e.source, m);
      var (dedup, ms) := Admit(st.dedup, e.dedupRequired, e.source, m).value;
      DedupInv(cfg, st, dedup);
      PublishCleared(cfg, st.(dedup := dedup), ms, m, s, b);
    }
  }

  /** An `EntryUpdateParent` that is accepted clears its bank. */
  lemma UpdateParentClears(cfg: Config, st: State, e: Event, st': State, s: Slot, b: BankId, body: nat)
    requires Step(cfg, st, e, st') && e.Deliver? && e.message == EntryUpdateParent(s, Some(b), body)
    requires s > Bound(st) && Admit(st.dedup, e.dedupRequired, e.source, e.message).value.1 == [e.message]
    ensures Cleared(st', s, b)
  {
    hide PublishOne, Finish, Admit;
    var m := e.message;
    var dedup := Admit(st.dedup, e.dedupRequired, e.source, m).value.0;
    var st0 := Entered(st.(dedup := dedup), s);
    assert [m][..0] == [] && PublishAll(cfg, st0, s, []) == st0;
    var st1 := PublishAll(cfg, st0, s, [m]);
    assert st1 == PublishOne(cfg, st0, s, m);
    PublishOneFrame(cfg, st0, s, m);
    FinishCleared(cfg, st1, st1.slotFinalized != st.slotFinalized, s, b);
  }
}
