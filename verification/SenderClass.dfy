/** `Sender` of `richat/src/channel.rs` as the object that the source mutates: every method does to the
    fields what the functions of `SenderModel` say, and keeps the invariant of the streams. */
module SenderObject {
  import opened Basics
  import opened Messages
  import opened SlotTracking
  import opened SenderModel
  import opened SenderAdmission
  import opened SenderStreams
  import opened SenderInvariant
  import opened SenderBounds

  class Sender {
    const cfg: Config
    var slots: map<Slot, SlotInfo>
    var dedup: map<Slot, DedupInfo>
    var replay: map<Slot, ReplayInfo>
    var slotFinalized: Slot
    var slotDropped: Slot
    var index: nat
    var epoch: nat
    /** What the rings were given, in order. */
    var log: seq<Record>
    /** The trims that the storage was asked for. */
    var trims: seq<Trim>
    ghost var recovered: set<Slot>

    ghost function View(): State
      reads this
    {
      State(slots, dedup, replay, slotFinalized, slotDropped, index, epoch, recovered, log, trims)
    }

    ghost predicate Valid()
      reads this
    {
      Inv(cfg, View()) && Bounded(cfg, View())
    }

    constructor (cfg: Config, slotFinalized: Slot, index: nat, replay: map<Slot, ReplayInfo>)
      requires forall s :: s in replay ==> replay[s].head <= index
      ensures Valid() && Initial(View()) && this.cfg == cfg
      ensures this.slotFinalized == slotFinalized && this.index == index && this.replay == replay
    {
      this.cfg := cfg;
      slots, dedup, this.replay := map[], map[], replay;
      this.slotFinalized, slotDropped, this.index, epoch := slotFinalized, 0, index, 0;
      log, trims := [], [];
      recovered := set s | s in replay && replay[s].messages.Some?;
      new;
      InitialInv(cfg, View());
    }

    /** `push_stored` */
    method PushRecord(stream: Stream, slot: Slot, m: Msg)
      modifies this
      ensures View() == PushStored(cfg, old(View()), stream, slot, m)
    {
      if cfg.storage.Some?
         && (stream == OnProcessed
             || (stream == OnConfirmed && cfg.storage.value.replayConfirmed)
             || (stream == OnFinalized && cfg.storage.value.replayFinalized)) {
        log := log + [Record(stream, epoch, slot, Some(index), m)];
        index := index + 1;
      } else {
        log := log + [Record(stream, epoch, slot, None, m)];
      }
    }

    method PushRecords(stream: Stream, slot: Slot, ms: seq<Msg>)
      modifies this
      ensures View() == PushEach(cfg, old(View()), stream, slot, ms)
    {
      hide PushStored;
      var i := 0;
      while i < |ms|
        invariant 0 <= i <= |ms|
        invariant View() == PushEach(cfg, old(View()), stream, slot, ms[..i])
      {
        assert ms[..i + 1][..i] == ms[..i];
        PushRecord(stream, slot, ms[i]);
        i := i + 1;
      }
      assert ms[..i] == ms;
    }

    method PublishStatusMessage(slot: Slot, m: Msg, selected: Option<Option<BankId>>)
      requires m.SlotStatus?
      modifies this
      ensures View() == PublishStatus(cfg, old(View()), slot, m, selected)
    {
      hide PushStored, PushEach, Stored;
      var bank := if selected.Some? && slot in slots then Stored(slots[slot], selected.value) else [];
      if cfg.confirmed {
        PushRecords(OnConfirmed, slot, [m]);
      }
      if cfg.finalized {
        PushRecords(OnFinalized, slot, [m]);
      }
      if m.status == Confirmed && cfg.confirmed {
        PushRecords(OnConfirmed, slot, bank);
      }
      if m.status == Finalized {
        if cfg.finalized {
          PushRecords(OnFinalized, slot, bank);
        }
        slotFinalized := slot;
        if cfg.finalized && selected.Some? {
          slots := slots - {slot};
        }
      }
      PushRecord(OnProcessed, slot, m);
    }

    /** One turn of the inner loop of `push`. */
    method HandleMessage(slot: Slot, m: Msg, selected: Option<Option<BankId>>)
      modifies this
      ensures View() == Handle(cfg, old(View()), slot, m, selected)
    {
      hide PushStored, PushEach, PublishStatus, IdentOf;
      PushRecord(Received, slot, m);
      PushFrame(cfg, old(View()), Received, slot, m);
      if slot in replay && replay[slot].messages.Some? {
        var id := IdentOf(m);
        if id in replay[slot].messages.value {
          return;
        }
        replay := replay[slot := replay[slot].(messages := Some(replay[slot].messages.value + {id}))];
      }
      if m.SlotStatus? {
        PublishStatusMessage(slot, m, selected);
      } else {
        if !m.EntryUpdateParent? && slot in slots && slots[slot].confirmedBank == Some(m.bank) && cfg.confirmed {
          PushRecords(OnConfirmed, slot, [m]);
        }
        PushRecord(OnProcessed, slot, m);
      }
    }

    /** One turn of the outer loop of `push`. */
    method PublishMessage(slot: Slot, m: Msg)
      requires Publishable(m)
      modifies this
      ensures View() == PublishOne(cfg, old(View()), slot, m)
    {
      hide Handle, AbsorbMessage, Commit;
      var info := if slot in slots then slots[slot] else NewSlot(if slot in replay then replay[slot].head else index);
      if m.SlotStatus? {
        var (info', selected) := Commit(info, m.status, m.bank);
        slots := slots[slot := info'];
        HandleMessage(slot, m, selected);
      } else {
        var (info', block) := AbsorbMessage(info, m);
        slots := slots[slot := info'];
        HandleMessage(slot, m, None);
        if block.Some? {
          HandleMessage(slot, block.value, None);
        }
      }
    }

    method PublishMessages(slot: Slot, ms: seq<Msg>)
      requires AllPublishable(ms)
      modifies this
      ensures View() == PublishAll(cfg, old(View()), slot, ms)
    {
      hide PublishOne;
      var i := 0;
      while i < |ms|
        invariant 0 <= i <= |ms|
        invariant View() == PublishAll(cfg, old(View()), slot, ms[..i])
      {
        assert ms[..i + 1][..i] == ms[..i];
        PublishMessage(slot, ms[i]);
        i := i + 1;
      }
      assert ms[..i] == ms;
    }

    /** The unfinalized slots are bounded by dropping the oldest ones. */
    method DropSlots()
      modifies this
      ensures var (kept, dropped) := DropExcess(old(slots), cfg.maxUnfinalizedSlots, old(slotDropped));
        View() == old(View()).(slots := kept, slotDropped := dropped)
    {
      while |slots| > cfg.maxUnfinalizedSlots
        invariant View() == old(View()).(slots := slots, slotDropped := slotDropped)
        invariant DropExcess(slots, cfg.maxUnfinalizedSlots, slotDropped) ==
                  DropExcess(old(slots), cfg.maxUnfinalizedSlots, old(slotDropped))
        decreases |slots|
      {
        var s := Least(slots.Keys);
        assert (slots - {s}).Keys == slots.Keys - {s};
        slots := slots - {s};
        slotDropped := if s > slotDropped then s else slotDropped;
      }
    }

    method DropDedupRecords()
      modifies this
      ensures View() == old(View()).(dedup := DropDedup(old(dedup), cfg.maxUnfinalizedSlots))
    {
      while |dedup| > cfg.maxUnfinalizedSlots
        invariant View() == old(View()).(dedup := dedup)
        invariant DropDedup(dedup, cfg.maxUnfinalizedSlots) == DropDedup(old(dedup), cfg.maxUnfinalizedSlots)
        decreases |dedup|
      {
        var s := Least(dedup.Keys);
        assert (dedup - {s}).Keys == dedup.Keys - {s};
        dedup := dedup - {s};
      }
    }

    /** The journal is trimmed to the slots it retains; without storage nothing is remembered. */
    method TrimJournal()
      modifies this
      ensures View() == Retain(cfg, old(View()))
    {
      if cfg.storage.None? {
        replay := map[];
        return;
      }
      var first := FirstRetained(replay, cfg.storage.value.maxSlots);
      while replay != map[] && Least(replay.Keys) < first
        invariant View() == old(View()).(replay := replay, trims := trims)
        invariant TrimReplay(replay, first, trims) == TrimReplay(old(replay), first, old(trims))
        decreases |replay|
      {
        var s := Least(replay.Keys);
        assert (replay - {s}).Keys == replay.Keys - {s};
        replay := replay - {s};
        trims := trims + [Trim(s, LeastHead(replay))];
      }
    }

    /** The end of `push`. */
    method Forget(clean: bool)
      modifies this
      ensures View() == Finish(cfg, old(View()), clean)
    {
      hide DropExcess, DropDedup, Retain;
      if clean {
        slots := PopThrough(slots, slotFinalized);
        if slotFinalized > 0 {
          dedup := PopThrough(dedup, slotFinalized - 1);
        }
        assert View() == Cleaned(old(View()));
      }
      DropSlots();
      DropDedupRecords();
      TrimJournal();
    }

    /** `Sender::push` */
    method Push(dedupRequired: bool, source: nat, m: Msg) returns (panicked: bool)
      requires Valid() && !m.Block?
      modifies this
      ensures panicked ==> log == old(log) && trims == old(trims) && Admit(old(dedup), dedupRequired, source, m).None?
      ensures !panicked ==> Valid() && Step(cfg, old(View()), Deliver(dedupRequired, source, m), View())
    {
      hide Inv, Bounded, Publish, Admit, Batch, AllPublishable, DedupOk;
      if m.slot <= (if slotFinalized >= slotDropped then slotFinalized else slotDropped) {
        return false;
      }
      if m.bank.Some? && !m.EntryUpdateParent? && m.slot in slots && m.bank.value in slots[m.slot].clearedBanks {
        return false;
      }
      var admitted := Admit(dedup, dedupRequired, source, m);
      if admitted.None? {
        return true;
      }
      panicked := false;
      InvDedup(cfg, View());
      AdmitIsBatch(dedup, dedupRequired, source, m);
      dedup := admitted.value.0;
      PublishBatch(m.slot, admitted.value.1);
      StepKeepsInv(cfg, old(View()), Deliver(dedupRequired, source, m), View());
      StepBounds(cfg, old(View()), Deliver(dedupRequired, source, m), View());
    }

    /** The part of `push` that follows dedup. */
    method PublishBatch(slot: Slot, messages: seq<Msg>)
      requires AllPublishable(messages)
      modifies this
      ensures View() == Publish(cfg, old(View()), slot, messages)
    {
      hide Finish, PublishAll, AllPublishable;
      if messages == [] {
        return;
      }
      if slot !in replay {
        replay := replay[slot := ReplayInfo(index, None)];
      }
      var finalizedBefore := slotFinalized;
      PublishMessages(slot, messages);
      Forget(slotFinalized != finalizedBefore);
    }

    /** `Sender::begin_live_epoch` */
    method BeginLive()
      requires Valid()
      modifies this
      ensures Valid() && Step(cfg, old(View()), BeginLiveEpoch, View())
    {
      hide Inv, Bounded;
      slots, dedup, replay := map[], map[], map[];
      epoch := epoch + 1;
      recovered := {};
      StepKeepsInv(cfg, old(View()), BeginLiveEpoch, View());
      StepBounds(cfg, old(View()), BeginLiveEpoch, View());
    }
  }

  lemma InvDedup(cfg: Config, st: State)
    requires Inv(cfg, st)
    ensures forall s :: DedupOk(st.dedup, s)
  {
  }
}
