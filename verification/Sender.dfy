/** The writer of the three commitment streams, `Sender` of `richat/src/channel.rs`, as a function from
    state to state. The streams are the sequences of records that their rings were given. */
module SenderModel {
  import opened Basics
  import opened Messages
  import opened SlotTracking
  import Dedup

  // ----- state -----

  datatype StorageConfig = StorageConfig(maxSlots: nat, replayConfirmed: bool, replayFinalized: bool)

  datatype Config = Config(
    confirmed: bool, finalized: bool, storage: Option<StorageConfig>, maxUnfinalizedSlots: nat)

  /** `Received` is no stream of the channel: it holds every message that was accepted, including those
      that a restart has already found in the journal. */
  datatype Stream = Received | OnProcessed | OnConfirmed | OnFinalized

  /** One event of a stream; `index` is its place in the journal. */
  datatype Record = Record(stream: Stream, epoch: nat, slot: Slot, index: Option<nat>, msg: Msg)

  datatype DedupInfo = DedupInfo(
    source: Option<nat>, slots: map<Option<BankId>, set<Status>>, banks: map<Option<BankId>, Dedup.DedupBank>)

  datatype What =
    | StatusId(status: Status) | AccountId(pubkey: Pubkey, writeVersion: nat, signature: Option<Signature>)
    | TransactionId(txSignature: Signature) | EntryId(index: nat) | MetaId | BlockId | FooterId | ParentId

  /** `ParsedMessage::get_id`, before hashing */
  datatype Ident = Ident(bank: Option<BankId>, slot: Slot, what: What)

  /** Journal index of a slot's first record and, after a restart, what the journal already has. */
  datatype ReplayInfo = ReplayInfo(head: nat, messages: Option<set<Ident>>)

  /** A call of `storage.trim_messages`. */
  datatype Trim = Trim(slot: Slot, until: Option<nat>)

  /** `recovered` are the slots that started with identities read back from the journal. */
  datatype State = State(
    slots: map<Slot, SlotInfo>, dedup: map<Slot, DedupInfo>, replay: map<Slot, ReplayInfo>,
    slotFinalized: Slot, slotDropped: Slot, index: nat, epoch: nat, recovered: set<Slot>,
    log: seq<Record>, trims: seq<Trim>)

  /** `Messages::to_sender`: nothing published yet, whatever the journal has. */
  ghost predicate Initial(st: State) {
    && st.slots == map[] && st.dedup == map[] && st.log == [] && st.trims == []
    && st.slotDropped == 0 && st.epoch == 0
    && (forall s :: s in st.recovered <==> s in st.replay && st.replay[s].messages.Some?)
    && forall s :: s in st.replay ==> st.replay[s].head <= st.index
  }

  /** No message of a slot up to here is accepted. */
  function Bound(st: State): Slot {
    if st.slotFinalized >= st.slotDropped then st.slotFinalized else st.slotDropped
  }

  function IdentOf(m: Msg): Ident {
    var what :=
      match m
      case SlotStatus(_, _, status) => StatusId(status)
      case Account(_, _, signature, pubkey, writeVersion, _) => AccountId(pubkey, writeVersion, signature)
      case Transaction(_, _, s, _, _) => TransactionId(s)
      case Entry(_, _, index, _) => EntryId(index)
      case BlockMeta(_, _, _, _, _) => MetaId
      case Block(_, _, _, _, _, _) => BlockId
      case BlockFooter(_, _, _) => FooterId
      case EntryUpdateParent(_, _, _) => ParentId;
    Ident(m.bank, m.slot, what)
  }

  // ----- dedup -----

  const NEW_DEDUP := DedupInfo(None, map[], map[])

  function AdmitStatus(d: DedupInfo, m: Msg): (DedupInfo, seq<Msg>)
    requires m.SlotStatus?
  {
    var seen := if m.bank in d.slots then d.slots[m.bank] else {};
    (d.(slots := d.slots[m.bank := seen + {m.status}]), if m.status in seen then [] else [m])
  }

  /** What several sources deliver is cut down to one copy; None is a panic. Messages of a bank are
      taken from the first source that sent one for the slot. */
  function AdmitTo(d: DedupInfo, source: nat, m: Msg): Option<(DedupInfo, seq<Msg>)> {
    if m.bank.Some? && d.source.Some? && d.source.value != source then Some((d, []))
    else
      var d' := if m.bank.Some? then d.(source := Some(source)) else d;
      if m.SlotStatus? then Some(AdmitStatus(d', m))
      else
        var accepted := Dedup.Accept(if m.bank in d'.banks then d'.banks[m.bank] else Dedup.NEW_DEDUP_BANK, m);
        if accepted.None? then None
        else Some((d'.(banks := d'.banks[m.bank := accepted.value.0]), accepted.value.1))
  }

  function Admit(dedup: map<Slot, DedupInfo>, required: bool, source: nat, m: Msg): Option<(map<Slot, DedupInfo>,
                 seq<Msg>)> {
    if !required then Some((dedup, [m]))
    else
      var r := AdmitTo(if m.slot in dedup then dedup[m.slot] else NEW_DEDUP, source, m);
      if r.None? then None else Some((dedup[m.slot := r.value.0], r.value.1))
  }

  // ----- publishing -----

  predicate Journaled(cfg: Config, stream: Stream) {
    cfg.storage.Some? &&
    match stream
    case Received => false
    case OnProcessed => true
    case OnConfirmed => cfg.storage.value.replayConfirmed
    case OnFinalized => cfg.storage.value.replayFinalized
  }

  /** `SenderShared::push_stored` */
  function PushStored(cfg: Config, st: State, stream: Stream, slot: Slot, m: Msg): State {
    var journaled := Journaled(cfg, stream);
    st.(log := st.log + [Record(stream, st.epoch, slot, if journaled then Some(st.index) else None, m)],
        index := if journaled then st.index + 1 else st.index)
  }

  function PushEach(cfg: Config, st: State, stream: Stream, slot: Slot, ms: seq<Msg>): State {
    if ms == [] then st
    else PushStored(cfg, PushEach(cfg, st, stream, slot, ms[..|ms| - 1]), stream, slot, ms[|ms| - 1])
  }

  function PushIf(cfg: Config, st: State, condition: bool, stream: Stream, slot: Slot, ms: seq<Msg>): State {
    if condition then PushEach(cfg, st, stream, slot, ms) else st
  }

  /** A status goes to every stream; the selected bank follows on the stream of the commitment. */
  function PublishStatus(cfg: Config, st: State, slot: Slot, m: Msg, selected: Option<Option<BankId>>): State
    requires m.SlotStatus?
  {
    var st1 := PushIf(cfg, st, cfg.confirmed, OnConfirmed, slot, [m]);
    var st2 := PushIf(cfg, st1, cfg.finalized, OnFinalized, slot, [m]);
    var bank := if selected.Some? && slot in st.slots then Stored(st.slots[slot], selected.value) else [];
    var st3 := PushIf(cfg, st2, m.status == Confirmed && cfg.confirmed, OnConfirmed, slot, bank);
    var st4 := PushIf(cfg, st3, m.status == Finalized && cfg.finalized, OnFinalized, slot, bank);
    var st5 :=
      if m.status != Finalized then st4
      else if cfg.finalized && selected.Some? then st4.(slotFinalized := slot, slots := st4.slots - {slot})
      else st4.(slotFinalized := slot);
    PushStored(cfg, st5, OnProcessed, slot, m)
  }

  /** Anything else goes to processed, and to confirmed once its bank is the confirmed one. */
  predicate Follows(cfg: Config, st: State, slot: Slot, m: Msg) {
    !m.EntryUpdateParent? && slot in st.slots && st.slots[slot].confirmedBank == Some(m.bank) && cfg.confirmed
  }

  function PublishOther(cfg: Config, st: State, slot: Slot, m: Msg): State {
    PushStored(cfg, PushIf(cfg, st, Follows(cfg, st, slot, m), OnConfirmed, slot, [m]), OnProcessed, slot, m)
  }

  /** The journal of an earlier run already has the message. */
  predicate Known(st: State, slot: Slot, m: Msg) {
    slot in st.replay && st.replay[slot].messages.Some? && IdentOf(m) in st.replay[slot].messages.value
  }

  function Noted(st: State, slot: Slot, m: Msg): State {
    if slot in st.replay && st.replay[slot].messages.Some? then
      st.(replay := st.replay[slot :=
        st.replay[slot].(messages := Some(st.replay[slot].messages.value + {IdentOf(m)}))])
    else st
  }

  /** The inner loop of `push`, for one message or block. */
  function Handle(cfg: Config, st: State, slot: Slot, m: Msg, selected: Option<Option<BankId>>): State {
    var st0 := PushStored(cfg, st, Received, slot, m);
    if Known(st, slot, m) then st0
    else if m.SlotStatus? then PublishStatus(cfg, Noted(st0, slot, m), slot, m, selected)
    else PublishOther(cfg, Noted(st0, slot, m), slot, m)
  }

  function Tracked(st: State, slot: Slot): SlotInfo {
    if slot in st.slots then st.slots[slot]
    else NewSlot(if slot in st.replay then st.replay[slot].head else st.index)
  }

  predicate Publishable(m: Msg) {
    m.SlotStatus? || Storable(m) || m.EntryUpdateParent?
  }

  /** The outer loop of `push`, for one message. */
  function PublishOne(cfg: Config, st: State, slot: Slot, m: Msg): State
    requires Publishable(m)
  {
    if m.SlotStatus? then
      var (info, selected) := Commit(Tracked(st, slot), m.status, m.bank);
      Handle(cfg, st.(slots := st.slots[slot := info]), slot, m, selected)
    else
      var (info, block) := AbsorbMessage(Tracked(st, slot), m);
      var st1 := Handle(cfg, st.(slots := st.slots[slot := info]), slot, m, None);
      if block.Some? then Handle(cfg, st1, slot, block.value, None) else st1
  }

  ghost predicate AllPublishable(ms: seq<Msg>) {
    forall i :: 0 <= i < |ms| ==> Publishable(ms[i])
  }

  function PublishAll(cfg: Config, st: State, slot: Slot, ms: seq<Msg>): State
    requires AllPublishable(ms)
  {
    if ms == [] then st else PublishOne(cfg, PublishAll(cfg, st, slot, ms[..|ms| - 1]), slot, ms[|ms| - 1])
  }

  // ----- retention -----

  /** After a finalized slot the older ones are forgotten. */
  function Cleaned(st: State): State {
    st.(slots := map s | s in st.slots && s > st.slotFinalized :: st.slots[s],
        dedup := map s | s in st.dedup && s >= st.slotFinalized :: st.dedup[s])
  }

  /** The oldest slots are dropped until at most `limit` are left. */
  function DropExcess(slots: map<Slot, SlotInfo>, limit: nat, dropped: Slot): (map<Slot, SlotInfo>, Slot)
    decreases |slots|
  {
    if |slots| <= limit then (slots, dropped)
    else
      var s := Least(slots.Keys);
      assert (slots - {s}).Keys == slots.Keys - {s};
      DropExcess(slots - {s}, limit, if s > dropped then s else dropped)
  }

  function DropDedup(dedup: map<Slot, DedupInfo>, limit: nat): map<Slot, DedupInfo>
    decreases |dedup|
  {
    if |dedup| <= limit then dedup
    else
      var s := Least(dedup.Keys);
      assert (dedup - {s}).Keys == dedup.Keys - {s};
      DropDedup(dedup - {s}, limit)
  }

  function Heads(replay: map<Slot, ReplayInfo>): set<nat> {
    set s | s in replay :: replay[s].head
  }

  function LeastHead(replay: map<Slot, ReplayInfo>): Option<nat> {
    if Heads(replay) == {} then None else Some(Least(Heads(replay)))
  }

  /** The first slot that is kept on disk. */
  function FirstRetained(replay: map<Slot, ReplayInfo>, maxSlots: nat): Slot {
    if replay == map[] then 0
    else
      var last, span := Greatest(replay.Keys), if maxSlots == 0 then 0 else maxSlots - 1;
      if last >= span then last - span else 0
  }

  /** The journal is trimmed slot by slot, up to the least head that is still needed. */
  function TrimReplay(replay: map<Slot, ReplayInfo>, first: Slot, trims: seq<Trim>): (map<Slot, ReplayInfo>, seq<Trim>)
    decreases |replay|
  {
    if replay == map[] || Least(replay.Keys) >= first then (replay, trims)
    else
      var s := Least(replay.Keys);
      assert (replay - {s}).Keys == replay.Keys - {s};
      TrimReplay(replay - {s}, first, trims + [Trim(s, LeastHead(replay - {s}))])
  }

  function Retain(cfg: Config, st: State): State {
    if cfg.storage.None? then st.(replay := map[])
    else
      var (replay, trims) := TrimReplay(st.replay, FirstRetained(st.replay, cfg.storage.value.maxSlots), st.trims);
      st.(replay := replay, trims := trims)
  }

  function Finish(cfg: Config, st: State, clean: bool): State {
    var st1 := if clean then Cleaned(st) else st;
    var (slots, dropped) := DropExcess(st1.slots, cfg.maxUnfinalizedSlots, st1.slotDropped);
    Retain(cfg, st1.(slots := slots, slotDropped := dropped, dedup := DropDedup(st1.dedup, cfg.maxUnfinalizedSlots)))
  }

  // ----- events -----

  datatype Event = Deliver(dedupRequired: bool, source: nat, message: Msg) | BeginLiveEpoch

  /** Messages of slots that are done and of banks that were replaced are ignored. */
  predicate Ignored(st: State, m: Msg) {
    || m.slot <= Bound(st)
    || (m.bank.Some? && !m.EntryUpdateParent? && m.slot in st.slots && m.bank.value in st.slots[m.slot].clearedBanks)
  }

  function Entered(st: State, slot: Slot): State {
    if slot in st.replay then st else st.(replay := st.replay[slot := ReplayInfo(st.index, None)])
  }

  /** `Sender::push` after dedup. */
  function Publish(cfg: Config, st: State, slot: Slot, ms: seq<Msg>): State
    requires AllPublishable(ms)
  {
    if ms == [] then st
    else
      var st' := PublishAll(cfg, Entered(st, slot), slot, ms);
      Finish(cfg, st', st'.slotFinalized != st.slotFinalized)
  }

  /** `Sender::begin_live_epoch` */
  function BeginEpoch(st: State): State {
    st.(slots := map[], dedup := map[], replay := map[], epoch := st.epoch + 1, recovered := {})
  }

  /** One event, as a relation: a panic has no next state. */
  ghost predicate Step(cfg: Config, st: State, e: Event, st': State) {
    match e
    case BeginLiveEpoch => st' == BeginEpoch(st)
    case Deliver(required, source, m) =>
      !m.Block? &&
      if Ignored(st, m) then st' == st
      else
        var admitted := Admit(st.dedup, required, source, m);
        && admitted.Some? && AllPublishable(admitted.value.1)
        && st' == Publish(cfg, st.(dedup := admitted.value.0), m.slot, admitted.value.1)
  }
}
