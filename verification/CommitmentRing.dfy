/** The per-commitment broadcast ring of `richat/src/channel.rs`: `SenderShared` (writer side),
    `SharedChannel` (cells, slot index, journal floor) and the two receivers. */
module CommitmentRing {
  import opened Basics
  import opened RingCore

  datatype ReadResult = Delivered(message: Message) | Lagged | NotYet

  // ----- which events a cursor owes its reader -----

  /** The events of slots at or above `from`, in order. */
  function FromSlot(h: seq<Event>, from: Slot): seq<Event> {
    if h == [] then []
    else if h[|h| - 1].slot >= from then FromSlot(h[..|h| - 1], from) + [h[|h| - 1]]
    else FromSlot(h[..|h| - 1], from)
  }

  /** It keeps exactly those events, each once and in order, whatever the history is put together from. */
  lemma {:induction false} FromSlotIsFilter(a: seq<Event>, b: seq<Event>, from: Slot)
    ensures FromSlot(a + b, from) == FromSlot(a, from) + FromSlot(b, from)
    ensures |b| == 1 ==> FromSlot(b, from) == if b[0].slot >= from then b else []
    ensures FromSlot([], from) == []
  {
    if b == [] {
      assert a + b == a;
    } else {
      var last := |b| - 1;
      FromSlotIsFilter(a, b[..last], from);
      assert (a + b)[..|a + b| - 1] == a + b[..last];
      if |b| == 1 {
        assert b[..last] == [];
      }
    }
  }

  /** Skipping a prefix that has no event of the wanted slots loses nothing. */
  lemma {:induction false} FromSlotSkips(h: seq<Event>, start: nat, from: Slot)
    requires start <= |h|
    requires forall k :: 0 <= k < start ==> h[k].slot < from
    ensures FromSlot(h, from) == FromSlot(h[start..], from)
    decreases |h|
  {
    if start == |h| {
      FromSlotEmpty(h, from);
    } else {
      var last := |h| - 1;
      FromSlotSkips(h[..last], start, from);
      assert h[start..][..|h[start..]| - 1] == h[..last][start..];
    }
  }

  lemma {:induction false} FromSlotEmpty(h: seq<Event>, from: Slot)
    requires forall k :: 0 <= k < |h| ==> h[k].slot < from
    ensures FromSlot(h, from) == []
  {
    if h != [] {
      FromSlotEmpty(h[..|h| - 1], from);
    }
  }

  // ----- the slot index -----

  /** Indexed slots are exactly the slots published in this epoch above `incomplete`, each with its
      first position of the epoch. */
  ghost predicate Indexed(slots: map<Slot, nat>, h: seq<Event>, base: nat, epochStart: nat, incomplete: Option<Slot>) {
    && epochStart <= |h|
    && (forall s :: IsEntry(slots, h, base, epochStart, incomplete, s))
    && (forall k :: epochStart <= k < |h| ==> Covered(slots, h, k, incomplete))
  }

  ghost predicate IsEntry(slots: map<Slot, nat>, h: seq<Event>, base: nat, epochStart: nat, incomplete: Option<Slot>,
                          s: Slot) {
    s in slots ==> IsFirst(h, base, epochStart, s, slots[s]) && Above(s, incomplete)
  }

  ghost predicate Covered(slots: map<Slot, nat>, h: seq<Event>, k: nat, incomplete: Option<Slot>)
    requires k < |h|
  {
    Above(h[k].slot, incomplete) ==> h[k].slot in slots
  }

  /** `pos` is the first position at which slot `s` was published since `epochStart`. */
  ghost predicate IsFirst(h: seq<Event>, base: nat, epochStart: nat, s: Slot, pos: nat) {
    && base + epochStart <= pos < base + |h|
    && h[pos - base].slot == s
    && forall k :: epochStart <= k < pos - base ==> h[k].slot != s
  }

  /** The slot index after one push of `slot` at `pos`: the slot is entered unless it is known to be
      incomplete, then every slot that lost an event is dropped. */
  function IndexAfter(slots: map<Slot, nat>, slot: Slot, pos: nat, incomplete: Option<Slot>,
                      removed: Option<Slot>): map<Slot, nat> {
    var entered := if Above(slot, incomplete) && slot !in slots then slots[slot := pos] else slots;
    if removed.None? then entered
    else map s | s in entered && s > MaxOf(incomplete, removed).value :: entered[s]
  }

  lemma IndexedPush(slots: map<Slot, nat>, h: seq<Event>, e: Event, base: nat, epochStart: nat,
                    incomplete: Option<Slot>, removed: Option<Slot>)
    requires Indexed(slots, h, base, epochStart, incomplete)
    ensures Indexed(IndexAfter(slots, e.slot, base + |h|, incomplete, removed), h + [e], base, epochStart,
                    MaxOf(incomplete, removed))
  {
    var h', incomplete' := h + [e], MaxOf(incomplete, removed);
    var slots' := IndexAfter(slots, e.slot, base + |h|, incomplete, removed);
    forall s: Slot
      ensures IsEntry(slots', h', base, epochStart, incomplete', s)
    {
      assert IsEntry(slots, h, base, epochStart, incomplete, s);
      if s in slots' && s !in slots {
        forall k | epochStart <= k < |h|
          ensures h'[k].slot != s
        {
          assert Covered(slots, h, k, incomplete);
        }
      }
    }
    forall k | epochStart <= k < |h'|
      ensures Covered(slots', h', k, incomplete')
    {
      if k < |h| {
        assert Covered(slots, h, k, incomplete);
      }
    }
  }

  /** Index `i` splits the history in two: the events journaled below `i`, then all the others. */
  ghost predicate Splits(h: seq<Event>, at: nat, i: nat) {
    forall k :: 0 <= k < |h| ==> (IndexBelow(h, k, i) <==> k < at)
  }

  /** One look at event m decides the search for everything before it or everything after it. */
  lemma JournalSplits(h: seq<Event>, first: nat, floor: nat, epochFloor: nat, m: nat, i: nat)
    requires first <= |h| && Journal(h, first, floor, epochFloor, true) && m < |h|
    ensures h[m].replayIndex.Some?
    ensures IndexBelow(h, m, i) ==> forall k :: 0 <= k <= m ==> IndexBelow(h, k, i)
    ensures !IndexBelow(h, m, i) ==> forall k :: m <= k < |h| ==> !IndexBelow(h, k, i)
  {
    assert Numbered(h, m, true);
    forall k | 0 <= k < m && IndexBelow(h, m, i)
      ensures IndexBelow(h, k, i)
    {
      assert Ordered(h, k, m);
    }
    forall k | m < k < |h| && !IndexBelow(h, m, i)
      ensures !IndexBelow(h, k, i)
    {
      assert Ordered(h, m, k);
    }
  }

  datatype StorageInfo = StorageInfo(replayEnabled: bool, supportsReplay: nat -> bool)
  datatype Location = Memory(pos: nat) | Storage(index: nat)
  datatype CursorError = FirstAvailable(slot: Slot) | NotEnabled | PredatesHistory | NoPosition
  datatype Cursor = Located(location: Location) | Rejected(error: CursorError)

  // ----- the writer as a function of its state -----

  /** All fields of `SenderShared` and `SharedChannel`. */
  datatype Ring = Ring(
    core: Core, incompleteThrough: Option<Slot>, slots: map<Slot, nat>,
    recoveryEpoch: nat, sharedHead: nat, sharedTail: nat)
  {
    ghost predicate Valid(past: Past, bytesMax: nat, journaled: bool) {
      && core.Counted(past.history, past.epochFloor, journaled)
      && (past.history != [] ==> Fits(past.history, core.First(), |core.items|, bytesMax))
      && incompleteThrough == MaxIn(past.history, 0, core.First())
      && Indexed(slots, past.history, core.Base(), past.epochStart, incompleteThrough)
      && sharedHead == core.head
      && sharedTail == core.tail
    }
  }

  /** What was ever published (`history`), how much of it when the current recovery epoch began
      (`epochStart`), and the journal index at that moment (`epochFloor`). */
  datatype Past = Past(history: seq<Event>, epochStart: nat, epochFloor: nat)

  /** The index part of a push completes the invariant. */
  lemma ValidIndexed(r: Ring, past: Past, core: Core, e: Event, removed: Option<Slot>, bytesMax: nat, journaled: bool)
    requires r.Valid(past, bytesMax, journaled)
    requires var h := past.history + [e];
      && |core.items| == |r.core.items| && core.Counted(h, past.epochFloor, journaled)
      && r.core.First() <= core.First() < |h|
      && Fits(h, core.First(), |core.items|, bytesMax)
      && removed == MaxIn(h, r.core.First(), core.First())
    ensures Ring(core, MaxOf(r.incompleteThrough, removed),
                 IndexAfter(r.slots, e.slot, core.tail, r.incompleteThrough, removed),
                 r.recoveryEpoch, core.head, core.tail)
            .Valid(past.(history := past.history + [e]), bytesMax, journaled)
  {
    var h := past.history + [e];
    assert core.tail == core.Base() + |past.history|;
    MaxInAppend(past.history, e, 0, r.core.First());
    MaxInSplit(h, 0, r.core.First(), core.First());
    IndexedPush(r.slots, past.history, e, core.Base(), past.epochStart, r.incompleteThrough, removed);
  }

  /** The least head among the slots at or above `from`. */
  function FirstFrom(heads: map<Slot, nat>, from: Slot): (r: Option<nat>)
    ensures r.None? <==> forall s :: s in heads ==> s < from
    ensures r.Some? ==> exists s :: s in heads && s >= from && heads[s] == r.value
    ensures r.Some? ==> forall s :: s in heads && s >= from ==> r.value <= heads[s]
  {
    var found := set s | s in heads && s >= from :: heads[s];
    if found == {} then
      assert forall s :: s in heads && s >= from ==> heads[s] in found;
      None
    else
      assert forall s :: s in heads && s >= from ==> heads[s] in found;
      Some(Least(found))
  }

  /** Reading from `pos` and keeping the slots at or above `from` yields every event of those slots
      published in the current epoch, in order. */
  ghost predicate Complete(past: Past, base: nat, pos: nat, from: Slot) {
    && past.epochStart <= |past.history|
    && base + past.epochStart <= pos <= base + |past.history|
    && FromSlot(past.history[pos - base..], from) == FromSlot(past.history[past.epochStart..], from)
  }

  lemma CompleteIf(past: Past, base: nat, pos: nat, from: Slot)
    requires past.epochStart <= |past.history|
    requires base + past.epochStart <= pos <= base + |past.history|
    requires forall k :: past.epochStart <= k < pos - base ==> past.history[k].slot < from
    ensures Complete(past, base, pos, from)
  {
    var h, skip := past.history[past.epochStart..], pos - base - past.epochStart;
    FromSlotSkips(h, skip, from);
    assert h[skip..] == past.history[pos - base..];
  }

  /** The least head among the indexed slots at or above `from` is a complete and live cursor. */
  lemma CursorIsComplete(r: Ring, past: Past, bytesMax: nat, journaled: bool, from: Slot, pos: nat)
    requires r.Valid(past, bytesMax, journaled)
    requires r.slots != map[] && from >= Least(r.slots.Keys)
    requires exists s :: s in r.slots && s >= from && r.slots[s] == pos
    requires forall s :: s in r.slots && s >= from ==> pos <= r.slots[s]
    ensures r.core.head <= pos <= r.core.tail && Complete(past, r.core.Base(), pos, from)
  {
    var h, least := past.history, Least(r.slots.Keys);
    assert IsEntry(r.slots, h, r.core.Base(), past.epochStart, r.incompleteThrough, least);
    var s :| s in r.slots && s >= from && r.slots[s] == pos;
    assert IsEntry(r.slots, h, r.core.Base(), past.epochStart, r.incompleteThrough, s);
    if pos < r.core.head {
      MaxInBounds(h, 0, r.core.First(), pos - r.core.Base());
    }
    forall k | past.epochStart <= k < pos - r.core.Base()
      ensures h[k].slot < from
    {
      assert Covered(r.slots, h, k, r.incompleteThrough);
      assert IsEntry(r.slots, h, r.core.Base(), past.epochStart, r.incompleteThrough, h[k].slot);
    }
    CompleteIf(past, r.core.Base(), pos, from);
  }

  /** A slot above the newest known one has no event yet, so the end of the ring is a complete cursor. */
  lemma NothingFrom(r: Ring, past: Past, bytesMax: nat, journaled: bool, from: Slot, known: set<Slot>)
    requires r.Valid(past, bytesMax, journaled)
    requires known != {} && from > Greatest(known)
    requires known == r.slots.Keys
             || forall k :: past.epochStart <= k < |past.history| ==> past.history[k].slot <= Greatest(known)
    ensures Complete(past, r.core.Base(), r.core.tail + 1, from)
  {
    var h := past.history;
    forall k | past.epochStart <= k < |h|
      ensures h[k].slot < from
    {
      if known == r.slots.Keys {
        var any := Greatest(known);
        assert IsEntry(r.slots, h, r.core.Base(), past.epochStart, r.incompleteThrough, any);
        assert Covered(r.slots, h, k, r.incompleteThrough);
      }
    }
    CompleteIf(past, r.core.Base(), r.core.tail + 1, from);
  }

  /** `Messages::get_current_tail_with_replay` on one stream, under the replay-map lock; `replay`
      maps the retained slots of the epoch to the journal index of their first record. */
  function CurrentTailWithReplay(slots: map<Slot, nat>, tail: nat, from: Option<Slot>, replay: map<Slot, nat>,
                                 storage: Option<StorageInfo>): Cursor {
    if from.None? then Located(Memory(tail + 1))
    else if slots != map[] && from.value >= Least(slots.Keys) && FirstFrom(slots, from.value).Some? then
      Located(Memory(FirstFrom(slots, from.value).value))
    else
      var known := if replay != map[] then replay.Keys else slots.Keys;
      if known != {} && from.value > Greatest(known) then Located(Memory(tail + 1))
      else if storage.Some? && replay != map[] && from.value < Least(replay.Keys) then
        Rejected(FirstAvailable(Least(replay.Keys)))
      else if storage.Some? && FirstFrom(replay, from.value).Some? then
        var index := FirstFrom(replay, from.value).value;
        if !storage.value.replayEnabled then Rejected(NotEnabled)
        else if !storage.value.supportsReplay(index) then Rejected(PredatesHistory)
        else Located(Storage(index))
      else Rejected(NoPosition)
  }

  /** A memory cursor is live and complete. */
  lemma CursorIsRight(r: Ring, past: Past, bytesMax: nat, journaled: bool, from: Slot, replay: map<Slot, nat>,
                      storage: Option<StorageInfo>)
    requires r.Valid(past, bytesMax, journaled)
    requires replay != map[] ==> forall k :: past.epochStart <= k < |past.history| ==>
               past.history[k].slot <= Greatest(replay.Keys)
    ensures var c := CurrentTailWithReplay(r.slots, r.core.tail, Some(from), replay, storage);
      c.Located? && c.location.Memory? ==>
        r.core.head <= c.location.pos <= r.core.tail + 1 && Complete(past, r.core.Base(), c.location.pos, from)
  {
    if r.slots != map[] && from >= Least(r.slots.Keys) && FirstFrom(r.slots, from).Some? {
      CursorIsComplete(r, past, bytesMax, journaled, from, FirstFrom(r.slots, from).value);
    } else {
      var known := if replay != map[] then replay.Keys else r.slots.Keys;
      if known != {} && from > Greatest(known) {
        NothingFrom(r, past, bytesMax, journaled, from, known);
      }
    }
  }

  /** Memory serves every slot it still has in full; a storage cursor is at or below the first record
      of every wanted slot. */
  lemma CursorPrefersMemory(slots: map<Slot, nat>, tail: nat, from: Slot, replay: map<Slot, nat>,
                            storage: Option<StorageInfo>)
    ensures var c := CurrentTailWithReplay(slots, tail, Some(from), replay, storage);
      && (from in slots ==> c.Located? && c.location.Memory?)
      && (c.Located? && c.location.Storage? ==>
            forall s :: s in replay && s >= from ==> c.location.index <= replay[s])
  {
    if from in slots {
      assert Least(slots.Keys) <= from;
    }
  }

  // ----- the outcome of a request, told from what memory and journal hold -----

  /** A slot at or below the wanted one, and one at or above it. */
  ghost predicate Spans(heads: map<Slot, nat>, from: Slot) {
    exists a, b :: a in heads && b in heads && a <= from <= b
  }

  /** The least head among the slots at or above the wanted one. */
  ghost predicate IsLeastFrom(heads: map<Slot, nat>, from: Slot, head: nat) {
    && (exists s :: s in heads && s >= from && heads[s] == head)
    && (forall s :: s in heads && s >= from ==> head <= heads[s])
  }

  /** The wanted slot is above every known one. */
  ghost predicate Beyond(slots: map<Slot, nat>, replay: map<Slot, nat>, from: Slot) {
    var known := if replay != map[] then replay.Keys else slots.Keys;
    known != {} && forall s :: s in known ==> s < from
  }

  /** The wanted slot is below every retained one. */
  ghost predicate TooEarly(replay: map<Slot, nat>, from: Slot) {
    replay != map[] && forall s :: s in replay ==> from < s
  }

  /** The whole outcome, in each case if and only if. Memory answers what it spans; what nothing is known of starts
      at the end; with storage a request for trimmed slots is rejected with the first slot there is, and one that the
      retained slots span is served from the least of their records, if replay is enabled and reaches back to it. */
  lemma CursorOutcome(slots: map<Slot, nat>, tail: nat, from: Slot, replay: map<Slot, nat>,
                      storage: Option<StorageInfo>)
    ensures CurrentTailWithReplay(slots, tail, None, replay, storage) == Located(Memory(tail + 1))
    ensures var c := CurrentTailWithReplay(slots, tail, Some(from), replay, storage);
      var onDisk := storage.Some? && Spans(replay, from) && !Spans(slots, from) && !Beyond(slots, replay, from);
      && (Spans(slots, from) ==> c.Located? && c.location.Memory? && IsLeastFrom(slots, from, c.location.pos))
      && (!Spans(slots, from) && Beyond(slots, replay, from) ==> c == Located(Memory(tail + 1)))
      && (c.Located? && c.location.Memory? <==> Spans(slots, from) || Beyond(slots, replay, from))
      && (c.Rejected? && c.error.FirstAvailable? <==> !Spans(slots, from) && storage.Some? && TooEarly(replay, from))
      && (c.Rejected? && c.error.FirstAvailable? ==>
            c.error.slot in replay && forall s :: s in replay ==> c.error.slot <= s)
      && (c == Rejected(NotEnabled) <==> onDisk && !storage.value.replayEnabled)
      && (c == Rejected(PredatesHistory) <==>
            onDisk && storage.value.replayEnabled && Unsupported(storage.value, replay, from))
      && (c.Located? && c.location.Storage? <==>
            onDisk && storage.value.replayEnabled && !Unsupported(storage.value, replay, from))
      && (c.Located? && c.location.Storage? ==> IsLeastFrom(replay, from, c.location.index))
      && (c == Rejected(NoPosition) <==>
            && !Spans(slots, from) && !Beyond(slots, replay, from)
            && (storage.None? || (!TooEarly(replay, from) && !Spans(replay, from))))
  {
    SpansIff(slots, from);
    SpansIff(replay, from);
    if Spans(replay, from) {
      var head := FirstFrom(replay, from).value;
      assert IsLeastFrom(replay, from, head);
    }
    if replay != map[] {
      assert Least(replay.Keys) in replay && Greatest(replay.Keys) in replay;
    }
    if slots != map[] {
      assert Least(slots.Keys) in slots && Greatest(slots.Keys) in slots;
    }
  }

  /** The storage does not reach back to the first record of the wanted slots. */
  ghost predicate Unsupported(storage: StorageInfo, replay: map<Slot, nat>, from: Slot) {
    exists head :: IsLeastFrom(replay, from, head) && !storage.supportsReplay(head)
  }

  lemma SpansIff(heads: map<Slot, nat>, from: Slot)
    ensures Spans(heads, from) <==> heads != map[] && from >= Least(heads.Keys) && FirstFrom(heads, from).Some?
  {
    if heads != map[] && from >= Least(heads.Keys) && FirstFrom(heads, from).Some? {
      var b :| b in heads && b >= from;
      assert Least(heads.Keys) in heads;
    }
  }

  // ----- receivers -----

  /** What a read of position `p` must return on a stream whose live window starts at `head`, for a
      reader that saw `seenTail`. */
  ghost function ReadAt(h: seq<Event>, base: nat, head: nat, seenTail: nat, p: nat): ReadResult
    requires base <= head && seenTail < base + |h|
  {
    if p > seenTail then NotYet
    else if p < head then Lagged
    else Delivered(h[p - base].message)
  }

  /** The messages of the enabled kinds, in order. */
  function Enabled(h: seq<Event>, kinds: set<MessageKind>): seq<Message> {
    if h == [] then []
    else
      var last := h[|h| - 1];
      Enabled(h[..|h| - 1], kinds) + if last.message.kind in kinds then [last.message] else []
  }

  lemma EnabledNext(h: seq<Event>, from: nat, to: nat, kinds: set<MessageKind>)
    requires from <= to < |h|
    ensures Enabled(h[from..to + 1], kinds) ==
            Enabled(h[from..to], kinds) + if h[to].message.kind in kinds then [h[to].message] else []
  {
    assert h[from..to + 1][..to - from] == h[from..to];
  }

  /** A stream as a reader meets it at the moment of one read. */
  datatype Sight = Sight(history: seq<Event>, head: nat, seenTail: nat)
  datatype Reader = Reader(next: nat, lagged: bool, out: seq<Message>)

  /** One iteration of the receive loop, at a moment when the stream looks like `at`. */
  ghost function ReaderStep(r: Reader, at: Sight, base: nat, kinds: set<MessageKind>): Reader
    requires base <= at.head && at.seenTail < base + |at.history|
  {
    if r.lagged then r
    else match ReadAt(at.history, base, at.head, at.seenTail, r.next)
      case NotYet => r
      case Lagged => r.(lagged := true)
      case Delivered(m) => r.(next := r.next + 1, out := r.out + if m.kind in kinds then [m] else [])
  }

  /** The tail may have been read long before the cell, but never ahead of the writer. */
  ghost predicate Sound(at: Sight, base: nat) {
    base <= at.head <= base + |at.history| && at.seenTail < base + |at.history|
  }

  /** Between two reads the writer may push any number of events. */
  ghost predicate Later(a: Sight, b: Sight) {
    a.history <= b.history && a.head <= b.head
  }

  ghost predicate Sightings(run: seq<Sight>, base: nat) {
    && (forall i :: 0 <= i < |run| ==> Sound(run[i], base))
    && (forall i :: 0 < i < |run| ==> Later(run[i - 1], run[i]))
  }

  ghost function ReaderRun(run: seq<Sight>, base: nat, start: nat, kinds: set<MessageKind>): Reader
    requires Sightings(run, base)
  {
    if run == [] then Reader(start, false, [])
    else ReaderStep(ReaderRun(run[..|run| - 1], base, start, kinds), run[|run| - 1], base, kinds)
  }

  /** The reader has output the enabled part of the run of events it passed. */
  ghost predicate Contiguous(r: Reader, at: Sight, base: nat, start: nat, kinds: set<MessageKind>) {
    && base <= start <= r.next <= base + |at.history|
    && r.out == Enabled(at.history[start - base..r.next - base], kinds)
    && (r.lagged ==> r.next < at.head)
  }

  lemma ContiguousAtMost(r: Reader, at: Sight, base: nat, start: nat, kinds: set<MessageKind>)
    requires Contiguous(r, at, base, start, kinds)
    ensures r.next <= base + |at.history|
  {
  }

  lemma ReaderStepKeeps(r: Reader, a: Sight, b: Sight, base: nat, start: nat, kinds: set<MessageKind>)
    requires Contiguous(r, a, base, start, kinds) && Later(a, b) && Sound(b, base)
    ensures Contiguous(ReaderStep(r, b, base, kinds), b, base, start, kinds)
    ensures !r.lagged ==> (ReaderStep(r, b, base, kinds).lagged <==> r.next < b.head && r.next <= b.seenTail)
  {
    assert a.history[start - base..r.next - base] == b.history[start - base..r.next - base];
    if r.next - base < |b.history| {
      EnabledNext(b.history, start - base, r.next - base, kinds);
    }
  }

  /** Whatever the interleaving with pushes, a reader outputs the enabled part of one contiguous run
      of the stream, and it is told it lagged only when its next position has left the window. */
  lemma {:induction false} ReaderSeesContiguousRun(run: seq<Sight>, base: nat, start: nat, kinds: set<MessageKind>)
    requires Sightings(run, base) && run != [] && base <= start <= base + |run[0].history|
    ensures Contiguous(ReaderRun(run, base, start, kinds), run[|run| - 1], base, start, kinds)
  {
    var last := |run| - 1;
    var before := run[..last];
    assert Sound(run[last], base);
    if last == 0 {
      ReaderStepKeeps(Reader(start, false, []), run[0], run[0], base, start, kinds);
    } else {
      ReaderSeesContiguousRun(before, base, start, kinds);
      assert Later(run[last - 1], run[last]);
      ReaderStepKeeps(ReaderRun(before, base, start, kinds), run[last - 1], run[last], base, start, kinds);
    }
  }

  class SenderShared {
    const buffer: Buffer
    const bytesMax: nat
    const journaled: bool
    var incompleteThrough: Option<Slot>
    var slots: map<Slot, nat>
    var recoveryEpoch: nat
    // positions published to receivers
    var sharedHead: nat
    var sharedTail: nat

    ghost var past: Past

    ghost function View(): Ring
      reads this, buffer, buffer.items
    {
      Ring(buffer.View(), incompleteThrough, slots, recoveryEpoch, sharedHead, sharedTail)
    }

    /** Position of the first event ever published. */
    ghost function Base(): nat {
      buffer.items.Length + 1
    }

    ghost predicate Valid()
      reads this, buffer, buffer.items
    {
      View().Valid(past, bytesMax, journaled)
    }

    constructor (maxMessages: nat, bytesMax: nat, journaled: bool, index: nat)
      requires maxMessages > 0
      ensures Valid() && fresh(buffer) && fresh(buffer.items) && buffer.items.Length == maxMessages
      ensures this.bytesMax == bytesMax && this.journaled == journaled
      ensures past == Past([], 0, index)
    {
      buffer := new Buffer(maxMessages, index);
      this.bytesMax := bytesMax;
      this.journaled := journaled;
      sharedHead, sharedTail := maxMessages + 1, maxMessages;
      incompleteThrough, slots, recoveryEpoch := None, map[], 0;
      past := Past([], 0, index);
    }

    /** The slot-index part of a push of `slot`, already written at `tail`. */
    method UpdateIndex(slot: Slot, removed: Option<Slot>)
      modifies this`slots, this`incompleteThrough
      ensures slots == IndexAfter(old(slots), slot, buffer.tail, old(incompleteThrough), removed)
      ensures incompleteThrough == MaxOf(old(incompleteThrough), removed)
    {
      if incompleteThrough.None? || slot > incompleteThrough.value {
        if slot !in slots {
          slots := slots[slot := buffer.tail];
        }
      }
      if removed.Some? {
        var upto := if incompleteThrough.Some? && incompleteThrough.value > removed.value
          then incompleteThrough.value else removed.value;
        incompleteThrough := Some(upto);
        slots := PopThrough(slots, upto);
      }
    }

    /** `SenderShared::push`: publish one event, evict by count and by bytes, maintain the slot index. */
    method Push(slot: Slot, message: Message, replayIndex: Option<nat>)
      requires Valid()
      requires NextIndex(past.history, replayIndex, journaled)
      modifies this, buffer, buffer.items
      ensures Valid()
      ensures past == old(past).(history := old(past.history) + [Event(slot, message, replayIndex)])
      ensures buffer.View().First() == Retained(past.history, old(buffer.View()).First(), buffer.items.Length, bytesMax)
      ensures buffer.head >= old(buffer.head) && recoveryEpoch == old(recoveryEpoch)
    {
      ghost var before, e := View(), Event(slot, message, replayIndex);
      var removed := buffer.Append(Event(slot, message, replayIndex), bytesMax, past.history, past.epochFloor,
                                   journaled);
      ValidIndexed(before, past, buffer.View(), e, removed, bytesMax, journaled);
      sharedHead, sharedTail := buffer.head, buffer.tail;
      UpdateIndex(slot, removed);
      past := past.(history := past.history + [e]);
    }

    /** The ring part of `Sender::begin_live_epoch`. */
    method BeginLiveEpoch(index: nat)
      requires Valid()
      requires NextIndex(past.history, if journaled then Some(index) else None, journaled)
      modifies this`slots, this`recoveryEpoch, this`past, buffer`replayFloor
      ensures Valid()
      ensures past == Past(old(past.history), |old(past.history)|, index)
      ensures recoveryEpoch == old(recoveryEpoch) + 1 && slots == map[] && buffer.replayFloor == index
    {
      ghost var r := View();
      slots := map[];
      buffer.replayFloor := index;
      recoveryEpoch := recoveryEpoch + 1;
      past := Past(past.history, |past.history|, index);
      assert View() == r.(slots := map[], core := r.core.(replayFloor := index), recoveryEpoch := recoveryEpoch);
    }

    /** `SharedChannel::get_head_by_replay_index`: where live memory takes over from disk replay. */
    method HeadByReplayIndex(index: nat) returns (r: Option<nat>)
      requires Valid() && journaled
      ensures r.None? <==> index < buffer.replayFloor
      // no gap and no duplicate: the journal holds exactly what memory does not deliver
      ensures r.Some? ==> buffer.head <= r.value <= buffer.tail + 1
                          && Splits(past.history, r.value - Base(), index)
      // a refusal is justified: something at or above `index` is gone, or it predates the epoch
      ensures r.None? && index >= past.epochFloor ==>
                buffer.head > Base() && !IndexBelow(past.history, buffer.head - Base() - 1, index)
    {
      if index < buffer.replayFloor {
        return None;
      }
      ghost var base, h, first := Base(), past.history, buffer.head - Base();
      forall k | 0 <= k < first
        ensures IndexBelow(h, k, index)
      {
        assert IndexBelow(h, k, buffer.replayFloor);
      }
      var low, high := sharedHead, sharedTail + 1;
      while low < high
        invariant buffer.head <= low <= high <= buffer.tail + 1
        invariant forall k :: 0 <= k < low - base ==> IndexBelow(h, k, index)
        invariant forall k :: high - base <= k < |h| ==> !IndexBelow(h, k, index)
      {
        var mid := low + (high - low) / 2;
        var item := buffer.items[mid % buffer.items.Length];
        assert Holds(buffer.items[..], h, mid);
        JournalSplits(h, first, buffer.replayFloor, past.epochFloor, mid - base, index);
        if item.replayIndex.value < index {
          low := mid + 1;
        } else {
          high := mid;
        }
      }
      r := Some(low);
    }

    /** `ReceiverSync::try_recv`, and one read of `ReceiverAsync`: only the cell lock is held, so the
        writer may be in the middle of a push, with history `h` so far. */
    method TryRecv(p: nat, seenTail: nat, ghost h: seq<Event>) returns (r: ReadResult)
      requires buffer.View().Counted(h, past.epochFloor, journaled) && seenTail <= buffer.tail
      ensures r == ReadAt(h, Base(), buffer.head, seenTail, p)
    {
      if p > seenTail {
        return NotYet;
      }
      var idx := p % buffer.items.Length;
      var item := buffer.items[idx];
      assert Tidy(buffer.items[..], buffer.head, buffer.tail, idx);
      if p >= buffer.head {
        assert Holds(buffer.items[..], h, p);
      }
      if item.pos != p {
        return Lagged;
      }
      r := if item.data.Some? then Delivered(item.data.value) else Lagged;
    }

    /** The stream as a reader sees it while no push is in progress. */
    ghost function Here(): Sight
      reads this, buffer
    {
      Sight(past.history, buffer.head, buffer.tail)
    }

    /** `ReceiverAsync::recv_ref` while no push intervenes: it stops at the first enabled message, at
        the end of the stream, or because it lagged. */
    method RecvRef(reader: Reader, kinds: set<MessageKind>, ghost start: nat) returns (next: Reader)
      requires Valid() && !reader.lagged
      requires Contiguous(reader, Here(), Base(), start, kinds)
      ensures Contiguous(next, Here(), Base(), start, kinds)
      ensures |next.out| <= |reader.out| + 1
      ensures next.lagged || next.next == buffer.tail + 1 || |next.out| == |reader.out| + 1
    {
      hide Contiguous;
      next := reader;
      ContiguousAtMost(next, Here(), Base(), start, kinds);
      while !next.lagged && next.next <= sharedTail
        invariant next.next <= Base() + |past.history|
        invariant Contiguous(next, Here(), Base(), start, kinds)
        invariant next.out == reader.out
        decreases !next.lagged, buffer.tail + 1 - next.next
      {
        ReaderStepKeeps(next, Here(), Here(), Base(), start, kinds);
        var r := TryRecv(next.next, sharedTail, past.history);
        if r.Lagged? {
          next := next.(lagged := true);
        } else {
          var enabled := r.message.kind in kinds;
          next := next.(next := next.next + 1, out := next.out + if enabled then [r.message] else []);
          if enabled {
            return;
          }
        }
      }
    }
  }
}
