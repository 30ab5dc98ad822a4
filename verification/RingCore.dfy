/** The buffer discipline shared by both broadcast rings, `richat/src/channel.rs` and
    `plugin-agave/src/channel.rs`: which cells are live, how a write or a byte-limit eviction moves
    the window, and how journal indices run along the stream. */
module RingCore {
  import opened Basics

  /** Kinds of both rings: `Block` exists only in the commitment rings, `DeshredTransaction` and
      `ContactInfo` only in the plugin ring. */
  datatype MessageKind =
    | SlotStatus | Account | Transaction | Entry | BlockMeta | Block | BlockFooter | EntryUpdateParent
    | DeshredTransaction | ContactInfo

  datatype Message = Message(kind: MessageKind, size: nat, payload: nat)

  /** One published event; `replayIndex` is its journal index, `None` when the stream is not journaled. */
  datatype Event = Event(slot: Slot, message: Message, replayIndex: Option<nat>)

  /** One cell of the buffer. */
  datatype Item = Item(replayIndex: Option<nat>, pos: nat, slot: Slot, data: Option<Message>)

  // ----- specification functions over the history of a stream -----

  /** Total size of the events from index `from` on. */
  function LiveBytes(h: seq<Event>, from: nat): nat
    requires from <= |h|
    decreases |h| - from
  {
    if from == |h| then 0 else h[from].message.size + LiveBytes(h, from + 1)
  }

  /** The retention rule: index of the oldest event kept, where `first` was the oldest one before. */
  function Retained(h: seq<Event>, first: nat, n: nat, bytesMax: nat): nat
    requires first < |h|
    decreases |h| - first
  {
    if Fits(h, first, n, bytesMax) then first else Retained(h, first + 1, n, bytesMax)
  }

  /** The window starting at `first` respects both limits, or only the newest event is left. */
  predicate Fits(h: seq<Event>, first: nat, n: nat, bytesMax: nat)
    requires first < |h|
  {
    first + 1 == |h| || (|h| - first <= n && LiveBytes(h, first) < bytesMax)
  }

  /** The larger of two optional slots. */
  function MaxOf(a: Option<Slot>, b: Option<Slot>): Option<Slot> {
    if a.None? then b else if b.None? || a.value >= b.value then a else b
  }

  /** The largest slot among the events `from..to`. */
  function MaxIn(h: seq<Event>, from: nat, to: nat): (r: Option<Slot>)
    requires to <= |h|
    ensures r.None? <==> to <= from
  {
    if to <= from then None else MaxOf(MaxIn(h, from, to - 1), Some(h[to - 1].slot))
  }

  lemma {:induction false} MaxInBounds(h: seq<Event>, from: nat, to: nat, k: nat)
    requires from <= k < to <= |h|
    ensures h[k].slot <= MaxIn(h, from, to).value
  {
    if k < to - 1 {
      MaxInBounds(h, from, to - 1, k);
    }
  }

  /** The bound is one of the slots. */
  lemma {:induction false} MaxInIsOne(h: seq<Event>, from: nat, to: nat) returns (k: nat)
    requires from < to <= |h|
    ensures from <= k < to && h[k].slot == MaxIn(h, from, to).value
  {
    k := to - 1;
    if from < to - 1 && MaxIn(h, from, to) != Some(h[to - 1].slot) {
      k := MaxInIsOne(h, from, to - 1);
    }
  }

  lemma {:induction false} MaxInSplit(h: seq<Event>, from: nat, mid: nat, to: nat)
    requires from <= mid <= to <= |h|
    ensures MaxIn(h, from, to) == MaxOf(MaxIn(h, from, mid), MaxIn(h, mid, to))
  {
    if mid < to {
      MaxInSplit(h, from, mid, to - 1);
    }
  }

  lemma {:induction false} MaxInAppend(h: seq<Event>, e: Event, from: nat, to: nat)
    requires to <= |h|
    ensures MaxIn(h + [e], from, to) == MaxIn(h, from, to)
  {
    if from < to {
      MaxInAppend(h, e, from, to - 1);
    }
  }

  predicate Above(slot: Slot, bound: Option<Slot>) {
    bound.None? || slot > bound.value
  }

  lemma {:induction false} LiveBytesAppend(h: seq<Event>, e: Event, from: nat)
    requires from <= |h|
    ensures LiveBytes(h + [e], from) == LiveBytes(h, from) + e.message.size
    decreases |h| - from
  {
    if from == |h| {
      assert LiveBytes(h + [e], from + 1) == 0;
    } else {
      LiveBytesAppend(h, e, from + 1);
    }
  }

  /** The retention rule drops no more than it must: what it returns fits, nothing earlier does. */
  lemma {:induction false} RetainedIsLeast(h: seq<Event>, first: nat, n: nat, bytesMax: nat)
    requires first < |h|
    ensures first <= Retained(h, first, n, bytesMax) < |h|
    ensures Fits(h, Retained(h, first, n, bytesMax), n, bytesMax)
    ensures forall k :: first <= k < Retained(h, first, n, bytesMax) ==> !Fits(h, k, n, bytesMax)
    decreases |h| - first
  {
    if !Fits(h, first, n, bytesMax) {
      RetainedIsLeast(h, first + 1, n, bytesMax);
    }
  }

  /** A window that overflows by one event gives up that event first. */
  lemma RetainedOverflow(h: seq<Event>, first: nat, n: nat, bytesMax: nat)
    requires first < |h| && n > 0
    ensures |h| - first > n ==> Retained(h, first, n, bytesMax) == Retained(h, first + 1, n, bytesMax)
    ensures Retained(h, first, n, bytesMax) < |h| && Fits(h, Retained(h, first, n, bytesMax), n, bytesMax)
  {
    RetainedIsLeast(h, first, n, bytesMax);
  }

  // ----- the shape of the buffer -----

  /** The cell that event `e` occupies at position `p` while it is live. */
  function Cell(e: Event, p: nat): Item {
    Item(e.replayIndex, p, e.slot, Some(e.message))
  }

  /** The live window is exactly `head..=tail`, its cells hold the events of those positions, and
      all other cells are empty. Event k of the history sits at position `|items| + 1 + k`. */
  ghost predicate Window(items: seq<Item>, head: nat, tail: nat, h: seq<Event>) {
    && |items| > 0
    && |items| + 1 <= head <= tail + 1
    && tail == |items| + |h|
    && tail + 1 - head <= |items|
    && (h != [] ==> head <= tail)
    && (forall p :: head <= p <= tail ==> Holds(items, h, p))
    && (forall i :: 0 <= i < |items| ==> Tidy(items, head, tail, i))
  }

  /** The cell of live position `p` holds the event published there. */
  ghost predicate Holds(items: seq<Item>, h: seq<Event>, p: nat)
    requires |items| < p <= |items| + |h|
  {
    |items| > 0 && items[p % |items|] == Cell(h[p - |items| - 1], p)
  }

  ghost predicate Tidy(items: seq<Item>, head: nat, tail: nat, i: nat)
    requires i < |items|
  {
    && items[i].pos % |items| == i
    && items[i].pos <= tail
    && (items[i].data.Some? ==> items[i].pos >= head)
  }

  /** The cell of the next position holds data exactly when the window is full. */
  lemma NextCell(items: seq<Item>, head: nat, tail: nat, h: seq<Event>)
    requires Window(items, head, tail, h)
    ensures items[(tail + 1) % |items|].data.Some? <==> tail + 1 - head == |items|
    ensures tail + 1 - head == |items| ==>
              items[(tail + 1) % |items|] == Cell(h[head - |items| - 1], head)
  {
    var n := |items|;
    var i := (tail + 1) % n;
    OneLap(tail + 1 - n, n);
    assert Tidy(items, head, tail, i);
    if items[i].data.Some? && items[i].pos != tail + 1 - n {
      SameCell(items[i].pos, tail + 1 - n, n);
    }
    if tail + 1 - head == n {
      assert Holds(items, h, head);
    }
  }

  /** Writing the next position keeps the shape; a full window loses its oldest event. */
  lemma WindowWrite(items: seq<Item>, head: nat, tail: nat, h: seq<Event>, e: Event)
    requires Window(items, head, tail, h)
    ensures Window(items[(tail + 1) % |items| := Cell(e, tail + 1)],
                   if tail + 1 - head == |items| then head + 1 else head, tail + 1, h + [e])
  {
    var n, idx := |items|, (tail + 1) % |items|;
    var items' := items[idx := Cell(e, tail + 1)];
    var head' := if tail + 1 - head == n then head + 1 else head;
    NextCell(items, head, tail, h);
    var tail', h' := tail + 1, h + [e];
    forall p | head' <= p <= tail'
      ensures Holds(items', h', p)
    {
      if p <= tail {
        assert Holds(items, h, p);
        if p % n == idx {
          SameCell(p, tail + 1, n);
        }
      }
    }
    forall i | 0 <= i < n
      ensures Tidy(items', head', tail', i)
    {
      assert Tidy(items, head, tail, i);
      if items[i].data.Some? && items[i].pos == head && head' > head {
        OneLap(head, n);
      }
    }
  }

  /** Emptying the oldest live cell keeps the shape. */
  lemma WindowDrop(items: seq<Item>, head: nat, tail: nat, h: seq<Event>)
    requires Window(items, head, tail, h) && head < tail
    ensures Window(items[head % |items| := items[head % |items|].(data := None)], head + 1, tail, h)
  {
    var n, idx := |items|, head % |items|;
    var items' := items[idx := items[idx].(data := None)];
    forall p | head + 1 <= p <= tail
      ensures Holds(items', h, p)
    {
      assert Holds(items, h, p);
      if p % n == idx {
        SameCell(p, head, n);
      }
    }
    var head' := head + 1;
    forall i | 0 <= i < n
      ensures Tidy(items', head', tail, i)
    {
      assert Tidy(items, head, tail, i);
    }
  }

  ghost predicate Numbered(h: seq<Event>, k: nat, journaled: bool)
    requires k < |h|
  {
    h[k].replayIndex.Some? <==> journaled
  }

  /** Event k carries a journal index below `bound`. */
  ghost predicate IndexBelow(h: seq<Event>, k: nat, bound: nat)
    requires k < |h|
  {
    h[k].replayIndex.Some? && h[k].replayIndex.value < bound
  }

  ghost predicate Ordered(h: seq<Event>, j: nat, k: nat)
    requires j < |h| && k < |h|
  {
    h[k].replayIndex.Some? && IndexBelow(h, j, h[k].replayIndex.value)
  }

  /** Journal indices increase along the stream, and the floor is above every evicted one. */
  ghost predicate Journal(h: seq<Event>, first: nat, floor: nat, epochFloor: nat, journaled: bool)
    requires first <= |h|
  {
    && (forall k :: 0 <= k < |h| ==> Numbered(h, k, journaled))
    && (journaled ==>
          && (forall j, k :: 0 <= j < k < |h| ==> Ordered(h, j, k))
          && (forall k :: 0 <= k < first ==> IndexBelow(h, k, floor))
          && (floor <= epochFloor || (first > 0 && IndexBelow(h, first - 1, floor)
                && !IndexBelow(h, first - 1, floor - 1))))
  }

  /** The journal index of a new event is above all earlier ones. */
  ghost predicate NextIndex(h: seq<Event>, index: Option<nat>, journaled: bool) {
    && (index.Some? <==> journaled)
    && (index.Some? ==> forall k :: 0 <= k < |h| ==> IndexBelow(h, k, index.value))
  }

  lemma JournalWrite(h: seq<Event>, e: Event, first: nat, first': nat, floor: nat, floor': nat, epochFloor: nat,
                     journaled: bool)
    requires first <= |h| && Journal(h, first, floor, epochFloor, journaled)
    requires NextIndex(h, e.replayIndex, journaled)
    requires if first' == first then floor' == floor
             else first < |h| && first' == first + 1
                  && (h[first].replayIndex.Some? ==> floor' == h[first].replayIndex.value + 1)
    ensures Journal(h + [e], first', floor', epochFloor, journaled)
  {
    var h' := h + [e];
    forall k | 0 <= k < |h'|
      ensures Numbered(h', k, journaled)
    {
      assert k < |h| ==> Numbered(h, k, journaled);
    }
    if journaled {
      forall j, k | 0 <= j < k < |h'|
        ensures Ordered(h', j, k)
      {
        if k < |h| {
          assert Ordered(h, j, k);
        } else {
          assert IndexBelow(h, j, e.replayIndex.value);
        }
      }
      forall k | 0 <= k < first'
        ensures IndexBelow(h', k, floor')
      {
        assert k < first ==> IndexBelow(h, k, floor);
        if k < first && first' > first {
          assert Ordered(h, k, first);
        }
        assert Numbered(h', k, journaled);
      }
      if first' > first {
        assert Numbered(h', first, journaled);
      }
    }
  }

  lemma JournalDrop(h: seq<Event>, first: nat, floor: nat, floor': nat, epochFloor: nat, journaled: bool)
    requires first < |h| && Journal(h, first, floor, epochFloor, journaled)
    requires h[first].replayIndex.Some? ==> floor' == h[first].replayIndex.value + 1
    ensures Journal(h, first + 1, floor', epochFloor, journaled)
  {
    if journaled {
      assert Numbered(h, first, journaled);
      forall k | 0 <= k < first + 1
        ensures IndexBelow(h, k, floor')
      {
        assert k < first ==> Ordered(h, k, first);
      }
    }
  }

  // ----- the window as a value -----

  /** The part of a ring that a write and an eviction touch. */
  datatype Core = Core(items: seq<Item>, head: nat, tail: nat, bytesTotal: nat, replayFloor: nat) {
    /** Position of the first event ever published. */
    ghost function Base(): nat {
      |items| + 1
    }

    /** Index in the history of the oldest live event. */
    ghost function First(): nat
      requires Base() <= head
    {
      head - Base()
    }

    /** What holds whenever no cell lock is held, even in the middle of a push. */
    ghost predicate Counted(h: seq<Event>, epochFloor: nat, journaled: bool) {
      && Window(items, head, tail, h)
      && bytesTotal == LiveBytes(h, First())
      && Journal(h, First(), replayFloor, epochFloor, journaled)
    }
  }

  function FloorAfter(item: Item, floor: nat): nat {
    if item.replayIndex.Some? then item.replayIndex.value + 1 else floor
  }

  /** Writing position `tail + 1`: takes the place of the oldest event when the ring is full. */
  function Wrote(r: Core, e: Event): Core
    requires |r.items| > 0
    requires var item := r.items[(r.tail + 1) % |r.items|];
      item.data.Some? ==> item.data.value.size <= r.bytesTotal + e.message.size
  {
    var tail := r.tail + 1;
    var idx := tail % |r.items|;
    var item := r.items[idx];
    var written := r.(tail := tail, items := r.items[idx := Cell(e, tail)]);
    if item.data.Some? then
      written.(head := r.head + 1, replayFloor := FloorAfter(item, r.replayFloor),
               bytesTotal := r.bytesTotal + e.message.size - item.data.value.size)
    else
      written.(bytesTotal := r.bytesTotal + e.message.size)
  }

  /** Emptying the oldest live cell. */
  function Dropped(r: Core): Core
    requires CanDrop(r)
  {
    var idx := r.head % |r.items|;
    var item := r.items[idx];
    r.(items := r.items[idx := item.(data := None)], head := r.head + 1,
       replayFloor := FloorAfter(item, r.replayFloor), bytesTotal := r.bytesTotal - item.data.value.size)
  }

  /** There is something to remove: the source panics otherwise. */
  predicate CanDrop(r: Core) {
    && |r.items| > 0
    && var item := r.items[r.head % |r.items|];
       item.data.Some? && item.data.value.size <= r.bytesTotal
  }

  lemma CountedWrote(r: Core, h: seq<Event>, epochFloor: nat, e: Event, journaled: bool)
    requires r.Counted(h, epochFloor, journaled) && NextIndex(h, e.replayIndex, journaled)
    ensures Wrote.requires(r, e)
    ensures Wrote(r, e).Counted(h + [e], epochFloor, journaled)
    ensures Wrote(r, e).First() == r.First() + (if r.tail + 1 - r.head == |r.items| then 1 else 0)
    ensures r.tail + 1 - r.head == |r.items| ==>
              r.items[(r.tail + 1) % |r.items|].slot == h[r.First()].slot
    ensures r.items[(r.tail + 1) % |r.items|].data.Some? <==> r.tail + 1 - r.head == |r.items|
  {
    NextCell(r.items, r.head, r.tail, h);
    WindowWrite(r.items, r.head, r.tail, h, e);
    LiveBytesAppend(h, e, r.First());
    JournalWrite(h, e, r.First(), Wrote(r, e).First(), r.replayFloor, Wrote(r, e).replayFloor, epochFloor, journaled);
  }

  lemma CountedDropped(r: Core, h: seq<Event>, epochFloor: nat, journaled: bool)
    requires r.Counted(h, epochFloor, journaled) && r.head < r.tail
    ensures CanDrop(r)
    ensures Dropped(r).Counted(h, epochFloor, journaled)
    ensures r.items[r.head % |r.items|].slot == h[r.First()].slot
  {
    assert Holds(r.items, h, r.head);
    WindowDrop(r.items, r.head, r.tail, h);
    JournalDrop(h, r.First(), r.replayFloor, Dropped(r).replayFloor, epochFloor, journaled);
  }


  /** The cells of a ring together with its window, mutated in place. */
  class Buffer {
    const items: array<Item>
    var head: nat
    var tail: nat
    var bytesTotal: nat
    var replayFloor: nat

    ghost function View(): Core
      reads this, items
    {
      Core(items[..], head, tail, bytesTotal, replayFloor)
    }

    constructor (maxMessages: nat, replayFloor: nat)
      requires maxMessages > 0
      ensures fresh(items) && items.Length == maxMessages
      ensures head == maxMessages + 1 && tail == maxMessages && this.replayFloor == replayFloor
      ensures forall epochFloor, journaled :: replayFloor <= epochFloor ==> View().Counted([], epochFloor, journaled)
    {
      items := new Item[maxMessages](i requires 0 <= i => Item(None, i, 0, None));
      head, tail := maxMessages + 1, maxMessages;
      bytesTotal := 0;
      this.replayFloor := replayFloor;
      new;
      forall i | 0 <= i < items.Length
        ensures Tidy(items[..], head, tail, i)
      {
        LapRemainder(items.Length, 0, i);
      }
    }

    /** Writing position `tail + 1`: takes the place of the oldest event when the ring is full. */
    method WriteNewest(e: Event, ghost h: seq<Event>, ghost epochFloor: nat,
                       ghost journaled: bool) returns (removed: Option<Slot>)
      requires View().Counted(h, epochFloor, journaled) && NextIndex(h, e.replayIndex, journaled)
      modifies this, items
      ensures View().Counted(h + [e], epochFloor, journaled)
      ensures head == old(head) + if old(tail + 1 - head) == items.Length then 1 else 0
      ensures removed == MaxIn(h + [e], old(View()).First(), View().First())
    {
      ghost var r := View();
      CountedWrote(r, h, epochFloor, e, journaled);
      tail := tail + 1;
      bytesTotal := bytesTotal + e.message.size;
      var idx := tail % items.Length;
      var item := items[idx];
      assert item == r.items[idx];
      removed := None;
      if item.data.Some? {
        head := head + 1;
        bytesTotal := bytesTotal - item.data.value.size;
        removed := Some(item.slot);
        if item.replayIndex.Some? {
          replayFloor := item.replayIndex.value + 1;
        }
      }
      items[idx] := Item(e.replayIndex, tail, e.slot, Some(e.message));
      assert View() == Wrote(r, e) by {
        assert items[..] == r.items[idx := Cell(e, tail)];
      }
    }

    /** Dropping the oldest event to respect the byte limit. */
    method DropOldest(ghost h: seq<Event>, ghost epochFloor: nat, ghost journaled: bool) returns (removed: Slot)
      requires View().Counted(h, epochFloor, journaled) && head < tail
      modifies this, items
      ensures View().Counted(h, epochFloor, journaled) && tail == old(tail)
      ensures head == old(head) + 1
      ensures removed == h[old(View()).First()].slot
    {
      ghost var r := View();
      CountedDropped(r, h, epochFloor, journaled);
      var idx := head % items.Length;
      var item := items[idx];
      assert item == r.items[idx];
      items[idx] := item.(data := None);
      head := head + 1;
      bytesTotal := bytesTotal - item.data.value.size;
      if item.replayIndex.Some? {
        replayFloor := item.replayIndex.value + 1;
      }
      removed := item.slot;
      assert View() == Dropped(r) by {
        assert items[..] == r.items[idx := item.(data := None)];
      }
    }

    /** The byte-limit loop of a push; `before` is the slot evicted by the write, if any. */
    method DropByBytes(bytesMax: nat, before: Option<Slot>, ghost from: nat, ghost h: seq<Event>,
                       ghost epochFloor: nat, ghost journaled: bool)
      returns (removed: Option<Slot>)
      requires View().Counted(h, epochFloor, journaled) && head <= tail
      requires from <= View().First() && before == MaxIn(h, from, View().First())
      modifies this, items
      ensures View().Counted(h, epochFloor, journaled) && head <= tail
      ensures View().First() == Retained(h, old(View()).First(), items.Length, bytesMax)
      ensures from <= View().First() && removed == MaxIn(h, from, View().First())
    {
      removed := before;
      ghost var first := View().First();
      while bytesTotal >= bytesMax && head < tail
        invariant View().Counted(h, epochFloor, journaled)
        invariant first <= View().First() && head <= tail
        invariant removed == MaxIn(h, from, View().First())
        invariant Retained(h, first, items.Length, bytesMax) == Retained(h, View().First(), items.Length, bytesMax)
        decreases tail - head
      {
        var dropped := DropOldest(h, epochFloor, journaled);
        removed := Some(if removed.Some? && removed.value > dropped then removed.value else dropped);
      }
    }

    /** Everything a push does to the buffer: write, then evict by bytes. */
    method Append(e: Event, bytesMax: nat, ghost h: seq<Event>, ghost epochFloor: nat, ghost journaled: bool)
      returns (removed: Option<Slot>)
      requires View().Counted(h, epochFloor, journaled) && NextIndex(h, e.replayIndex, journaled)
      modifies this, items
      ensures View().Counted(h + [e], epochFloor, journaled) && tail == old(tail) + 1
      ensures View().First() == Retained(h + [e], old(View()).First(), items.Length, bytesMax)
      ensures old(View()).First() <= View().First() < |h + [e]|
      ensures Fits(h + [e], View().First(), items.Length, bytesMax)
      ensures removed == MaxIn(h + [e], old(View()).First(), View().First())
    {
      ghost var first, h' := View().First(), h + [e];
      var evicted := WriteNewest(e, h, epochFloor, journaled);
      RetainedOverflow(h', first, items.Length, bytesMax);
      removed := DropByBytes(bytesMax, evicted, first, h', epochFloor, journaled);
    }
  }
}
