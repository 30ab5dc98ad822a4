/** The plugin's broadcast ring, `plugin-agave/src/channel.rs`: `Sender::push`, `push_msg` and
    `subscribe`, including the back-fill of missed slot statuses along parent links. */
module PluginRing {
  import opened Basics
  import opened RingCore

  datatype Status = Processed | Confirmed | Rooted | OtherStatus

  /** A message to broadcast; `size` is the length of its encoding. */
  datatype PluginMessage =
    | SlotUpdate(slot: Slot, parent: Option<Slot>, status: Status, size: nat)
    | Other(kind: MessageKind, inSlot: Option<Slot>, size: nat, payload: nat)

  datatype SlotInfo = SlotInfo(head: nat, parentSlot: Option<Slot>, confirmed: bool, finalized: bool) {
    predicate Lacks(status: Status) {
      (status == Confirmed && !confirmed) || (status == Rooted && !finalized)
    }
  }

  datatype Subscription = At(next: nat) | SlotNotAvailable(firstAvailable: Slot) | NotInitialized

  type Slots = map<Slot, SlotInfo>

  // ----- the slot map -----

  /** Slot under which a message is filed: contact info goes with the latest known slot. */
  function SlotOf(slots: Slots, m: PluginMessage): Slot {
    match m
    case SlotUpdate(slot, _, _, _) => slot
    case Other(_, inSlot, _, _) =>
      if inSlot.Some? then inSlot.value else if slots == map[] then 0 else Greatest(slots.Keys)
  }

  predicate HasSlot(m: PluginMessage) {
    m.SlotUpdate? || m.inSlot.Some?
  }

  /** The entry of the message's slot, created at `head` if missing, updated by a status. */
  function EntryFor(slots: Slots, m: PluginMessage, head: nat): SlotInfo
    requires HasSlot(m)
  {
    var slot := SlotOf(slots, m);
    var entry := if slot in slots then slots[slot] else SlotInfo(head, None, false, false);
    if m.SlotUpdate? then
      SlotInfo(entry.head, if m.parent.Some? then m.parent else entry.parentSlot,
               entry.confirmed || m.status == Confirmed, entry.finalized || m.status == Rooted)
    else entry
  }

  function Entered(slots: Slots, m: PluginMessage, head: nat): Slots {
    if HasSlot(m) then slots[SlotOf(slots, m) := EntryFor(slots, m, head)] else slots
  }

  /** Slots that lost an event are no longer advertised. */
  function Pruned(slots: Slots, removed: Option<Slot>): Slots {
    if removed.None? then slots else map s | s in slots && s > removed.value :: slots[s]
  }

  function StatusCode(status: Status): nat {
    match status
    case Processed => 0
    case Confirmed => 1
    case Rooted => 2
    case OtherStatus => 3
  }

  /** What a receiver gets: the kind, the size and the contents, of which a status is its status. */
  function MessageOf(m: PluginMessage): Message {
    if m.SlotUpdate? then Message(SlotStatus, m.size, StatusCode(m.status)) else Message(m.kind, m.size, m.payload)
  }

  function EventOf(slots: Slots, m: PluginMessage): Event {
    Event(SlotOf(slots, m), MessageOf(m), None)
  }

  /** The event carries the message, under its slot if it has one. */
  predicate IsEventOf(e: Event, m: PluginMessage) {
    && e.message.size == m.size && e.replayIndex.None?
    && (m.SlotUpdate? ==>
          e.slot == m.slot && e.message.kind == SlotStatus && e.message.payload == StatusCode(m.status))
    && (m.Other? ==> e.message.kind == m.kind && e.message.payload == m.payload)
    && (m.Other? && m.inSlot.Some? ==> e.slot == m.inSlot.value)
  }

  /** A status can be told from the event that carries it. */
  lemma StatusIsTold(a: Status, b: Status)
    requires StatusCode(a) == StatusCode(b)
    ensures a == b
  {
  }

  /** The advertised head of slot `s` is the position of a live event of `s`. */
  ghost predicate HeadIsLive(slots: Slots, core: Core, h: seq<Event>, s: Slot) {
    s in slots ==>
      && core.Base() <= core.head <= slots[s].head < core.Base() + |h|
      && h[slots[s].head - core.Base()].slot == s
  }

  /** Parent links lead to strictly older slots. */
  ghost predicate ParentBelow(slots: Slots, s: Slot) {
    s in slots && slots[s].parentSlot.Some? ==> slots[s].parentSlot.value < s
  }

  ghost predicate ParentsBelow(slots: Slots) {
    forall s :: ParentBelow(slots, s)
  }

  /** The fields of the plugin's `State`, with the cells of its buffer. */
  datatype Plugin = Plugin(core: Core, slots: Slots) {
    ghost predicate Valid(h: seq<Event>, bytesMax: nat) {
      && core.Counted(h, 0, false)
      && (h != [] ==> Fits(h, core.First(), |core.items|, bytesMax))
      && (forall s :: HeadIsLive(slots, core, h, s))
    }
  }

  predicate ParentIsOlder(m: PluginMessage) {
    m.SlotUpdate? && m.parent.Some? ==> m.parent.value < m.slot
  }

  /** Publishing one message keeps every advertised head live, whatever was evicted for it. */
  lemma PushMsgKeeps(p: Plugin, h: seq<Event>, bytesMax: nat, m: PluginMessage, core: Core, removed: Option<Slot>)
    requires p.Valid(h, bytesMax)
    requires var h' := h + [EventOf(p.slots, m)];
      && |core.items| == |p.core.items| && core.Counted(h', 0, false)
      && p.core.First() <= core.First() < |h'|
      && Fits(h', core.First(), |core.items|, bytesMax)
      && removed == MaxIn(h', p.core.First(), core.First())
    ensures Plugin(core, Pruned(Entered(p.slots, m, core.tail), removed)).Valid(h + [EventOf(p.slots, m)], bytesMax)
  {
    var h' := h + [EventOf(p.slots, m)];
    var slots' := Pruned(Entered(p.slots, m, core.tail), removed);
    forall s: Slot
      ensures HeadIsLive(slots', core, h', s)
    {
      assert HeadIsLive(p.slots, p.core, h, s);
      if s in slots' && s in p.slots && p.slots[s].head < core.head {
        MaxInBounds(h', p.core.First(), core.First(), p.slots[s].head - core.Base());
      }
    }
  }

  /** Messages whose parents are older keep all parent links leading to older slots. */
  lemma ParentsStayBelow(slots: Slots, m: PluginMessage, head: nat, removed: Option<Slot>)
    requires ParentsBelow(slots) && ParentIsOlder(m)
    ensures ParentsBelow(Pruned(Entered(slots, m, head), removed))
  {
    forall s: Slot
      ensures ParentBelow(Pruned(Entered(slots, m, head), removed), s)
    {
      assert ParentBelow(slots, s);
    }
  }

  // ----- the slot map after a push, field by field -----

  /** The slot that a message is filed under by itself. */
  function OwnSlot(m: PluginMessage): Option<Slot> {
    match m
    case SlotUpdate(slot, _, _, _) => Some(slot)
    case Other(_, inSlot, _, _) => inSlot
  }

  /** Advertised afterwards are the slots that were, and that of the message, unless an event of the slot or of a
      later one was evicted. */
  ghost predicate SlotStays(slots: Slots, slots': Slots, m: PluginMessage, evicted: seq<Event>, s: Slot) {
    s in slots' <==>
      (s in slots || OwnSlot(m) == Some(s)) && forall k :: 0 <= k < |evicted| ==> evicted[k].slot < s
  }

  /** What a push does to the fields of a slot that is advertised afterwards: the head stays, or is the position just
      written if the slot is new; parent and flags change only by a status of the slot. */
  predicate FieldsAre(slots: Slots, slots': Slots, m: PluginMessage, pos: nat, s: Slot) {
    s in slots' ==>
      var told := m.SlotUpdate? && m.slot == s;
      && slots'[s].head == (if s in slots then slots[s].head else pos)
      && slots'[s].parentSlot == (if told && m.parent.Some? then m.parent
                                  else if s in slots then slots[s].parentSlot else None)
      && (slots'[s].confirmed <==> (s in slots && slots[s].confirmed) || (told && m.status == Confirmed))
      && (slots'[s].finalized <==> (s in slots && slots[s].finalized) || (told && m.status == Rooted))
  }

  lemma PushFields(slots: Slots, m: PluginMessage, pos: nat, h: seq<Event>, from: nat, to: nat, s: Slot)
    requires from <= to <= |h|
    ensures var slots' := Pruned(Entered(slots, m, pos), MaxIn(h, from, to));
      SlotStays(slots, slots', m, h[from..to], s) && FieldsAre(slots, slots', m, pos, s)
  {
    hide MaxIn;
    var evicted := h[from..to];
    if from < to {
      var one := MaxInIsOne(h, from, to);
      assert evicted[one - from].slot == MaxIn(h, from, to).value;
      forall k | 0 <= k < |evicted|
        ensures evicted[k].slot <= MaxIn(h, from, to).value
      {
        MaxInBounds(h, from, to, from + k);
      }
    }
  }

  /** After `absent` events the slot was not advertised, and since then it is: its head is its first event since. */
  ghost predicate HeadIsFirst(slots: Slots, h: seq<Event>, base: nat, absent: nat, s: Slot) {
    && absent <= |h|
    && (s !in slots ==> absent == |h|)
    && (s in slots ==>
          && base + absent <= slots[s].head < base + |h|
          && h[slots[s].head - base].slot == s
          && forall k :: absent <= k < slots[s].head - base ==> h[k].slot != s)
  }

  /** When each slot was last not advertised. */
  ghost function AbsentAfter(slots: Slots, absent: Slot -> nat, n: nat): Slot -> nat {
    s => if s in slots then absent(s) else n
  }

  lemma HeadStaysFirst(slots: Slots, slots': Slots, m: PluginMessage, h: seq<Event>, h': seq<Event>, base: nat,
                       absent: Slot -> nat, evicted: seq<Event>, s: Slot)
    requires |h'| == |h| + 1 && h'[..|h|] == h
    requires OwnSlot(m).Some? ==> h'[|h|].slot == OwnSlot(m).value
    requires HeadIsFirst(slots, h, base, absent(s), s)
    requires SlotStays(slots, slots', m, evicted, s) && FieldsAre(slots, slots', m, base + |h|, s)
    ensures HeadIsFirst(slots', h', base, AbsentAfter(slots', absent, |h'|)(s), s)
  {
    assert forall k :: 0 <= k < |h| ==> h'[k] == h[k];
  }

  lemma PushSlots(slots: Slots, slots': Slots, m: PluginMessage, h: seq<Event>, base: nat, absent: Slot -> nat,
                  from: nat, to: nat, pos: nat)
    requires from <= to <= |h| + 1 && pos == base + |h|
    requires var h' := h + [EventOf(slots, m)]; slots' == Pruned(Entered(slots, m, pos), MaxIn(h', from, to))
    requires forall s :: HeadIsFirst(slots, h, base, absent(s), s)
    ensures var h' := h + [EventOf(slots, m)];
      && (forall s :: SlotStays(slots, slots', m, h'[from..to], s))
      && (forall s :: FieldsAre(slots, slots', m, pos, s))
      && (forall s :: HeadIsFirst(slots', h', base, AbsentAfter(slots', absent, |h'|)(s), s))
  {
    hide Entered, Pruned, MaxIn, MessageOf, SlotStays, FieldsAre, HeadIsFirst;
    var h' := h + [EventOf(slots, m)];
    forall s: Slot
      ensures SlotStays(slots, slots', m, h'[from..to], s) && FieldsAre(slots, slots', m, pos, s)
      ensures HeadIsFirst(slots', h', base, AbsentAfter(slots', absent, |h'|)(s), s)
    {
      PushFields(slots, m, pos, h', from, to, s);
      HeadStaysFirst(slots, slots', m, h, h', base, absent, h'[from..to], s);
    }
  }

  // ----- missed statuses -----

  /** Parent of `slot` when it is known and lacks the status. */
  function MissedParent(slots: Slots, slot: Slot, status: Status): Option<Slot> {
    if slot in slots && slots[slot].parentSlot.Some?
       && slots[slot].parentSlot.value in slots && slots[slots[slot].parentSlot.value].Lacks(status)
    then slots[slot].parentSlot
    else None
  }

  /** The first `n` steps of the walk along missed parents. */
  function WalkFrom(slots: Slots, slot: Slot, status: Status, n: nat): (r: seq<Slot>)
    ensures |r| <= n
    decreases n
  {
    var parent := MissedParent(slots, slot, status);
    if n == 0 || parent.None? then [] else [parent.value] + WalkFrom(slots, parent.value, status, n - 1)
  }

  /** The ancestors to back-fill, nearest first: a walk that ends has at most as many steps as there are slots. */
  function Missed(slots: Slots, slot: Slot, status: Status): seq<Slot> {
    WalkFrom(slots, slot, status, |slots|)
  }

  /** Every step of the walk goes to the missed parent of the slot before it. */
  ghost predicate Walk(slots: Slots, slot: Slot, status: Status, chain: seq<Slot>) {
    forall i :: 0 <= i < |chain| ==> Linked(slots, slot, status, chain, i)
  }

  ghost predicate Linked(slots: Slots, slot: Slot, status: Status, chain: seq<Slot>, i: nat)
    requires i < |chain|
  {
    HasMissed(slots, Before(slot, chain, i), chain[i], status)
  }

  /** The parent link of `slot` leads to a known slot that has not had the status yet. */
  predicate HasMissed(slots: Slots, slot: Slot, parent: Slot, status: Status) {
    && slot in slots && slots[slot].parentSlot == Some(parent) && parent in slots
    && ((status == Confirmed && !slots[parent].confirmed) || (status == Rooted && !slots[parent].finalized))
  }

  /** The slot from which step `i` of a walk starts. */
  function Before(slot: Slot, chain: seq<Slot>, i: nat): Slot
    requires i <= |chain|
  {
    if i == 0 then slot else chain[i - 1]
  }

  ghost predicate Distinct(chain: seq<Slot>) {
    forall i, j :: 0 <= i < j < |chain| ==> chain[i] != chain[j]
  }

  /** No walk visits a slot twice. */
  ghost predicate Ends(slots: Slots, slot: Slot, status: Status) {
    forall chain :: Walk(slots, slot, status, chain) ==> Distinct(chain)
  }

  ghost predicate AtMostSteps(slots: Slots, slot: Slot, status: Status, n: nat) {
    forall chain :: Walk(slots, slot, status, chain) ==> |chain| <= n
  }

  lemma {:induction false} WalkFromIsWalk(slots: Slots, slot: Slot, status: Status, n: nat)
    ensures var chain := WalkFrom(slots, slot, status, n);
      && Walk(slots, slot, status, chain)
      && (|chain| < n ==> MissedParent(slots, Before(slot, chain, |chain|), status) == None)
    decreases n
  {
    var parent := MissedParent(slots, slot, status);
    if n > 0 && parent.Some? {
      WalkFromIsWalk(slots, parent.value, status, n - 1);
      var rest, chain := WalkFrom(slots, parent.value, status, n - 1), WalkFrom(slots, slot, status, n);
      forall i | 0 <= i < |chain|
        ensures Linked(slots, slot, status, chain, i)
      {
        if i > 0 {
          assert Linked(slots, parent.value, status, rest, i - 1);
        }
      }
    }
  }

  /** There is only one walk of each length. */
  lemma {:induction false} WalkIsUnique(slots: Slots, slot: Slot, status: Status, chain: seq<Slot>, n: nat)
    requires Walk(slots, slot, status, chain) && |chain| <= n
    ensures chain <= WalkFrom(slots, slot, status, n)
    decreases |chain|
  {
    if chain != [] {
      assert Linked(slots, slot, status, chain, 0);
      var rest := chain[1..];
      forall i | 0 <= i < |rest|
        ensures Linked(slots, chain[0], status, rest, i)
      {
        assert Linked(slots, slot, status, chain, i + 1);
      }
      WalkIsUnique(slots, chain[0], status, rest, n - 1);
      assert chain == [chain[0]] + rest;
    }
  }

  lemma {:induction false} WalkTail(slots: Slots, slot: Slot, status: Status, n: nat, i: nat)
    requires i < |WalkFrom(slots, slot, status, n)|
    ensures var chain := WalkFrom(slots, slot, status, n);
      chain[i + 1..] == WalkFrom(slots, chain[i], status, n - i - 1)
    decreases i
  {
    var parent := MissedParent(slots, slot, status).value;
    if i > 0 {
      WalkTail(slots, parent, status, n - 1, i - 1);
      var chain, rest := WalkFrom(slots, slot, status, n), WalkFrom(slots, parent, status, n - 1);
      assert chain[i + 1..] == rest[i..];
    }
  }

  /** A walk that ended does not go on. */
  lemma {:induction false} EndedStays(slots: Slots, slot: Slot, status: Status, n: nat, more: nat)
    requires |WalkFrom(slots, slot, status, n)| < n <= more
    ensures WalkFrom(slots, slot, status, more) == WalkFrom(slots, slot, status, n)
    decreases n
  {
    var parent := MissedParent(slots, slot, status);
    if parent.Some? {
      EndedStays(slots, parent.value, status, n - 1, more - 1);
    }
  }

  lemma {:induction false} DistinctIsShort(chain: seq<Slot>, keys: set<Slot>)
    requires Distinct(chain) && forall i :: 0 <= i < |chain| ==> chain[i] in keys
    ensures |chain| <= |keys|
  {
    if chain != [] {
      var rest := chain[1..];
      assert forall i :: 0 <= i < |rest| ==> rest[i] in keys - {chain[0]};
      DistinctIsShort(rest, keys - {chain[0]});
    }
  }

  /** A walk without repetition is no longer than the slot map. */
  lemma EndsIsShort(slots: Slots, slot: Slot, status: Status, chain: seq<Slot>)
    requires Walk(slots, slot, status, chain) && Distinct(chain)
    ensures |chain| <= |slots|
  {
    forall i | 0 <= i < |chain|
      ensures chain[i] in slots.Keys
    {
      assert Linked(slots, slot, status, chain, i);
    }
    DistinctIsShort(chain, slots.Keys);
  }

  /** The walk ends, that is, the length of the walks is bounded, if and only if no walk visits a slot twice. */
  lemma WalkEndsIff(slots: Slots, slot: Slot, status: Status)
    ensures (exists n :: AtMostSteps(slots, slot, status, n)) <==> Ends(slots, slot, status)
  {
    if Ends(slots, slot, status) {
      forall chain | Walk(slots, slot, status, chain)
        ensures |chain| <= |slots|
      {
        EndsIsShort(slots, slot, status, chain);
      }
      assert AtMostSteps(slots, slot, status, |slots|);
    }
    if n: nat :| AtMostSteps(slots, slot, status, n) {
      forall chain | Walk(slots, slot, status, chain)
        ensures Distinct(chain)
      {
        forall i, j | 0 <= i < j < |chain|
          ensures chain[i] != chain[j]
        {
          NoReturn(slots, slot, status, n, chain, i, j);
        }
      }
    }
  }

  /** Where walks have bounded length, a walk never comes back to a slot: what follows it would have to follow
      it again. */
  lemma NoReturn(slots: Slots, slot: Slot, status: Status, n: nat, chain: seq<Slot>, i: nat, j: nat)
    requires AtMostSteps(slots, slot, status, n) && Walk(slots, slot, status, chain) && i <= j < |chain|
    ensures chain[i] == chain[j] ==> i == j
  {
    hide Walk, MissedParent;
    var all := WalkFrom(slots, slot, status, n + 1);
    WalkFromIsWalk(slots, slot, status, n + 1);
    WalkIsUnique(slots, slot, status, chain, n + 1);
    TailLengths(slots, slot, status, n + 1, i, j);
  }

  lemma TailLengths(slots: Slots, slot: Slot, status: Status, n: nat, i: nat, j: nat)
    requires |WalkFrom(slots, slot, status, n)| < n && i <= j < |WalkFrom(slots, slot, status, n)|
    ensures var all := WalkFrom(slots, slot, status, n); all[i] == all[j] ==> i == j
  {
    hide WalkFrom;
    var all := WalkFrom(slots, slot, status, n);
    WalkTail(slots, slot, status, n, i);
    WalkTail(slots, slot, status, n, j);
    assert |all[i + 1..]| == |all| - i - 1 && |all[j + 1..]| == |all| - j - 1;
    EndedStays(slots, all[j], status, n - j - 1, n - i - 1);
  }

  /** `Missed` is the one maximal walk, whenever the walk ends. */
  lemma MissedIsMaximal(slots: Slots, slot: Slot, status: Status)
    requires Ends(slots, slot, status)
    ensures var chain := Missed(slots, slot, status);
      && Walk(slots, slot, status, chain) && Distinct(chain)
      && forall p :: !HasMissed(slots, Before(slot, chain, |chain|), p, status)
  {
    var chain := Missed(slots, slot, status);
    WalkFromIsWalk(slots, slot, status, |slots|);
    var parent := MissedParent(slots, Before(slot, chain, |chain|), status);
    if parent.Some? {
      var longer := chain + [parent.value];
      WalkExtends(slots, slot, status, chain, parent.value);
      EndsIsShort(slots, slot, status, longer);
    }
  }

  lemma WalkExtends(slots: Slots, slot: Slot, status: Status, chain: seq<Slot>, parent: Slot)
    requires Walk(slots, slot, status, chain)
    requires MissedParent(slots, Before(slot, chain, |chain|), status) == Some(parent)
    ensures Walk(slots, slot, status, chain + [parent])
  {
    forall i | 0 <= i < |chain| + 1
      ensures Linked(slots, slot, status, chain + [parent], i)
    {
      assert i < |chain| ==> Linked(slots, slot, status, chain, i);
    }
  }

  /** Any walk is a prefix of `Missed`: nothing else could have been back-filled. */
  lemma WalksArePrefixes(slots: Slots, slot: Slot, status: Status, chain: seq<Slot>)
    requires Ends(slots, slot, status) && Walk(slots, slot, status, chain)
    ensures chain <= Missed(slots, slot, status)
  {
    EndsIsShort(slots, slot, status, chain);
    WalkIsUnique(slots, slot, status, chain, |slots|);
  }

  /** A walk that cannot go on is `Missed`. */
  lemma EndedIsMissed(slots: Slots, slot: Slot, status: Status, chain: seq<Slot>)
    requires Ends(slots, slot, status) && Walk(slots, slot, status, chain)
    requires MissedParent(slots, Before(slot, chain, |chain|), status) == None
    ensures chain == Missed(slots, slot, status)
  {
    var missed := Missed(slots, slot, status);
    WalksArePrefixes(slots, slot, status, chain);
    MissedIsMaximal(slots, slot, status);
    assert |chain| == |missed| || Linked(slots, slot, status, missed, |chain|);
  }

  /** Older parents make every walk end, and go to older and older slots. */
  lemma OlderParentsEnd(slots: Slots, slot: Slot, status: Status)
    requires ParentsBelow(slots)
    ensures Ends(slots, slot, status)
    ensures var chain := Missed(slots, slot, status);
      Descending(chain) && forall i :: 0 <= i < |chain| ==> chain[i] < slot
  {
    forall chain | Walk(slots, slot, status, chain)
      ensures Descending(chain) && forall i :: 0 <= i < |chain| ==> chain[i] < slot
    {
      forall j | 0 <= j < |chain|
        ensures chain[j] < slot && forall i :: 0 <= i < j ==> chain[j] < chain[i]
      {
        WalkDescends(slots, slot, status, chain, j);
      }
    }
    WalkFromIsWalk(slots, slot, status, |slots|);
  }

  ghost predicate Descending(chain: seq<Slot>) {
    forall i, j :: 0 <= i < j < |chain| ==> chain[j] < chain[i]
  }

  lemma {:induction false} WalkDescends(slots: Slots, slot: Slot, status: Status, chain: seq<Slot>, j: nat)
    requires ParentsBelow(slots) && Walk(slots, slot, status, chain) && j < |chain|
    ensures chain[j] < slot && forall i :: 0 <= i < j ==> chain[j] < chain[i]
  {
    assert Linked(slots, slot, status, chain, j) && ParentBelow(slots, Before(slot, chain, j));
    if j > 0 {
      WalkDescends(slots, slot, status, chain, j - 1);
    }
  }

  /** The walk of a slot that is its own parent and lacks the status has no end; one status that names the
      slot as its own parent is enough to get there. */
  lemma SelfParentNeverEnds(s: Slot, head: nat, size: nat)
    ensures var slots := Entered(map[], SlotUpdate(s, Some(s), Processed, size), head);
      !Ends(slots, s, Confirmed)
  {
    var slots := Entered(map[], SlotUpdate(s, Some(s), Processed, size), head);
    var chain := [s, s];
    forall i | 0 <= i < |chain|
      ensures Linked(slots, s, Confirmed, chain, i)
    {
    }
    assert Walk(slots, s, Confirmed, chain) && chain[0] == chain[1];
  }

  /** The status message that back-fills slot `s`. */
  function StatusOf(slots: Slots, s: Slot, status: Status, sizes: Slot -> nat): PluginMessage {
    SlotUpdate(s, if s in slots then slots[s].parentSlot else None, status, sizes(s))
  }

  function Statuses(slots: Slots, chain: seq<Slot>, status: Status, sizes: Slot -> nat): seq<PluginMessage> {
    seq(|chain|, i requires 0 <= i < |chain| => StatusOf(slots, chain[i], status, sizes))
  }

  /** The messages of one push, in the order in which they are published: the same status for each ancestor that
      missed it, with the parent that is known of it, the oldest ancestor first; then the message itself. */
  ghost predicate IsBackfill(slots: Slots, m: PluginMessage, sizes: Slot -> nat, batch: seq<PluginMessage>) {
    var chain := if m.SlotUpdate? then Missed(slots, m.slot, m.status) else [];
    && |batch| == |chain| + 1 && batch[|chain|] == m
    && forall i :: 0 <= i < |chain| ==> IsBackfillOf(slots, m, sizes, batch[i], chain[|chain| - 1 - i])
  }

  predicate IsBackfillOf(slots: Slots, m: PluginMessage, sizes: Slot -> nat, b: PluginMessage, s: Slot) {
    m.SlotUpdate? && s in slots && b == SlotUpdate(s, slots[s].parentSlot, m.status, sizes(s))
  }

  lemma {:induction false} ReversedAt<T>(s: seq<T>, i: nat)
    requires i < |s|
    ensures |Reversed(s)| == |s| && Reversed(s)[i] == s[|s| - 1 - i]
  {
    if |s| > 1 {
      ReversedAt(s[1..], if i < |s| - 1 then i else 0);
    }
  }

  lemma CollectedIsBackfill(slots: Slots, m: PluginMessage, sizes: Slot -> nat)
    ensures IsBackfill(slots, m, sizes, Reversed(Collected(slots, m, sizes)))
  {
    var messages := Collected(slots, m, sizes);
    var chain := if m.SlotUpdate? then Missed(slots, m.slot, m.status) else [];
    ReversedAt(messages, |chain|);
    if m.SlotUpdate? {
      WalkFromIsWalk(slots, m.slot, m.status, |slots|);
    }
    forall i | 0 <= i < |chain|
      ensures IsBackfillOf(slots, m, sizes, Reversed(messages)[i], chain[|chain| - 1 - i])
    {
      ReversedAt(messages, i);
      assert Linked(slots, m.slot, m.status, chain, |chain| - 1 - i);
    }
  }

  lemma StatusesOfNone(slots: Slots, status: Status, sizes: Slot -> nat)
    ensures Statuses(slots, [], status, sizes) == []
  {
  }

  lemma StatusesGrow(slots: Slots, chain: seq<Slot>, s: Slot, status: Status, sizes: Slot -> nat)
    ensures Statuses(slots, chain + [s], status, sizes) ==
          Statuses(slots, chain, status, sizes) + [StatusOf(slots, s, status, sizes)]
  {
  }

  function Reversed<T>(s: seq<T>): seq<T> {
    if s == [] then [] else Reversed(s[1..]) + [s[0]]
  }

  /** The messages of one push: the message itself and, for a status, its back-fill, nearest first. */
  function Collected(slots: Slots, m: PluginMessage, sizes: Slot -> nat): seq<PluginMessage> {
    [m] + if m.SlotUpdate? then Statuses(slots, Missed(slots, m.slot, m.status), m.status, sizes) else []
  }

  ghost predicate Flagged(slots: Slots, s: Slot, status: Status) {
    s in slots ==> (status == Confirmed ==> slots[s].confirmed) && (status == Rooted ==> slots[s].finalized)
  }

  /** All messages of a batch are the same status, or there is only one message. */
  ghost predicate OneStatus(messages: seq<PluginMessage>, i: nat)
    requires i < |messages|
  {
    |messages| > 1 ==> messages[i].SlotUpdate? && messages[0].SlotUpdate? && messages[i].status == messages[0].status
  }

  ghost predicate FlaggedFor(slots: Slots, messages: seq<PluginMessage>, j: nat)
    requires j < |messages|
  {
    messages[j].SlotUpdate? ==> Flagged(slots, messages[j].slot, messages[j].status)
  }

  lemma TailIs(p: Plugin, h: seq<Event>, bytesMax: nat)
    requires p.Valid(h, bytesMax)
    ensures p.core.tail + 1 == p.core.Base() + |h| && p.core.First() <= |h|
  {
  }

  /** A message without a slot goes with the latest advertised one. */
  lemma SlotlessIs(slots: Slots, m: PluginMessage)
    requires m.Other? && m.inSlot.None?
    ensures EventOf(slots, m).slot == if slots == map[] then 0 else Greatest(slots.Keys)
  {
  }

  ghost predicate AllOlder(messages: seq<PluginMessage>) {
    forall i :: 0 <= i < |messages| ==> ParentIsOlder(messages[i])
  }

  /** A back-filled status repeats the parent link that is already known. */
  lemma CollectedAreOlder(slots: Slots, m: PluginMessage, sizes: Slot -> nat)
    ensures ParentsBelow(slots) && ParentIsOlder(m) ==> AllOlder(Collected(slots, m, sizes))
  {
    var messages := Collected(slots, m, sizes);
    if ParentsBelow(slots) && ParentIsOlder(m) {
      forall i | 0 <= i < |messages|
        ensures ParentIsOlder(messages[i])
      {
        assert i > 0 ==> ParentBelow(slots, messages[i].slot);
      }
    }
  }

  /** Event by event, the history carries the messages. */
  ghost predicate AreEventsOf(history: seq<Event>, pushed: seq<PluginMessage>) {
    |history| == |pushed| && forall k :: 0 <= k < |history| ==> IsEventOf(history[k], pushed[k])
  }

  lemma EventsGrow(history: seq<Event>, pushed: seq<PluginMessage>, slots: Slots, m: PluginMessage)
    requires AreEventsOf(history, pushed)
    ensures AreEventsOf(history + [EventOf(slots, m)], pushed + [m])
  {
  }

  /** What was appended to the history carries what was appended to the messages. */
  lemma EventsOfBatch(history: seq<Event>, history': seq<Event>, pushed: seq<PluginMessage>,
                      pushed': seq<PluginMessage>,
                      batch: seq<PluginMessage>)
    requires AreEventsOf(history, pushed) && AreEventsOf(history', pushed')
    requires history <= history' && pushed' == pushed + batch
    ensures AreEventsOf(history'[|history|..], batch)
  {
    var gained := history'[|history|..];
    forall k | 0 <= k < |gained|
      ensures IsEventOf(gained[k], batch[k])
    {
      assert IsEventOf(history'[|history| + k], pushed'[|history| + k]);
    }
  }

  lemma WalkOfNone(slots: Slots, slot: Slot, status: Status)
    ensures Walk(slots, slot, status, [])
  {
  }

  /** One more step of a walk that ends. */
  lemma NextStep(slots: Slots, slot: Slot, status: Status, chain: seq<Slot>, parent: Slot)
    requires Ends(slots, slot, status) && Walk(slots, slot, status, chain)
    requires MissedParent(slots, Before(slot, chain, |chain|), status) == Some(parent)
    ensures Walk(slots, slot, status, chain + [parent]) && |chain| + 1 <= |slots|
  {
    WalkExtends(slots, slot, status, chain, parent);
    EndsIsShort(slots, slot, status, chain + [parent]);
  }

  class PluginSender {
    const buffer: Buffer
    const bytesMax: nat
    var slots: Slots

    ghost var history: seq<Event>
    /** The messages behind the events of `history`. */
    ghost var pushed: seq<PluginMessage>
    /** After how many events each slot was last not advertised. */
    ghost var absent: Slot -> nat

    ghost function View(): Plugin
      reads this, buffer, buffer.items
    {
      Plugin(buffer.View(), slots)
    }

    ghost predicate Valid()
      reads this, buffer, buffer.items
    {
      && View().Valid(history, bytesMax) && AreEventsOf(history, pushed)
      && forall s :: HeadIsFirst(slots, history, Base(), absent(s), s)
    }

    /** Position of the first event ever pushed. */
    ghost function Base(): nat {
      buffer.items.Length + 1
    }

    constructor (maxMessages: nat, bytesMax: nat)
      requires maxMessages > 0
      ensures Valid() && fresh(buffer) && fresh(buffer.items) && history == [] && pushed == [] && slots == map[]
    {
      buffer := new Buffer(maxMessages, 0);
      this.bytesMax := bytesMax;
      slots := map[];
      history, pushed, absent := [], [], s => 0;
    }

    /** `push_msg`: enter the slot, write the cell, evict, stop advertising slots that lost events. */
    method PushMsg(m: PluginMessage)
      requires Valid()
      modifies this, buffer, buffer.items
      ensures Valid()
      ensures history == old(history) + [EventOf(old(slots), m)] && pushed == old(pushed) + [m]
      ensures buffer.View().First() == Retained(history, old(buffer.View()).First(), buffer.items.Length, bytesMax)
      ensures old(buffer.View()).First() <= buffer.View().First() <= |history|
      ensures var evicted := history[old(buffer.View()).First()..buffer.View().First()];
        forall s :: SlotStays(old(slots), slots, m, evicted, s)
      ensures forall s :: FieldsAre(old(slots), slots, m, buffer.tail, s)
      ensures m.Other? && m.inSlot.None? ==>
                history[|old(history)|].slot == if old(slots) == map[] then 0 else Greatest(old(slots).Keys)
      ensures absent == AbsentAfter(slots, old(absent), |history|)
      ensures ParentsBelow(old(slots)) && ParentIsOlder(m) ==> ParentsBelow(slots)
    {
      hide ParentsBelow, ParentIsOlder, AreEventsOf, Plugin.Valid, Entered, Pruned, EventOf, Retained, MaxIn, SlotStays,
           FieldsAre, HeadIsFirst, AbsentAfter, SlotOf;
      ghost var before, h, e := View(), history, EventOf(slots, m);
      if m.Other? && m.inSlot.None? {
        SlotlessIs(slots, m);
      }
      var removed := WriteAndPrune(m);
      PushSlots(before.slots, slots, m, h, Base(), absent, before.core.First(), buffer.View().First(), buffer.tail);
      EventsGrow(h, pushed, before.slots, m);
      history, pushed := h + [e], pushed + [m];
      absent := AbsentAfter(slots, absent, |history|);
      if ParentsBelow(before.slots) && ParentIsOlder(m) {
        ParentsStayBelow(before.slots, m, buffer.tail, removed);
      }
    }

    /** What `push_msg` does to the state. */
    method WriteAndPrune(m: PluginMessage) returns (removed: Option<Slot>)
      requires View().Valid(history, bytesMax)
      modifies this`slots, buffer, buffer.items
      ensures var h := history + [EventOf(old(slots), m)];
        && View().Valid(h, bytesMax)
        && old(buffer.View()).First() <= buffer.View().First() < |h|
        && buffer.View().First() == Retained(h, old(buffer.View()).First(), buffer.items.Length, bytesMax)
        && removed == MaxIn(h, old(buffer.View()).First(), buffer.View().First())
        && slots == Pruned(Entered(old(slots), m, buffer.tail), removed)
        && buffer.tail == Base() + |history|
    {
      hide HeadIsLive, Entered, SlotOf, MessageOf, Retained, Fits, MaxIn, Core.Counted;
      ghost var before := View();
      var e := EventOf(slots, m);
      TailIs(before, history, bytesMax);
      slots := Entered(slots, m, buffer.tail + 1);
      removed := buffer.Append(e, bytesMax, history, 0, false);
      if removed.Some? {
        slots := PopThrough(slots, removed.value);
      }
      PushMsgKeeps(before, history, bytesMax, m, buffer.View(), removed);
      assert slots == Pruned(Entered(before.slots, m, buffer.tail), removed);
    }

    /** The walk along parent links that looks for missed statuses. */
    method CollectMissed(m: PluginMessage, sizes: Slot -> nat) returns (messages: seq<PluginMessage>)
      requires m.SlotUpdate? ==> Ends(slots, m.slot, m.status)
      ensures messages == Collected(slots, m, sizes)
    {
      hide Statuses, StatusOf, Walk, Ends, Missed;
      messages := [m];
      if m.SlotUpdate? {
        StatusesOfNone(slots, m.status, sizes);
        var stack := [m.slot];
        ghost var done: seq<Slot> := [];
        WalkOfNone(slots, m.slot, m.status);
        while stack != []
          invariant |stack| <= 1
          invariant Walk(slots, m.slot, m.status, done) && |done| <= |slots|
          invariant stack != [] ==> stack[0] == Before(m.slot, done, |done|)
          invariant stack == [] ==> MissedParent(slots, Before(m.slot, done, |done|), m.status) == None
          invariant messages == [m] + Statuses(slots, done, m.status, sizes)
          decreases |slots| - |done|, |stack|
        {
          var slot := stack[|stack| - 1];
          stack := stack[..|stack| - 1];
          if slot !in slots || slots[slot].parentSlot.None? || slots[slot].parentSlot.value !in slots {
            break;
          }
          var parent := slots[slot].parentSlot.value;
          if slots[parent].Lacks(m.status) {
            stack := stack + [parent];
            messages := messages + [StatusOf(slots, parent, m.status, sizes)];
            StatusesGrow(slots, done, parent, m.status, sizes);
            NextStep(slots, m.slot, m.status, done, parent);
            done := done + [parent];
          }
        }
        EndedIsMissed(slots, m.slot, m.status, done);
      }
    }

    /** Publication of a batch, last message first. */
    method PushBatch(messages: seq<PluginMessage>)
      requires Valid() && forall i :: 0 <= i < |messages| ==> OneStatus(messages, i)
      modifies this, buffer, buffer.items
      ensures Valid()
      ensures pushed == old(pushed) + Reversed(messages) && old(history) <= history
      ensures forall j :: 0 <= j < |messages| ==> FlaggedFor(slots, messages, j)
      ensures ParentsBelow(old(slots)) && AllOlder(messages) ==> ParentsBelow(slots)
    {
      hide ParentsBelow, AreEventsOf;
      var i := |messages|;
      while i > 0
        invariant 0 <= i <= |messages|
        invariant Valid()
        invariant pushed == old(pushed) + Reversed(messages[i..]) && old(history) <= history
        invariant forall j :: i <= j < |messages| ==> FlaggedFor(slots, messages, j)
        invariant ParentsBelow(old(slots)) && AllOlder(messages) ==> ParentsBelow(slots)
      {
        i := i - 1;
        assert OneStatus(messages, i);
        ghost var before, first := slots, buffer.View().First();
        PushMsg(messages[i]);
        ghost var evicted := history[first..buffer.View().First()];
        forall j | i <= j < |messages|
          ensures FlaggedFor(slots, messages, j)
        {
          assert OneStatus(messages, j);
          if messages[j].SlotUpdate? {
            assert i < j ==> FlaggedFor(before, messages, j);
            assert FieldsAre(before, slots, messages[i], buffer.tail, messages[j].slot);
            assert SlotStays(before, slots, messages[i], evicted, messages[j].slot);
          }
        }
        assert messages[i..][1..] == messages[i + 1..];
      }
      assert messages[0..] == messages;
    }

    /** `push`: a status is preceded by the same status for every known ancestor that missed it, oldest
        first; the ring gains exactly the events of these messages, in this order; and all of the slots that
        are still advertised end up flagged. The walk along parent links has to end (`WalkEndsIff`). */
    method Push(m: PluginMessage, sizes: Slot -> nat)
      requires Valid() && (m.SlotUpdate? ==> Ends(slots, m.slot, m.status))
      modifies this, buffer, buffer.items
      ensures Valid()
      ensures pushed == old(pushed) + Reversed(Collected(old(slots), m, sizes))
      ensures old(history) <= history
      ensures IsBackfill(old(slots), m, sizes, pushed[|old(pushed)|..])
      ensures AreEventsOf(history[|old(history)|..], pushed[|old(pushed)|..])
      ensures m.SlotUpdate? ==> Flagged(slots, m.slot, m.status)
      ensures m.SlotUpdate? ==>
                forall s :: s in Missed(old(slots), m.slot, m.status) ==> Flagged(slots, s, m.status)
      ensures ParentsBelow(old(slots)) && ParentIsOlder(m) ==> ParentsBelow(slots)
    {
      hide AreEventsOf, Ends, Missed, ParentsBelow, Flagged, IsBackfill;
      var messages := CollectMissed(m, sizes);
      forall i | 0 <= i < |messages|
        ensures OneStatus(messages, i)
      {
      }
      CollectedAreOlder(slots, m, sizes);
      CollectedIsBackfill(slots, m, sizes);
      ghost var chain := if m.SlotUpdate? then Missed(slots, m.slot, m.status) else [];
      PushBatch(messages);
      assert pushed[|old(pushed)|..] == Reversed(messages);
      EventsOfBatch(old(history), history, old(pushed), pushed, Reversed(messages));
      assert FlaggedFor(slots, messages, 0);
      forall s | s in chain
        ensures Flagged(slots, s, m.status)
      {
        var i :| 0 <= i < |chain| && chain[i] == s;
        assert FlaggedFor(slots, messages, i + 1);
      }
    }

    /** `subscribe`: a replay of an advertised slot starts at its first event since it was entered. */
    method Subscribe(replayFrom: Option<Slot>) returns (r: Subscription)
      requires Valid()
      ensures replayFrom.None? ==> r == At(buffer.tail)
      ensures replayFrom.Some? ==> (r.At? <==> replayFrom.value in slots)
      ensures replayFrom.Some? && r.At? ==>
                && buffer.head <= r.next <= buffer.tail
                && history[r.next - buffer.items.Length - 1].slot == replayFrom.value
                && forall k :: absent(replayFrom.value) <= k < r.next - buffer.items.Length - 1 ==>
                     history[k].slot != replayFrom.value
      ensures r.SlotNotAvailable? ==>
            replayFrom.value !in slots && slots != map[] && r.firstAvailable == Least(slots.Keys)
      ensures r.NotInitialized? <==> replayFrom.Some? && slots == map[]
    {
      if replayFrom.None? {
        return At(buffer.tail);
      }
      assert HeadIsLive(slots, buffer.View(), history, replayFrom.value);
      assert HeadIsFirst(slots, history, Base(), absent(replayFrom.value), replayFrom.value);
      if replayFrom.value in slots {
        r := At(slots[replayFrom.value].head);
      } else if slots == map[] {
        r := NotInitialized;
      } else {
        r := SlotNotAvailable(Least(slots.Keys));
      }
    }
  }
}
