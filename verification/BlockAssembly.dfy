/** Block assembly of one bank, `BankInfo::get_block_message` of `richat/src/channel.rs`. */
module BlockAssembly {
  import opened Basics
  import opened Messages

  datatype BankInfo = BankInfo(
    blockCreated: bool, failed: bool, landed: bool,
    messages: seq<Option<Msg>>, accountsDedup: map<Pubkey, (nat, nat)>,
    transactionsCount: nat, entriesCount: nat, blockMeta: Option<Msg>)

  const EMPTY_BANK := BankInfo(false, false, false, [], map[], 0, 0, None)

  datatype Kind = Accounts | Transactions | Entries

  predicate Is(m: Msg, kind: Kind) {
    match kind
    case Accounts => m.Account?
    case Transactions => m.Transaction?
    case Entries => m.Entry?
  }

  /** The stored messages of one kind, in order. */
  function Picked(messages: seq<Option<Msg>>, kind: Kind): seq<Msg> {
    if messages == [] then []
    else
      var last := messages[|messages| - 1];
      Picked(messages[..|messages| - 1], kind) + if last.Some? && Is(last.value, kind) then [last.value] else []
  }

  /** The place `at` is given up. */
  function Blanked(messages: seq<Option<Msg>>, at: nat): (r: seq<Option<Msg>>)
    ensures |r| == |messages|
  {
    if at < |messages| then messages[at := None] else messages
  }

  /** Storing an account: of the updates to one pubkey only the one with the highest write version
      keeps its place, the first of them on a tie. */
  function StoreAccount(b: BankInfo, m: Msg): BankInfo
    requires m.Account?
  {
    var idx := |b.messages|;
    if m.pubkey in b.accountsDedup then
      var (version, at) := b.accountsDedup[m.pubkey];
      if version < m.writeVersion then
        b.(messages := Blanked(b.messages, at) + [Some(m)],
           accountsDedup := b.accountsDedup[m.pubkey := (m.writeVersion, idx)])
      else b.(messages := b.messages + [None])
    else
      b.(messages := b.messages + [Some(m)], accountsDedup := b.accountsDedup[m.pubkey := (m.writeVersion, idx)])
  }

  function Store(b: BankInfo, m: Msg): BankInfo
    requires Storable(m)
  {
    match m
    case Account(_, _, _, _, _, _) => StoreAccount(b, m)
    case Transaction(_, _, _, _, _) =>
      b.(messages := b.messages + [Some(m)], transactionsCount := b.transactionsCount + 1)
    case Entry(_, _, _, _) => b.(messages := b.messages + [Some(m)], entriesCount := b.entriesCount + 1)
    case BlockMeta(_, _, _, _, _) => b.(messages := b.messages + [Some(m)], blockMeta := Some(m))
    case _ => b.(messages := b.messages + [Some(m)])
  }

  /** All counts that block meta announces have been reached. */
  predicate Complete(b: BankInfo) {
    && b.blockMeta.Some? && b.blockMeta.value.BlockMeta?
    && b.blockMeta.value.executedTransactionCount == b.transactionsCount
    && b.blockMeta.value.entriesCount == b.entriesCount
  }

  function BlockFrom(b: BankInfo): Msg
    requires Complete(b)
  {
    Block(b.blockMeta.value.slot, b.blockMeta.value.bank,
          Picked(b.messages, Accounts), Picked(b.messages, Transactions), Picked(b.messages, Entries),
          b.blockMeta.value)
  }

  /** `BankInfo::get_block_message` */
  function Absorb(b: BankInfo, m: Msg): (BankInfo, Option<Msg>)
    requires Storable(m)
  {
    if m.BlockFooter? then (Store(b, m), None)
    else if b.blockCreated then (b.(failed := true), None)
    else
      var stored := Store(b, m);
      if Complete(stored) then
        var block := BlockFrom(stored);
        (stored.(blockCreated := true, messages := stored.messages + [Some(block)]), Some(block))
      else (stored, None)
  }

  // ----- what the stored messages are -----

  /** Update i to its account is superseded by update j. */
  predicate Beats(h: seq<Msg>, j: int, i: int)
    requires 0 <= i < |h| && 0 <= j < |h|
  {
    && h[i].Account? && h[j].Account? && h[i].pubkey == h[j].pubkey
    && (h[j].writeVersion > h[i].writeVersion || (h[j].writeVersion == h[i].writeVersion && j < i))
  }

  ghost predicate Superseded(h: seq<Msg>, i: int)
    requires 0 <= i < |h|
  {
    exists j :: 0 <= j < |h| && Beats(h, j, i)
  }

  /** The first `n` arrivals of one kind that are not superseded, in order of arrival. */
  ghost function Survivors(h: seq<Msg>, n: nat, kind: Kind): seq<Msg>
    requires n <= |h|
  {
    if n == 0 then []
    else Survivors(h, n - 1, kind) + if Is(h[n - 1], kind) && !Superseded(h, n - 1) then [h[n - 1]] else []
  }

  function Count(h: seq<Msg>, kind: Kind): nat {
    if h == [] then 0 else Count(h[..|h| - 1], kind) + if Is(h[|h| - 1], kind) then 1 else 0
  }

  /** The latest block meta among the arrivals. */
  function LastMeta(h: seq<Msg>): Option<Msg> {
    if h == [] then None
    else if h[|h| - 1].BlockMeta? then Some(h[|h| - 1])
    else LastMeta(h[..|h| - 1])
  }

  /** Slot i of the stored messages holds arrival i, unless it is superseded. */
  ghost predicate Keeps(messages: seq<Option<Msg>>, h: seq<Msg>, i: nat)
    requires i < |h| && |messages| == |h|
  {
    messages[i] == if Superseded(h, i) then None else Some(h[i])
  }

  /** The dedup entry of a pubkey is its winner so far. */
  ghost predicate Winner(dedup: map<Pubkey, (nat, nat)>, h: seq<Msg>, p: Pubkey) {
    p in dedup ==>
      var (version, at) := dedup[p];
      && at < |h| && h[at].Account? && h[at].pubkey == p && h[at].writeVersion == version
      && forall j :: 0 <= j < |h| && h[j].Account? && h[j].pubkey == p && j != at ==> Beats(h, at, j)
  }

  /** A bank without a block, after the arrivals `h`. */
  ghost predicate Tracks(b: BankInfo, h: seq<Msg>) {
    && !b.blockCreated
    && |b.messages| == |h|
    && (forall i :: 0 <= i < |h| ==> Keeps(b.messages, h, i))
    && (forall p :: Winner(b.accountsDedup, h, p))
    && (forall i :: 0 <= i < |h| && h[i].Account? ==> h[i].pubkey in b.accountsDedup)
    && b.transactionsCount == Count(h, Transactions)
    && b.entriesCount == Count(h, Entries)
    && b.blockMeta == LastMeta(h)
  }

  /** Arrivals other than accounts supersede nothing. */
  lemma SupersededKept(h: seq<Msg>, m: Msg, i: nat)
    requires i < |h|
    ensures Superseded(h + [m], i) <==> Superseded(h, i) || Beats(h + [m], |h|, i)
  {
    var h' := h + [m];
    if Superseded(h, i) {
      var j :| 0 <= j < |h| && Beats(h, j, i);
      assert Beats(h', j, i);
    }
    if Superseded(h', i) {
      var j :| 0 <= j < |h'| && Beats(h', j, i);
      assert j < |h| ==> Beats(h, j, i);
    }
  }

  /** Transactions, entries, metas and footers take the next place and disturb nobody. */
  lemma StoreOtherTracks(b: BankInfo, h: seq<Msg>, m: Msg)
    requires Tracks(b, h) && Storable(m) && !m.Account?
    ensures Tracks(Store(b, m), h + [m])
  {
    var h', b' := h + [m], Store(b, m);
    assert h'[..|h|] == h;
    forall i | 0 <= i < |h'|
      ensures Keeps(b'.messages, h', i)
    {
      if i < |h| {
        SupersededKept(h, m, i);
        assert Keeps(b.messages, h, i);
      }
    }
    forall p: Pubkey
      ensures Winner(b'.accountsDedup, h', p)
    {
      WinnerKept(b.accountsDedup, h, m, p);
    }
  }

  lemma WinnerKept(dedup: map<Pubkey, (nat, nat)>, h: seq<Msg>, m: Msg, p: Pubkey)
    requires Winner(dedup, h, p)
    requires m.Account? && m.pubkey == p && p in dedup ==> m.writeVersion <= dedup[p].0
    ensures Winner(dedup, h + [m], p)
  {
    var h' := h + [m];
    if p in dedup {
      var at := dedup[p].1;
      forall j | 0 <= j < |h'| && h'[j].Account? && h'[j].pubkey == p && j != at
        ensures Beats(h', at, j)
      {
        assert j < |h| ==> Beats(h, at, j);
      }
    }
  }

  /** An account takes the place of the winner it beats, or none. */
  lemma StoreAccountTracks(b: BankInfo, h: seq<Msg>, m: Msg)
    requires Tracks(b, h) && m.Account?
    ensures m.pubkey in b.accountsDedup ==> b.accountsDedup[m.pubkey].1 < |b.messages|
    ensures Tracks(StoreAccount(b, m), h + [m])
  {
    var h', p := h + [m], m.pubkey;
    assert h'[..|h|] == h;
    assert Winner(b.accountsDedup, h, p);
    var b' := StoreAccount(b, m);
    forall i | 0 <= i < |h'|
      ensures Keeps(b'.messages, h', i)
    {
      StoreAccountKeeps(b, h, m, i);
    }
    forall q: Pubkey
      ensures Winner(b'.accountsDedup, h', q)
    {
      assert Winner(b.accountsDedup, h, q);
      if q != p || (p in b.accountsDedup && m.writeVersion <= b.accountsDedup[p].0) {
        WinnerKept(b.accountsDedup, h, m, q);
      }
    }
  }

  lemma StoreAccountKeeps(b: BankInfo, h: seq<Msg>, m: Msg, i: nat)
    requires Tracks(b, h) && m.Account? && i <= |h|
    requires m.pubkey in b.accountsDedup ==> b.accountsDedup[m.pubkey].1 < |b.messages|
    ensures |StoreAccount(b, m).messages| == |h| + 1 && Keeps(StoreAccount(b, m).messages, h + [m], i)
  {
    var h', p := h + [m], m.pubkey;
    assert Winner(b.accountsDedup, h, p);
    if i < |h| {
      SupersededKept(h, m, i);
      assert Keeps(b.messages, h, i);
      if p in b.accountsDedup {
        var at := b.accountsDedup[p].1;
        assert h[i].Account? && h[i].pubkey == p && i != at ==> Beats(h, at, i);
      }
    } else if p in b.accountsDedup {
      var (version, at) := b.accountsDedup[p];
      if version < m.writeVersion {
        forall j | 0 <= j < |h'|
          ensures !Beats(h', j, i)
        {
          assert j < |h| && h[j].Account? && h[j].pubkey == p && j != at ==> Beats(h, at, j);
        }
      } else {
        assert Beats(h', at, i);
      }
    } else {
      forall j | 0 <= j < |h'|
        ensures !Beats(h', j, i)
      {
        assert j < |h| ==> h'[j] == h[j];
      }
    }
  }

  // ----- what a block is made of -----

  lemma {:induction false} PickedAreSurvivors(messages: seq<Option<Msg>>, h: seq<Msg>, n: nat, kind: Kind)
    requires n <= |h| == |messages| && forall i :: 0 <= i < |h| ==> Keeps(messages, h, i)
    ensures Picked(messages[..n], kind) == Survivors(h, n, kind)
  {
    if n > 0 {
      PickedAreSurvivors(messages, h, n - 1, kind);
      assert messages[..n][..n - 1] == messages[..n - 1];
      assert Keeps(messages, h, n - 1);
    }
  }

  /** All arrivals of one kind, in order. */
  function OfKind(h: seq<Msg>, kind: Kind): seq<Msg> {
    if h == [] then []
    else OfKind(h[..|h| - 1], kind) + if Is(h[|h| - 1], kind) then [h[|h| - 1]] else []
  }

  /** Transactions and entries are never superseded. */
  lemma {:induction false} AllSurvive(h: seq<Msg>, n: nat, kind: Kind)
    requires n <= |h| && kind != Accounts
    ensures Survivors(h, n, kind) == OfKind(h[..n], kind)
  {
    if n > 0 {
      AllSurvive(h, n - 1, kind);
      assert h[..n][..n - 1] == h[..n - 1];
    }
  }

  /** The contents of a block after the arrivals `h`: all transactions and entries in order of arrival,
      of the accounts those that are not superseded, and counts as announced by the latest meta. */
  ghost predicate Exact(block: Msg, h: seq<Msg>) {
    && block.Block? && LastMeta(h) == Some(block.meta) && block.meta.BlockMeta?
    && block.slot == block.meta.slot && block.bank == block.meta.bank
    && block.transactions == OfKind(h, Transactions) && |block.transactions| == block.meta.executedTransactionCount
    && block.entries == OfKind(h, Entries) && |block.entries| == block.meta.entriesCount
    && block.accounts == Survivors(h, |h|, Accounts)
  }

  lemma {:induction false} CountIsLength(h: seq<Msg>, kind: Kind)
    ensures |OfKind(h, kind)| == Count(h, kind)
  {
    if h != [] {
      CountIsLength(h[..|h| - 1], kind);
    }
  }

  lemma BlockIsExact(b: BankInfo, h: seq<Msg>)
    requires Tracks(b, h) && Complete(b)
    ensures Exact(BlockFrom(b), h)
  {
    assert b.messages[..|h|] == b.messages && h[..|h|] == h;
    PickedAreSurvivors(b.messages, h, |h|, Accounts);
    PickedAreSurvivors(b.messages, h, |h|, Transactions);
    PickedAreSurvivors(b.messages, h, |h|, Entries);
    AllSurvive(h, |h|, Transactions);
    AllSurvive(h, |h|, Entries);
    CountIsLength(h, Transactions);
    CountIsLength(h, Entries);
  }

  /** One arrival: the bank keeps track, or it creates the exact block and stops. */
  lemma AbsorbIsRight(b: BankInfo, h: seq<Msg>, m: Msg)
    requires Tracks(b, h) && Storable(m)
    ensures m.Account? && m.pubkey in b.accountsDedup ==> b.accountsDedup[m.pubkey].1 < |b.messages|
    ensures var (b', block) := Absorb(b, m);
      if block.None? then Tracks(b', h + [m]) else b'.blockCreated && Exact(block.value, h + [m])
  {
    if m.Account? {
      StoreAccountTracks(b, h, m);
    } else {
      StoreOtherTracks(b, h, m);
    }
    if !m.BlockFooter? && Complete(Store(b, m)) {
      BlockIsExact(Store(b, m), h + [m]);
    }
  }

  /** The cases of one arrival. */
  lemma AbsorbCases(b: BankInfo, m: Msg)
    requires Storable(m)
    ensures m.BlockFooter? ==> Absorb(b, m) == (b.(messages := b.messages + [Some(m)]), None)
    ensures !m.BlockFooter? && b.blockCreated ==> Absorb(b, m) == (b.(failed := true), None)
    ensures !m.BlockFooter? && !b.blockCreated ==>
              var stored := Store(b, m);
              if Complete(stored) then
                var block := BlockFrom(stored);
                Absorb(b, m) ==
                (stored.(blockCreated := true, messages := stored.messages + [Some(block)]), Some(block))
              else Absorb(b, m) == (stored, None)
  {
  }

  /** No block before the counts are reached: an incomplete bank creates none, a complete one does. */
  lemma BlockWhenComplete(b: BankInfo, h: seq<Msg>, m: Msg)
    requires Tracks(b, h) && Storable(m) && !m.BlockFooter?
    ensures Absorb(b, m).1.Some? <==>
      var h' := h + [m];
      && LastMeta(h').Some? && LastMeta(h').value.BlockMeta?
      && LastMeta(h').value.executedTransactionCount == Count(h', Transactions)
      && LastMeta(h').value.entriesCount == Count(h', Entries)
  {
    if m.Account? {
      StoreAccountTracks(b, h, m);
    } else {
      StoreOtherTracks(b, h, m);
    }
  }

  // ----- one account per pubkey -----

  /** A survivor has the highest write version of its pubkey and arrived first with it, and it is the
      only survivor of its pubkey. */
  lemma SurvivorIsBest(h: seq<Msg>, i: nat)
    requires i < |h| && h[i].Account? && !Superseded(h, i)
    ensures forall j :: 0 <= j < |h| && h[j].Account? && h[j].pubkey == h[i].pubkey ==>
              h[j].writeVersion <= h[i].writeVersion && (h[j].writeVersion == h[i].writeVersion ==> i <= j)
    ensures forall j :: 0 <= j < |h| && h[j].Account? && h[j].pubkey == h[i].pubkey && !Superseded(h, j) ==> j == i
  {
    forall j | 0 <= j < |h| && h[j].Account? && h[j].pubkey == h[i].pubkey
      ensures h[j].writeVersion <= h[i].writeVersion && (h[j].writeVersion == h[i].writeVersion ==> i <= j)
      ensures !Superseded(h, j) ==> j == i
    {
      assert !Beats(h, j, i);
      assert j != i ==> Beats(h, i, j);
    }
  }

  /** Every pubkey that was updated has a survivor. */
  lemma EveryPubkeySurvives(b: BankInfo, h: seq<Msg>, i: nat) returns (w: nat)
    requires Tracks(b, h) && i < |h| && h[i].Account?
    ensures w < |h| && h[w].Account? && h[w].pubkey == h[i].pubkey && !Superseded(h, w)
  {
    var p := h[i].pubkey;
    assert Winner(b.accountsDedup, h, p);
    w := b.accountsDedup[p].1;
    forall j | 0 <= j < |h|
      ensures !Beats(h, j, w)
    {
      assert h[j].Account? && h[j].pubkey == p && j != w ==> Beats(h, w, j);
    }
  }

  // ----- whole runs -----

  ghost predicate AllStorable(ms: seq<Msg>) {
    forall i :: 0 <= i < |ms| ==> Storable(ms[i])
  }

  /** The bank and the blocks it has produced after the arrivals `ms`. */
  ghost function Run(ms: seq<Msg>): (r: (BankInfo, seq<Msg>))
    requires AllStorable(ms)
    ensures r.0.blockCreated || Tracks(r.0, ms)
  {
    if ms == [] then (EMPTY_BANK, [])
    else
      var n := |ms| - 1;
      var (b, blocks) := Run(ms[..n]);
      if b.blockCreated then
        if ms[n].BlockFooter? then (Store(b, ms[n]), blocks) else (b.(failed := true), blocks)
      else
        AbsorbIsRight(b, ms[..n], ms[n]);
        assert ms == ms[..n] + [ms[n]];
        var (b', block) := Absorb(b, ms[n]);
        (b', if block.Some? then blocks + [block.value] else blocks)
  }

  /** The block was made from exactly the first `n` arrivals. */
  ghost predicate MadeFrom(block: Msg, ms: seq<Msg>, n: int) {
    0 < n <= |ms| && Exact(block, ms[..n])
  }

  /** Over any arrivals a bank yields at most one block, made from exactly the arrivals up to then. */
  lemma {:induction false} AtMostOneBlock(ms: seq<Msg>)
    requires AllStorable(ms)
    ensures var (b, blocks) := Run(ms);
      && |blocks| == (if b.blockCreated then 1 else 0)
      && (b.blockCreated ==> exists n :: MadeFrom(blocks[0], ms, n))
  {
    hide Exact, Complete, BlockFrom, Keeps, Winner, Count, LastMeta, StoreAccount;
    if ms != [] {
      var n := |ms| - 1;
      AtMostOneBlock(ms[..n]);
      assert ms == ms[..n] + [ms[n]] && ms[..n + 1] == ms;
      var (b, blocks) := Run(ms[..n]);
      if b.blockCreated {
        var k :| MadeFrom(blocks[0], ms[..n], k);
        assert ms[..n][..k] == ms[..k];
        assert MadeFrom(blocks[0], ms, k);
      } else {
        AbsorbIsRight(b, ms[..n], ms[n]);
        var (b', block) := Absorb(b, ms[n]);
        assert Run(ms) == (b', if block.Some? then blocks + [block.value] else blocks);
        if block.Some? {
          assert Run(ms).1 == [block.value];
          assert MadeFrom(Run(ms).1[0], ms, n + 1);
        } else {
          assert !b'.blockCreated;
        }
      }
    }
  }

  // ----- what a bank stores -----

  function Footers(ms: seq<Msg>): seq<Option<Msg>> {
    if ms == [] then []
    else Footers(ms[..|ms| - 1]) + if ms[|ms| - 1].BlockFooter? then [Some(ms[|ms| - 1])] else []
  }

  /** The stored messages are the first `n` arrivals without those that are superseded, then the block, then the footers
      that came after it. */
  ghost predicate StoredWithBlock(messages: seq<Option<Msg>>, block: Msg, ms: seq<Msg>, n: nat) {
    && 0 < n <= |ms| && n < |messages|
    && (forall i :: 0 <= i < n ==> Keeps(messages[..n], ms[..n], i))
    && messages[n] == Some(block)
    && messages[n + 1..] == Footers(ms[n..])
  }

  /** Over any arrivals: without a block a bank stores the arrivals that are not superseded, each in its place; once it
      has made the block, that block behind the arrivals it was made from, and of what comes later only footers. */
  lemma {:induction false} StoredAre(ms: seq<Msg>)
    requires AllStorable(ms)
    ensures var (b, blocks) := Run(ms);
      && (!b.blockCreated ==> |b.messages| == |ms| && forall i :: 0 <= i < |ms| ==> Keeps(b.messages, ms, i))
      && (b.blockCreated ==> |blocks| == 1 && exists n :: StoredWithBlock(b.messages, blocks[0], ms, n))
  {
    hide Exact, Complete, BlockFrom, Keeps, Winner, Count, LastMeta, StoreAccount, StoredWithBlock;
    AtMostOneBlock(ms);
    if ms != [] {
      var n := |ms| - 1;
      StoredAre(ms[..n]);
      AtMostOneBlock(ms[..n]);
      assert ms == ms[..n] + [ms[n]];
      var (b, blocks) := Run(ms[..n]);
      if b.blockCreated {
        var k :| StoredWithBlock(b.messages, blocks[0], ms[..n], k);
        LaterStored(b.messages, blocks[0], ms, k);
        AfterBlock(b, ms[n]);
        assert Run(ms) == (Absorb(b, ms[n]).0, blocks);
      } else {
        AbsorbIsRight(b, ms[..n], ms[n]);
        if Absorb(b, ms[n]).1.Some? {
          BlockIsStored(b, ms);
        }
      }
    }
  }

  /** A bank that has made its block stores footers only. */
  lemma AfterBlock(b: BankInfo, m: Msg)
    requires Storable(m) && b.blockCreated
    ensures var (b', block) := Absorb(b, m);
      block.None? && b'.blockCreated && b'.messages == b.messages + if m.BlockFooter? then [Some(m)] else []
  {
  }

  /** What comes after the block. */
  lemma LaterStored(messages: seq<Option<Msg>>, block: Msg, ms: seq<Msg>, k: nat)
    requires ms != [] && StoredWithBlock(messages, block, ms[..|ms| - 1], k)
    ensures StoredWithBlock(messages + if ms[|ms| - 1].BlockFooter? then [Some(ms[|ms| - 1])] else [], block, ms, k)
  {
    hide Keeps;
    var n := |ms| - 1;
    var messages' := messages + if ms[n].BlockFooter? then [Some(ms[n])] else [];
    assert ms[..n][..k] == ms[..k] && messages'[..k] == messages[..k];
    assert ms[k..][..n - k] == ms[..n][k..];
    assert messages'[k + 1..] == messages[k + 1..] + if ms[n].BlockFooter? then [Some(ms[n])] else [];
  }

  lemma BlockIsStored(b: BankInfo, ms: seq<Msg>)
    requires ms != [] && Storable(ms[|ms| - 1]) && Tracks(b, ms[..|ms| - 1]) && Absorb(b, ms[|ms| - 1]).1.Some?
    ensures var (b', block) := Absorb(b, ms[|ms| - 1]); StoredWithBlock(b'.messages, block.value, ms, |ms|)
  {
    hide Exact, Complete, BlockFrom, Keeps, Winner, Count, LastMeta, StoreAccount;
    var n := |ms| - 1;
    var stored := Store(b, ms[n]);
    assert ms == ms[..n] + [ms[n]] && ms[..|ms|] == ms && ms[|ms|..] == [];
    if ms[n].Account? {
      StoreAccountTracks(b, ms[..n], ms[n]);
    } else {
      StoreOtherTracks(b, ms[..n], ms[n]);
    }
    var messages := Absorb(b, ms[n]).0.messages;
    assert messages[..|ms|] == stored.messages && messages[|ms| + 1..] == [];
  }

  // ----- the record that the source mutates -----

  class Bank {
    var blockCreated: bool
    var failed: bool
    var landed: bool
    var messages: seq<Option<Msg>>
    var accountsDedup: map<Pubkey, (nat, nat)>
    var transactionsCount: nat
    var entriesCount: nat
    var blockMeta: Option<Msg>

    ghost function View(): BankInfo
      reads this
    {
      BankInfo(blockCreated, failed, landed, messages, accountsDedup, transactionsCount, entriesCount, blockMeta)
    }

    constructor ()
      ensures View() == EMPTY_BANK
    {
      blockCreated, failed, landed := false, false, false;
      messages, accountsDedup := [], map[];
      transactionsCount, entriesCount, blockMeta := 0, 0, None;
    }

    /** One of the `filter_map` passes over the stored messages. */
    method Collect(kind: Kind) returns (r: seq<Msg>)
      ensures r == Picked(messages, kind)
    {
      r := [];
      var i := 0;
      while i < |messages|
        invariant 0 <= i <= |messages|
        invariant r == Picked(messages[..i], kind)
      {
        if messages[i].Some? && Is(messages[i].value, kind) {
          r := r + [messages[i].value];
        }
        assert messages[..i + 1][..i] == messages[..i];
        i := i + 1;
      }
      assert messages[..i] == messages;
    }

    method StoreMessage(m: Msg)
      requires Storable(m)
      requires m.Account? && m.pubkey in accountsDedup ==> accountsDedup[m.pubkey].1 < |messages|
      modifies this
      ensures View() == Store(old(View()), m)
    {
      match m {
        case Account(_, _, _, pubkey, writeVersion, _) =>
          var idx := |messages|;
          messages := messages + [Some(m)];
          if pubkey in accountsDedup {
            var (version, at) := accountsDedup[pubkey];
            if version < writeVersion {
              messages := messages[at := None];
              accountsDedup := accountsDedup[pubkey := (writeVersion, idx)];
            } else {
              messages := messages[idx := None];
            }
          } else {
            accountsDedup := accountsDedup[pubkey := (writeVersion, idx)];
          }
        case Transaction(_, _, _, _, _) =>
          messages := messages + [Some(m)];
          transactionsCount := transactionsCount + 1;
        case Entry(_, _, _, _) =>
          messages := messages + [Some(m)];
          entriesCount := entriesCount + 1;
        case BlockMeta(_, _, _, _, _) =>
          messages := messages + [Some(m)];
          blockMeta := Some(m);
        case BlockFooter(_, _, _) =>
          messages := messages + [Some(m)];
      }
    }

    /** `get_block_message` as written. */
    method GetBlockMessage(m: Msg, ghost h: seq<Msg>) returns (block: Option<Msg>)
      requires Storable(m) && (blockCreated || Tracks(View(), h))
      modifies this
      ensures Absorb(old(View()), m) == (View(), block)
      ensures old(blockCreated) ==> block.None? && blockCreated
      // once there is a block only footers are stored
      ensures old(blockCreated) ==> messages == old(messages) + if m.BlockFooter? then [Some(m)] else []
      ensures block.Some? ==> messages != [] && messages[|messages| - 1] == block
      ensures !old(blockCreated) ==>
                (if block.None? then Tracks(View(), h + [m]) else blockCreated && Exact(block.value, h + [m]))
    {
      hide Absorb, Store, Tracks, Exact, Picked, LastMeta;
      AbsorbCases(View(), m);
      if m.BlockFooter? {
        if !blockCreated {
          AbsorbIsRight(View(), h, m);
        }
        messages := messages + [Some(m)];
        return None;
      }
      if blockCreated {
        failed := true;
        return None;
      }
      AbsorbIsRight(View(), h, m);
      StoreMessage(m);
      if blockMeta.Some? && blockMeta.value.BlockMeta?
         && blockMeta.value.executedTransactionCount == transactionsCount
               && blockMeta.value.entriesCount == entriesCount {
        blockCreated := true;
        var accounts := Collect(Accounts);
        var transactions := Collect(Transactions);
        var entries := Collect(Entries);
        var created := Block(blockMeta.value.slot, blockMeta.value.bank, accounts, transactions, entries,
                             blockMeta.value);
        messages := messages + [Some(created)];
        return Some(created);
      }
      block := None;
    }
  }
}
