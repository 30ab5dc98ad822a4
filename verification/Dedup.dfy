/** Deduplication of the messages of one bank that several sources deliver, `DedupInfoBank` and the
    dedup branch of `Sender::push` in `richat/src/channel.rs`. */
module Dedup {
  import opened Basics
  import opened Messages

  datatype AccountKey = AccountKey(signature: Option<Signature>, pubkey: Pubkey)

  /** A transaction that has arrived, or the account updates that wait for it. */
  datatype TransactionIndex = Index(index: nat) | Accounts(waiting: seq<Msg>)

  datatype DedupBank = DedupBank(
    accountsUpdates: set<AccountKey>, phantomIndex: nat,
    transactions: map<Signature, TransactionIndex>, entries: seq<bool>,
    blockMeta: bool, blockFooter: bool, entryUpdateParent: bool)

  /** Write versions below this are kept for account updates without a signature. */
  const PHANTOM_SPACE: nat := 1000

  function Zeros(n: nat): seq<bool> {
    seq(n, _ => false)
  }

  const NEW_DEDUP_BANK := DedupBank({}, 0, map[], Zeros(256), false, false, false)

  function KeyOf(m: Msg): AccountKey
    requires m.Account?
  {
    AccountKey(m.signature, m.pubkey)
  }

  function Waiting(b: DedupBank, s: Signature): seq<Msg> {
    if s in b.transactions && b.transactions[s].Accounts? then b.transactions[s].waiting else []
  }

  ghost predicate AllAccounts(ms: seq<Msg>) {
    forall i :: 0 <= i < |ms| ==> ms[i].Account?
  }

  function Versioned(m: Msg, version: nat): Msg {
    if m.Account? then m.(writeVersion := version) else m
  }

  /** `vec.drain(..)`, each account with the index of its transaction. */
  function Drained(accounts: seq<Msg>, version: nat): seq<Msg>
  {
    seq(|accounts|, i requires 0 <= i < |accounts| => Versioned(accounts[i], version))
  }

  // ----- the bitmap of entries -----

  predicate IsPowerOfTwo(n: nat) {
    n == 1 || (n > 1 && n % 2 == 0 && IsPowerOfTwo(n / 2))
  }

  /** `usize::next_power_of_two` */
  function NextPowerOfTwo(n: nat): nat {
    if n <= 1 then 1 else 2 * NextPowerOfTwo((n + 1) / 2)
  }

  /** It is the least power of two that is at least `n`. */
  lemma {:induction false} NextPowerOfTwoIsLeast(n: nat, k: nat)
    ensures IsPowerOfTwo(NextPowerOfTwo(n)) && NextPowerOfTwo(n) >= n
    ensures IsPowerOfTwo(k) && k >= n ==> NextPowerOfTwo(n) <= k
    decreases n
  {
    if n > 1 {
      NextPowerOfTwoIsLeast((n + 1) / 2, k / 2);
    }
  }

  /** Length of the bitmap after room was made for `index`. */
  function Grown(len: nat, index: nat): (r: nat)
    ensures r >= len
  {
    if len <= index then
      var power := NextPowerOfTwo(index);
      if power >= 2 * len then power else 2 * len
    else len
  }

  /** Growing the bitmap makes room for the index unless the index is a power of two that is at least
      twice the old length. */
  lemma GrownCovers(len: nat, index: nat)
    ensures index < Grown(len, index) <==> !(IsPowerOfTwo(index) && index >= 2 * len && index >= len)
  {
    NextPowerOfTwoIsLeast(index, index);
  }

  /** The first entry of a bank finds no room if its index is 512. */
  lemma EntryOutOfRange()
    ensures !(512 < Grown(|NEW_DEDUP_BANK.entries|, 512))
  {
    GrownCovers(256, 512);
    assert IsPowerOfTwo(2) && IsPowerOfTwo(4) && IsPowerOfTwo(8) && IsPowerOfTwo(16) && IsPowerOfTwo(32);
    assert IsPowerOfTwo(64) && IsPowerOfTwo(128);
  }

  function Resized(entries: seq<bool>, len: nat): seq<bool>
    requires |entries| <= len
  {
    entries + Zeros(len - |entries|)
  }

  // ----- one message -----

  function AcceptAccount(b: DedupBank, m: Msg): (DedupBank, seq<Msg>)
    requires m.Account?
  {
    if KeyOf(m) in b.accountsUpdates then (b, [])
    else
      var b' := b.(accountsUpdates := b.accountsUpdates + {KeyOf(m)});
      if m.signature.None? then
        (b'.(phantomIndex := b.phantomIndex + 1), [Versioned(m, b.phantomIndex)])
      else
        var s := m.signature.value;
        if s in b.transactions && b.transactions[s].Index? then
          (b', [Versioned(m, b.transactions[s].index)])
        else (b'.(transactions := b.transactions[s := Accounts(Waiting(b, s) + [m])]), [])
  }

  function AcceptTransaction(b: DedupBank, m: Msg): (DedupBank, seq<Msg>)
    requires m.Transaction?
  {
    var s, index := m.txSignature, m.index + PHANTOM_SPACE;
    if s in b.transactions && b.transactions[s].Index? then (b, [])
    else
      (b.(transactions := b.transactions[s := Index(index)]), Drained(Waiting(b, s), index) + [m])
  }

  /** None if the index is out of range. */
  function AcceptEntry(b: DedupBank, m: Msg): Option<(DedupBank, seq<Msg>)>
    requires m.Entry?
  {
    if m.index >= Grown(|b.entries|, m.index) then None
    else
      var entries := Resized(b.entries, Grown(|b.entries|, m.index));
      if entries[m.index] then Some((b.(entries := entries), []))
      else Some((b.(entries := entries[m.index := true]), [m]))
  }

  /** What is published for one message, and the record afterwards. None is a panic. */
  function Accept(b: DedupBank, m: Msg): Option<(DedupBank, seq<Msg>)>
  {
    match m
    case Account(_, _, _, _, _, _) => Some(AcceptAccount(b, m))
    case Transaction(_, _, _, _, _) => Some(AcceptTransaction(b, m))
    case Entry(_, _, _, _) => AcceptEntry(b, m)
    case BlockMeta(_, _, _, _, _) => Some((b.(blockMeta := true), if b.blockMeta then [] else [m]))
    case BlockFooter(_, _, _) => Some((b.(blockFooter := true), if b.blockFooter then [] else [m]))
    case EntryUpdateParent(_, _, _) => Some((b.(entryUpdateParent := true), if b.entryUpdateParent then [] else [m]))
    case _ => None
  }

  // ----- what is published, told from the arrivals alone -----

  /** What two deliveries of the same message have in common. */
  datatype Id =
    | OfAccount(key: AccountKey) | OfTransaction(signature: Signature) | OfEntry(index: nat)
    | OfMeta | OfFooter | OfParent | NoId

  function IdOf(m: Msg): Id {
    match m
    case Account(_, _, _, _, _, _) => OfAccount(KeyOf(m))
    case Transaction(_, _, s, _, _) => OfTransaction(s)
    case Entry(_, _, index, _) => OfEntry(index)
    case BlockMeta(_, _, _, _, _) => OfMeta
    case BlockFooter(_, _, _) => OfFooter
    case EntryUpdateParent(_, _, _) => OfParent
    case _ => NoId
  }

  /** Position of the first arrival with this identity. */
  ghost function FirstAt(ms: seq<Msg>, id: Id): (r: Option<nat>)
    ensures r.Some? ==> r.value < |ms| && IdOf(ms[r.value]) == id
  {
    if ms == [] then None
    else
      var n := |ms| - 1;
      var before := FirstAt(ms[..n], id);
      if before.Some? then before else if IdOf(ms[n]) == id then Some(n) else None
  }

  lemma {:induction false} FirstAtIsFirst(ms: seq<Msg>, id: Id, i: nat)
    requires i < |ms| && IdOf(ms[i]) == id
    ensures FirstAt(ms, id).Some? && FirstAt(ms, id).value <= i
  {
    if i < |ms| - 1 {
      FirstAtIsFirst(ms[..|ms| - 1], id, i);
    }
  }

  ghost predicate Seen(ms: seq<Msg>, id: Id) {
    FirstAt(ms, id).Some?
  }

  ghost function First(ms: seq<Msg>, id: Id): (r: Msg)
    requires Seen(ms, id)
    ensures IdOf(r) == id
  {
    ms[FirstAt(ms, id).value]
  }

  predicate Unsigned(id: Id) {
    id.OfAccount? && id.key.signature.None?
  }

  /** Number of different unsigned account updates. */
  ghost function Phantoms(ms: seq<Msg>): nat {
    if ms == [] then 0
    else
      var n := |ms| - 1;
      Phantoms(ms[..n]) + if Unsigned(IdOf(ms[n])) && !Seen(ms[..n], IdOf(ms[n])) then 1 else 0
  }

  /** The one message published for an identity, if there is one yet: its first arrival; an account
      of a transaction once the transaction has arrived too, with the version the transaction gives it;
      another account with the number of such accounts before it. */
  ghost function Final(ms: seq<Msg>, id: Id): (r: Option<Msg>)
    ensures r.Some? ==> IdOf(r.value) == id
  {
    if !Seen(ms, id) then None
    else
      var m := First(ms, id);
      if Unsigned(id) then Some(Versioned(m, Phantoms(ms[..FirstAt(ms, id).value])))
      else if id.OfAccount? then
        var tx := OfTransaction(id.key.signature.value);
        if Seen(ms, tx) then Some(Versioned(m, First(ms, tx).index + PHANTOM_SPACE)) else None
      else Some(m)
  }

  /** A published message stays what it is. */
  lemma FinalStays(ms: seq<Msg>, m: Msg, id: Id)
    ensures Final(ms, id).Some? ==> Final(ms + [m], id) == Final(ms, id)
    ensures Seen(ms, IdOf(m)) ==> Final(ms + [m], id) == Final(ms, id)
    ensures !Seen(ms, id) ==> Final(ms, id).None?
    ensures FirstAt(ms + [m], id) ==
      if Seen(ms, id) then FirstAt(ms, id) else if IdOf(m) == id then Some(|ms|) else None
  {
    var ms' := ms + [m];
    assert ms'[..|ms|] == ms;
    if Seen(ms, id) {
      assert ms'[..FirstAt(ms, id).value] == ms[..FirstAt(ms, id).value];
    }
    if id.OfAccount? && id.key.signature.Some? {
      var tx := OfTransaction(id.key.signature.value);
      assert Seen(ms, tx) ==> FirstAt(ms', tx) == FirstAt(ms, tx);
    }
  }

  ghost predicate DistinctIds(log: seq<Msg>)
  {
    forall i, j :: 0 <= i < j < |log| ==> IdOf(log[i]) != IdOf(log[j])
  }

  ghost predicate IsFinal(ms: seq<Msg>, x: Msg) {
    Final(ms, IdOf(x)) == Some(x)
  }

  /** The log holds each message that is due exactly once, and nothing else. */
  ghost predicate Published(log: seq<Msg>, ms: seq<Msg>) {
    DistinctIds(log) && forall x :: x in log <==> IsFinal(ms, x)
  }

  /** `out` is what becomes due by the arrival of `m`. */
  ghost predicate Due(out: seq<Msg>, ms: seq<Msg>, m: Msg)
  {
    DistinctIds(out) && forall x :: x in out <==> IsFinal(ms + [m], x) && !IsFinal(ms, x)
  }

  lemma LogGrows(log: seq<Msg>, ms: seq<Msg>, m: Msg, out: seq<Msg>)
    requires Published(log, ms) && Due(out, ms, m)
    ensures Published(log + out, ms + [m])
  {
    var log' := log + out;
    forall x: Msg
      ensures x in log' <==> IsFinal(ms + [m], x)
    {
      FinalStays(ms, m, IdOf(x));
    }
    forall i, j | 0 <= i < j < |log'|
      ensures IdOf(log'[i]) != IdOf(log'[j])
    {
      if i < |log| <= j {
        assert log[i] in log && out[j - |log|] in out;
        FinalStays(ms, m, IdOf(log'[i]));
      }
    }
  }

  // ----- what the record knows -----

  /** The first arrival of a signed account update. */
  ghost predicate FirstSigned(ms: seq<Msg>, s: Signature, a: Msg) {
    a.Account? && a.signature == Some(s) && Seen(ms, IdOf(a)) && First(ms, IdOf(a)) == a
  }

  ghost predicate KeysAre(b: DedupBank, ms: seq<Msg>) {
    forall k :: k in b.accountsUpdates <==> Seen(ms, OfAccount(k))
  }

  /** The state of one transaction: its index if it has arrived, otherwise exactly the first arrivals of
      its accounts, each once. */
  ghost predicate TransactionIs(b: DedupBank, ms: seq<Msg>, s: Signature) {
    if Seen(ms, OfTransaction(s)) then
      s in b.transactions && b.transactions[s] == Index(First(ms, OfTransaction(s)).index + PHANTOM_SPACE)
    else
      && (s in b.transactions ==> b.transactions[s].Accounts?)
      && (forall a :: a in Waiting(b, s) <==> FirstSigned(ms, s, a))
      && AllAccounts(Waiting(b, s))
      && DistinctIds(Waiting(b, s))
  }

  ghost predicate EntryIs(b: DedupBank, ms: seq<Msg>, i: nat) {
    (i < |b.entries| && b.entries[i]) <==> Seen(ms, OfEntry(i))
  }

  ghost predicate Knows(b: DedupBank, ms: seq<Msg>) {
    && KeysAre(b, ms)
    && b.phantomIndex == Phantoms(ms)
    && (forall s :: TransactionIs(b, ms, s))
    && (forall i :: EntryIs(b, ms, i))
    && b.blockMeta == Seen(ms, OfMeta)
    && b.blockFooter == Seen(ms, OfFooter)
    && b.entryUpdateParent == Seen(ms, OfParent)
  }

  lemma KnowsAtFirst()
    ensures Knows(NEW_DEDUP_BANK, []) && Published([], [])
  {
  }

  /** A second delivery changes nothing and publishes nothing. */
  lemma AgainIsSilent(b: DedupBank, ms: seq<Msg>, m: Msg)
    requires Knows(b, ms) && Seen(ms, IdOf(m))
    ensures Knows(b, ms + [m]) && Due([], ms, m)
  {
    var ms' := ms + [m];
    assert ms'[..|ms|] == ms;
    forall id: Id
      ensures FirstAt(ms', id) == FirstAt(ms, id) && Final(ms', id) == Final(ms, id)
    {
      FinalStays(ms, m, id);
    }
    forall s: Signature
      ensures TransactionIs(b, ms', s)
    {
      assert TransactionIs(b, ms, s);
      TransactionStays(b, b, ms, m, s);
    }
    forall i: nat
      ensures EntryIs(b, ms', i)
    {
      assert EntryIs(b, ms, i);
    }
  }

  predicate Concerns(m: Msg, s: Signature) {
    (m.Transaction? && m.txSignature == s) || (m.Account? && m.signature == Some(s))
  }

  /** A transaction whose own messages do not arrive keeps its state. */
  lemma TransactionStays(b: DedupBank, b': DedupBank, ms: seq<Msg>, m: Msg, s: Signature)
    requires TransactionIs(b, ms, s)
    requires s in b.transactions <==> s in b'.transactions
    requires s in b.transactions ==> b.transactions[s] == b'.transactions[s]
    requires Seen(ms, IdOf(m)) || !Concerns(m, s)
    ensures TransactionIs(b', ms + [m], s)
  {
    FinalStays(ms, m, OfTransaction(s));
    forall a: Msg
      ensures FirstSigned(ms + [m], s, a) <==> FirstSigned(ms, s, a)
    {
      if a.Account? && a.signature == Some(s) {
        FinalStays(ms, m, IdOf(a));
      }
    }
  }

  /** The arrival of anything but a transaction makes at most itself due. */
  lemma OnlyItselfIsDue(ms: seq<Msg>, m: Msg)
    requires !m.Transaction? && !Seen(ms, IdOf(m))
    ensures var r := Final(ms + [m], IdOf(m)); Due(if r.Some? then [r.value] else [], ms, m)
  {
    hide Final, Seen, FirstAt;
    var r := Final(ms + [m], IdOf(m));
    var out: seq<Msg> := if r.Some? then [r.value] else [];
    forall x: Msg
      ensures x in out <==> IsFinal(ms + [m], x) && !IsFinal(ms, x)
    {
      FinalStays(ms, m, IdOf(x));
      if IdOf(x) != IdOf(m) {
        FinalStaysForOthers(ms, m, IdOf(x));
      }
    }
  }

  lemma FinalStaysForOthers(ms: seq<Msg>, m: Msg, id: Id)
    requires id != IdOf(m)
    requires m.Transaction? ==> !(id.OfAccount? && id.key.signature == Some(m.txSignature))
    ensures Final(ms + [m], id) == Final(ms, id)
  {
    FinalStays(ms, m, id);
    if id.OfAccount? && id.key.signature.Some? {
      FinalStays(ms, m, OfTransaction(id.key.signature.value));
    }
    if Seen(ms, id) {
      assert (ms + [m])[..FirstAt(ms, id).value] == ms[..FirstAt(ms, id).value];
    }
  }

  /** The parts of the record that an arrival does not concern. */
  lemma RestStays(b: DedupBank, b': DedupBank, ms: seq<Msg>, m: Msg)
    requires Knows(b, ms)
    ensures !m.Account? && b'.accountsUpdates == b.accountsUpdates ==> KeysAre(b', ms + [m])
    ensures !Unsigned(IdOf(m)) ==> Phantoms(ms + [m]) == Phantoms(ms)
    ensures !m.Account? && !m.Transaction? && b'.transactions == b.transactions ==>
              forall s :: TransactionIs(b', ms + [m], s)
    ensures !m.Entry? && b'.entries == b.entries ==> forall i :: EntryIs(b', ms + [m], i)
    ensures !m.BlockMeta? ==> Seen(ms + [m], OfMeta) == Seen(ms, OfMeta)
    ensures !m.BlockFooter? ==> Seen(ms + [m], OfFooter) == Seen(ms, OfFooter)
    ensures !m.EntryUpdateParent? ==> Seen(ms + [m], OfParent) == Seen(ms, OfParent)
  {
    assert (ms + [m])[..|ms|] == ms;
    forall id: Id
      ensures FirstAt(ms + [m], id) == if Seen(ms, id) then FirstAt(ms, id)
            else if IdOf(m) == id then Some(|ms|) else None
    {
      FinalStays(ms, m, id);
    }
    if !m.Account? && !m.Transaction? && b'.transactions == b.transactions {
      forall s: Signature
        ensures TransactionIs(b', ms + [m], s)
      {
        TransactionStays(b, b', ms, m, s);
      }
    }
    if !m.Entry? && b'.entries == b.entries {
      forall i: nat
        ensures EntryIs(b', ms + [m], i)
      {
        assert EntryIs(b, ms, i);
      }
    }
  }

  lemma AccountIsRight(b: DedupBank, ms: seq<Msg>, m: Msg)
    requires m.Account? && Knows(b, ms) && !Seen(ms, IdOf(m))
    ensures var (b', out) := AcceptAccount(b, m); Knows(b', ms + [m]) && Due(out, ms, m)
  {
    var (b', out) := AcceptAccount(b, m);
    var ms' := ms + [m];
    assert ms'[..|ms|] == ms;
    RestStays(b, b', ms, m);
    OnlyItselfIsDue(ms, m);
    FinalStays(ms, m, IdOf(m));
    forall k: AccountKey
      ensures k in b'.accountsUpdates <==> Seen(ms', OfAccount(k))
    {
      FinalStays(ms, m, OfAccount(k));
    }
    forall s: Signature
      ensures TransactionIs(b', ms', s)
    {
      AccountTransactionIs(b, ms, m, s);
    }
    if m.signature.Some? {
      assert TransactionIs(b, ms, m.signature.value);
      FinalStays(ms, m, OfTransaction(m.signature.value));
    }
  }

  lemma AccountTransactionIs(b: DedupBank, ms: seq<Msg>, m: Msg, s: Signature)
    requires m.Account? && Knows(b, ms) && !Seen(ms, IdOf(m))
    ensures TransactionIs(AcceptAccount(b, m).0, ms + [m], s)
  {
    hide Phantoms, Final;
    assert TransactionIs(b, ms, s);
    if m.signature != Some(s) {
      TransactionStays(b, AcceptAccount(b, m).0, ms, m, s);
    } else if Seen(ms, OfTransaction(s)) {
      FinalStays(ms, m, OfTransaction(s));
    } else {
      WaitingGrows(b, ms, m, s, Waiting(b, s) + [m]);
    }
  }

  lemma WaitingGrows(b: DedupBank, ms: seq<Msg>, m: Msg, s: Signature, waiting: seq<Msg>)
    requires m.Account? && m.signature == Some(s) && !Seen(ms, IdOf(m))
    requires TransactionIs(b, ms, s) && !Seen(ms, OfTransaction(s)) && waiting == Waiting(b, s) + [m]
    ensures !Seen(ms + [m], OfTransaction(s)) && AllAccounts(waiting) && DistinctIds(waiting)
    ensures forall a :: a in waiting <==> FirstSigned(ms + [m], s, a)
  {
    hide FirstSigned, FirstAt, Phantoms, Final;
    FinalStays(ms, m, OfTransaction(s));
    forall a: Msg
      ensures a in waiting <==> FirstSigned(ms + [m], s, a)
    {
      assert a in Waiting(b, s) <==> FirstSigned(ms, s, a);
      FirstSignedGrows(ms, m, s, a);
    }
    forall i | 0 <= i < |Waiting(b, s)|
      ensures IdOf(Waiting(b, s)[i]) != IdOf(m)
    {
      assert Waiting(b, s)[i] in Waiting(b, s);
      FirstSignedGrows(ms, m, s, Waiting(b, s)[i]);
    }
  }

  lemma FirstSignedGrows(ms: seq<Msg>, m: Msg, s: Signature, a: Msg)
    requires m.Account? && m.signature == Some(s) && !Seen(ms, IdOf(m))
    ensures FirstSigned(ms + [m], s, a) <==> FirstSigned(ms, s, a) || a == m
    ensures FirstSigned(ms, s, a) ==> IdOf(a) != IdOf(m)
  {
    hide Phantoms, Final;
    FinalStays(ms, m, IdOf(a));
  }

  lemma TransactionIsRight(b: DedupBank, ms: seq<Msg>, m: Msg)
    requires m.Transaction? && Knows(b, ms) && !Seen(ms, IdOf(m))
    ensures var (b', out) := AcceptTransaction(b, m); Knows(b', ms + [m]) && Due(out, ms, m)
  {
    assert TransactionIs(b, ms, m.txSignature);
    var (b', out) := AcceptTransaction(b, m);
    RestStays(b, b', ms, m);
    forall s: Signature
      ensures TransactionIs(b', ms + [m], s)
    {
      assert TransactionIs(b, ms, s);
      FinalStays(ms, m, OfTransaction(s));
      if s != m.txSignature {
        TransactionStays(b, b', ms, m, s);
      }
    }
    DrainedIsDue(b, ms, m);
  }

  lemma DrainedIsDue(b: DedupBank, ms: seq<Msg>, m: Msg)
    requires m.Transaction? && TransactionIs(b, ms, m.txSignature) && !Seen(ms, IdOf(m))
    ensures Due(AcceptTransaction(b, m).1, ms, m)
  {
    hide Final, Phantoms;
    var s, version := m.txSignature, m.index + PHANTOM_SPACE;
    var drained := Drained(Waiting(b, s), version);
    FinalOfTransaction(ms, m);
    forall x: Msg
      ensures x in drained + [m] <==> IsFinal(ms + [m], x) && !IsFinal(ms, x)
    {
      DrainedIff(b, ms, m, drained, x);
      FinalStays(ms, m, IdOf(x));
      if !(x.Account? && x.signature == Some(s)) && IdOf(x) != IdOf(m) {
        FinalStaysForOthers(ms, m, IdOf(x));
      }
    }
    forall i | 0 <= i < |drained|
      ensures IdOf(drained[i]) == IdOf(Waiting(b, s)[i]) && IdOf(drained[i]) != IdOf(m)
    {
    }
  }

  lemma FinalOfTransaction(ms: seq<Msg>, m: Msg)
    requires m.Transaction? && !Seen(ms, IdOf(m))
    ensures Final(ms + [m], IdOf(m)) == Some(m)
  {
    FinalStays(ms, m, IdOf(m));
  }

  /** The drained accounts are the accounts that the transaction makes due. */
  lemma DrainedIff(b: DedupBank, ms: seq<Msg>, m: Msg, drained: seq<Msg>, x: Msg)
    requires m.Transaction? && TransactionIs(b, ms, m.txSignature) && !Seen(ms, IdOf(m))
    requires drained == Drained(Waiting(b, m.txSignature), m.index + PHANTOM_SPACE)
    ensures x in drained ==> x.Account? && x.signature == Some(m.txSignature)
    ensures x.Account? && x.signature == Some(m.txSignature) ==>
              (x in drained <==> IsFinal(ms + [m], x)) && !IsFinal(ms, x)
  {
    hide Phantoms;
    var s, version, waiting := m.txSignature, m.index + PHANTOM_SPACE, Waiting(b, m.txSignature);
    FinalStays(ms, m, IdOf(m));
    FinalStays(ms, m, IdOf(x));
    if x in drained {
      var i :| 0 <= i < |drained| && drained[i] == x;
      assert waiting[i] in waiting;
      assert FirstSigned(ms, s, waiting[i]) && IdOf(x) == IdOf(waiting[i]);
    }
    if x.Account? && x.signature == Some(s) && IsFinal(ms + [m], x) {
      var a := First(ms, IdOf(x));
      assert FirstSigned(ms, s, a);
      var i :| 0 <= i < |waiting| && waiting[i] == a;
      assert drained[i] == x;
    }
  }

  lemma EntryIsRight(b: DedupBank, ms: seq<Msg>, m: Msg)
    requires m.Entry? && Knows(b, ms) && AcceptEntry(b, m).Some?
    ensures var (b', out) := AcceptEntry(b, m).value; Knows(b', ms + [m]) && Due(out, ms, m)
  {
    hide Final, FirstAt, Phantoms, TransactionIs, KeysAre, IsPowerOfTwo, NextPowerOfTwo;
    var (b', out) := AcceptEntry(b, m).value;
    RestStays(b, b', ms, m);
    assert EntryIs(b, ms, m.index);
    FinalStays(ms, m, IdOf(m));
    forall i: nat
      ensures EntryIs(b', ms + [m], i)
    {
      assert EntryIs(b, ms, i);
      FinalStays(ms, m, OfEntry(i));
    }
    if Seen(ms, IdOf(m)) {
      AgainIsSilent(b, ms, m);
    } else {
      OnlyItselfIsDue(ms, m);
      FinalOfEntry(ms + [m], m.index);
    }
  }

  lemma FinalOfEntry(ms: seq<Msg>, index: nat)
    ensures Seen(ms, OfEntry(index)) ==> Final(ms, OfEntry(index)) == Some(First(ms, OfEntry(index)))
  {
  }

  /** Every arrival: the record knows it, and what is published is exactly what became due. */
  lemma AcceptIsRight(b: DedupBank, ms: seq<Msg>, m: Msg)
    requires Knows(b, ms)
    ensures Accept(b, m).Some? ==> var (b', out) := Accept(b, m).value; Knows(b', ms + [m]) && Due(out, ms, m)
  {
    match m
    case Account(_, _, _, _, _, _) =>
      if Seen(ms, IdOf(m)) { AgainIsSilent(b, ms, m); } else { AccountIsRight(b, ms, m); }
    case Transaction(_, _, s, _, _) =>
      assert TransactionIs(b, ms, s);
      if Seen(ms, IdOf(m)) { AgainIsSilent(b, ms, m); } else { TransactionIsRight(b, ms, m); }
    case Entry(_, _, _, _) =>
      if AcceptEntry(b, m).Some? { EntryIsRight(b, ms, m); }
    case BlockMeta(_, _, _, _, _) => FlagIsRight(b, ms, m);
    case BlockFooter(_, _, _) => FlagIsRight(b, ms, m);
    case EntryUpdateParent(_, _, _) => FlagIsRight(b, ms, m);
    case _ =>
  }

  lemma FlagIsRight(b: DedupBank, ms: seq<Msg>, m: Msg)
    requires (m.BlockMeta? || m.BlockFooter? || m.EntryUpdateParent?) && Knows(b, ms)
    ensures var (b', out) := Accept(b, m).value; Knows(b', ms + [m]) && Due(out, ms, m)
  {
    hide Final, FirstAt, TransactionIs, KeysAre, Phantoms;
    RestStays(b, Accept(b, m).value.0, ms, m);
    FinalStays(ms, m, IdOf(m));
    if Seen(ms, IdOf(m)) {
      AgainIsSilent(b, ms, m);
    } else {
      OnlyItselfIsDue(ms, m);
      FinalOfFlag(ms + [m], IdOf(m));
    }
  }

  lemma FinalOfFlag(ms: seq<Msg>, id: Id)
    requires id.OfMeta? || id.OfFooter? || id.OfParent?
    ensures Seen(ms, id) ==> Final(ms, id) == Some(First(ms, id))
  {
  }

  /** Among the kinds that reach a bank only an entry can panic, exactly if growing the bitmap makes no room for it. */
  lemma AcceptPanics(b: DedupBank, m: Msg)
    ensures Accept(b, m).None? <==>
      m.SlotStatus? || m.Block? || (m.Entry? && m.index >= |b.entries| && IsPowerOfTwo(m.index)
            && m.index >= 2 * |b.entries|)
  {
    if m.Entry? {
      GrownCovers(|b.entries|, m.index);
    }
  }

  // ----- whole runs -----

  /** The record and everything published after the arrivals `ms`; None after a panic. */
  ghost function Run(ms: seq<Msg>): Option<(DedupBank, seq<Msg>)> {
    if ms == [] then Some((NEW_DEDUP_BANK, []))
    else
      var n := |ms| - 1;
      var before := Run(ms[..n]);
      if before.None? then None
      else
        var step := Accept(before.value.0, ms[n]);
        if step.None? then None else Some((step.value.0, before.value.1 + step.value.1))
  }

  /** Exactly once: after any arrivals the log holds each message that is due once and nothing else. */
  lemma {:induction false} RunPublishes(ms: seq<Msg>)
    requires Run(ms).Some?
    ensures var (b, log) := Run(ms).value; Knows(b, ms) && Published(log, ms)
  {
    if ms == [] {
      KnowsAtFirst();
    } else {
      var n := |ms| - 1;
      RunPublishes(ms[..n]);
      var (b, log) := Run(ms[..n]).value;
      AcceptIsRight(b, ms[..n], ms[n]);
      LogGrows(log, ms[..n], ms[n], Accept(b, ms[n]).value.1);
      assert ms == ms[..n] + [ms[n]];
    }
  }

  /** The accounts still buffered are exactly the first arrivals whose transaction has not arrived. */
  lemma BufferedAreWaiting(ms: seq<Msg>, s: Signature, a: Msg)
    requires Run(ms).Some?
    ensures a in Waiting(Run(ms).value.0, s) <==> FirstSigned(ms, s, a) && !Seen(ms, OfTransaction(s))
  {
    RunPublishes(ms);
    assert TransactionIs(Run(ms).value.0, ms, s);
  }

  // ----- confluence -----

  /** The same message up to the write version that its source gave it. */
  predicate SameMessage(a: Msg, b: Msg) {
    if a.Account? && b.Account? then Versioned(a, 0) == Versioned(b, 0) else a == b
  }

  /** Deliveries with the same identity are deliveries of the same message. */
  ghost predicate Coherent(ms: seq<Msg>, ns: seq<Msg>) {
    forall i, j :: 0 <= i < |ms| && 0 <= j < |ns| && IdOf(ms[i]) == IdOf(ns[j]) ==> SameMessage(ms[i], ns[j])
  }

  /** Each message of `ms` is delivered in `ns` too. */
  ghost predicate DeliveredIn(ms: seq<Msg>, ns: seq<Msg>) {
    forall i :: 0 <= i < |ms| ==> Seen(ns, IdOf(ms[i]))
  }

  lemma SeenIn(ms: seq<Msg>, ns: seq<Msg>, id: Id)
    requires DeliveredIn(ms, ns) && Seen(ms, id)
    ensures Seen(ns, id)
  {
    assert Seen(ns, IdOf(ms[FirstAt(ms, id).value]));
  }

  lemma FinalAgrees(ms: seq<Msg>, ns: seq<Msg>, id: Id)
    requires DeliveredIn(ms, ns) && Coherent(ms, ns) && !Unsigned(id) && Final(ms, id).Some?
    ensures Final(ns, id) == Final(ms, id)
  {
    SeenIn(ms, ns, id);
    assert SameMessage(First(ms, id), First(ns, id));
    if id.OfAccount? {
      var tx := OfTransaction(id.key.signature.value);
      SeenIn(ms, ns, tx);
      assert SameMessage(First(ms, tx), First(ns, tx));
    }
  }

  /** Confluence: whatever the order and however often each message is delivered, and by whom, the same
      messages are published, all but the unsigned accounts down to the write version. */
  lemma Confluent(ms: seq<Msg>, ns: seq<Msg>, x: Msg)
    requires Run(ms).Some? && Run(ns).Some?
    requires DeliveredIn(ms, ns) && DeliveredIn(ns, ms) && Coherent(ms, ns)
    requires !Unsigned(IdOf(x))
    ensures x in Run(ms).value.1 <==> x in Run(ns).value.1
  {
    hide Run, Coherent, DeliveredIn, Final;
    PublishedIsFinal(ms, x);
    PublishedIsFinal(ns, x);
    FinalsAgree(ms, ns, IdOf(x));
  }

  lemma PublishedIsFinal(ms: seq<Msg>, x: Msg)
    requires Run(ms).Some?
    ensures x in Run(ms).value.1 <==> Final(ms, IdOf(x)) == Some(x)
  {
    RunPublishes(ms);
    assert x in Run(ms).value.1 <==> IsFinal(ms, x);
  }

  lemma CoherentFlips(ms: seq<Msg>, ns: seq<Msg>)
    requires Coherent(ms, ns)
    ensures Coherent(ns, ms)
  {
    forall i, j | 0 <= i < |ns| && 0 <= j < |ms| && IdOf(ns[i]) == IdOf(ms[j])
      ensures SameMessage(ns[i], ms[j])
    {
      assert SameMessage(ms[j], ns[i]);
    }
  }

  lemma FinalsAgree(ms: seq<Msg>, ns: seq<Msg>, id: Id)
    requires DeliveredIn(ms, ns) && DeliveredIn(ns, ms) && Coherent(ms, ns) && !Unsigned(id)
    ensures Final(ns, id) == Final(ms, id)
  {
    hide Coherent, DeliveredIn, Final;
    if Final(ms, id).Some? {
      FinalAgrees(ms, ns, id);
    } else if Final(ns, id).Some? {
      CoherentFlips(ms, ns);
      FinalAgrees(ns, ms, id);
    }
  }

  /** Unsigned accounts are published in both runs as well, as the same messages; only their write version, the
      rank among the unsigned accounts, is that of the run. */
  lemma ConfluentUnsigned(ms: seq<Msg>, ns: seq<Msg>, x: Msg) returns (y: Msg)
    requires Run(ms).Some? && Run(ns).Some?
    requires DeliveredIn(ms, ns) && Coherent(ms, ns)
    requires Unsigned(IdOf(x)) && x in Run(ms).value.1
    ensures y in Run(ns).value.1 && IdOf(y) == IdOf(x) && SameMessage(x, y)
  {
    hide Run;
    PublishedIsFinal(ms, x);
    SeenIn(ms, ns, IdOf(x));
    assert SameMessage(First(ms, IdOf(x)), First(ns, IdOf(x)));
    y := Final(ns, IdOf(x)).value;
    PublishedIsFinal(ns, y);
  }

  lemma {:induction false} NotSeenBefore(ms: seq<Msg>, id: Id)
    requires Seen(ms, id)
    ensures !Seen(ms[..FirstAt(ms, id).value], id)
  {
    var n := |ms| - 1;
    if Seen(ms[..n], id) {
      NotSeenBefore(ms[..n], id);
      assert ms[..n][..FirstAt(ms, id).value] == ms[..FirstAt(ms, id).value];
    }
  }

  lemma {:induction false} PhantomsGrow(ms: seq<Msg>, i: nat, j: nat)
    requires i <= j <= |ms|
    ensures Phantoms(ms[..i]) <= Phantoms(ms[..j])
    decreases j
  {
    if i < j {
      PhantomsGrow(ms, i, j - 1);
      assert ms[..j][..j - 1] == ms[..j - 1];
    }
  }

  /** The first arrival of an unsigned account makes room for the next rank. */
  lemma RankTaken(ms: seq<Msg>, id: Id, j: nat)
    requires Unsigned(id) && Seen(ms, id) && FirstAt(ms, id).value < j <= |ms|
    ensures Phantoms(ms[..FirstAt(ms, id).value]) < Phantoms(ms[..j])
  {
    var i := FirstAt(ms, id).value;
    NotSeenBefore(ms, id);
    assert ms[..i + 1][..i] == ms[..i];
    PhantomsGrow(ms, i + 1, j);
  }

  /** Unsigned accounts get different ranks, all below the number of unsigned accounts. */
  lemma RanksDiffer(ms: seq<Msg>, x: Msg, y: Msg)
    requires Run(ms).Some? && x in Run(ms).value.1 && y in Run(ms).value.1
    requires Unsigned(IdOf(x)) && Unsigned(IdOf(y)) && IdOf(x) != IdOf(y)
    ensures x.writeVersion != y.writeVersion && x.writeVersion < Phantoms(ms)
  {
    hide Run, Phantoms;
    PublishedIsFinal(ms, x);
    PublishedIsFinal(ms, y);
    var i, j := FirstAt(ms, IdOf(x)).value, FirstAt(ms, IdOf(y)).value;
    assert ms[..|ms|] == ms;
    RankTaken(ms, IdOf(x), |ms|);
    if i < j {
      RankTaken(ms, IdOf(x), j);
    } else {
      assert i != j;
      RankTaken(ms, IdOf(y), i);
    }
  }

  // ----- the record that the source mutates -----

  class DedupInfoBank {
    var accountsUpdates: set<AccountKey>
    var phantomIndex: nat
    var transactions: map<Signature, TransactionIndex>
    var entries: seq<bool>
    var blockMeta: bool
    var blockFooter: bool
    var entryUpdateParent: bool

    ghost var arrivals: seq<Msg>
    ghost var log: seq<Msg>

    ghost function View(): DedupBank
      reads this
    {
      DedupBank(accountsUpdates, phantomIndex, transactions, entries, blockMeta, blockFooter, entryUpdateParent)
    }

    ghost predicate Valid()
      reads this
    {
      Knows(View(), arrivals) && Published(log, arrivals)
    }

    constructor ()
      ensures Valid() && arrivals == [] && log == [] && View() == NEW_DEDUP_BANK
    {
      accountsUpdates, phantomIndex, transactions := {}, 0, map[];
      entries := Zeros(256);
      blockMeta, blockFooter, entryUpdateParent := false, false, false;
      arrivals, log := [], [];
      new;
      KnowsAtFirst();
    }

    /** One message of a bank as the dedup branch of `push` handles it. */
    method Offer(m: Msg) returns (panicked: bool, messages: seq<Msg>)
      requires Valid()
      modifies this
      ensures panicked <==> Accept(old(View()), m).None?
      ensures !panicked ==> Accept(old(View()), m) == Some((View(), messages))
      ensures !panicked ==> Valid() && arrivals == old(arrivals) + [m] && log == old(log) + messages
    {
      hide Knows, Published, Due;
      ghost var before := View();
      panicked, messages := Filter(m);
      if !panicked {
        AcceptIsRight(before, arrivals, m);
        LogGrows(log, arrivals, m, messages);
        arrivals, log := arrivals + [m], log + messages;
      }
    }

    method Filter(m: Msg) returns (panicked: bool, messages: seq<Msg>)
      modifies this
      ensures arrivals == old(arrivals) && log == old(log)
      ensures panicked <==> Accept(old(View()), m).None?
      ensures !panicked ==> Accept(old(View()), m) == Some((View(), messages))
    {
      panicked, messages := false, [];
      match m {
        case Account(_, _, _, _, _, _) => messages := FilterAccount(m);
        case Transaction(_, _, _, _, _) => messages := FilterTransaction(m);
        case Entry(_, _, index, _) =>
          if |entries| <= index {
            var grown := Grown(|entries|, index);
            if index >= grown {
              return true, [];
            }
            entries := Resized(entries, grown);
          } else {
            assert Resized(entries, |entries|) == entries;
          }
          if !entries[index] {
            entries := entries[index := true];
            messages := [m];
          }
        case BlockMeta(_, _, _, _, _) =>
          if !blockMeta {
            blockMeta, messages := true, [m];
          }
        case BlockFooter(_, _, _) =>
          if !blockFooter {
            blockFooter, messages := true, [m];
          }
        case EntryUpdateParent(_, _, _) =>
          if !entryUpdateParent {
            entryUpdateParent, messages := true, [m];
          }
        case _ => panicked := true;
      }
    }

    method FilterAccount(m: Msg) returns (messages: seq<Msg>)
      requires m.Account?
      modifies this
      ensures arrivals == old(arrivals) && log == old(log)
      ensures AcceptAccount(old(View()), m) == (View(), messages)
    {
      messages := [];
      if KeyOf(m) in accountsUpdates {
        return;
      }
      accountsUpdates := accountsUpdates + {KeyOf(m)};
      if m.signature.None? {
        messages := [Versioned(m, phantomIndex)];
        phantomIndex := phantomIndex + 1;
        return;
      }
      var s := m.signature.value;
      if s !in transactions {
        assert Waiting(old(View()), s) + [m] == [m];
        transactions := transactions[s := Accounts([m])];
      } else if transactions[s].Index? {
        messages := [Versioned(m, transactions[s].index)];
      } else {
        transactions := transactions[s := Accounts(transactions[s].waiting + [m])];
      }
    }

    method FilterTransaction(m: Msg) returns (messages: seq<Msg>)
      requires m.Transaction?
      modifies this
      ensures arrivals == old(arrivals) && log == old(log)
      ensures AcceptTransaction(old(View()), m) == (View(), messages)
    {
      messages := [];
      var s, index := m.txSignature, m.index + PHANTOM_SPACE;
      if s !in transactions {
        transactions := transactions[s := Index(index)];
        messages := [m];
        assert Drained(Waiting(old(View()), s), index) + [m] == [m];
      } else if transactions[s].Accounts? {
        var waiting := transactions[s].waiting;
        var i := 0;
        while i < |waiting|
          invariant 0 <= i <= |waiting|
          invariant messages == Drained(waiting[..i], index)
        {
          messages := messages + [Versioned(waiting[i], index)];
          i := i + 1;
        }
        assert waiting[..i] == waiting;
        transactions := transactions[s := Index(index)];
        messages := messages + [m];
      }
    }
  }
}
