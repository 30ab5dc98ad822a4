/** Dedup in terms of the fields of the messages alone: what is published of each account, transaction, entry and
    other message of a bank, over any arrivals in any order. */
module DedupLaws {
  import opened Basics
  import opened Messages
  import opened Dedup

  predicate IsAccount(m: Msg, signature: Option<Signature>, pubkey: Pubkey) {
    m.Account? && m.signature == signature && m.pubkey == pubkey
  }

  predicate IsTransaction(m: Msg, signature: Signature) {
    m.Transaction? && m.txSignature == signature
  }

  predicate IsEntry(m: Msg, index: nat) {
    m.Entry? && m.index == index
  }

  /** Position i is the first at which the test holds. */
  ghost predicate FirstOf(ms: seq<Msg>, test: Msg -> bool, i: nat) {
    i < |ms| && test(ms[i]) && forall k :: 0 <= k < i ==> !test(ms[k])
  }

  /** Exactly one message of the log passes the test, and it is `x`. */
  ghost predicate OnlyOne(log: seq<Msg>, test: Msg -> bool, x: Msg) {
    && test(x)
    && exists k :: OnlyAt(log, test, x, k)
  }

  ghost predicate OnlyAt(log: seq<Msg>, test: Msg -> bool, x: Msg, k: nat) {
    k < |log| && log[k] == x && forall l :: 0 <= l < |log| && test(log[l]) ==> l == k
  }

  ghost predicate NoneOf(log: seq<Msg>, test: Msg -> bool) {
    forall l :: 0 <= l < |log| ==> !test(log[l])
  }

  /** The test is the test for one identity. */
  ghost predicate TestsFor(test: Msg -> bool, id: Id) {
    forall m :: test(m) <==> IdOf(m) == id
  }

  lemma {:induction false} FirstOfIsFirstAt(ms: seq<Msg>, test: Msg -> bool, id: Id, i: nat)
    requires TestsFor(test, id) && FirstOf(ms, test, i)
    ensures FirstAt(ms, id) == Some(i)
  {
    var n := |ms| - 1;
    if i < n {
      FirstOfIsFirstAt(ms[..n], test, id, i);
    } else {
      NoneOfIsUnseen(ms[..n], test, id);
    }
  }

  lemma {:induction false} NoneOfIsUnseen(ms: seq<Msg>, test: Msg -> bool, id: Id)
    requires TestsFor(test, id) && NoneOf(ms, test)
    ensures FirstAt(ms, id) == None
  {
    if ms != [] {
      NoneOfIsUnseen(ms[..|ms| - 1], test, id);
    }
  }

  /** What is final for an identity is published once, and nothing else of it. */
  lemma FinalIsOnly(log: seq<Msg>, ms: seq<Msg>, test: Msg -> bool, id: Id)
    requires Published(log, ms) && TestsFor(test, id)
    ensures Final(ms, id).Some? ==> OnlyOne(log, test, Final(ms, id).value)
    ensures Final(ms, id).None? ==> NoneOf(log, test)
  {
    hide Final, IdOf;
    forall l | 0 <= l < |log| && test(log[l])
      ensures Final(ms, id) == Some(log[l])
    {
      assert log[l] in log;
      assert IsFinal(ms, log[l]);
    }
    if Final(ms, id).Some? {
      var x := Final(ms, id).value;
      assert IsFinal(ms, x);
      var k :| 0 <= k < |log| && log[k] == x;
      assert OnlyAt(log, test, x, k);
    }
  }

  // ----- accounts of transactions; `log` is what has been published after the arrivals `ms` -----

  /** Once a transaction has arrived, each account that has arrived with its signature has exactly one published
      account with that signature and pubkey: its first arrival, with the version that the first such transaction
      gives it. */
  lemma SignedAccountIsPublished(log: seq<Msg>, ms: seq<Msg>, s: Signature, p: Pubkey, i: nat, j: nat)
    requires Published(log, ms)
    requires FirstOf(ms, m => IsAccount(m, Some(s), p), i) && FirstOf(ms, m => IsTransaction(m, s), j)
    ensures OnlyOne(log, m => IsAccount(m, Some(s), p), ms[i].(writeVersion := ms[j].index + 1000))
  {
    var id, tx := OfAccount(AccountKey(Some(s), p)), OfTransaction(s);
    FirstOfIsFirstAt(ms, m => IsAccount(m, Some(s), p), id, i);
    FirstOfIsFirstAt(ms, m => IsTransaction(m, s), tx, j);
    FinalIsOnly(log, ms, m => IsAccount(m, Some(s), p), id);
  }

  /** Before that, and without an arrival, there is none. */
  lemma SignedAccountIsHeldBack(log: seq<Msg>, ms: seq<Msg>, s: Signature, p: Pubkey)
    requires Published(log, ms)
    requires NoneOf(ms, m => IsAccount(m, Some(s), p)) || NoneOf(ms, m => IsTransaction(m, s))
    ensures NoneOf(log, m => IsAccount(m, Some(s), p))
  {
    var id, tx := OfAccount(AccountKey(Some(s), p)), OfTransaction(s);
    if NoneOf(ms, m => IsAccount(m, Some(s), p)) {
      NoneOfIsUnseen(ms, m => IsAccount(m, Some(s), p), id);
    } else {
      NoneOfIsUnseen(ms, m => IsTransaction(m, s), tx);
    }
    FinalIsOnly(log, ms, m => IsAccount(m, Some(s), p), id);
  }

  /** The same over any run of the record of a bank. */
  lemma RunOfSignedAccounts(ms: seq<Msg>, s: Signature, p: Pubkey, i: nat, j: nat)
    requires Run(ms).Some?
    requires FirstOf(ms, m => IsAccount(m, Some(s), p), i)
    ensures FirstOf(ms, m => IsTransaction(m, s), j) ==>
              OnlyOne(Run(ms).value.1, m => IsAccount(m, Some(s), p), ms[i].(writeVersion := ms[j].index + 1000))
    ensures NoneOf(ms, m => IsTransaction(m, s)) ==> NoneOf(Run(ms).value.1, m => IsAccount(m, Some(s), p))
  {
    hide Run;
    RunPublishes(ms);
    if FirstOf(ms, m => IsTransaction(m, s), j) {
      SignedAccountIsPublished(Run(ms).value.1, ms, s, p, i, j);
    }
    if NoneOf(ms, m => IsTransaction(m, s)) {
      SignedAccountIsHeldBack(Run(ms).value.1, ms, s, p);
    }
  }

  /** The accounts of a transaction, each as it first arrived, in order of arrival. */
  ghost function AccountsOf(ms: seq<Msg>, s: Signature): (r: seq<Msg>)
    ensures forall i :: 0 <= i < |r| ==> r[i].Account?
  {
    if ms == [] then []
    else
      var n := |ms| - 1;
      AccountsOf(ms[..n], s)
      + if IsNewAccount(ms[..n], ms[n], s) then [ms[n]] else []
  }

  ghost predicate IsNewAccount(ms: seq<Msg>, m: Msg, s: Signature) {
    m.Account? && m.signature == Some(s) && NoneOf(ms, a => IsAccount(a, Some(s), m.pubkey))
  }

  lemma NewAccountIsUnseen(b: DedupBank, ms: seq<Msg>, m: Msg, s: Signature)
    requires Knows(b, ms) && m.Account? && m.signature == Some(s)
    ensures AccountKey(m.signature, m.pubkey) in b.accountsUpdates <==> !IsNewAccount(ms, m, s)
  {
    var id := OfAccount(AccountKey(Some(s), m.pubkey));
    if NoneOf(ms, a => IsAccount(a, Some(s), m.pubkey)) {
      NoneOfIsUnseen(ms, a => IsAccount(a, Some(s), m.pubkey), id);
    } else {
      var i :| 0 <= i < |ms| && IsAccount(ms[i], Some(s), m.pubkey);
      FirstAtIsFirst(ms, id, i);
    }
  }

  /** Until their transaction arrives the accounts wait in order of arrival. */
  lemma {:induction false} WaitingInOrder(ms: seq<Msg>, s: Signature)
    requires Run(ms).Some? && NoneOf(ms, m => IsTransaction(m, s))
    ensures var b := Run(ms).value.0;
      Waiting(b, s) == AccountsOf(ms, s) && !(s in b.transactions && b.transactions[s].Index?)
  {
    hide Knows, IsNewAccount, Published;
    if ms != [] {
      var n := |ms| - 1;
      var b, m := Run(ms[..n]).value.0, ms[n];
      WaitingInOrder(ms[..n], s);
      RunPublishes(ms[..n]);
      if m.Account? && m.signature == Some(s) {
        NewAccountIsUnseen(b, ms[..n], m, s);
      } else {
        OthersDoNotWait(b, ms[..n], m, s);
      }
    }
  }

  lemma OthersDoNotWait(b: DedupBank, ms: seq<Msg>, m: Msg, s: Signature)
    requires !IsAccountOf(m, s) && !IsTransaction(m, s) && Accept(b, m).Some?
    ensures var b' := Accept(b, m).value.0;
      && Waiting(b', s) == Waiting(b, s) && (s in b'.transactions <==> s in b.transactions)
      && (s in b.transactions ==> b'.transactions[s] == b.transactions[s])
    ensures !IsNewAccount(ms, m, s)
  {
  }

  predicate IsAccountOf(m: Msg, s: Signature) {
    m.Account? && m.signature == Some(s)
  }

  /** When the transaction first arrives they are published in that order, right before it. */
  lemma ReleasedInOrder(ms: seq<Msg>, tx: Msg)
    requires Run(ms).Some? && tx.Transaction? && NoneOf(ms, m => IsTransaction(m, tx.txSignature))
    ensures Run(ms + [tx]).Some?
    ensures var waiting, log := AccountsOf(ms, tx.txSignature), Run(ms).value.1;
      var log' := Run(ms + [tx]).value.1;
      && |log'| == |log| + |waiting| + 1 && log'[..|log|] == log && log'[|log| + |waiting|] == tx
      && forall i :: 0 <= i < |waiting| ==> log'[|log| + i] == waiting[i].(writeVersion := tx.index + 1000)
  {
    hide Run, Accept, AccountsOf, NoneOf;
    WaitingInOrder(ms, tx.txSignature);
    var b, waiting := Run(ms).value.0, AccountsOf(ms, tx.txSignature);
    ReleaseIs(b, waiting, tx);
    RunStep(ms, tx);
    var log, out := Run(ms).value.1, Accept(b, tx).value.1;
    assert Run(ms + [tx]).value.1 == log + out;
    forall i | 0 <= i < |waiting|
      ensures (log + out)[|log| + i] == waiting[i].(writeVersion := tx.index + 1000)
    {
      assert (log + out)[|log| + i] == out[i];
    }
  }

  lemma ReleaseIs(b: DedupBank, waiting: seq<Msg>, tx: Msg)
    requires tx.Transaction? && Waiting(b, tx.txSignature) == waiting
    requires !(tx.txSignature in b.transactions && b.transactions[tx.txSignature].Index?)
    requires forall i :: 0 <= i < |waiting| ==> waiting[i].Account?
    ensures Accept(b, tx).Some?
    ensures var out := Accept(b, tx).value.1;
      && |out| == |waiting| + 1 && out[|waiting|] == tx
      && forall i :: 0 <= i < |waiting| ==> out[i] == waiting[i].(writeVersion := tx.index + 1000)
  {
  }

  lemma RunStep(ms: seq<Msg>, m: Msg)
    requires Run(ms).Some? && Accept(Run(ms).value.0, m).Some?
    ensures Run(ms + [m]).Some?
    ensures Run(ms + [m]).value.1 == Run(ms).value.1 + Accept(Run(ms).value.0, m).value.1
  {
    hide Accept;
    assert (ms + [m])[..|ms|] == ms;
  }

  // ----- accounts without a transaction -----

  /** The pubkeys of the unsigned accounts among the arrivals. */
  ghost function UnsignedPubkeys(ms: seq<Msg>): set<Pubkey> {
    set i | 0 <= i < |ms| && ms[i].Account? && ms[i].signature.None? :: ms[i].pubkey
  }

  lemma {:induction false} PhantomsArePubkeys(ms: seq<Msg>)
    ensures Phantoms(ms) == |UnsignedPubkeys(ms)|
  {
    if ms != [] {
      var n := |ms| - 1;
      PhantomsArePubkeys(ms[..n]);
      var before, m := UnsignedPubkeys(ms[..n]), ms[n];
      if m.Account? && m.signature.None? {
        assert UnsignedPubkeys(ms) == before + {m.pubkey};
        UnsignedIsSeen(ms[..n], m.pubkey);
      } else {
        assert UnsignedPubkeys(ms) == before;
      }
    }
  }

  lemma UnsignedIsSeen(ms: seq<Msg>, p: Pubkey)
    ensures Seen(ms, OfAccount(AccountKey(None, p))) <==> p in UnsignedPubkeys(ms)
  {
    if p in UnsignedPubkeys(ms) {
      var i :| 0 <= i < |ms| && ms[i].Account? && ms[i].signature.None? && ms[i].pubkey == p;
      FirstAtIsFirst(ms, OfAccount(AccountKey(None, p)), i);
    }
  }

  /** Each unsigned account that has arrived has exactly one published account with its pubkey: its first arrival,
      with the number of other unsigned pubkeys before it as its version. */
  lemma UnsignedAccountIsPublished(log: seq<Msg>, ms: seq<Msg>, p: Pubkey, i: nat)
    requires Published(log, ms) && FirstOf(ms, m => IsAccount(m, None, p), i)
    ensures OnlyOne(log, m => IsAccount(m, None, p), ms[i].(writeVersion := |UnsignedPubkeys(ms[..i])|))
  {
    hide Phantoms;
    var id := OfAccount(AccountKey(None, p));
    FirstOfIsFirstAt(ms, m => IsAccount(m, None, p), id, i);
    PhantomsArePubkeys(ms[..i]);
    FinalIsOnly(log, ms, m => IsAccount(m, None, p), id);
  }

  lemma RunOfUnsignedAccounts(ms: seq<Msg>, p: Pubkey, i: nat)
    requires Run(ms).Some? && FirstOf(ms, m => IsAccount(m, None, p), i)
    ensures OnlyOne(Run(ms).value.1, m => IsAccount(m, None, p), ms[i].(writeVersion := |UnsignedPubkeys(ms[..i])|))
  {
    hide Run, Phantoms;
    RunPublishes(ms);
    UnsignedAccountIsPublished(Run(ms).value.1, ms, p, i);
  }

  lemma UnsignedAccountNeedsArrival(log: seq<Msg>, ms: seq<Msg>, p: Pubkey)
    requires Published(log, ms) && NoneOf(ms, m => IsAccount(m, None, p))
    ensures NoneOf(log, m => IsAccount(m, None, p))
  {
    NoneOfIsUnseen(ms, m => IsAccount(m, None, p), OfAccount(AccountKey(None, p)));
    FinalIsOnly(log, ms, m => IsAccount(m, None, p), OfAccount(AccountKey(None, p)));
  }

  // ----- everything else -----

  /** A transaction is published once per signature, as it first arrived. */
  lemma TransactionIsPublished(log: seq<Msg>, ms: seq<Msg>, s: Signature)
    requires Published(log, ms)
    ensures NoneOf(ms, m => IsTransaction(m, s)) ==> NoneOf(log, m => IsTransaction(m, s))
    ensures forall j: nat :: FirstOf(ms, m => IsTransaction(m, s), j) ==>
              OnlyOne(log, m => IsTransaction(m, s), ms[j])
  {
    FirstIsOnly(log, ms, m => IsTransaction(m, s), OfTransaction(s));
  }

  /** An entry once per index. */
  lemma EntryIsPublished(log: seq<Msg>, ms: seq<Msg>, index: nat)
    requires Published(log, ms)
    ensures NoneOf(ms, m => IsEntry(m, index)) ==> NoneOf(log, m => IsEntry(m, index))
    ensures forall j: nat :: FirstOf(ms, m => IsEntry(m, index), j) ==> OnlyOne(log, m => IsEntry(m, index), ms[j])
  {
    FirstIsOnly(log, ms, m => IsEntry(m, index), OfEntry(index));
  }

  /** Block meta, footer and parent update once each. */
  lemma OnceEachIsPublished(log: seq<Msg>, ms: seq<Msg>)
    requires Published(log, ms)
    ensures forall j: nat :: FirstOf(ms, (m: Msg) => m.BlockMeta?, j) ==> OnlyOne(log, (m: Msg) => m.BlockMeta?, ms[j])
    ensures forall j: nat :: FirstOf(ms, (m: Msg) => m.BlockFooter?, j) ==>
              OnlyOne(log, (m: Msg) => m.BlockFooter?, ms[j])
    ensures forall j: nat :: FirstOf(ms, (m: Msg) => m.EntryUpdateParent?, j) ==>
              OnlyOne(log, (m: Msg) => m.EntryUpdateParent?, ms[j])
  {
    FirstIsOnly(log, ms, (m: Msg) => m.BlockMeta?, OfMeta);
    FirstIsOnly(log, ms, (m: Msg) => m.BlockFooter?, OfFooter);
    FirstIsOnly(log, ms, (m: Msg) => m.EntryUpdateParent?, OfParent);
  }

  lemma FirstIsOnly(log: seq<Msg>, ms: seq<Msg>, test: Msg -> bool, id: Id)
    requires Published(log, ms) && TestsFor(test, id) && !id.OfAccount?
    ensures NoneOf(ms, test) ==> NoneOf(log, test)
    ensures forall j: nat :: FirstOf(ms, test, j) ==> OnlyOne(log, test, ms[j])
  {
    FinalIsOnly(log, ms, test, id);
    if NoneOf(ms, test) {
      NoneOfIsUnseen(ms, test, id);
    }
    forall j: nat | FirstOf(ms, test, j)
      ensures OnlyOne(log, test, ms[j])
    {
      FirstOfIsFirstAt(ms, test, id, j);
    }
  }
}
