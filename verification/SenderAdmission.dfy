/** What dedup lets through: messages of the slot and bank of the one that arrived. */
module SenderAdmission {
  import opened Basics
  import opened Messages
  import opened SenderModel
  import opened Dedup

  /** The accounts that wait in a bank's record are accounts of that bank. */
  ghost predicate WaitingOk(b: DedupBank, s: Slot, bank: Option<BankId>, tx: Signature) {
    forall i :: 0 <= i < |Waiting(b, tx)| ==> IsAccountOf(Waiting(b, tx)[i], s, bank)
  }

  predicate IsAccountOf(m: Msg, s: Slot, bank: Option<BankId>) {
    m.Account? && m.slot == s && m.bank == bank
  }

  ghost predicate BankOk(d: DedupInfo, s: Slot, bank: Option<BankId>) {
    bank in d.banks ==> forall tx :: WaitingOk(d.banks[bank], s, bank, tx)
  }

  ghost predicate DedupOk(dedup: map<Slot, DedupInfo>, s: Slot) {
    s in dedup ==> forall bank :: BankOk(dedup[s], s, bank)
  }

  /** The messages published for the arrival of `m`. */
  ghost predicate Batch(ms: seq<Msg>, m: Msg) {
    && (m.SlotStatus? || m.EntryUpdateParent? ==> ms == [] || ms == [m])
    && forall i :: 0 <= i < |ms| ==> InBatch(ms[i], m)
  }

  predicate InBatch(n: Msg, m: Msg) {
    && n.slot == m.slot && n.bank == m.bank && Publishable(n)
    && (n.SlotStatus? ==> m.SlotStatus?) && (n.EntryUpdateParent? ==> m.EntryUpdateParent?)
  }

  lemma AcceptIsBatch(b: DedupBank, m: Msg)
    requires !m.SlotStatus? && Accept(b, m).Some?
    requires forall tx :: WaitingOk(b, m.slot, m.bank, tx)
    ensures Batch(Accept(b, m).value.1, m)
  {
    if m.Transaction? {
      var s, index := m.txSignature, m.index + PHANTOM_SPACE;
      assert WaitingOk(b, m.slot, m.bank, s);
      var out := Accept(b, m).value.1;
      forall i | 0 <= i < |out|
        ensures InBatch(out[i], m)
      {
        if i < |out| - 1 {
          assert IsAccountOf(Waiting(b, s)[i], m.slot, m.bank);
        }
      }
    }
  }

  lemma AcceptKeepsWaiting(b: DedupBank, m: Msg, tx: Signature)
    requires Accept(b, m).Some?
    requires WaitingOk(b, m.slot, m.bank, tx)
    ensures WaitingOk(Accept(b, m).value.0, m.slot, m.bank, tx)
  {
    var b' := Accept(b, m).value.0;
    forall i | 0 <= i < |Waiting(b', tx)|
      ensures IsAccountOf(Waiting(b', tx)[i], m.slot, m.bank)
    {
      assert i < |Waiting(b, tx)| ==> IsAccountOf(Waiting(b, tx)[i], m.slot, m.bank);
    }
  }

  lemma AdmitToIsBatch(d: DedupInfo, source: nat, m: Msg)
    requires !m.Block? && AdmitTo(d, source, m).Some?
    requires forall bank :: BankOk(d, m.slot, bank)
    ensures var (d', ms) := AdmitTo(d, source, m).value; Batch(ms, m) && forall bank :: BankOk(d', m.slot, bank)
  {
    hide Accept;
    var (d', ms) := AdmitTo(d, source, m).value;
    assert BankOk(d, m.slot, m.bank);
    var b := if m.bank in d.banks then d.banks[m.bank] else NEW_DEDUP_BANK;
    assert forall tx :: WaitingOk(b, m.slot, m.bank, tx);
    if !m.SlotStatus? && Accept(b, m).Some? {
      AcceptIsBatch(b, m);
      forall tx: Signature
        ensures WaitingOk(Accept(b, m).value.0, m.slot, m.bank, tx)
      {
        AcceptKeepsWaiting(b, m, tx);
      }
    }
    forall bank: Option<BankId>
      ensures BankOk(d', m.slot, bank)
    {
      assert BankOk(d, m.slot, bank);
    }
  }

  /** Everything that passes dedup can be published, as one batch of one slot and one bank. */
  lemma AdmitIsBatch(dedup: map<Slot, DedupInfo>, required: bool, source: nat, m: Msg)
    requires !m.Block? && Admit(dedup, required, source, m).Some?
    requires forall s :: DedupOk(dedup, s)
    ensures var (dedup', ms) := Admit(dedup, required, source, m).value;
      Batch(ms, m) && AllPublishable(ms) && forall s :: DedupOk(dedup', s)
  {
    hide AdmitTo, BankOk;
    var (dedup', ms) := Admit(dedup, required, source, m).value;
    if required {
      var d := if m.slot in dedup then dedup[m.slot] else NEW_DEDUP;
      assert DedupOk(dedup, m.slot);
      NewDedupOk(m.slot);
      AdmitToIsBatch(d, source, m);
    }
    forall s: Slot
      ensures DedupOk(dedup', s)
    {
      assert DedupOk(dedup, s);
    }
  }

  lemma NewDedupOk(s: Slot)
    ensures forall bank :: BankOk(NEW_DEDUP, s, bank)
  {
  }

  /** Dropping records of slots keeps the others. */
  lemma DedupSubset(dedup: map<Slot, DedupInfo>, dedup': map<Slot, DedupInfo>)
    requires forall s :: DedupOk(dedup, s)
    requires forall s :: s in dedup' ==> s in dedup && dedup'[s] == dedup[s]
    ensures forall s :: DedupOk(dedup', s)
  {
    forall s: Slot
      ensures DedupOk(dedup', s)
    {
      assert DedupOk(dedup, s);
    }
  }
}
