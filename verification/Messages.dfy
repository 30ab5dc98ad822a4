/** The messages of the channel, `ParsedMessage` of `richat/src/channel.rs`. Contents that no decision
    depends on are an opaque `body`. A bank id of zero has already been read as "no bank". */
module Messages {
  import opened Basics

  type BankId = nat
  type Signature = nat
  type Pubkey = nat

  datatype Status = FirstShredReceived | Completed | CreatedBank | Processed | Confirmed | Finalized | Dead

  datatype Msg =
    | SlotStatus(slot: Slot, bank: Option<BankId>, status: Status)
    | Account(slot: Slot, bank: Option<BankId>, signature: Option<Signature>, pubkey: Pubkey, writeVersion: nat,
          body: nat)
    | Transaction(slot: Slot, bank: Option<BankId>, txSignature: Signature, index: nat, body: nat)
    | Entry(slot: Slot, bank: Option<BankId>, index: nat, body: nat)
    | BlockMeta(slot: Slot, bank: Option<BankId>, executedTransactionCount: nat, entriesCount: nat, body: nat)
    | Block(slot: Slot, bank: Option<BankId>, accounts: seq<Msg>, transactions: seq<Msg>, entries: seq<Msg>, meta: Msg)
    | BlockFooter(slot: Slot, bank: Option<BankId>, body: nat)
    | EntryUpdateParent(slot: Slot, bank: Option<BankId>, body: nat)

  /** The kinds that a bank stores. */
  predicate Storable(m: Msg) {
    m.Account? || m.Transaction? || m.Entry? || m.BlockMeta? || m.BlockFooter?
  }
}
