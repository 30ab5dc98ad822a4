/** One tracked slot with its candidate banks, `SlotInfo` of `richat/src/channel.rs`. */
module SlotTracking {
  import opened Basics
  import opened Messages
  import opened BlockAssembly

  datatype SlotInfo = SlotInfo(
    index: nat, confirmedBank: Option<Option<BankId>>,
    banks: map<Option<BankId>, BankInfo>, clearedBanks: set<BankId>)

  /** `SlotInfo::new` */
  function NewSlot(index: nat): SlotInfo {
    SlotInfo(index, None, map[], {})
  }

  /** The greatest candidate; messages without a bank come before all of them. */
  function LatestBank(banks: map<Option<BankId>, BankInfo>): Option<BankId> {
    var ids := set k | k in banks && k.Some? :: k.value;
    if ids == {} then None else Some(Greatest(ids))
  }

  function SelectBank(info: SlotInfo, bank: Option<BankId>): Option<BankId> {
    if bank.Some? then bank
    else if info.confirmedBank.Some? && info.confirmedBank.value.Some? then info.confirmedBank.value
    else LatestBank(info.banks)
  }

  function Landed(info: SlotInfo, bank: Option<BankId>): SlotInfo {
    if bank in info.banks then info.(banks := info.banks[bank := info.banks[bank].(landed := true)]) else info
  }

  /** `SlotInfo::commit`: the bank whose messages go to the commitment of the status. */
  function Commit(info: SlotInfo, status: Status, bank: Option<BankId>): (SlotInfo, Option<Option<BankId>>) {
    var selected := SelectBank(info, bank);
    if status == Confirmed && info.confirmedBank.None? then
      (Landed(info.(confirmedBank := Some(selected)), selected), Some(selected))
    else if status == Finalized then (Landed(info, selected), Some(selected))
    else (info, None)
  }

  /** `SlotInfo::get_block_message` */
  function AbsorbMessage(info: SlotInfo, m: Msg): (SlotInfo, Option<Msg>)
    requires Storable(m) || m.EntryUpdateParent?
  {
    if m.EntryUpdateParent? then
      if m.bank.Some? then
        (info.(clearedBanks := info.clearedBanks + {m.bank.value}, banks := info.banks - {m.bank}), None)
      else (info, None)
    else
      var (b, block) := Absorb(if m.bank in info.banks then info.banks[m.bank] else EMPTY_BANK, m);
      (info.(banks := info.banks[m.bank := b]), block)
  }

  /** The messages that are still stored, in order. */
  function Kept(messages: seq<Option<Msg>>): seq<Msg> {
    if messages == [] then []
    else
      var last := messages[|messages| - 1];
      Kept(messages[..|messages| - 1]) + if last.Some? then [last.value] else []
  }

  /** `get_messages_cloned` and `get_messages_owned` */
  function Stored(info: SlotInfo, bank: Option<BankId>): seq<Msg> {
    if bank in info.banks then Kept(info.banks[bank].messages) else []
  }

  // ----- counting stored messages -----

  function One(condition: bool): nat {
    if condition then 1 else 0
  }

  function Held(messages: seq<Option<Msg>>, x: Msg): nat {
    if messages == [] then 0
    else Held(messages[..|messages| - 1], x) + One(messages[|messages| - 1] == Some(x))
  }

  /** How often the slot stores `x` for the bank. */
  function HeldIn(info: SlotInfo, bank: Option<BankId>, x: Msg): nat {
    if bank in info.banks then Held(info.banks[bank].messages, x) else 0
  }

  lemma {:induction false} KeptCounts(messages: seq<Option<Msg>>, x: Msg)
    ensures multiset(Kept(messages))[x] == Held(messages, x)
  {
    if messages != [] {
      KeptCounts(messages[..|messages| - 1], x);
    }
  }

  /** The stored messages come out in the order in which they were stored, the blanks are skipped. */
  lemma {:induction false} KeptInOrder(a: seq<Option<Msg>>, b: seq<Option<Msg>>)
    ensures Kept(a + b) == Kept(a) + Kept(b) && Kept([]) == []
    ensures |b| == 1 ==> Kept(b) == if b[0].Some? then [b[0].value] else []
  {
    hide Kept;
    KeptPush([], if b == [] then None else b[0]);
    if b == [] {
      assert a + b == a;
    } else {
      var n := |b| - 1;
      KeptInOrder(a, b[..n]);
      assert a + b == (a + b[..n]) + [b[n]] && b == b[..n] + [b[n]];
      KeptPush(a + b[..n], b[n]);
      KeptPush(b[..n], b[n]);
      assert |b| == 1 ==> b == [] + [b[0]];
    }
  }

  lemma KeptPush(messages: seq<Option<Msg>>, item: Option<Msg>)
    ensures Kept(messages + [item]) == Kept(messages) + if item.Some? then [item.value] else []
    ensures Kept([]) == []
  {
    assert (messages + [item])[..|messages|] == messages;
  }

  lemma StoredCounts(info: SlotInfo, bank: Option<BankId>, x: Msg)
    ensures multiset(Stored(info, bank))[x] == HeldIn(info, bank, x)
  {
    if bank in info.banks {
      KeptCounts(info.banks[bank].messages, x);
    }
  }

  lemma HeldPush(messages: seq<Option<Msg>>, item: Option<Msg>, x: Msg)
    ensures Held(messages + [item], x) == Held(messages, x) + One(item == Some(x))
  {
    assert (messages + [item])[..|messages|] == messages;
  }

  lemma {:induction false} HeldBlanked(messages: seq<Option<Msg>>, at: nat, x: Msg)
    ensures Held(Blanked(messages, at), x) <= Held(messages, x)
  {
    if at < |messages| {
      var n := |messages| - 1;
      if at < n {
        HeldBlanked(messages[..n], at, x);
        assert Blanked(messages, at)[..n] == Blanked(messages[..n], at);
      } else {
        assert Blanked(messages, at)[..n] == messages[..n];
      }
    }
  }

  lemma StoreHolds(b: BankInfo, m: Msg, x: Msg)
    requires Storable(m)
    ensures Held(Store(b, m).messages, x) <= Held(b.messages, x) + One(m == x)
  {
    hide Held;
    HeldPush(b.messages, Some(m), x);
    HeldPush(b.messages, None, x);
    if m.Account? && m.pubkey in b.accountsDedup {
      var at := b.accountsDedup[m.pubkey].1;
      HeldBlanked(b.messages, at, x);
      HeldPush(Blanked(b.messages, at), Some(m), x);
    }
  }

  /** A slot stores nothing but what arrives and the block made of it. */
  lemma AbsorbHolds(b: BankInfo, m: Msg, x: Msg)
    requires Storable(m)
    ensures var (b', block) := Absorb(b, m);
      Held(b'.messages, x) <= Held(b.messages, x) + One(m == x) + One(block == Some(x))
  {
    hide Held, Store, BlockFrom, Complete;
    StoreHolds(b, m, x);
    HeldPush(Store(b, m).messages, Absorb(b, m).1, x);
  }

  lemma AbsorbMessageHolds(info: SlotInfo, m: Msg, bank: Option<BankId>, x: Msg)
    requires Storable(m) || m.EntryUpdateParent?
    ensures var (info', block) := AbsorbMessage(info, m);
      && info'.confirmedBank == info.confirmedBank
      && HeldIn(info', bank, x) <= HeldIn(info, bank, x)
                                   + if bank == m.bank then One(m == x) + One(block == Some(x)) else 0
  {
    if Storable(m) && bank == m.bank {
      AbsorbHolds(if m.bank in info.banks then info.banks[m.bank] else EMPTY_BANK, m, x);
    }
  }

  /** Committing a slot stores nothing and drops nothing. */
  lemma CommitHolds(info: SlotInfo, status: Status, named: Option<BankId>, bank: Option<BankId>, x: Msg)
    ensures var info' := Commit(info, status, named).0;
      && HeldIn(info', bank, x) == HeldIn(info, bank, x)
      && Stored(info', bank) == Stored(info, bank)
  {
  }

  // ----- what is stored belongs to the bank -----

  /** A message that a bank of slot `s` may store. */
  predicate Belongs(m: Msg, s: Slot, bank: Option<BankId>) {
    !m.SlotStatus? && !m.EntryUpdateParent? && m.slot == s && m.bank == bank
  }

  ghost predicate AllBelong(b: BankInfo, s: Slot, bank: Option<BankId>) {
    && (forall i :: 0 <= i < |b.messages| && b.messages[i].Some? ==> Belongs(b.messages[i].value, s, bank))
    && (b.blockMeta.Some? ==> Belongs(b.blockMeta.value, s, bank))
  }

  ghost predicate BankBelongs(info: SlotInfo, s: Slot, bank: Option<BankId>) {
    bank in info.banks ==> AllBelong(info.banks[bank], s, bank)
  }

  lemma AbsorbBelongs(b: BankInfo, m: Msg, s: Slot, bank: Option<BankId>)
    requires Storable(m) && Belongs(m, s, bank) && AllBelong(b, s, bank)
    ensures var (b', block) := Absorb(b, m);
      AllBelong(b', s, bank) && (block.Some? ==> Belongs(block.value, s, bank) && block.value.Block?)
  {
    StoreBelongs(b, m, s, bank);
  }

  lemma StoreBelongs(b: BankInfo, m: Msg, s: Slot, bank: Option<BankId>)
    requires Storable(m) && Belongs(m, s, bank) && AllBelong(b, s, bank)
    ensures AllBelong(Store(b, m), s, bank)
  {
  }

  lemma AbsorbMessageBelongs(info: SlotInfo, m: Msg, s: Slot, bank: Option<BankId>)
    requires Storable(m) || m.EntryUpdateParent?
    requires m.slot == s && BankBelongs(info, s, m.bank) && BankBelongs(info, s, bank)
    ensures var (info', block) := AbsorbMessage(info, m);
      BankBelongs(info', s, bank) && (block.Some? ==> Belongs(block.value, s, m.bank) && block.value.Block?)
  {
    if Storable(m) {
      AbsorbBelongs(if m.bank in info.banks then info.banks[m.bank] else EMPTY_BANK, m, s, m.bank);
    }
  }

  lemma {:induction false} HeldBelongs(messages: seq<Option<Msg>>, x: Msg)
    requires Held(messages, x) > 0
    ensures exists i :: 0 <= i < |messages| && messages[i] == Some(x)
  {
    var n := |messages| - 1;
    if messages[n] != Some(x) {
      HeldBelongs(messages[..n], x);
      var i :| 0 <= i < n && messages[..n][i] == Some(x);
      assert messages[i] == Some(x);
    }
  }

  lemma HeldInBelongs(info: SlotInfo, s: Slot, bank: Option<BankId>, x: Msg)
    requires BankBelongs(info, s, bank) && HeldIn(info, bank, x) > 0
    ensures Belongs(x, s, bank)
  {
    HeldBelongs(info.banks[bank].messages, x);
  }

  // ----- the selected bank -----

  /** The bank of a status: the one it names, else the confirmed one, else the latest candidate; none only
      if there is no candidate with an id. */
  lemma SelectBankIsRight(info: SlotInfo, named: Option<BankId>)
    ensures var bank := SelectBank(info, named);
      && (named.Some? ==> bank == named)
      && (named.None? && info.confirmedBank.Some? && info.confirmedBank.value.Some? ==>
            info.confirmedBank == Some(bank))
      && (named.None? && (info.confirmedBank.None? || info.confirmedBank.value.None?) ==>
            && (bank.Some? ==> bank in info.banks)
            && forall b: BankId :: Some(b) in info.banks ==> bank.Some? && b <= bank.value)
  {
    var ids := set k | k in info.banks && k.Some? :: k.value;
    assert forall b: BankId :: Some(b) in info.banks <==> b in ids;
  }

  /** The first confirmed status fixes the confirmed bank, nothing else changes it. */
  lemma CommitFixesBank(info: SlotInfo, status: Status, named: Option<BankId>)
    ensures var (info', selected) := Commit(info, status, named);
      && (info.confirmedBank.Some? || status != Confirmed ==> info'.confirmedBank == info.confirmedBank)
      && (info.confirmedBank.None? && status == Confirmed ==> info'.confirmedBank == Some(SelectBank(info, named)))
      && (selected.Some? ==> selected.value == SelectBank(info, named))
      && (selected.Some? <==> status == Finalized || (status == Confirmed && info.confirmedBank.None?))
      && info'.clearedBanks == info.clearedBanks && info'.banks.Keys == info.banks.Keys
      && forall b :: b in info.banks ==>
           info'.banks[b] == info.banks[b].(landed := info.banks[b].landed || selected == Some(b))
  {
    assert Landed(info, SelectBank(info, named)).banks.Keys == info.banks.Keys;
  }
}
