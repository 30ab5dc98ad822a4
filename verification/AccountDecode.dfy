/** The hand-written decoder of account updates, `filter/src/protobuf/decode.rs`:
    `UpdateOneofLimitedDecodeAccount` keeps offsets into the buffer instead of copies. */
module AccountDecode {
  import opened Basics
  import opened Wire

  const PUBKEY_BYTES: nat := 32
  const SIGNATURE_BYTES: nat := 64

  /** The values copied out of the message. */
  datatype Info = Info(
    pubkey: Bytes, owner: Bytes, lamports: nat, executable: bool, rentEpoch: nat,
    slot: nat, isStartup: bool, bankId: Option<nat>)

  /** The offsets kept instead of copies: of the length of the nested message (`account`), and of the
      contents of its data, signature and write-version fields. */
  datatype Offsets = Offsets(
    account: Option<nat>, dataStart: nat, dataEnd: nat, txnSignature: Option<nat>, writeVersion: nat)

  datatype Decoded = Decoded(info: Info, at: Offsets)

  function Zeros(n: nat): Bytes {
    seq(n, i => 0)
  }

  const DEFAULT := Decoded(
    Info(Zeros(PUBKEY_BYTES), Zeros(PUBKEY_BYTES), 0, false, 0, 0, false, None), Offsets(None, 0, 0, None, 0))

  /** The wire type and length checks of `account_merge_field`. */
  predicate Accepts(f: Field) {
    if f.tag == 1 || f.tag == 3 then f.wire.LengthDelimited? && f.width == PUBKEY_BYTES
    else if f.tag == 2 || f.tag == 4 || f.tag == 5 || f.tag == 7 then f.wire.VarintType?
    else if f.tag == 6 then f.wire.LengthDelimited?
    else if f.tag == 8 then f.wire.LengthDelimited? && f.width == SIGNATURE_BYTES
    else true
  }

  function InfoStep(i: Info, b: Bytes, f: Field): Info
    requires f.start <= f.next <= |b|
  {
    if f.tag == 1 then i.(pubkey := b[f.start..f.next])
    else if f.tag == 2 then i.(lamports := f.value)
    else if f.tag == 3 then i.(owner := b[f.start..f.next])
    else if f.tag == 4 then i.(executable := f.value != 0)
    else if f.tag == 5 then i.(rentEpoch := f.value)
    else i
  }

  function OffsetsStep(o: Offsets, f: Field): Offsets {
    if f.tag == 6 then o.(dataStart := f.start, dataEnd := f.next)
    else if f.tag == 7 then o.(writeVersion := f.mark)
    else if f.tag == 8 then o.(txnSignature := Some(f.start))
    else o
  }

  /** `account_merge_field`: one field of the nested account message. */
  function InnerStep(d: Decoded, b: Bytes, f: Field): Option<Decoded>
    requires f.start <= f.next <= |b|
  {
    if Accepts(f) then Some(Decoded(InfoStep(d.info, b, f), OffsetsStep(d.at, f))) else None
  }

  /** `account_merge`: the fields from `pos` on, which must end exactly at `end`. */
  function InnerLoop(d: Decoded, b: Bytes, pos: nat, end: nat): Option<Decoded>
    requires pos <= |b|
    decreases |b| - pos
  {
    if pos >= end then if pos == end then Some(d) else None
    else
      var f := ReadField(b, pos);
      if f.None? then None
      else
        var d' := InnerStep(d, b, f.value);
        if d'.None? then None else InnerLoop(d'.value, b, f.value.next, end)
  }

  /** Reading one field of the nested message leaves the rest to read. */
  lemma InnerLoopStep(d: Decoded, b: Bytes, pos: nat, end: nat, f: Field, d': Decoded)
    requires pos < end && pos <= |b| && ReadField(b, pos) == Some(f) && InnerStep(d, b, f) == Some(d')
    ensures InnerLoop(d, b, pos, end) == InnerLoop(d', b, f.next, end)
  {
  }

  /** `merge_field`: one field of the account update. */
  function OuterStep(d: Decoded, b: Bytes, f: Field): Option<Decoded>
    requires f.start <= f.next <= |b|
  {
    if f.tag == 1 then
      if f.wire.LengthDelimited? then InnerLoop(Opened(d, f.mark), b, f.start, f.next) else None
    else if 2 <= f.tag <= 4 && !f.wire.VarintType? then None
    else Some(d.(info := OuterInfoStep(d.info, f)))
  }

  /** The nested message begins: remember the offset of its length. */
  function Opened(d: Decoded, mark: nat): Decoded {
    d.(at := d.at.(account := Some(mark)))
  }

  function OuterInfoStep(i: Info, f: Field): Info {
    if f.tag == 2 then i.(slot := f.value)
    else if f.tag == 3 then i.(isStartup := f.value != 0)
    else if f.tag == 4 then i.(bankId := Some(f.value))
    else i
  }

  /** `LimitedDecode::decode` from `pos` on. */
  function OuterLoop(d: Decoded, b: Bytes, pos: nat): Option<Decoded>
    requires pos <= |b|
    decreases |b| - pos
  {
    if pos == |b| then Some(d)
    else
      var f := ReadField(b, pos);
      if f.None? then None
      else
        var d' := OuterStep(d, b, f.value);
        if d'.None? then None else OuterLoop(d'.value, b, f.value.next)
  }

  function Decode(b: Bytes): Option<Decoded> {
    OuterLoop(DEFAULT, b, 0)
  }

  // ----- the decoder as written: loops that move a cursor and fill a record -----

  method MergeAccount(d: Decoded, b: Bytes, start: nat, end: nat) returns (r: Option<Decoded>)
    requires start <= end <= |b|
    ensures r == InnerLoop(d, b, start, end)
  {
    var message, pos := d, start;
    while pos < end
      invariant start <= pos <= |b|
      invariant InnerLoop(message, b, pos, end) == InnerLoop(d, b, start, end)
      decreases |b| - pos
    {
      var f := ReadField(b, pos);
      if f.None? {
        return None;
      }
      var merged := InnerStep(message, b, f.value);
      if merged.None? {
        return None;
      }
      message, pos := merged.value, f.value.next;
    }
    r := if pos == end then Some(message) else None;
  }

  method DecodeAccount(b: Bytes) returns (r: Option<Decoded>)
    ensures r == Decode(b)
  {
    var message, pos := DEFAULT, 0;
    while pos < |b|
      invariant pos <= |b|
      invariant OuterLoop(message, b, pos) == Decode(b)
      decreases |b| - pos
    {
      var f := ReadField(b, pos);
      if f.None? {
        return None;
      }
      var merged: Option<Decoded>;
      if f.value.tag == 1 && f.value.wire.LengthDelimited? {
        merged := MergeAccount(Opened(message, f.value.mark), b, f.value.start, f.value.next);
      } else {
        merged := OuterStep(message, b, f.value);
      }
      if merged.None? {
        return None;
      }
      message, pos := merged.value, f.value.next;
    }
    r := Some(message);
  }

  // ----- where the decoder leaves its offsets -----

  /** The contents of the write version at `wv` do not touch [from, to). */
  ghost predicate Clear(b: Bytes, wv: nat, from: nat, to: nat) {
    wv == 0 || (wv <= |b| && VarintAt(b, wv).Some? && (to <= wv || wv + VarintAt(b, wv).value.width <= from))
  }

  /** Offsets set while reading the fields in [body, pos): all contents lie there, and the write
      version is apart from the data and the signature. An offset of zero was never set. */
  ghost predicate Placed(o: Offsets, b: Bytes, body: nat, pos: nat)
    requires pos <= |b|
  {
    && 0 < body <= pos
    && (o.writeVersion != 0 ==>
          && body < o.writeVersion <= pos && VarintAt(b, o.writeVersion).Some?
          && o.writeVersion + VarintAt(b, o.writeVersion).value.width <= pos)
    && (o.dataStart == o.dataEnd == 0
        || (body <= o.dataStart <= o.dataEnd <= pos && Clear(b, o.writeVersion, o.dataStart, o.dataEnd)))
    && (o.txnSignature.Some? ==>
          && body <= o.txnSignature.value && o.txnSignature.value + SIGNATURE_BYTES <= pos
          && Clear(b, o.writeVersion, o.txnSignature.value, o.txnSignature.value + SIGNATURE_BYTES))
  }

  lemma InnerStepPlaced(o: Offsets, b: Bytes, body: nat, pos: nat, f: Field)
    requires pos <= |b| && Placed(o, b, body, pos)
    requires ReadField(b, pos) == Some(f) && Accepts(f)
    ensures Placed(OffsetsStep(o, f), b, body, f.next)
  {
  }

  /** After a nested message is read, all recorded contents lie inside it. */
  lemma {:induction false} InnerLoopPlaced(d: Decoded, b: Bytes, body: nat, pos: nat, end: nat)
    requires pos <= |b| && Placed(d.at, b, body, pos) && InnerLoop(d, b, pos, end).Some?
    ensures pos <= end <= |b| && Placed(InnerLoop(d, b, pos, end).value.at, b, body, end)
    ensures InnerLoop(d, b, pos, end).value.at.account == d.at.account
    decreases |b| - pos
  {
    if pos < end {
      var f := ReadField(b, pos).value;
      InnerStepPlaced(d.at, b, body, pos, f);
      InnerLoopPlaced(InnerStep(d, b, f).value, b, body, f.next, end);
    }
  }

  /** Where the fields with tag 1, the nested account messages, begin. */
  function AccountFields(b: Bytes, pos: nat): seq<nat>
    requires pos <= |b|
    decreases |b| - pos
  {
    if pos == |b| || ReadField(b, pos).None? then []
    else
      var f := ReadField(b, pos).value;
      (if f.tag == 1 then [pos] else []) + AccountFields(b, f.next)
  }

  /** Reading one field of the update leaves the rest to read. */
  lemma OuterLoopStep(d: Decoded, b: Bytes, pos: nat, f: Field, d': Decoded)
    requires pos < |b| && ReadField(b, pos) == Some(f) && OuterStep(d, b, f) == Some(d')
    ensures OuterLoop(d, b, pos) == OuterLoop(d', b, f.next)
    ensures f.tag != 1 ==> AccountFields(b, pos) == AccountFields(b, f.next)
    ensures f.tag == 1 ==> forall k :: AccountFields(b, pos) == [k] ==> k == pos && AccountFields(b, f.next) == []
  {
    var rest := AccountFields(b, f.next);
    if f.tag == 1 {
      assert AccountFields(b, pos)[0] == pos && |AccountFields(b, pos)| == 1 + |rest|;
    }
  }

  /** Fields other than the account leave the offsets alone. */
  lemma {:induction false} OuterSuffixKeeps(d: Decoded, b: Bytes, pos: nat)
    requires pos <= |b| && OuterLoop(d, b, pos).Some? && AccountFields(b, pos) == []
    ensures OuterLoop(d, b, pos).value.at == d.at
    decreases |b| - pos
  {
    if pos < |b| {
      var f := ReadField(b, pos).value;
      OuterSuffixKeeps(OuterStep(d, b, f).value, b, f.next);
    }
  }

  /** The nested message whose length is at offset `a`. */
  ghost predicate Nested(b: Bytes, a: nat, body: nat, stop: nat) {
    && a < body <= stop <= |b| && VarintAt(b, a).Some?
    && body == a + VarintAt(b, a).value.width && stop == body + VarintAt(b, a).value.value
  }

  lemma NestedContents(b: Bytes, k: nat, f: Field)
    requires k <= |b| && ReadField(b, k) == Some(f) && f.wire.LengthDelimited?
    ensures Nested(b, f.mark, f.start, f.next)
  {
  }

  /** Field `f` at `k` is the account that offsets `at` were taken from. */
  ghost predicate TakenFrom(at: Offsets, b: Bytes, k: nat, f: Field) {
    && k < |b| && ReadField(b, k) == Some(f) && f.tag == 1 && f.wire.LengthDelimited?
    && at.account == Some(f.mark) && Placed(at, b, f.start, f.next)
  }

  /** The one account field of an update, as the outer loop meets it at `pos` or later. */
  lemma {:induction false} OuterLoopPlaced(d: Decoded, b: Bytes, pos: nat, k: nat) returns (f: Field)
    requires pos <= |b| && OuterLoop(d, b, pos).Some? && AccountFields(b, pos) == [k]
    requires d.at == DEFAULT.at
    ensures pos <= k && TakenFrom(OuterLoop(d, b, pos).value.at, b, k, f)
    decreases |b| - pos
  {
    f := ReadField(b, pos).value;
    var d' := OuterStep(d, b, f).value;
    OuterLoopStep(d, b, pos, f, d');
    if f.tag == 1 {
      InnerLoopPlaced(Opened(d, f.mark), b, f.start, f.start, f.next);
      OuterSuffixKeeps(d', b, f.next);
    } else {
      f := OuterLoopPlaced(d', b, f.next, k);
    }
  }
}
