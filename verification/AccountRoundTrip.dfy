/** Decoding what `UpdateOneofLimitedEncodeAccount` encodes: every value comes back, and every offset
    points at the bytes it was written from. */
module AccountRoundTrip {
  import opened Basics
  import opened Wire
  import opened Encode
  import opened AccountDecode

  /** The field as `ReadField` reports it when it was written at `pos`. */
  function FieldAt(f: WireField, pos: nat): Field {
    var mark := pos + KeyLen(f.tag);
    match f
    case Uint(tag, value) => Field(tag, VarintType, mark, mark, VarintLen(value), value, pos + FieldLen(f))
    case Bool(tag, flag) => Field(tag, VarintType, mark, mark, 1, if flag then 1 else 0, pos + FieldLen(f))
    case Blob(tag, bytes) =>
      Field(tag, LengthDelimited, mark, mark + VarintLen(|bytes|), |bytes|, 0, pos + FieldLen(f))
  }

  /** Values that the encoder is given: 64-bit numbers, in-memory byte strings, small tags. */
  predicate Encodable(f: WireField) {
    1 <= f.tag < 16 &&
    match f
    case Uint(_, value) => value < U64_LIMIT
    case Bool(_, _) => true
    case Blob(_, bytes) => |bytes| < U64_LIMIT
  }

  lemma KeyIsRead(b: Bytes, pos: nat, tag: nat, wire: WireType)
    requires 1 <= tag < 16 && pos + KeyLen(tag) <= |b| && b[pos..pos + KeyLen(tag)] == EncodeKey(tag, wire)
    ensures VarintAt(b, pos) == Some(Varint(8 * tag + WireCode(wire), KeyLen(tag)))
    ensures (8 * tag + WireCode(wire)) % 8 == WireCode(wire) && (8 * tag + WireCode(wire)) / 8 == tag
  {
    KeyLenIsLength(tag, wire);
    VarintLenIsLength(8 * tag + WireCode(wire));
    VarintWritten(b, pos, 8 * tag + WireCode(wire));
  }

  lemma ThreeParts(b: Bytes, pos: nat, k: Bytes, v: Bytes, x: Bytes)
    requires pos + |k| + |v| + |x| <= |b| && b[pos..pos + |k| + |v| + |x|] == k + v + x
    ensures b[pos..pos + |k|] == k
    ensures b[pos + |k|..pos + |k| + |v|] == v
    ensures b[pos + |k| + |v|..pos + |k| + |v| + |x|] == x
  {
    var end, w := pos + |k| + |v| + |x|, k + v + x;
    SliceOfSlice(b, pos, end, pos, pos + |k|);
    SliceOfSlice(b, pos, end, pos + |k|, pos + |k| + |v|);
    SliceOfSlice(b, pos, end, pos + |k| + |v|, end);
    assert w[0..|k|] == k && w[|k|..|k| + |v|] == v && w[|k| + |v|..|w|] == x;
  }

  /** Key, number and contents of a field. */
  lemma PartsOf(f: WireField) returns (wire: WireType, n: nat, x: Bytes)
    ensures FieldBytes(f) == EncodeKey(f.tag, wire) + EncodeVarint(n) + x
    ensures |EncodeKey(f.tag, wire)| == KeyLen(f.tag) && |EncodeVarint(n)| == VarintLen(n)
    ensures FieldLen(f) == KeyLen(f.tag) + VarintLen(n) + |x|
    ensures f.Blob? ==> wire == LengthDelimited && x == f.bytes && n == |x|
    ensures f.Uint? ==> wire == VarintType && x == [] && n == f.value
    ensures f.Bool? ==> wire == VarintType && x == [] && n == if f.flag then 1 else 0
  {
    wire := if f.Blob? then LengthDelimited else VarintType;
    n := if f.Uint? then f.value else if f.Bool? then (if f.flag then 1 else 0) else |f.bytes|;
    x := if f.Blob? then f.bytes else [];
    KeyLenIsLength(f.tag, wire);
    VarintLenIsLength(n);
  }

  /** A written field is read back. */
  lemma FieldIsRead(b: Bytes, pos: nat, f: WireField)
    requires Encodable(f) && pos + FieldLen(f) <= |b| && b[pos..pos + FieldLen(f)] == FieldBytes(f)
    ensures ReadField(b, pos) == Some(FieldAt(f, pos))
    ensures f.Blob? ==> b[FieldAt(f, pos).start..FieldAt(f, pos).next] == f.bytes
    ensures f.Uint? ==> VarintAt(b, FieldAt(f, pos).mark) == Some(Varint(f.value, VarintLen(f.value)))
  {
    hide FieldBytes, EncodeKey, EncodeVarint, VarintAt, VarintLen, KeyLen;
    var wire, n, x := PartsOf(f);
    ThreeParts(b, pos, EncodeKey(f.tag, wire), EncodeVarint(n), x);
    KeyIsRead(b, pos, f.tag, wire);
    VarintWritten(b, pos + KeyLen(f.tag), n);
  }

  /** What decoding one optional field does to the record. */
  function Advance(d: Decoded, b: Bytes, pos: nat, written: bool, f: WireField): Decoded
    requires written ==> pos + FieldLen(f) <= |b|
  {
    if written then Decoded(InfoStep(d.info, b, FieldAt(f, pos)), OffsetsStep(d.at, FieldAt(f, pos))) else d
  }

  lemma OptionalField(d: Decoded, b: Bytes, pos: nat, end: nat, written: bool, f: WireField)
    requires pos + WhenLen(written, f) <= end <= |b| && b[pos..pos + WhenLen(written, f)] == When(written, f)
    requires written ==> Encodable(f) && Accepts(FieldAt(f, pos))
    ensures InnerLoop(d, b, pos, end) == InnerLoop(Advance(d, b, pos, written, f), b, pos + WhenLen(written, f), end)
  {
    hide FieldBytes, ReadField, InnerLoop, InfoStep, OffsetsStep, Accepts, KeyLen, VarintLen, VarintAt;
    if written {
      FieldIsRead(b, pos, f);
      InnerLoopStep(d, b, pos, end, FieldAt(f, pos), Advance(d, b, pos, written, f));
    }
  }

  /** The eight fields of an account, and which of them are written. */
  function FieldOf(a: AccountInner, i: nat): WireField
    requires i < 8
  {
    match i
    case 0 => Blob(1, a.pubkey)
    case 1 => Uint(2, a.lamports)
    case 2 => Blob(3, a.owner)
    case 3 => Bool(4, a.executable)
    case 4 => Uint(5, a.rentEpoch)
    case 5 => Blob(6, a.data)
    case 6 => Uint(7, a.writeVersion)
    case _ => Blob(8, if a.txnSignature.Some? then a.txnSignature.value else [])
  }

  function IsWritten(a: AccountInner, i: nat): bool
    requires i < 8
  {
    match i
    case 0 => true
    case 1 => a.lamports != 0
    case 2 => true
    case 3 => a.executable
    case 4 => a.rentEpoch != 0
    case 5 => a.data != []
    case 6 => a.writeVersion != 0
    case _ => a.txnSignature.Some?
  }

  /** The fields from the i-th on, as bytes. */
  function Rest(a: AccountInner, i: nat): Bytes
    requires i <= 8
    decreases 8 - i
  {
    if i == 8 then [] else When(IsWritten(a, i), FieldOf(a, i)) + Rest(a, i + 1)
  }

  lemma RestIsAll(a: AccountInner)
    ensures Rest(a, 0) == AccountInnerBytes(a)
  {
    hide When, WhenSome, FieldBytes;
    LastField(a);
    FirstFields(a);
    assert Rest(a, 4) ==
          When(a.rentEpoch != 0, Uint(5, a.rentEpoch)) + (When(a.data != [], Blob(6, a.data)) + Rest(a, 6));
    assert Rest(a, 2) == When(true, Blob(3, a.owner)) + (When(a.executable, Bool(4, a.executable)) + Rest(a, 4));
    assert Rest(a, 0) == When(true, Blob(1, a.pubkey)) + (When(a.lamports != 0, Uint(2, a.lamports)) + Rest(a, 2));
  }

  lemma LastField(a: AccountInner)
    ensures Rest(a, 7) == WhenSome(8, a.txnSignature)
  {
    assert Rest(a, 7) == When(IsWritten(a, 7), FieldOf(a, 7)) + Rest(a, 8);
  }

  lemma FirstFields(a: AccountInner)
    ensures When(true, Blob(1, a.pubkey)) == FieldBytes(Blob(1, a.pubkey))
    ensures When(true, Blob(3, a.owner)) == FieldBytes(Blob(3, a.owner))
  {
  }

  /** Lengths and ranges that the encoder is given. */
  ghost predicate WellTyped(a: AccountInner) {
    && |a.pubkey| == PUBKEY_BYTES && |a.owner| == PUBKEY_BYTES
    && a.lamports < U64_LIMIT && a.rentEpoch < U64_LIMIT && a.writeVersion < U64_LIMIT && |a.data| < U64_LIMIT
    && (a.txnSignature.Some? ==> |a.txnSignature.value| == SIGNATURE_BYTES)
  }

  lemma FieldIsFine(a: AccountInner, i: nat, pos: nat)
    requires i < 8 && WellTyped(a)
    ensures IsWritten(a, i) ==> Encodable(FieldOf(a, i)) && Accepts(FieldAt(FieldOf(a, i), pos))
  {
    hide KeyLen, VarintLen, FieldLen;
  }

  /** The record after the fields from the i-th on. */
  function DecodeRest(d: Decoded, b: Bytes, pos: nat, a: AccountInner, i: nat): Decoded
    requires i <= 8 && pos + |Rest(a, i)| <= |b|
    decreases 8 - i
  {
    if i == 8 then d
    else
      var written, f := IsWritten(a, i), FieldOf(a, i);
      DecodeRest(Advance(d, b, pos, written, f), b, pos + WhenLen(written, f), a, i + 1)
  }

  lemma InnerLoopDone(d: Decoded, b: Bytes, pos: nat)
    requires pos <= |b|
    ensures InnerLoop(d, b, pos, pos) == Some(d)
  {
  }

  lemma {:induction false} InnerLoopReads(d: Decoded, b: Bytes, pos: nat, end: nat, a: AccountInner, i: nat)
    requires i <= 8 && pos <= end <= |b| && b[pos..end] == Rest(a, i) && WellTyped(a)
    ensures InnerLoop(d, b, pos, end) == Some(DecodeRest(d, b, pos, a, i))
    decreases 8 - i
  {
    hide FieldBytes, When, InnerLoop, Advance, Accepts, Encodable, FieldLen, WellTyped, IsWritten, FieldOf;
    if i == 8 {
      InnerLoopDone(d, b, pos);
    } else {
      var written, f := IsWritten(a, i), FieldOf(a, i);
      var next := pos + WhenLen(written, f);
      SliceOfSlice(b, pos, end, pos, next);
      SliceOfSlice(b, pos, end, next, end);
      assert Rest(a, i)[0..next - pos] == When(written, f) && Rest(a, i)[next - pos..end - pos] == Rest(a, i + 1);
      FieldIsFine(a, i, pos);
      OptionalField(d, b, pos, end, written, f);
      InnerLoopReads(Advance(d, b, pos, written, f), b, next, end, a, i + 1);
    }
  }

  /** The values of the first `i` fields have been read, the others are still defaults. */
  ghost predicate GotInfo(d: Info, a: AccountInner, i: nat) {
    && d.pubkey == (if i > 0 then a.pubkey else DEFAULT.info.pubkey)
    && d.lamports == (if i > 1 then a.lamports else 0)
    && d.owner == (if i > 2 then a.owner else DEFAULT.info.owner)
    && d.executable == (i > 3 && a.executable)
    && d.rentEpoch == (if i > 4 then a.rentEpoch else 0)
  }

  /** Likewise the offsets: they point at the bytes of the fields that were written. */
  ghost predicate GotOffsets(o: Offsets, b: Bytes, a: AccountInner, i: nat) {
    && (if i > 5 && a.data != [] then o.dataStart <= o.dataEnd <= |b| && b[o.dataStart..o.dataEnd] == a.data
        else o.dataStart == o.dataEnd == 0)
    && (if i > 6 && a.writeVersion != 0
        then 0 < o.writeVersion <= |b|
              && VarintAt(b, o.writeVersion) == Some(Varint(a.writeVersion, VarintLen(a.writeVersion)))
        else o.writeVersion == 0)
    && (if i > 7 && a.txnSignature.Some?
        then o.txnSignature.Some? && o.txnSignature.value + SIGNATURE_BYTES <= |b|
             && b[o.txnSignature.value..o.txnSignature.value + SIGNATURE_BYTES] == a.txnSignature.value
        else o.txnSignature.None?)
  }

  lemma GotNextInfo(d: Decoded, b: Bytes, pos: nat, a: AccountInner, i: nat)
    requires i < 8 && WellTyped(a) && GotInfo(d.info, a, i)
    requires var n := WhenLen(IsWritten(a, i), FieldOf(a, i));
      pos + n <= |b| && b[pos..pos + n] == When(IsWritten(a, i), FieldOf(a, i))
    ensures var e := Advance(d, b, pos, IsWritten(a, i), FieldOf(a, i));
      GotInfo(e.info, a, i + 1) && e.info.slot == d.info.slot
      && e.info.isStartup == d.info.isStartup && e.info.bankId == d.info.bankId && e.at.account == d.at.account
  {
    hide FieldBytes, VarintAt, VarintLen;
    if IsWritten(a, i) {
      FieldIsFine(a, i, pos);
      FieldIsRead(b, pos, FieldOf(a, i));
    }
  }

  lemma GotNextOffsets(d: Decoded, b: Bytes, pos: nat, a: AccountInner, i: nat)
    requires i < 8 && WellTyped(a) && GotOffsets(d.at, b, a, i)
    requires var n := WhenLen(IsWritten(a, i), FieldOf(a, i));
      pos + n <= |b| && b[pos..pos + n] == When(IsWritten(a, i), FieldOf(a, i))
    ensures GotOffsets(Advance(d, b, pos, IsWritten(a, i), FieldOf(a, i)).at, b, a, i + 1)
  {
    hide FieldBytes, VarintAt, VarintLen;
    if IsWritten(a, i) {
      FieldIsFine(a, i, pos);
      FieldIsRead(b, pos, FieldOf(a, i));
    }
  }

  /** All eight fields of a nested account are read back. */
  lemma {:induction false} GotAll(d: Decoded, b: Bytes, pos: nat, end: nat, a: AccountInner, i: nat)
    requires i <= 8 && pos <= end <= |b| && b[pos..end] == Rest(a, i) && WellTyped(a)
    requires GotInfo(d.info, a, i) && GotOffsets(d.at, b, a, i)
    ensures var e := DecodeRest(d, b, pos, a, i);
      GotInfo(e.info, a, 8) && GotOffsets(e.at, b, a, 8) && e.info.slot == d.info.slot
      && e.info.isStartup == d.info.isStartup && e.info.bankId == d.info.bankId && e.at.account == d.at.account
    decreases 8 - i
  {
    hide FieldBytes, When, Advance, FieldLen, WellTyped, IsWritten, FieldOf, GotInfo, GotOffsets;
    if i < 8 {
      var written, f := IsWritten(a, i), FieldOf(a, i);
      var next := pos + WhenLen(written, f);
      SliceOfSlice(b, pos, end, pos, next);
      SliceOfSlice(b, pos, end, next, end);
      assert Rest(a, i)[0..next - pos] == When(written, f) && Rest(a, i)[next - pos..end - pos] == Rest(a, i + 1);
      GotNextInfo(d, b, pos, a, i);
      GotNextOffsets(d, b, pos, a, i);
      GotAll(Advance(d, b, pos, written, f), b, next, end, a, i + 1);
    }
  }

  // ----- the update around the account -----

  /** What an optional field behind the account does to the record. */
  function OuterAdvance(d: Decoded, pos: nat, written: bool, f: WireField): Decoded {
    if written then d.(info := OuterInfoStep(d.info, FieldAt(f, pos))) else d
  }

  lemma OptionalOuterField(d: Decoded, b: Bytes, pos: nat, written: bool, f: WireField)
    requires pos + WhenLen(written, f) <= |b| && b[pos..pos + WhenLen(written, f)] == When(written, f)
    requires Encodable(f) && !f.Blob? && f.tag != 1
    ensures var next := pos + WhenLen(written, f);
      && OuterLoop(d, b, pos) == OuterLoop(OuterAdvance(d, pos, written, f), b, next)
      && AccountFields(b, pos) == AccountFields(b, next)
  {
    hide FieldBytes, ReadField, OuterLoop, AccountFields, OuterInfoStep, KeyLen, VarintLen, VarintAt;
    if written {
      FieldIsRead(b, pos, f);
      OuterLoopStep(d, b, pos, FieldAt(f, pos), OuterAdvance(d, pos, written, f));
    }
  }

  /** The fields behind the account, as bytes. */
  function Trailer(slot: nat, isStartup: bool, bankId: Option<nat>): Bytes {
    When(slot != 0, Uint(2, slot))
    + (When(!isStartup, Bool(3, isStartup)) + When(bankId.Some?, Uint(4, if bankId.Some? then bankId.value else 0)))
  }

  /** Behind the account: slot and bank come back, and the startup flag always reads as false. */
  lemma TrailerIsRead(d: Decoded, b: Bytes, pos: nat, slot: nat, isStartup: bool, bankId: Option<nat>)
    requires pos <= |b| && b[pos..] == Trailer(slot, isStartup, bankId)
    requires slot < U64_LIMIT && (bankId.Some? ==> bankId.value < U64_LIMIT)
    requires d.info.slot == 0 && !d.info.isStartup && d.info.bankId.None?
    ensures OuterLoop(d, b, pos) == Some(d.(info := d.info.(slot := slot, bankId := bankId)))
    ensures AccountFields(b, pos) == []
  {
    hide FieldBytes, When, OuterLoop, AccountFields, ReadField, FieldLen, KeyLen, VarintLen, OuterAdvance;
    var f1, f2, f3 := Uint(2, slot), Bool(3, isStartup), Uint(4, if bankId.Some? then bankId.value else 0);
    var x1, x2, x3 := When(slot != 0, f1), When(!isStartup, f2), When(bankId.Some?, f3);
    var p1, p2 := pos + |x1|, pos + |x1| + |x2|;
    assert b[pos..] == x1 + (x2 + x3);
    assert x1 + (x2 + x3) == x1 + x2 + x3;
    assert b[pos..|b|] == b[pos..];
    ThreeParts(b, pos, x1, x2, x3);
    var d1 := OuterAdvance(d, pos, slot != 0, f1);
    var d2 := OuterAdvance(d1, p1, !isStartup, f2);
    OptionalOuterField(d, b, pos, slot != 0, f1);
    OptionalOuterField(d1, b, p1, !isStartup, f2);
    OptionalOuterField(d2, b, p2, bankId.Some?, f3);
    OuterLoopDone(OuterAdvance(d2, p2, bankId.Some?, f3), b);
    TrailerFields(d, slot, isStartup, bankId, pos, p1, p2);
  }

  /** The record after the fields behind the account. */
  lemma TrailerFields(d: Decoded, slot: nat, isStartup: bool, bankId: Option<nat>, p0: nat, p1: nat, p2: nat)
    requires d.info.slot == 0 && !d.info.isStartup && d.info.bankId.None?
    ensures var d1 := OuterAdvance(d, p0, slot != 0, Uint(2, slot));
      var d2 := OuterAdvance(d1, p1, !isStartup, Bool(3, isStartup));
      OuterAdvance(d2, p2, bankId.Some?, Uint(4, if bankId.Some? then bankId.value else 0))
      == d.(info := d.info.(slot := slot, bankId := bankId))
  {
  }

  lemma OuterLoopDone(d: Decoded, b: Bytes)
    ensures OuterLoop(d, b, |b|) == Some(d) && AccountFields(b, |b|) == []
  {
  }

  lemma UpdateParts(u: AccountUpdate)
    requires u.Fields?
    ensures AccountUpdateBytes(u) ==
          FieldBytes(Blob(1, AccountInnerBytes(u.account))) + Trailer(u.slot, u.isStartup, u.bankId)
  {
    hide EncodeKey, EncodeVarint, AccountInnerBytes, AccountInnerLen, FieldLen;
  }

  /** The account field at the start of the update. */
  lemma AccountIsRead(b: Bytes, a: AccountInner) returns (g: Field, e: Decoded)
    requires WellTyped(a) && AccountInnerLen(a) < U64_LIMIT
    requires var f := Blob(1, AccountInnerBytes(a)); FieldLen(f) <= |b| && b[0..FieldLen(f)] == FieldBytes(f)
    ensures ReadField(b, 0) == Some(g) && g.tag == 1 && g.wire.LengthDelimited?
    ensures g.next == FieldLen(Blob(1, AccountInnerBytes(a))) && OuterStep(DEFAULT, b, g) == Some(e)
    ensures GotInfo(e.info, a, 8) && GotOffsets(e.at, b, a, 8)
    ensures e.info.slot == 0 && !e.info.isStartup && e.info.bankId.None? && e.at.account == Some(g.mark)
  {
    hide FieldBytes, AccountInnerBytes, ReadField, InnerLoop, KeyLen, VarintLen, AccountInnerLen;
    var f := Blob(1, AccountInnerBytes(a));
    FieldIsRead(b, 0, f);
    g := FieldAt(f, 0);
    RestIsAll(a);
    var d := Opened(DEFAULT, g.mark);
    InnerLoopReads(d, b, g.start, g.next, a, 0);
    GotAll(d, b, g.start, g.next, a, 0);
    e := DecodeRest(d, b, g.start, a, 0);
  }

  /** Round trip: decoding an encoded account update returns every value and offsets to the very bytes
      that were written; only the startup flag is lost, because it is written only when it is false. */
  lemma DecodeEncodedAccount(u: AccountUpdate)
    requires u.Fields? && WellTyped(u.account) && AccountInnerLen(u.account) < U64_LIMIT
    requires u.slot < U64_LIMIT && (u.bankId.Some? ==> u.bankId.value < U64_LIMIT)
    ensures var b := AccountUpdateBytes(u);
      && Decode(b).Some? && AccountFields(b, 0) == [0]
      && var e := Decode(b).value;
      && GotInfo(e.info, u.account, 8) && GotOffsets(e.at, b, u.account, 8)
      && e.info.slot == u.slot && e.info.bankId == u.bankId && e.at.account.Some?
      && (e.info.isStartup == u.isStartup <==> !u.isStartup)
      && (e.at.writeVersion != 0 <==> u.account.writeVersion != 0)
  {
    hide FieldBytes, AccountInnerBytes, AccountUpdateBytes, ReadField, InnerLoop, OuterLoop, AccountFields, Trailer,
         KeyLen, VarintLen, AccountInnerLen, FieldLen;
    var b := AccountUpdateBytes(u);
    UpdateParts(u);
    var g, e := AccountIsRead(b, u.account);
    OuterLoopStep(DEFAULT, b, 0, g, e);
    TrailerIsRead(e, b, g.next, u.slot, u.isStartup, u.bankId);
    FirstAccountField(b, g);
  }

  lemma FirstAccountField(b: Bytes, f: Field)
    requires b != [] && ReadField(b, 0) == Some(f) && f.tag == 1 && AccountFields(b, f.next) == []
    ensures AccountFields(b, 0) == [0]
  {
  }
}
