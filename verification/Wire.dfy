/** The Protocol Buffers wire format as far as Richat writes and reads it by hand: Base 128 Varints,
    keys, and Length-Delimited Records. */
module Wire {
  import opened Basics

  type Byte = x: nat | x < 256
  type Bytes = seq<Byte>

  const U64_LIMIT: nat := 0x1_0000_0000_0000_0000
  const U32_LIMIT: nat := 0x1_0000_0000
  const VARINT_LIMIT: nat := 10

  // ----- varints -----

  /** `encode_varint` */
  function EncodeVarint(v: nat): (r: Bytes)
    ensures |r| >= 1
  {
    if v < 128 then [v] else [128 + v % 128] + EncodeVarint(v / 128)
  }

  /** `encoded_len_varint` */
  function VarintLen(v: nat): (r: nat)
    ensures r >= 1
  {
    if v < 128 then 1 else 1 + VarintLen(v / 128)
  }

  datatype Varint = Varint(value: nat, width: nat)

  /** `decode_varint` after `k` bytes of the same varint: at most ten bytes, and the tenth may only
      carry the top bit of a 64-bit value. */
  function DecodeVarintFrom(b: Bytes, k: nat): (r: Option<Varint>)
    ensures r.Some? ==> 1 <= r.value.width <= |b| && k + r.value.width <= VARINT_LIMIT
  {
    if |b| == 0 || k >= VARINT_LIMIT then None
    else if b[0] < 128 then
      if k == VARINT_LIMIT - 1 && b[0] > 1 then None else Some(Varint(b[0], 1))
    else
      var rest := DecodeVarintFrom(b[1..], k + 1);
      if rest.None? then None
      else Some(Varint(b[0] - 128 + 128 * rest.value.value, 1 + rest.value.width))
  }

  function DecodeVarint(b: Bytes): (r: Option<Varint>) {
    DecodeVarintFrom(b, 0)
  }

  /** `decode_varint` at an offset of a buffer. */
  function VarintAt(b: Bytes, pos: nat): (r: Option<Varint>)
    requires pos <= |b|
    ensures r.Some? ==> 1 <= r.value.width <= VARINT_LIMIT && pos + r.value.width <= |b|
  {
    DecodeVarint(b[pos..])
  }

  lemma {:induction false} VarintLenIsLength(v: nat)
    ensures |EncodeVarint(v)| == VarintLen(v)
  {
    if v >= 128 {
      VarintLenIsLength(v / 128);
    }
  }

  /** Bound on a value that fits in `10 - k` varint bytes of a 64-bit number. */
  function Capacity(k: nat): nat
    requires k <= 9
    decreases 9 - k
  {
    if k == 9 then 2 else 128 * Capacity(k + 1)
  }

  lemma CapacityOfU64()
    ensures Capacity(0) == U64_LIMIT
  {
    assert Capacity(8) == 256;
    assert Capacity(6) == 128 * 128 * 256;
    assert Capacity(4) == 128 * 128 * Capacity(6);
    assert Capacity(2) == 128 * 128 * Capacity(4);
    assert Capacity(0) == 128 * 128 * Capacity(2);
  }

  lemma {:induction false} DecodeEncodedFrom(v: nat, k: nat, rest: Bytes)
    requires k <= 9 && v < Capacity(k)
    ensures DecodeVarintFrom(EncodeVarint(v) + rest, k) == Some(Varint(v, VarintLen(v)))
    decreases 9 - k
  {
    var b := EncodeVarint(v) + rest;
    if v >= 128 {
      assert b[0] == 128 + v % 128;
      assert k < 9;
      DecodeEncodedFrom(v / 128, k + 1, rest);
      assert b[1..] == EncodeVarint(v / 128) + rest;
    } else {
      assert b[0] == v;
    }
  }

  /** Every 64-bit value survives the trip through its varint, whatever follows it. */
  lemma DecodeEncoded(v: nat, rest: Bytes)
    requires v < U64_LIMIT
    ensures DecodeVarint(EncodeVarint(v) + rest) == Some(Varint(v, VarintLen(v)))
  {
    CapacityOfU64();
    DecodeEncodedFrom(v, 0, rest);
  }

  lemma {:induction false} DecodedBelow(b: Bytes, k: nat)
    requires k <= 9 && DecodeVarintFrom(b, k).Some?
    ensures DecodeVarintFrom(b, k).value.value < Capacity(k)
    decreases |b|
  {
    if b[0] >= 128 {
      DecodedBelow(b[1..], k + 1);
    } else if k < 9 {
      assert Capacity(k) >= 128 by {
        CapacityAtLeast(k);
      }
    }
  }

  lemma {:induction false} CapacityAtLeast(k: nat)
    requires k < 9
    ensures Capacity(k) >= 128
    decreases 9 - k
  {
    if k < 8 {
      CapacityAtLeast(k + 1);
    }
  }

  /** The number that groups of seven bits stand for, least significant group first. */
  function Groups(b: Bytes): nat {
    if b == [] then 0 else b[0] % 128 + 128 * Groups(b[1..])
  }

  /** A varint of `w` bytes at the front: the last one without the continuation bit, the others with it; at most ten,
      and of the tenth one bit only. */
  ghost predicate IsVarint(b: Bytes, k: nat, w: nat) {
    && 1 <= w <= |b| && k + w <= 10
    && (forall i :: 0 <= i < w - 1 ==> b[i] >= 128)
    && b[w - 1] < (if k + w == 10 then 2 else 128)
  }

  lemma {:induction false} DecodedIffFrom(b: Bytes, k: nat, w: nat)
    requires k <= 9
    ensures IsVarint(b, k, w) <==> DecodeVarintFrom(b, k).Some? && DecodeVarintFrom(b, k).value.width == w
    ensures IsVarint(b, k, w) ==> DecodeVarintFrom(b, k).value.value == Groups(b[..w])
    decreases |b|
  {
    if b != [] && b[0] >= 128 {
      if k < 9 && w >= 1 {
        DecodedIffFrom(b[1..], k + 1, w - 1);
        if w >= 2 && w <= |b| {
          assert b[1..][..w - 1] == b[..w][1..];
        }
      }
      if IsVarint(b, k, w) {
        assert w > 1;
        assert forall i :: 0 <= i < w - 2 ==> b[1..][i] == b[i + 1];
        assert IsVarint(b[1..], k + 1, w - 1);
      }
      if k < 9 && w >= 1 && IsVarint(b[1..], k + 1, w - 1) {
        assert forall i :: 0 < i < w - 1 ==> b[i] == b[1..][i - 1];
      }
    } else if b != [] {
      assert b[..1][1..] == [];
      assert Groups(b[..1]) == b[0];
    }
  }

  /** Which bytes are read as a varint, with which width, and what they stand for. */
  lemma DecodedIff(b: Bytes, w: nat)
    ensures IsVarint(b, 0, w) <==> DecodeVarint(b).Some? && DecodeVarint(b).value.width == w
    ensures IsVarint(b, 0, w) ==> DecodeVarint(b).value.value == Groups(b[..w])
  {
    DecodedIffFrom(b, 0, w);
  }

  lemma {:induction false} VarintLenMonotone(x: nat, y: nat)
    requires x <= y
    ensures VarintLen(x) <= VarintLen(y)
  {
    if x >= 128 {
      VarintLenMonotone(x / 128, y / 128);
    }
  }

  lemma {:induction false} VarintLenAtMostFrom(v: nat, k: nat)
    requires k <= 9 && v < Capacity(k)
    ensures k + VarintLen(v) <= VARINT_LIMIT
    decreases 9 - k
  {
    if v >= 128 {
      VarintLenAtMostFrom(v / 128, k + 1);
    }
  }

  lemma VarintLenAtMost(v: nat)
    requires v < U64_LIMIT
    ensures VarintLen(v) <= VARINT_LIMIT
  {
    CapacityOfU64();
    VarintLenAtMostFrom(v, 0);
  }

  /** A length that grows by a few bytes takes at most one more byte to write. */
  lemma VarintLenGrows(x: nat, y: nat)
    requires y <= 128 * x + 127
    ensures VarintLen(y) <= VarintLen(x) + 1
  {
    if y >= 128 {
      VarintLenMonotone(y / 128, x);
    }
  }

  /** No encoding of a value is shorter than the one `EncodeVarint` chooses. */
  lemma {:induction false} EncodingIsShortest(b: Bytes, k: nat)
    requires DecodeVarintFrom(b, k).Some?
    ensures VarintLen(DecodeVarintFrom(b, k).value.value) <= DecodeVarintFrom(b, k).value.width
    decreases |b|
  {
    if b[0] >= 128 {
      EncodingIsShortest(b[1..], k + 1);
      var v, rest := DecodeVarintFrom(b, k).value.value, DecodeVarintFrom(b[1..], k + 1).value.value;
      assert v >= 128 ==> v / 128 == rest;
    }
  }

  /** Reading a varint depends on its own bytes only. */
  lemma {:induction false} VarintIsLocal(b: Bytes, c: Bytes, k: nat)
    requires DecodeVarintFrom(b, k).Some?
    requires var w := DecodeVarintFrom(b, k).value.width; w <= |c| && c[..w] == b[..w]
    ensures DecodeVarintFrom(c, k) == DecodeVarintFrom(b, k)
    decreases |b|
  {
    var w := DecodeVarintFrom(b, k).value.width;
    assert c[0] == c[..w][0] == b[0];
    if b[0] >= 128 {
      assert c[1..][..w - 1] == c[..w][1..] == b[..w][1..] == b[1..][..w - 1];
      VarintIsLocal(b[1..], c[1..], k + 1);
    }
  }

  /** The same, for a varint found at different offsets of two buffers. */
  lemma VarintMoves(b: Bytes, pos: nat, c: Bytes, pos': nat)
    requires pos <= |b| && pos' <= |c| && VarintAt(b, pos).Some?
    requires var w := VarintAt(b, pos).value.width; pos' + w <= |c| && c[pos'..pos' + w] == b[pos..pos + w]
    ensures VarintAt(c, pos') == VarintAt(b, pos)
  {
    var w := VarintAt(b, pos).value.width;
    assert b[pos..][..w] == b[pos..pos + w] && c[pos'..][..w] == c[pos'..pos' + w];
    VarintIsLocal(b[pos..], c[pos'..], 0);
  }

  /** A varint written at an offset is read back there. */
  lemma VarintWritten(b: Bytes, pos: nat, v: nat)
    requires v < U64_LIMIT && pos + VarintLen(v) <= |b| && b[pos..pos + VarintLen(v)] == EncodeVarint(v)
    ensures VarintAt(b, pos) == Some(Varint(v, VarintLen(v)))
  {
    VarintLenIsLength(v);
    DecodeEncoded(v, b[pos + VarintLen(v)..]);
    assert b[pos..] == EncodeVarint(v) + b[pos + VarintLen(v)..];
  }

  // ----- fields -----

  datatype WireType = VarintType | Fixed64 | LengthDelimited | Fixed32

  function WireCode(w: WireType): nat {
    match w
    case VarintType => 0
    case Fixed64 => 1
    case LengthDelimited => 2
    case Fixed32 => 5
  }

  function WireTypeOf(code: nat): Option<WireType> {
    if code == 0 then Some(VarintType)
    else if code == 1 then Some(Fixed64)
    else if code == 2 then Some(LengthDelimited)
    else if code == 5 then Some(Fixed32)
    else None
  }

  /** `encode_key` */
  function EncodeKey(tag: nat, wire: WireType): Bytes {
    EncodeVarint(8 * tag + WireCode(wire))
  }

  /** `key_len` */
  function KeyLen(tag: nat): nat {
    VarintLen(8 * tag)
  }

  /** A field as the decoders see it: its key ends at `mark`; its contents are the `width` bytes from
      `start`; for varints `value` is the number; the next field begins at `next`. */
  datatype Field = Field(tag: nat, wire: WireType, mark: nat, start: nat, width: nat, value: nat, next: nat)

  /** `decode_key` followed by the contents: what both `merge_field` and `skip_field` consume. */
  function ReadField(b: Bytes, pos: nat): (r: Option<Field>)
    requires pos <= |b|
    ensures r.Some? ==> pos < r.value.mark <= r.value.start <= r.value.next <= |b|
                        && r.value.next == r.value.start + r.value.width && r.value.tag >= 1
                        && (r.value.wire.VarintType? ==> r.value.start == r.value.mark && r.value.width >= 1)
  {
    var key := VarintAt(b, pos);
    if key.None? || key.value.value >= U32_LIMIT || key.value.value / 8 == 0 then None
    else
      var wire := WireTypeOf(key.value.value % 8);
      if wire.None? then None
      else ReadContents(b, key.value.value / 8, wire.value, pos + key.value.width)
  }

  function ReadContents(b: Bytes, tag: nat, wire: WireType, mark: nat): (r: Option<Field>)
    requires mark <= |b|
    ensures r.Some? ==> r.value.tag == tag && r.value.wire == wire && r.value.mark == mark
                        && mark <= r.value.start <= r.value.next <= |b|
                        && r.value.next == r.value.start + r.value.width
                        && (wire.VarintType? ==> r.value.start == mark && r.value.width >= 1)
  {
    match wire
    case VarintType =>
      var v := VarintAt(b, mark);
      if v.None? then None
      else Some(Field(tag, wire, mark, mark, v.value.width, v.value.value, mark + v.value.width))
    case LengthDelimited =>
      var len := VarintAt(b, mark);
      if len.None? || mark + len.value.width + len.value.value > |b| then None
      else
        var start := mark + len.value.width;
        Some(Field(tag, wire, mark, start, len.value.value, 0, start + len.value.value))
    case Fixed64 =>
      if mark + 8 > |b| then None else Some(Field(tag, wire, mark, mark, 8, 0, mark + 8))
    case Fixed32 =>
      if mark + 4 > |b| then None else Some(Field(tag, wire, mark, mark, 4, 0, mark + 4))
  }

  /** Which bytes are read as a field: a key of 32 bits with a tag that is not zero and a wire type of the format, and
      behind it contents of this type in full. */
  lemma FieldReadsIff(b: Bytes, pos: nat)
    requires pos <= |b|
    ensures ReadField(b, pos).Some? <==>
      var key := VarintAt(b, pos);
      && key.Some? && 8 <= key.value.value < 0x1_0000_0000
      && var code, mark := key.value.value % 8, pos + key.value.width;
      || (code == 0 && VarintAt(b, mark).Some?)
      || (code == 1 && mark + 8 <= |b|)
      || (code == 2 && VarintAt(b, mark).Some?
          && mark + VarintAt(b, mark).value.width + VarintAt(b, mark).value.value <= |b|)
      || (code == 5 && mark + 4 <= |b|)
    ensures ReadField(b, pos).Some? ==> ReadField(b, pos).value.tag == VarintAt(b, pos).value.value / 8
  {
    hide DecodeVarint;
  }

  function Shifted(f: Field, delta: int): Field
    requires f.mark + delta >= 0 && f.start + delta >= 0 && f.next + delta >= 0
  {
    f.(mark := f.mark + delta, start := f.start + delta, next := f.next + delta)
  }

  /** Equal stretches of two buffers, at a distance `delta`. */
  ghost predicate SameBytes(b: Bytes, c: Bytes, from: nat, to: nat, delta: int) {
    from <= to <= |b| && 0 <= from + delta && to + delta <= |c| && c[from + delta..to + delta] == b[from..to]
  }

  lemma SliceOfSlice(s: Bytes, a: nat, b: nat, x: nat, y: nat)
    requires a <= x <= y <= b <= |s|
    ensures s[a..b][x - a..y - a] == s[x..y]
  {
    var t, u := s[a..b][x - a..y - a], s[x..y];
    forall i | 0 <= i < |u|
      ensures t[i] == u[i]
    {
    }
    assert t == u;
  }

  lemma SameBytesWithin(b: Bytes, c: Bytes, from: nat, to: nat, delta: int, from': nat, to': nat)
    requires SameBytes(b, c, from, to, delta) && from <= from' <= to' <= to
    ensures SameBytes(b, c, from', to', delta)
  {
    SliceOfSlice(c, from + delta, to + delta, from' + delta, to' + delta);
    SliceOfSlice(b, from, to, from', to');
  }

  lemma ContentsMove(b: Bytes, c: Bytes, tag: nat, wire: WireType, mark: nat, delta: int)
    requires mark <= |b| && ReadContents(b, tag, wire, mark).Some?
    requires SameBytes(b, c, mark, ReadContents(b, tag, wire, mark).value.next, delta)
    ensures var f := ReadContents(b, tag, wire, mark).value;
      ReadContents(c, tag, wire, mark + delta) == Some(Shifted(f, delta))
  {
    var f := ReadContents(b, tag, wire, mark).value;
    if wire.VarintType? || wire.LengthDelimited? {
      var w := VarintAt(b, mark).value.width;
      SameBytesWithin(b, c, mark, f.next, delta, mark, mark + w);
      VarintMoves(b, mark, c, mark + delta);
    }
  }

  /** Reading a field depends on its own bytes only: moved bytes read as the moved field. */
  lemma FieldMoves(b: Bytes, c: Bytes, pos: nat, delta: int)
    requires pos <= |b| && ReadField(b, pos).Some?
    requires SameBytes(b, c, pos, ReadField(b, pos).value.next, delta)
    ensures ReadField(c, pos + delta) == Some(Shifted(ReadField(b, pos).value, delta))
  {
    var f, w := ReadField(b, pos).value, VarintAt(b, pos).value.width;
    SameBytesWithin(b, c, pos, f.next, delta, pos, pos + w);
    VarintMoves(b, pos, c, pos + delta);
    SameBytesWithin(b, c, pos, f.next, delta, f.mark, f.next);
    ContentsMove(b, c, f.tag, f.wire, f.mark, delta);
  }
}
