/** `MessageAccount::Limited` of `filter/src/message.rs`: parsing an account update into offsets, its
    accessors, and `update_write_version`, which edits the encoded message in place. */
module AccountSplice {
  import opened Basics
  import opened Wire
  import opened AccountDecode
  import opened AccountMoves

  // ----- what the edit must produce -----

  /** The message with the length of the account and the write version replaced. */
  function Spliced(b: Bytes, s: Splice): Bytes
    requires s.a <= s.body <= s.w <= s.wEnd <= |b|
  {
    b[..s.a] + EncodeVarint(s.size) + b[s.body..s.w] + EncodeVarint(s.v) + b[s.wEnd..]
  }

  lemma SplicedRelates(b: Bytes, s: Splice)
    requires s.Fits(b)
    ensures s.Relates(b, Spliced(b, s))
  {
    VarintLenIsLength(s.size);
    VarintLenIsLength(s.v);
    var c, l, v := Spliced(b, s), EncodeVarint(s.size), EncodeVarint(s.v);
    var p1, p2, p3, p4 := s.a, s.a + |l|, s.a + |l| + (s.w - s.body), s.a + |l| + (s.w - s.body) + |v|;
    assert c[..p1] == b[..s.a];
    assert c[p1..p2] == l;
    assert c[p2..p3] == b[s.body..s.w];
    assert c[p3..p4] == v;
    assert c[p4..] == b[s.wEnd..];
    assert c[p4..|c|] == b[s.wEnd..|b|];
  }

  lemma SplicedLength(b: Bytes, s: Splice)
    requires s.a <= s.body <= s.w <= s.wEnd <= |b|
    ensures |Spliced(b, s)| == |b| + s.Dm() + s.Dw()
  {
    VarintLenIsLength(s.size);
    VarintLenIsLength(s.v);
  }

  // ----- the edit as a sequence of buffer operations -----

  /** `std::ptr::copy` of `len` bytes inside one buffer. */
  ghost predicate IsCopy(b: Bytes, c: Bytes, from: nat, to: nat, len: nat) {
    && |c| == |b| && from + len <= |b| && to + len <= |b|
    && (forall i :: to <= i < to + len ==> c[i] == b[i - to + from])
    && (forall i :: 0 <= i < |b| && !(to <= i < to + len) ==> c[i] == b[i])
  }

  /** The bytes `x` written at `at`. */
  ghost predicate IsWrite(b: Bytes, c: Bytes, at: nat, x: Bytes) {
    && |c| == |b| && at + |x| <= |b|
    && (forall i :: at <= i < at + |x| ==> c[i] == x[i - at])
    && (forall i :: 0 <= i < |b| && !(at <= i < at + |x|) ==> c[i] == b[i])
  }

  /** The first move stays clear of the bytes that the second one reads: the length grows by at most the
      width of the old write version. So after both moves the contents are where they belong. */
  lemma MovesDone(b: Bytes, b1: Bytes, b2: Bytes, rs: nat, a: nat, body: nat, w: nat, wEnd: nat, end: nat, p2: nat,
                  p4: nat)
    requires rs <= a <= body <= w <= wEnd <= end <= |b| && a <= p2
    requires p2 + (w - body) <= wEnd && p2 + (w - body) <= p4
    requires IsCopy(b, b1, body, p2, w - body) && IsCopy(b1, b2, wEnd, p4, end - wEnd)
    ensures |b2| == |b| && b2[rs..a] == b[rs..a]
    ensures b2[p2..p2 + (w - body)] == b[body..w] && b2[p4..p4 + (end - wEnd)] == b[wEnd..end]
  {
    forall i | rs <= i < a
      ensures b2[i] == b[i]
    {
      assert b1[i] == b[i];
    }
    forall i | p2 <= i < p2 + (w - body)
      ensures b2[i] == b[i - p2 + body]
    {
      assert b1[i] == b[i - p2 + body];
    }
    forall i | p4 <= i < p4 + (end - wEnd)
      ensures b2[i] == b[i - p4 + wEnd]
    {
      assert b1[i - p4 + wEnd] == b[i - p4 + wEnd];
    }
  }

  /** The varints fill the gaps between the moved contents. */
  lemma WritesDone(b: Bytes, b3: Bytes, b4: Bytes, l: Bytes, v: Bytes, rs: nat, a: nat, p3: nat, end: nat)
    requires rs <= a && a + |l| <= p3 && p3 + |v| <= end <= |b|
    requires IsWrite(b, b3, a, l) && IsWrite(b3, b4, p3, v)
    ensures |b4| == |b|
    ensures b4[rs..a] == b[rs..a] && b4[a..a + |l|] == l && b4[a + |l|..p3] == b[a + |l|..p3]
    ensures b4[p3..p3 + |v|] == v && b4[p3 + |v|..end] == b[p3 + |v|..end]
  {
  }

  /** Five adjacent pieces make up a stretch. */
  lemma Pieces(b: Bytes, p0: nat, p1: nat, p2: nat, p3: nat, p4: nat, p5: nat)
    requires p0 <= p1 <= p2 <= p3 <= p4 <= p5 <= |b|
    ensures b[p0..p5] == b[p0..p1] + b[p1..p2] + b[p2..p3] + b[p3..p4] + b[p4..p5]
  {
    assert b[p0..p2] == b[p0..p1] + b[p1..p2];
    assert b[p0..p3] == b[p0..p2] + b[p2..p3];
    assert b[p0..p4] == b[p0..p3] + b[p3..p4];
  }

  // ----- the offsets of the account -----

  /** `Vec` never holds more bytes than this. */
  const ISIZE_LIMIT: nat := 0x8000_0000_0000_0000

  /** Without a data field the range is empty and stays in front of the contents of the account. */
  ghost predicate EmptyRange(rs: nat, start: nat, end: nat, width: nat, body: nat) {
    start == end && width <= start + 1 && start <= rs + body
  }

  /** `o` are the offsets `at` of a message that begins at `rs` of a buffer; `width` is the width of the
      length of the account and `body` where its contents begin. */
  ghost predicate Rebased(at: Offsets, rs: nat, o: Offsets, width: nat, body: nat) {
    && at.account.Some? && o.account == Some(rs + at.account.value)
    && o.writeVersion == rs + at.writeVersion
    && (if at.txnSignature.Some? then o.txnSignature == Some(rs + at.txnSignature.value) else o.txnSignature.None?)
    && (if at.dataEnd != 0 then o.dataStart == rs + at.dataStart && o.dataEnd == rs + at.dataEnd
        else EmptyRange(rs, o.dataStart, o.dataEnd, width, body))
  }

  /** A message that decodes, has one account field and a write version in it. */
  ghost predicate Editable(b: Bytes) {
    Decode(b).Some? && |AccountFields(b, 0)| == 1 && Decode(b).value.at.writeVersion != 0
  }

  /** Where the decoder found the pieces of a message with one account field. */
  ghost predicate Shape(b: Bytes)
    requires Decode(b).Some?
  {
    var at := Decode(b).value.at;
    && at.account.Some? && at.account.value <= |b| && VarintAt(b, at.account.value).Some?
    && var width, size := VarintAt(b, at.account.value).value.width, VarintAt(b, at.account.value).value.value;
    && var body := at.account.value + width;
    && Nested(b, at.account.value, body, body + size)
    && Placed(at, b, body, body + size)
  }

  lemma OneAccountShape(b: Bytes)
    requires Decode(b).Some? && |AccountFields(b, 0)| == 1
    ensures Shape(b)
  {
    var k := AccountFields(b, 0)[0];
    assert AccountFields(b, 0) == [k];
    var account := OuterLoopPlaced(DEFAULT, b, 0, k);
    NestedContents(b, k, account);
  }

  lemma EditableShape(b: Bytes)
    requires Editable(b)
    ensures Shape(b)
  {
    OneAccountShape(b);
  }

  /** The edit needs the field, and having it is enough: the first move, from the end of the length to the write
      version, has a length that is not negative if and only if the account has a write version. */
  lemma FirstMoveNeedsVersion(b: Bytes)
    requires Decode(b).Some? && |AccountFields(b, 0)| == 1
    ensures Shape(b)
    ensures var at := Decode(b).value.at;
      at.account.value + VarintAt(b, at.account.value).value.width <= at.writeVersion <==> at.writeVersion != 0
  {
    hide OuterLoop, AccountFields;
    OneAccountShape(b);
  }

  /** Without the field the accessor does not read a write version but the key of the first field. */
  lemma MissingVersionReadsKey(b: Bytes)
    requires Decode(b).Some? && |AccountFields(b, 0)| == 1 && Decode(b).value.at.writeVersion == 0
    ensures VarintAt(b, Decode(b).value.at.writeVersion).Some? && ReadField(b, 0).Some?
    ensures var key, f := VarintAt(b, Decode(b).value.at.writeVersion).value, ReadField(b, 0).value;
      key.width == f.mark && key.value == 8 * f.tag + WireCode(f.wire)
  {
    FirstKey(b);
  }

  lemma FirstKey(b: Bytes)
    requires b != [] && ReadField(b, 0).Some?
    ensures VarintAt(b, 0).Some?
    ensures var key, f := VarintAt(b, 0).value, ReadField(b, 0).value;
      key.width == f.mark && key.value == 8 * f.tag + WireCode(f.wire)
  {
    var key := VarintAt(b, 0).value.value;
    assert key == 8 * (key / 8) + key % 8;
  }

  /** The offsets `o` into a buffer whose message begins at `rs` are those of a fresh decoding of the
      message `b`, and the message can be edited. */
  ghost predicate Matches(b: Bytes, rs: nat, o: Offsets, info: Info) {
    && Editable(b) && Decode(b).value.info == info
    && var at := Decode(b).value.at;
    && at.account.Some? && at.account.value <= |b| && VarintAt(b, at.account.value).Some?
    && var width := VarintAt(b, at.account.value).value.width;
    && Rebased(at, rs, o, width, at.account.value + width)
  }

  /** The edit that sets the write version of `b` to `v`. */
  ghost function SpliceOf(b: Bytes, v: nat): (s: Splice)
    requires Editable(b) && v < U64_LIMIT && |b| < ISIZE_LIMIT
    ensures s.v == v && s.Fits(b) && Replaces(s, b, Decode(b).value.at)
    ensures Placed(Decode(b).value.at, b, s.body, s.stop)
    ensures VarintLen(s.size) <= (s.body - s.a) + 1
  {
    EditableShape(b);
    var at := Decode(b).value.at;
    var a, w := at.account.value, at.writeVersion;
    var length, old' := VarintAt(b, a).value, VarintAt(b, w).value;
    NewSize(b, a, length.value, v, old'.width);
    var body := a + length.width;
    Splice(a, body, w, w + old'.width, body + length.value, length.value + VarintLen(v) - old'.width, v)
  }

  /** The new length takes at most one byte more than the old one, however that was written. */
  lemma NewSize(b: Bytes, a: nat, size: nat, v: nat, width: nat)
    requires a <= |b| && VarintAt(b, a).Some? && VarintAt(b, a).value.value == size
    requires v < U64_LIMIT && 1 <= width <= size && size < ISIZE_LIMIT
    ensures size + VarintLen(v) - width < U64_LIMIT
    ensures VarintLen(size + VarintLen(v) - width) <= VarintAt(b, a).value.width + 1
  {
    VarintLenAtMost(v);
    EncodingIsShortest(b[a..], 0);
    VarintLenGrows(size, size + VarintLen(v) - width);
  }

  /** How `update_write_version` adjusts the offsets: everything in the account by the change of its
      length, what lies behind the write version also by the change of its width. */
  function Adjusted(o: Offsets, dm: int, dw: int): Offsets
    requires Adjustable(o, dm, dw)
  {
    var behind := if o.dataStart > o.writeVersion then dm + dw else dm;
    Offsets(o.account, o.dataStart + behind, o.dataEnd + behind,
            if o.txnSignature.None? then None
            else if o.txnSignature.value > o.writeVersion then Some(o.txnSignature.value + dm + dw)
            else Some(o.txnSignature.value + dm),
            o.writeVersion + dm)
  }

  /** No adjustment goes below zero. */
  predicate Adjustable(o: Offsets, dm: int, dw: int) {
    && o.writeVersion + dm >= 0 && o.dataStart + dm >= 0 && o.dataEnd + dm >= 0
    && (o.dataStart > o.writeVersion ==> o.dataStart + dm + dw >= 0 && o.dataEnd + dm + dw >= 0)
    && (o.txnSignature.Some? ==> o.txnSignature.value + dm >= 0)
    && (o.txnSignature.Some? && o.txnSignature.value > o.writeVersion ==> o.txnSignature.value + dm + dw >= 0)
  }

  lemma AdjustedRebased(s: Splice, b: Bytes, at: Offsets, at': Offsets, rs: nat, o: Offsets)
    requires s.Fits(b) && Replaces(s, b, at) && Placed(at, b, s.body, s.stop) && Moved(s, at, at')
    requires Rebased(at, rs, o, s.body - s.a, s.body)
    ensures Adjustable(o, s.Dm(), s.Dw())
    ensures Rebased(at', rs, Adjusted(o, s.Dm(), s.Dw()), VarintLen(s.size), s.a + VarintLen(s.size))
  {
    hide VarintAt, VarintLen, Nested;
  }

  /** The new length is read back, and the new write version has an offset. */
  lemma LengthWritten(s: Splice, b: Bytes, c: Bytes, at: Offsets, at': Offsets)
    requires s.Relates(b, c) && Replaces(s, b, at) && Moved(s, at, at')
    ensures at'.account == Some(s.a) && s.a <= |c| && VarintAt(c, s.a) == Some(Varint(s.size, VarintLen(s.size)))
    ensures at'.writeVersion != 0
  {
    VarintWritten(c, s.a, s.size);
  }

  /** The offsets that match a message are relative to the pieces that the edit replaces. */
  lemma MatchesRebased(b: Bytes, rs: nat, o: Offsets, info: Info, s: Splice)
    requires Matches(b, rs, o, info) && Replaces(s, b, Decode(b).value.at)
    ensures Rebased(Decode(b).value.at, rs, o, s.body - s.a, s.body)
  {
  }

  /** The adjusted offsets are those of a fresh decoding of the spliced message. */
  lemma AdjustedMatches(b: Bytes, s: Splice, c: Bytes, rs: nat, o: Offsets, info: Info, v: nat)
    requires Matches(b, rs, o, info) && v < U64_LIMIT && |b| < ISIZE_LIMIT
    requires s == SpliceOf(b, v) && c == Spliced(b, s)
    ensures Adjustable(o, s.Dm(), s.Dw())
    ensures Matches(c, rs, Adjusted(o, s.Dm(), s.Dw()), info)
  {
    hide Splice.Relates, Splice.Fits, Replaces, Placed, Rebased, Moved, Adjustable, Spliced, OuterLoop, AccountFields,
         VarintAt;
    var at := Decode(b).value.at;
    SplicedRelates(b, s);
    var k := AccountFields(b, 0)[0];
    assert AccountFields(b, 0) == [k];
    DecodeSpliced(s, b, c, k);
    LengthWritten(s, b, c, at, Decode(c).value.at);
    MatchesRebased(b, rs, o, info, s);
    AdjustedRebased(s, b, at, Decode(c).value.at, rs, o);
  }

  /** A stretch of the account that is clear of the write version reads the same after the edit. */
  lemma ContentsKept(s: Splice, b: Bytes, c: Bytes, from: nat, to: nat)
    requires s.Relates(b, c) && s.body <= from <= to <= s.stop && (to <= s.w || s.wEnd <= from)
    ensures var delta := if from > s.w then s.Dm() + s.Dw() else s.Dm();
      SameBytes(b, c, from, to, delta)
  {
    if to <= s.w {
      SameBytesWithin(b, c, s.body, s.w, s.Dm(), from, to);
    } else {
      SameBytesWithin(b, c, s.wEnd, |b|, s.Dm() + s.Dw(), from, to);
    }
  }

  // ----- the accessors -----

  /** `data()` on a message `b` that begins at `rs`. */
  ghost function DataOf(b: Bytes, rs: nat, o: Offsets): Bytes
    requires o.dataStart < o.dataEnd ==> rs <= o.dataStart && o.dataEnd <= rs + |b|
  {
    if o.dataStart < o.dataEnd then b[o.dataStart - rs..o.dataEnd - rs] else []
  }

  /** `txn_signature()` */
  ghost function SignatureOf(b: Bytes, rs: nat, o: Offsets): Option<Bytes>
    requires o.txnSignature.Some? ==>
      rs <= o.txnSignature.value && o.txnSignature.value + SIGNATURE_BYTES <= rs + |b|
  {
    if o.txnSignature.None? then None
    else Some(b[o.txnSignature.value - rs..o.txnSignature.value - rs + SIGNATURE_BYTES])
  }

  /** All stored offsets lie inside the message. */
  ghost predicate InRange(b: Bytes, rs: nat, o: Offsets) {
    && (o.dataStart < o.dataEnd ==> rs <= o.dataStart && o.dataEnd <= rs + |b|)
    && (o.txnSignature.Some? ==>
          rs <= o.txnSignature.value && o.txnSignature.value + SIGNATURE_BYTES <= rs + |b|)
    && rs <= o.writeVersion <= rs + |b|
  }

  lemma RebasedInRange(at: Offsets, b: Bytes, rs: nat, o: Offsets, width: nat, body: nat, stop: nat)
    requires stop <= |b| && Placed(at, b, body, stop) && at.writeVersion != 0 && Rebased(at, rs, o, width, body)
    ensures InRange(b, rs, o)
  {
  }

  /** `data()` returns the same bytes after the edit. */
  lemma AdjustedData(s: Splice, b: Bytes, c: Bytes, at: Offsets, rs: nat, o: Offsets, p: Offsets)
    requires s.Relates(b, c) && Replaces(s, b, at) && Placed(at, b, s.body, s.stop)
    requires at.writeVersion != 0
    requires Rebased(at, rs, o, s.body - s.a, s.body) && InRange(b, rs, o) && InRange(c, rs, p)
    requires Adjustable(o, s.Dm(), s.Dw()) && p == Adjusted(o, s.Dm(), s.Dw())
    ensures DataOf(c, rs, p) == DataOf(b, rs, o)
  {
    hide Splice.Relates, VarintAt;
    if at.dataEnd != 0 {
      assert o.dataStart > o.writeVersion <==> at.dataStart > s.w;
      ContentsKept(s, b, c, at.dataStart, at.dataEnd);
    }
  }

  /** `txn_signature()` returns the same bytes after the edit. */
  lemma AdjustedSignature(s: Splice, b: Bytes, c: Bytes, at: Offsets, rs: nat, o: Offsets, p: Offsets)
    requires s.Relates(b, c) && Replaces(s, b, at) && Placed(at, b, s.body, s.stop)
    requires at.writeVersion != 0
    requires Rebased(at, rs, o, s.body - s.a, s.body) && InRange(b, rs, o) && InRange(c, rs, p)
    requires Adjustable(o, s.Dm(), s.Dw()) && p == Adjusted(o, s.Dm(), s.Dw())
    ensures SignatureOf(c, rs, p) == SignatureOf(b, rs, o)
  {
    hide Splice.Relates, VarintAt;
    if at.txnSignature.Some? {
      assert o.txnSignature.value > o.writeVersion <==> at.txnSignature.value > s.w;
      ContentsKept(s, b, c, at.txnSignature.value, at.txnSignature.value + SIGNATURE_BYTES);
    }
  }

  /** `write_version()` returns the new value. */
  lemma AdjustedVersion(s: Splice, b: Bytes, c: Bytes, at: Offsets, rs: nat, o: Offsets, p: Offsets)
    requires s.Relates(b, c) && Replaces(s, b, at) && Rebased(at, rs, o, s.body - s.a, s.body)
    requires Adjustable(o, s.Dm(), s.Dw()) && p == Adjusted(o, s.Dm(), s.Dw())
    ensures rs <= p.writeVersion <= rs + |c|
    ensures VarintAt(c, p.writeVersion - rs) == Some(Varint(s.v, VarintLen(s.v)))
  {
    VarintWritten(c, s.w + s.Dm(), s.v);
  }

  lemma MatchesInRange(b: Bytes, rs: nat, o: Offsets, info: Info)
    requires Matches(b, rs, o, info)
    ensures InRange(b, rs, o)
  {
    EditableShape(b);
    var at := Decode(b).value.at;
    var length := VarintAt(b, at.account.value).value;
    var body := at.account.value + length.width;
    RebasedInRange(at, b, rs, o, length.width, body, body + length.value);
  }

  /** Everything `update_write_version` promises, on values: the result is again what a fresh decoding of
      the new bytes gives, data and signature are the same bytes, and the write version is `v`. */
  lemma UpdateIsRight(b: Bytes, rs: nat, o: Offsets, info: Info, v: nat, s: Splice, c: Bytes, p: Offsets)
    requires Matches(b, rs, o, info) && v < U64_LIMIT && |b| < ISIZE_LIMIT
    requires s == SpliceOf(b, v) && c == Spliced(b, s)
    requires Adjustable(o, s.Dm(), s.Dw()) && p == Adjusted(o, s.Dm(), s.Dw())
    ensures Matches(c, rs, p, info) && InRange(b, rs, o) && InRange(c, rs, p)
    ensures DataOf(c, rs, p) == DataOf(b, rs, o)
    ensures SignatureOf(c, rs, p) == SignatureOf(b, rs, o)
    ensures VarintAt(c, p.writeVersion - rs) == Some(Varint(v, VarintLen(v)))
  {
    hide Splice.Relates, Splice.Fits, Placed, Rebased, InRange, Adjustable, Adjusted, Replaces, Spliced, OuterLoop,
         AccountFields, VarintAt;
    AdjustedMatches(b, s, c, rs, o, info, v);
    MatchesRebased(b, rs, o, info, s);
    MatchesInRange(b, rs, o, info);
    MatchesInRange(c, rs, p, info);
    SplicedRelates(b, s);
    AdjustedData(s, b, c, Decode(b).value.at, rs, o, p);
    AdjustedSignature(s, b, c, Decode(b).value.at, rs, o, p);
    AdjustedVersion(s, b, c, Decode(b).value.at, rs, o, p);
  }

  // ----- the buffer, edited in place -----

  /** `std::ptr::copy`: overlapping stretches are copied as if through a temporary. */
  method CopyWithin(buf: array<Byte>, from: nat, to: nat, len: nat)
    requires from + len <= buf.Length && to + len <= buf.Length
    modifies buf
    ensures IsCopy(old(buf[..]), buf[..], from, to, len)
  {
    if to <= from {
      var i := 0;
      while i < len
        invariant 0 <= i <= len
        invariant forall k :: to <= k < to + i ==> buf[k] == old(buf[k - to + from])
        invariant forall k :: 0 <= k < buf.Length && !(to <= k < to + i) ==> buf[k] == old(buf[k])
      {
        buf[to + i] := buf[from + i];
        i := i + 1;
      }
    } else {
      var i := len;
      while i > 0
        invariant 0 <= i <= len
        invariant forall k :: to + i <= k < to + len ==> buf[k] == old(buf[k - to + from])
        invariant forall k :: 0 <= k < buf.Length && !(to + i <= k < to + len) ==> buf[k] == old(buf[k])
      {
        i := i - 1;
        buf[to + i] := buf[from + i];
      }
    }
  }

  method WriteAt(buf: array<Byte>, at: nat, x: Bytes)
    requires at + |x| <= buf.Length
    modifies buf
    ensures IsWrite(old(buf[..]), buf[..], at, x)
  {
    var i := 0;
    while i < |x|
      invariant 0 <= i <= |x|
      invariant forall k :: at <= k < at + i ==> buf[k] == x[k - at]
      invariant forall k :: 0 <= k < buf.Length && !(at <= k < at + i) ==> buf[k] == old(buf[k])
    {
      buf[at + i] := x[i];
      i := i + 1;
    }
  }

  /** `Vec::resize` to at least `n` bytes. */
  method Reserve(buf: array<Byte>, n: nat) returns (r: array<Byte>)
    ensures r == buf || fresh(r)
    ensures r.Length >= n && r.Length >= buf.Length && r[..buf.Length] == buf[..]
  {
    if n <= buf.Length {
      return buf;
    }
    r := new Byte[n](_ => 0);
    var i := 0;
    while i < buf.Length
      invariant 0 <= i <= buf.Length
      invariant forall k :: 0 <= k < i ==> r[k] == buf[k]
    {
      r[i] := buf[i];
      i := i + 1;
    }
  }

  /** `c` holds, from `rs` on, the contents of `b` around the two new varints. */
  ghost predicate Assembled(b: Bytes, c: Bytes, rs: nat, a: nat, body: nat, w: nat, wEnd: nat, end: nat, l: Bytes,
                            v: Bytes)
    requires rs <= a <= body <= w <= wEnd <= end <= |b|
  {
    var stop := a + |l| + (w - body) + |v| + (end - wEnd);
    stop <= |c| && c[rs..stop] == b[rs..a] + l + b[body..w] + v + b[wEnd..end]
  }

  /** The four edits together, on the values of the buffer. */
  lemma EditsDone(b: Bytes, b1: Bytes, b2: Bytes, b3: Bytes, b4: Bytes, rs: nat, a: nat, body: nat, w: nat, wEnd: nat,
                  end: nat, l: Bytes, v: Bytes)
    requires rs <= a <= body <= w <= wEnd <= end <= |b| && a + |l| + (w - body) <= wEnd
    requires var p2 := a + |l|;
      var p3 := p2 + (w - body);
      && p3 + |v| + (end - wEnd) <= |b|
      && IsCopy(b, b1, body, p2, w - body) && IsCopy(b1, b2, wEnd, p3 + |v|, end - wEnd)
      && IsWrite(b2, b3, a, l) && IsWrite(b3, b4, p3, v)
    ensures Assembled(b, b4, rs, a, body, w, wEnd, end, l, v)
  {
    hide IsCopy, IsWrite;
    var p2 := a + |l|;
    var p3 := p2 + (w - body);
    var p4 := p3 + |v|;
    MovesDone(b, b1, b2, rs, a, body, w, wEnd, end, p2, p4);
    WritesDone(b2, b3, b4, l, v, rs, a, p3, p4 + (end - wEnd));
    Pieces(b4, rs, a, p2, p3, p4, p4 + (end - wEnd));
  }

  /** Growing the buffer first makes no difference. */
  lemma AssembledFromPrefix(b: Bytes, was: Bytes, c: Bytes, rs: nat, a: nat, body: nat, w: nat, wEnd: nat, end: nat,
                            l: Bytes, v: Bytes)
    requires rs <= a <= body <= w <= wEnd <= end <= |was| <= |b| && b[..|was|] == was
    requires Assembled(b, c, rs, a, body, w, wEnd, end, l, v)
    ensures Assembled(was, c, rs, a, body, w, wEnd, end, l, v)
  {
    SliceOfSlice(b, 0, |was|, rs, a);
    SliceOfSlice(b, 0, |was|, body, w);
    SliceOfSlice(b, 0, |was|, wEnd, end);
  }

  /** The body of `update_write_version`: grow the buffer if needed, move what precedes the write
      version, move what follows it, write the new length and the new write version. */
  method EditInPlace(buf: array<Byte>, ghost rs: nat, a: nat, body: nat, w: nat, wEnd: nat, end: nat, l: Bytes,
                     v: Bytes)
    returns (out: array<Byte>)
    requires rs <= a < body <= w < wEnd <= end <= buf.Length && a + |l| + (w - body) <= wEnd
    modifies buf
    ensures out == buf || fresh(out)
    ensures Assembled(old(buf[..]), out[..], rs, a, body, w, wEnd, end, l, v)
  {
    hide IsCopy, IsWrite, Assembled;
    ghost var was := buf[..];
    var w' := a + |l| + (w - body);
    out := Reserve(buf, w' + |v| + (end - wEnd));
    ghost var b := out[..];
    CopyWithin(out, body, a + |l|, w - body);
    ghost var b1 := out[..];
    CopyWithin(out, wEnd, w' + |v|, end - wEnd);
    ghost var b2 := out[..];
    WriteAt(out, a, l);
    ghost var b3 := out[..];
    WriteAt(out, w', v);
    EditsDone(b, b1, b2, b3, out[..], rs, a, body, w, wEnd, end, l, v);
    AssembledFromPrefix(b, was, out[..], rs, a, body, w, wEnd, end, l, v);
  }

  /** Pieces of a buffer around a message are pieces of the message. */
  lemma AssembledIsSpliced(buf: Bytes, c: Bytes, rs: nat, end: nat, s: Splice)
    requires rs <= end <= |buf| && s.a <= s.body <= s.w <= s.wEnd <= end - rs
    requires Assembled(buf, c, rs, rs + s.a, rs + s.body, rs + s.w, rs
          + s.wEnd, end, EncodeVarint(s.size), EncodeVarint(s.v))
    ensures var stop := rs + |Spliced(buf[rs..end], s)|; stop <= |c| && c[rs..stop] == Spliced(buf[rs..end], s)
  {
    var b := buf[rs..end];
    SliceOfSlice(buf, rs, end, rs, rs + s.a);
    SliceOfSlice(buf, rs, end, rs + s.body, rs + s.w);
    SliceOfSlice(buf, rs, end, rs + s.wEnd, end);
    assert b[..s.a] == buf[rs..rs + s.a] && b[s.wEnd..] == buf[rs + s.wEnd..end];
  }

  /** The end of the message after the edit. */
  lemma EditedIsSpliced(buf: Bytes, c: Bytes, rs: nat, end: nat, s: Splice, stop: int)
    requires rs <= end <= |buf| && s.Fits(buf[rs..end]) && stop == end + s.Dm() + s.Dw()
    requires Assembled(buf, c, rs, rs + s.a, rs + s.body, rs + s.w, rs
          + s.wEnd, end, EncodeVarint(s.size), EncodeVarint(s.v))
    ensures rs <= stop <= |c| && c[rs..stop] == Spliced(buf[rs..end], s)
  {
    hide Assembled, Spliced;
    AssembledIsSpliced(buf, c, rs, end, s);
    SplicedLength(buf[rs..end], s);
  }

  /** A varint of the message, read in the buffer. */
  lemma ReadInBuffer(buf: Bytes, rs: nat, end: nat, pos: nat)
    requires rs <= end <= |buf| && pos <= end - rs && VarintAt(buf[rs..end], pos).Some?
    ensures VarintAt(buf, rs + pos) == VarintAt(buf[rs..end], pos)
  {
    var b, w := buf[rs..end], VarintAt(buf[rs..end], pos).value.width;
    SliceOfSlice(buf, rs, end, rs + pos, rs + pos + w);
    VarintMoves(b, pos, buf, rs + pos);
  }

  /** The account has a data field, or the length of the account is not padded beyond the bytes in front
      of the message: the empty data range can follow the length without going below zero. */
  ghost predicate DataOrShortLength(b: Bytes, rs: nat)
    requires Editable(b)
  {
    EditableShape(b);
    Decode(b).value.at.dataEnd != 0 || VarintAt(b, Decode(b).value.at.account.value).value.width <= rs + 1
  }

  /** Decoded offsets, moved to the coordinates of a buffer whose message begins at `rs`. */
  lemma ParsedMatches(b: Bytes, rs: nat, decoded: Decoded, o: Offsets)
    requires Editable(b) && DataOrShortLength(b, rs) && Decode(b) == Some(decoded) && decoded.at.account.Some?
    requires var at := decoded.at;
      o == Offsets(Some(at.account.value + rs), at.dataStart + rs, at.dataEnd + rs,
                   if at.txnSignature.Some? then Some(at.txnSignature.value + rs) else None, at.writeVersion + rs)
    ensures Matches(b, rs, o, decoded.info)
  {
    hide OuterLoop, AccountFields;
    EditableShape(b);
  }

  /** What `update_write_version` reads in the buffer before it edits: the two varints to replace. */
  lemma ReadsBeforeEdit(buf: Bytes, rs: nat, end: nat, b: Bytes, o: Offsets, s: Splice)
    requires rs <= end <= |buf| && b == buf[rs..end] && s.Fits(b) && Replaces(s, b, o)
    ensures VarintAt(buf, rs + s.a) == Some(Varint(s.stop - s.body, s.body - s.a))
    ensures VarintAt(buf, rs + s.w).Some? && VarintAt(buf, rs + s.w).value.width == s.wEnd - s.w
  {
    ReadInBuffer(buf, rs, end, s.a);
    ReadInBuffer(buf, rs, end, s.w);
  }

  /** The edit in terms of the stored offsets. */
  lemma OffsetsOfSplice(b: Bytes, rs: nat, o: Offsets, info: Info, v: nat, s: Splice)
    requires Matches(b, rs, o, info) && |b| < ISIZE_LIMIT && v < U64_LIMIT && s == SpliceOf(b, v)
    ensures o.account == Some(rs + s.a) && o.writeVersion == rs + s.w
    ensures s.a < s.body < s.w < s.wEnd <= s.stop <= |b|
    ensures s.size == s.stop - s.body + VarintLen(v) - (s.wEnd - s.w)
    ensures VarintLen(s.size) <= (s.body - s.a) + 1
  {
    hide OuterLoop, AccountFields, Placed, VarintAt;
  }

  class LimitedAccount {
    var buffer: array<Byte>
    const rangeStart: nat
    var rangeEnd: nat
    var at: Offsets
    const info: Info

    /** The encoded account update. */
    ghost function Encoded(): Bytes
      reads this, buffer
      requires rangeStart <= rangeEnd <= buffer.Length
    {
      buffer[rangeStart..rangeEnd]
    }

    /** The fields are what a fresh decoding of the encoded update gives. */
    ghost predicate Valid()
      reads this, buffer
    {
      rangeStart <= rangeEnd <= buffer.Length && Matches(Encoded(), rangeStart, at, info)
    }

    /** The account branch of `MessageParserLimited::parse`: decode the range of the buffer that holds
        the update, then move every offset to the coordinates of the buffer. */
    constructor (buffer: array<Byte>, rangeStart: nat, rangeEnd: nat, decoded: Decoded)
      requires rangeStart <= rangeEnd <= buffer.Length
      requires Decode(buffer[rangeStart..rangeEnd]) == Some(decoded) && decoded.at.account.Some?
      ensures this.buffer == buffer && this.rangeStart == rangeStart && this.rangeEnd == rangeEnd
      ensures info == decoded.info
      ensures var b := buffer[rangeStart..rangeEnd];
        Editable(b) && DataOrShortLength(b, rangeStart) ==> Valid()
    {
      this.buffer, this.rangeStart, this.rangeEnd := buffer, rangeStart, rangeEnd;
      info := decoded.info;
      at := Offsets(Some(decoded.at.account.value + rangeStart),
                    decoded.at.dataStart + rangeStart, decoded.at.dataEnd + rangeStart,
                    if decoded.at.txnSignature.Some? then Some(decoded.at.txnSignature.value + rangeStart) else None,
                    decoded.at.writeVersion + rangeStart);
      hide Editable, DataOrShortLength, Matches, Decode;
      new;
      if Editable(buffer[rangeStart..rangeEnd]) && DataOrShortLength(buffer[rangeStart..rangeEnd], rangeStart) {
        ParsedMatches(buffer[rangeStart..rangeEnd], rangeStart, decoded, at);
      }
    }

    /** `write_version()` */
    method WriteVersion() returns (v: nat)
      requires Valid()
      ensures InRange(Encoded(), rangeStart, at)
      ensures VarintAt(Encoded(), at.writeVersion - rangeStart).Some?
           && v == VarintAt(Encoded(), at.writeVersion - rangeStart).value.value
    {
      EditableShape(Encoded());
      MatchesInRange(Encoded(), rangeStart, at, info);
      ReadInBuffer(buffer[..], rangeStart, rangeEnd, at.writeVersion - rangeStart);
      assert buffer[..][rangeStart..rangeEnd] == Encoded();
      v := VarintAt(buffer[..], at.writeVersion).value.value;
    }

    /** The part of `update_write_version` that reads and edits the buffer; returns how far the contents
        before the write version, and in addition those after it, have moved. */
    method EditBuffer(v: nat) returns (dm: int, dw: int)
      requires Valid() && v < U64_LIMIT && buffer.Length < ISIZE_LIMIT
      modifies this`buffer, this`rangeEnd, buffer
      ensures rangeStart <= rangeEnd <= buffer.Length
      ensures var s := SpliceOf(old(Encoded()), v);
        dm == s.Dm() && dw == s.Dw() && Encoded() == Spliced(old(Encoded()), s)
    {
      hide OuterLoop, AccountFields, Splice.Fits, Placed, Rebased, Replaces, Spliced, InRange, EncodeVarint, VarintAt,
           Assembled;
      ghost var b, rs := Encoded(), rangeStart;
      ghost var s, buf := SpliceOf(b, v), buffer[..];
      assert buf[rs..rangeEnd] == b;
      ReadsBeforeEdit(buf, rs, rangeEnd, b, Decode(b).value.at, s);
      OffsetsOfSplice(b, rs, at, info, v, s);

      // current and new length of the write version and of the account message
      var current := VarintAt(buffer[..], at.writeVersion).value.width;
      var length := VarintAt(buffer[..], at.account.value).value;
      var size := length.value + VarintLen(v) - current;
      dm, dw := VarintLen(size) - length.width, VarintLen(v) - current;
      VarintLenIsLength(size);
      VarintLenIsLength(v);

      buffer := EditInPlace(buffer, rs, at.account.value, at.account.value + length.width,
                            at.writeVersion, at.writeVersion + current, rangeEnd, EncodeVarint(size), EncodeVarint(v));
      EditedIsSpliced(buf, buffer[..], rs, rangeEnd, s, rangeEnd + dm + dw);
      rangeEnd := rangeEnd + dm + dw;
    }

    /** `update_write_version`: in place, the encoded update becomes the spliced one, and every field
        becomes what a fresh decoding of it gives; data and signature read the same. */
    method UpdateWriteVersion(v: nat)
      requires Valid() && v < U64_LIMIT && buffer.Length < ISIZE_LIMIT
      modifies this, buffer
      ensures Valid()
      ensures Encoded() == Spliced(old(Encoded()), SpliceOf(old(Encoded()), v))
      ensures InRange(old(Encoded()), rangeStart, old(at)) && InRange(Encoded(), rangeStart, at)
      ensures DataOf(Encoded(), rangeStart, at) == DataOf(old(Encoded()), rangeStart, old(at))
      ensures SignatureOf(Encoded(), rangeStart, at) == SignatureOf(old(Encoded()), rangeStart, old(at))
      ensures VarintAt(Encoded(), at.writeVersion - rangeStart) == Some(Varint(v, VarintLen(v)))
    {
      hide OuterLoop, AccountFields, Splice.Fits, Placed, Rebased, Replaces, Spliced, Adjusted, InRange, VarintAt;
      ghost var b, o, s := Encoded(), at, SpliceOf(Encoded(), v);
      OffsetsOfSplice(b, rangeStart, o, info, v, s);
      AdjustedMatches(b, s, Spliced(b, s), rangeStart, o, info, v);
      UpdateIsRight(b, rangeStart, o, info, v, s, Spliced(b, s), Adjusted(o, s.Dm(), s.Dw()));
      var dm, dw := EditBuffer(v);
      at := Adjusted(at, dm, dw);
    }
  }
}
