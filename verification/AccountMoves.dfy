/** What replacing the write version means for the decoder: decoding the spliced bytes gives the same
    values, and the offsets of the old decoding moved with the bytes they point to. */
module AccountMoves {
  import opened Basics
  import opened Wire
  import opened AccountDecode

  /** A buffer whose nested message has its length at [a, body) and its contents at [body, stop), with
      the write version `v` replacing the varint at [w, wEnd), and `size` the new length. */
  datatype Splice = Splice(a: nat, body: nat, w: nat, wEnd: nat, stop: nat, size: nat, v: nat) {
    /** How far the contents before the write version move. */
    ghost function Dm(): int {
      VarintLen(size) - (body - a)
    }

    /** How far the contents after it move, on top of that. */
    ghost function Dw(): int {
      VarintLen(v) - (wEnd - w)
    }

    ghost predicate Fits(b: Bytes) {
      && a < body < w < wEnd <= stop <= |b|
      && size == stop - body + Dw() && size < U64_LIMIT && v < U64_LIMIT
    }

    /** Where an offset of the old buffer ends up. */
    ghost function Move(o: nat): int {
      if o > w then o + Dm() + Dw() else if o >= body then o + Dm() else o
    }

    /** `c` is `b` with the length and the write version replaced. */
    ghost predicate Relates(b: Bytes, c: Bytes) {
      && Fits(b)
      && |c| == |b| + Dm() + Dw()
      && SameBytes(b, c, 0, a, 0)
      && c[a..a + VarintLen(size)] == EncodeVarint(size)
      && SameBytes(b, c, body, w, Dm())
      && c[w + Dm()..w + Dm() + VarintLen(v)] == EncodeVarint(v)
      && SameBytes(b, c, wEnd, |b|, Dm() + Dw())
    }
  }

  /** The offsets `p` are the offsets `o` moved. */
  ghost predicate Moved(s: Splice, o: Offsets, p: Offsets) {
    && p.account == o.account
    && p.dataStart == s.Move(o.dataStart) && p.dataEnd == s.Move(o.dataEnd)
    && (p.txnSignature.Some? <==> o.txnSignature.Some?)
    && (o.txnSignature.Some? ==> p.txnSignature.value == s.Move(o.txnSignature.value))
    && p.writeVersion == s.Move(o.writeVersion)
  }

  ghost predicate MovedDecoded(s: Splice, d: Decoded, e: Decoded) {
    e.info == d.info && Moved(s, d.at, e.at)
  }

  // ----- the nested message -----

  /** Reading field after field from `pos` passes through `k`. */
  ghost predicate Reaches(b: Bytes, pos: nat, k: nat)
    requires pos <= |b|
    decreases |b| - pos
  {
    pos == k || (pos < k && ReadField(b, pos).Some? && Reaches(b, ReadField(b, pos).value.next, k))
  }

  ghost predicate IsWriteVersion(b: Bytes, k: nat, w: nat)
    requires k <= |b|
  {
    ReadField(b, k).Some? && ReadField(b, k).value.tag == 7 && ReadField(b, k).value.wire.VarintType?
    && ReadField(b, k).value.mark == w
  }

  /** Either nothing after `pos` sets the write version, or it is set past `pos`. */
  lemma {:induction false} WriteVersionGrows(d: Decoded, b: Bytes, pos: nat, end: nat)
    requires pos <= |b| && InnerLoop(d, b, pos, end).Some?
    ensures var w := InnerLoop(d, b, pos, end).value.at.writeVersion; w == d.at.writeVersion || w > pos
    decreases |b| - pos
  {
    if pos < end {
      var f := ReadField(b, pos).value;
      WriteVersionGrows(InnerStep(d, b, f).value, b, f.next, end);
    }
  }

  /** The recorded write version is the contents of a field that the decoder passed through. */
  lemma {:induction false} FindWriteVersion(d: Decoded, b: Bytes, pos: nat, end: nat) returns (k: nat)
    requires pos <= |b| && InnerLoop(d, b, pos, end).Some?
    requires InnerLoop(d, b, pos, end).value.at.writeVersion != d.at.writeVersion
    ensures pos <= k < end && k <= |b| && Reaches(b, pos, k)
    ensures IsWriteVersion(b, k, InnerLoop(d, b, pos, end).value.at.writeVersion)
    decreases |b| - pos
  {
    var f := ReadField(b, pos).value;
    var d', w := InnerStep(d, b, f).value, InnerLoop(d, b, pos, end).value.at.writeVersion;
    if d'.at.writeVersion == w {
      k := pos;
    } else {
      k := FindWriteVersion(d', b, f.next, end);
    }
  }

  /** One moved field leads from moved offsets to moved offsets, when all of it moves by `delta`. */
  lemma InnerStepMoves(s: Splice, d: Decoded, e: Decoded, b: Bytes, c: Bytes, f: Field, delta: int)
    requires s.Relates(b, c) && MovedDecoded(s, d, e)
    requires f.mark <= f.start <= f.next && SameBytes(b, c, f.start, f.next, delta) && f.mark + delta >= 0
    requires s.Move(f.mark) == f.mark + delta && s.Move(f.start) == f.start + delta && s.Move(f.next) == f.next + delta
    requires InnerStep(d, b, f).Some?
    ensures InnerStep(e, c, Shifted(f, delta)).Some?
    ensures MovedDecoded(s, InnerStep(d, b, f).value, InnerStep(e, c, Shifted(f, delta)).value)
  {
  }

  /** Decoding `c` from `pos'` to `end'` gives the moved result of decoding `b` from `pos` to `end`. */
  ghost predicate Follows(s: Splice, d: Decoded, e: Decoded, b: Bytes, c: Bytes, pos: nat, end: nat, pos': nat,
                          end': nat)
    requires pos <= |b| && pos' <= |c| && InnerLoop(d, b, pos, end).Some?
  {
    InnerLoop(e, c, pos', end').Some?
          && MovedDecoded(s, InnerLoop(d, b, pos, end).value, InnerLoop(e, c, pos', end').value)
  }

  /** Reading one field whose bytes all moved by `delta`. */
  lemma InnerFieldMoves(s: Splice, d: Decoded, e: Decoded, b: Bytes, c: Bytes, pos: nat, pos': nat, delta: int)
    returns (f: Field, g: Field, d': Decoded, e': Decoded)
    requires s.Relates(b, c) && MovedDecoded(s, d, e) && pos <= |b| && ReadField(b, pos).Some?
    requires SameBytes(b, c, pos, ReadField(b, pos).value.next, delta) && pos' == pos + delta
    requires InnerStep(d, b, ReadField(b, pos).value).Some?
    requires forall o :: pos < o <= ReadField(b, pos).value.next ==> s.Move(o) == o + delta
    ensures ReadField(b, pos) == Some(f) && InnerStep(d, b, f) == Some(d')
    ensures pos' <= |c| && ReadField(c, pos') == Some(g) && InnerStep(e, c, g) == Some(e')
    ensures g.next == f.next + delta && MovedDecoded(s, d', e')
  {
    f := ReadField(b, pos).value;
    FieldMoves(b, c, pos, delta);
    g := Shifted(f, delta);
    SameBytesWithin(b, c, pos, f.next, delta, f.start, f.next);
    InnerStepMoves(s, d, e, b, c, f, delta);
    d', e' := InnerStep(d, b, f).value, InnerStep(e, c, g).value;
  }

  /** A step on both sides carries the result over. */
  lemma FollowsStep(s: Splice, d: Decoded, e: Decoded, b: Bytes, c: Bytes, pos: nat, end: nat, pos': nat, end': nat,
                    f: Field, g: Field, d': Decoded, e': Decoded)
    requires pos <= |b| && pos' <= |c| && pos < end && pos' < end'
    requires ReadField(b, pos) == Some(f) && InnerStep(d, b, f) == Some(d')
    requires ReadField(c, pos') == Some(g) && InnerStep(e, c, g) == Some(e')
    requires InnerLoop(d', b, f.next, end).Some? && Follows(s, d', e', b, c, f.next, end, g.next, end')
    ensures InnerLoop(d, b, pos, end).Some? && Follows(s, d, e, b, c, pos, end, pos', end')
  {
    InnerLoopStep(d, b, pos, end, f, d');
    InnerLoopStep(e, c, pos', end', g, e');
  }

  /** Behind the write version everything moves together. */
  lemma {:induction false} InnerSuffixMoves(s: Splice, d: Decoded, e: Decoded, b: Bytes, c: Bytes, pos: nat, end: nat,
                                            pos': nat, end': nat)
    requires s.Relates(b, c) && MovedDecoded(s, d, e) && s.wEnd <= pos <= end <= |b|
    requires pos' == pos + s.Dm() + s.Dw() && end' == end + s.Dm() + s.Dw()
    requires InnerLoop(d, b, pos, end).Some?
    ensures Follows(s, d, e, b, c, pos, end, pos', end')
    decreases |b| - pos
  {
    if pos < end {
      var delta := s.Dm() + s.Dw();
      SameBytesWithin(b, c, s.wEnd, |b|, delta, pos, ReadField(b, pos).value.next);
      var f, g, d', e' := InnerFieldMoves(s, d, e, b, c, pos, pos', delta);
      InnerSuffixMoves(s, d', e', b, c, f.next, end, g.next, end');
      FollowsStep(s, d, e, b, c, pos, end, pos', end', f, g, d', e');
    }
  }

  /** The replaced field itself: same key, new contents. */
  lemma WriteVersionMoves(s: Splice, d: Decoded, e: Decoded, b: Bytes, c: Bytes, k: nat, k': nat)
    returns (f: Field, g: Field, d': Decoded, e': Decoded)
    requires s.Relates(b, c) && MovedDecoded(s, d, e) && s.body <= k < s.w && k' == k + s.Dm()
    requires IsWriteVersion(b, k, s.w) && ReadField(b, k).value.next == s.wEnd
    ensures ReadField(b, k) == Some(f) && InnerStep(d, b, f) == Some(d')
    ensures k' <= |c| && ReadField(c, k') == Some(g) && InnerStep(e, c, g) == Some(e')
    ensures g.next == s.wEnd + s.Dm() + s.Dw() && MovedDecoded(s, d', e')
  {
    hide ReadField, Splice.Relates;
    f := ReadField(b, k).value;
    g := WriteVersionRead(s, b, c, k, k');
    d', e' := InnerStep(d, b, f).value, InnerStep(e, c, g).value;
  }

  /** Its key, read at the new place. */
  lemma WriteVersionKey(s: Splice, b: Bytes, c: Bytes, k: nat, k': nat)
    requires s.Relates(b, c) && s.body <= k < s.w && k' == k + s.Dm() && IsWriteVersion(b, k, s.w)
    ensures k' <= |c| && VarintAt(c, k') == VarintAt(b, k)
  {
    SameBytesWithin(b, c, s.body, s.w, s.Dm(), k, s.w);
    VarintMoves(b, k, c, k');
  }

  /** Its key and the new version behind it. */
  lemma WriteVersionRead(s: Splice, b: Bytes, c: Bytes, k: nat, k': nat) returns (g: Field)
    requires s.Relates(b, c) && s.body <= k < s.w && k' == k + s.Dm()
    requires IsWriteVersion(b, k, s.w) && ReadField(b, k).value.next == s.wEnd
    ensures g == Field(7, VarintType, s.w + s.Dm(), s.w + s.Dm(), VarintLen(s.v), s.v, s.wEnd + s.Dm() + s.Dw())
    ensures k' <= |c| && ReadField(c, k') == Some(g)
  {
    g := Field(7, VarintType, s.w + s.Dm(), s.w + s.Dm(), VarintLen(s.v), s.v, s.wEnd + s.Dm() + s.Dw());
    WriteVersionKey(s, b, c, k, k');
    VarintWritten(c, s.w + s.Dm(), s.v);
  }

  /** The whole nested message: what precedes the write version, the new one, what follows. */
  lemma {:induction false} InnerMoves(s: Splice, d: Decoded, e: Decoded, b: Bytes, c: Bytes, pos: nat, k: nat,
                                      pos': nat, end': nat)
    requires s.Relates(b, c) && MovedDecoded(s, d, e) && s.body <= pos <= k < s.w
    requires Reaches(b, pos, k) && IsWriteVersion(b, k, s.w) && ReadField(b, k).value.next == s.wEnd
    requires pos' == pos + s.Dm() && end' == s.stop + s.Dm() + s.Dw()
    requires InnerLoop(d, b, pos, s.stop).Some?
    ensures Follows(s, d, e, b, c, pos, s.stop, pos', end')
    decreases |b| - pos
  {
    if pos == k {
      var f, g, d', e' := WriteVersionMoves(s, d, e, b, c, k, pos');
      InnerSuffixMoves(s, d', e', b, c, f.next, s.stop, g.next, end');
      FollowsStep(s, d, e, b, c, pos, s.stop, pos', end', f, g, d', e');
    } else {
      SameBytesWithin(b, c, s.body, s.w, s.Dm(), pos, ReadField(b, pos).value.next);
      var f, g, d', e' := InnerFieldMoves(s, d, e, b, c, pos, pos', s.Dm());
      InnerMoves(s, d', e', b, c, f.next, k, g.next, end');
      FollowsStep(s, d, e, b, c, pos, s.stop, pos', end', f, g, d', e');
    }
  }

  // ----- the whole update -----

  /** The same for the outer message. */
  ghost predicate OuterFollows(s: Splice, d: Decoded, e: Decoded, b: Bytes, c: Bytes, pos: nat, pos': nat)
    requires pos <= |b| && pos' <= |c| && OuterLoop(d, b, pos).Some?
  {
    && OuterLoop(e, c, pos').Some? && MovedDecoded(s, OuterLoop(d, b, pos).value, OuterLoop(e, c, pos').value)
    && |AccountFields(c, pos')| == |AccountFields(b, pos)|
  }

  lemma OuterFollowsStep(s: Splice, d: Decoded, e: Decoded, b: Bytes, c: Bytes, pos: nat, pos': nat,
                         f: Field, g: Field, d': Decoded, e': Decoded)
    requires pos < |b| && pos' < |c|
    requires ReadField(b, pos) == Some(f) && OuterStep(d, b, f) == Some(d')
    requires ReadField(c, pos') == Some(g) && OuterStep(e, c, g) == Some(e')
    requires f.tag == g.tag
    requires OuterLoop(d', b, f.next).Some? && OuterFollows(s, d', e', b, c, f.next, g.next)
    ensures OuterLoop(d, b, pos).Some? && OuterFollows(s, d, e, b, c, pos, pos')
  {
    OuterLoopStep(d, b, pos, f, d');
    OuterLoopStep(e, c, pos', g, e');
    assert |AccountFields(c, pos')| - |AccountFields(c, g.next)| ==
          |AccountFields(b, pos)| - |AccountFields(b, f.next)|;
  }

  /** A field other than the account, whose bytes moved by `delta`. */
  lemma OuterFieldMoves(s: Splice, d: Decoded, e: Decoded, b: Bytes, c: Bytes, pos: nat, pos': nat, delta: int)
    returns (f: Field, g: Field, d': Decoded, e': Decoded)
    requires MovedDecoded(s, d, e) && pos < |b| && ReadField(b, pos).Some? && ReadField(b, pos).value.tag != 1
    requires SameBytes(b, c, pos, ReadField(b, pos).value.next, delta) && pos' == pos + delta
    requires OuterStep(d, b, ReadField(b, pos).value).Some?
    ensures ReadField(b, pos) == Some(f) && OuterStep(d, b, f) == Some(d') && d'.at == d.at
    ensures pos' < |c| && ReadField(c, pos') == Some(g) && OuterStep(e, c, g) == Some(e') && e'.at == e.at
    ensures g.next == f.next + delta && g.tag == f.tag && MovedDecoded(s, d', e')
  {
    f := ReadField(b, pos).value;
    FieldMoves(b, c, pos, delta);
    g := Shifted(f, delta);
    d', e' := OuterStep(d, b, f).value, OuterStep(e, c, g).value;
  }

  lemma {:induction false} OuterSuffixMoves(s: Splice, d: Decoded, e: Decoded, b: Bytes, c: Bytes, pos: nat, pos': nat)
    requires s.Relates(b, c) && MovedDecoded(s, d, e) && s.wEnd <= pos <= |b| && pos' == pos + s.Dm() + s.Dw()
    requires OuterLoop(d, b, pos).Some? && AccountFields(b, pos) == []
    ensures OuterFollows(s, d, e, b, c, pos, pos')
    decreases |b| - pos
  {
    if pos < |b| {
      var delta := s.Dm() + s.Dw();
      SameBytesWithin(b, c, s.wEnd, |b|, delta, pos, ReadField(b, pos).value.next);
      var f, g, d', e' := OuterFieldMoves(s, d, e, b, c, pos, pos', delta);
      OuterSuffixMoves(s, d', e', b, c, f.next, g.next);
      OuterFollowsStep(s, d, e, b, c, pos, pos', f, g, d', e');
    }
  }

  /** The splice replaces the write version that decoding `b` recorded. */
  ghost predicate Replaces(s: Splice, b: Bytes, o: Offsets) {
    && o.account == Some(s.a) && Nested(b, s.a, s.body, s.stop)
    && o.writeVersion == s.w && s.w <= |b| && VarintAt(b, s.w).Some?
    && s.wEnd == s.w + VarintAt(b, s.w).value.width
  }

  /** The key of the account stays, its length is replaced. */
  lemma AccountKeyMoves(s: Splice, b: Bytes, c: Bytes, pos: nat, f: Field) returns (g: Field)
    requires s.Relates(b, c) && pos < |b| && ReadField(b, pos) == Some(f)
    requires f.tag == 1 && f.wire.LengthDelimited? && f.mark == s.a && f.start == s.body && f.next == s.stop
    ensures pos < |c| && ReadField(c, pos) == Some(g) && g.tag == 1 && g.wire.LengthDelimited? && g.mark == s.a
    ensures g.start == s.body + s.Dm() && g.next == f.next + s.Dm() + s.Dw()
  {
    assert VarintAt(c, pos) == VarintAt(b, pos) by {
      SameBytesWithin(b, c, 0, s.a, 0, pos, s.a);
      VarintMoves(b, pos, c, pos);
    }
    assert VarintAt(c, s.a) == Some(Varint(s.size, VarintLen(s.size))) by {
      VarintWritten(c, s.a, s.size);
    }
    g := Field(1, LengthDelimited, s.a, s.a + VarintLen(s.size), s.size, 0, f.next + s.Dm() + s.Dw());
    assert ReadContents(c, 1, LengthDelimited, s.a) == Some(g);
  }

  /** The field whose contents the splice replaces, found again by reading the nested message. */
  lemma ReplacedField(s: Splice, inside: Decoded, b: Bytes) returns (k: nat)
    requires s.Fits(b) && inside.at.writeVersion == 0 && InnerLoop(inside, b, s.body, s.stop).Some?
    requires Replaces(s, b, InnerLoop(inside, b, s.body, s.stop).value.at)
    ensures s.body <= k < s.w && Reaches(b, s.body, k) && IsWriteVersion(b, k, s.w)
    ensures ReadField(b, k).value.next == s.wEnd
  {
    k := FindWriteVersion(inside, b, s.body, s.stop);
  }

  /** The field that holds the account: new length, moved contents. */
  lemma AccountFieldMoves(s: Splice, d: Decoded, b: Bytes, c: Bytes, pos: nat, f: Field, d': Decoded)
    returns (g: Field, e': Decoded)
    requires s.Relates(b, c) && d.at == DEFAULT.at && pos < |b|
    requires ReadField(b, pos) == Some(f) && OuterStep(d, b, f) == Some(d')
    requires f.tag == 1 && f.wire.LengthDelimited? && f.mark == s.a && f.start == s.body && f.next == s.stop
    requires Replaces(s, b, d'.at)
    ensures pos < |c| && ReadField(c, pos) == Some(g) && OuterStep(d, c, g) == Some(e')
    ensures g.next == f.next + s.Dm() + s.Dw() && g.tag == f.tag && MovedDecoded(s, d', e')
  {
    g := AccountKeyMoves(s, b, c, pos, f);
    var inside := Opened(d, s.a);
    assert InnerLoop(inside, b, s.body, s.stop) == Some(d');
    var k := ReplacedField(s, inside, b);
    InnerMoves(s, inside, inside, b, c, s.body, k, g.start, g.next);
    e' := InnerLoop(inside, c, g.start, g.next).value;
  }

  lemma {:induction false} OuterMoves(s: Splice, d: Decoded, b: Bytes, c: Bytes, pos: nat, k: nat, account: Field)
    requires s.Relates(b, c) && d.at == DEFAULT.at && pos <= |b|
    requires OuterLoop(d, b, pos).Some? && AccountFields(b, pos) == [k] && pos <= k
    requires TakenFrom(OuterLoop(d, b, pos).value.at, b, k, account)
    requires account.mark == s.a && account.start == s.body && account.next == s.stop
    requires Replaces(s, b, OuterLoop(d, b, pos).value.at)
    ensures pos <= |c| && OuterFollows(s, d, d, b, c, pos, pos)
    decreases |b| - pos
  {
    var f := ReadField(b, pos).value;
    var d' := OuterStep(d, b, f).value;
    OuterLoopStep(d, b, pos, f, d');
    if f.tag == 1 {
      OuterSuffixKeeps(d', b, f.next);
      var g, e' := AccountFieldMoves(s, d, b, c, pos, f, d');
      OuterSuffixMoves(s, d', e', b, c, f.next, g.next);
      OuterFollowsStep(s, d, d, b, c, pos, pos, f, g, d', e');
    } else {
      OuterStopsBefore(b, f.next, k);
      SameBytesWithin(b, c, 0, s.a, 0, pos, f.next);
      var _, g, _, e' := OuterFieldMoves(s, d, d, b, c, pos, pos, 0);
      OuterMoves(s, d', b, c, f.next, k, account);
      OuterFollowsStep(s, d, d, b, c, pos, pos, f, g, d', d');
    }
  }

  lemma {:induction false} OuterStopsBefore(b: Bytes, pos: nat, k: nat)
    requires pos <= |b| && AccountFields(b, pos) == [k]
    ensures pos <= k
    decreases |b| - pos
  {
    var f := ReadField(b, pos).value;
    if f.tag != 1 {
      assert AccountFields(b, pos) == AccountFields(b, f.next);
      OuterStopsBefore(b, f.next, k);
    } else {
      assert AccountFields(b, pos)[0] == pos;
    }
  }

  /** Decoding the spliced bytes: all values are the same, all offsets moved with their contents. */
  lemma DecodeSpliced(s: Splice, b: Bytes, c: Bytes, k: nat)
    requires Decode(b).Some? && AccountFields(b, 0) == [k]
    requires Replaces(s, b, Decode(b).value.at) && s.Relates(b, c)
    ensures Decode(c).Some? && MovedDecoded(s, Decode(b).value, Decode(c).value)
    ensures |AccountFields(c, 0)| == 1
  {
    var account := OuterLoopPlaced(DEFAULT, b, 0, k);
    NestedContents(b, k, account);
    OuterMoves(s, DEFAULT, b, c, 0, k, account);
  }
}
