/** What the decoder of account updates accepts and what it makes of any bytes, in terms of the fields alone: unknown
    fields are skipped, the last of several fields wins, and nested accounts are merged. */
module AccountMeaning {
  import opened Basics
  import opened Wire
  import opened AccountDecode

  /** The fields from `pos` on, if they end exactly at `end`. */
  function FieldsFrom(b: Bytes, pos: nat, end: nat): Option<seq<Field>>
    requires pos <= |b|
    decreases |b| - pos
  {
    if pos >= end then if pos == end then Some([]) else None
    else
      var f := ReadField(b, pos);
      if f.None? then None
      else
        var rest := FieldsFrom(b, f.value.next, end);
        if rest.None? then None else Some([f.value] + rest.value)
  }

  function LastOf(fs: seq<Field>, tag: nat): Option<Field> {
    if fs == [] then None
    else
      var rest := LastOf(fs[1..], tag);
      if rest.Some? then rest else if fs[0].tag == tag then Some(fs[0]) else None
  }

  lemma {:induction false} LastOfAppend(a: seq<Field>, b: seq<Field>, tag: nat)
    ensures LastOf(a + b, tag) == if LastOf(b, tag).Some? then LastOf(b, tag) else LastOf(a, tag)
  {
    if a == [] {
      assert a + b == b;
    } else {
      assert (a + b)[1..] == a[1..] + b;
      LastOfAppend(a[1..], b, tag);
    }
  }

  /** Field i has the tag, and no later one has. */
  ghost predicate IsLastAt(fs: seq<Field>, tag: nat, i: nat) {
    i < |fs| && fs[i].tag == tag && forall j :: i < j < |fs| ==> fs[j].tag != tag
  }

  lemma {:induction false} LastOfIsLast(fs: seq<Field>, tag: nat)
    ensures LastOf(fs, tag).None? <==> forall i :: 0 <= i < |fs| ==> fs[i].tag != tag
    ensures LastOf(fs, tag).Some? ==> exists i: nat :: IsLastAt(fs, tag, i) && fs[i] == LastOf(fs, tag).value
  {
    if fs != [] {
      LastOfIsLast(fs[1..], tag);
      assert forall j :: 0 < j < |fs| ==> fs[j] == fs[1..][j - 1];
      if LastOf(fs[1..], tag).Some? {
        var i: nat :| IsLastAt(fs[1..], tag, i) && fs[1..][i] == LastOf(fs[1..], tag).value;
        assert IsLastAt(fs, tag, i + 1) && fs[i + 1] == LastOf(fs, tag).value;
      } else if fs[0].tag == tag {
        assert IsLastAt(fs, tag, 0);
      }
    }
  }

  function Cut(b: Bytes, f: Field): Bytes {
    if f.start <= f.next <= |b| then b[f.start..f.next] else []
  }

  function BytesOr(b: Bytes, fs: seq<Field>, tag: nat, otherwise: Bytes): Bytes {
    if LastOf(fs, tag).Some? then Cut(b, LastOf(fs, tag).value) else otherwise
  }

  function NumberOr(fs: seq<Field>, tag: nat, otherwise: nat): nat {
    if LastOf(fs, tag).Some? then LastOf(fs, tag).value.value else otherwise
  }

  function FlagOr(fs: seq<Field>, tag: nat, otherwise: bool): bool {
    if LastOf(fs, tag).Some? then LastOf(fs, tag).value.value != 0 else otherwise
  }

  // ----- the nested account -----

  /** Keys and owners take 32 bytes, signatures 64; numbers and flags are varints. Other fields are free. */
  ghost predicate AccountTyped(fs: seq<Field>) {
    forall i :: 0 <= i < |fs| ==>
      && (fs[i].tag == 1 ==> fs[i].wire == LengthDelimited && fs[i].width == 32)
      && (fs[i].tag == 2 ==> fs[i].wire == VarintType)
      && (fs[i].tag == 3 ==> fs[i].wire == LengthDelimited && fs[i].width == 32)
      && (fs[i].tag == 4 ==> fs[i].wire == VarintType)
      && (fs[i].tag == 5 ==> fs[i].wire == VarintType)
      && (fs[i].tag == 6 ==> fs[i].wire == LengthDelimited)
      && (fs[i].tag == 7 ==> fs[i].wire == VarintType)
      && (fs[i].tag == 8 ==> fs[i].wire == LengthDelimited && fs[i].width == 64)
  }

  ghost predicate MergedInfo(i: Info, j: Info, b: Bytes, fs: seq<Field>) {
    && j.pubkey == BytesOr(b, fs, 1, i.pubkey)
    && j.lamports == NumberOr(fs, 2, i.lamports)
    && j.owner == BytesOr(b, fs, 3, i.owner)
    && j.executable == FlagOr(fs, 4, i.executable)
    && j.rentEpoch == NumberOr(fs, 5, i.rentEpoch)
  }

  /** The offsets point at the contents of the last fields; that of the write version at its varint. */
  ghost predicate MergedOffsets(o: Offsets, p: Offsets, fs: seq<Field>) {
    && p.dataStart == (if LastOf(fs, 6).Some? then LastOf(fs, 6).value.start else o.dataStart)
    && p.dataEnd == (if LastOf(fs, 6).Some? then LastOf(fs, 6).value.next else o.dataEnd)
    && p.writeVersion == (if LastOf(fs, 7).Some? then LastOf(fs, 7).value.mark else o.writeVersion)
    && p.txnSignature == (if LastOf(fs, 8).Some? then Some(LastOf(fs, 8).value.start) else o.txnSignature)
  }

  ghost predicate Merged(d: Decoded, e: Decoded, b: Bytes, fs: seq<Field>) {
    MergedInfo(d.info, e.info, b, fs) && MergedOffsets(d.at, e.at, fs)
  }

  lemma MergedNothing(d: Decoded, b: Bytes)
    ensures Merged(d, d, b, [])
  {
  }

  lemma MergedAppend(d: Decoded, e: Decoded, g: Decoded, b: Bytes, fs: seq<Field>, gs: seq<Field>)
    requires Merged(d, e, b, fs) && Merged(e, g, b, gs)
    ensures Merged(d, g, b, fs + gs)
  {
    hide LastOf, Cut;
    forall tag: nat
      ensures LastOf(fs + gs, tag) == if LastOf(gs, tag).Some? then LastOf(gs, tag) else LastOf(fs, tag)
    {
      LastOfAppend(fs, gs, tag);
    }
  }

  lemma OneIsLast(f: Field, tag: nat)
    ensures LastOf([f], tag) == if f.tag == tag then Some(f) else None
  {
  }

  lemma StepMeans(d: Decoded, b: Bytes, f: Field)
    requires f.start <= f.next <= |b|
    ensures InnerStep(d, b, f).Some? <==> AccountTyped([f])
    ensures InnerStep(d, b, f).Some? ==>
              Merged(d, InnerStep(d, b, f).value, b, [f]) && SameOuter(d, InnerStep(d, b, f).value)
  {
    hide LastOf;
    assert AccountTyped([f]) ==> [f][0] == f;
    forall tag: nat
      ensures LastOf([f], tag) == if f.tag == tag then Some(f) else None
    {
      OneIsLast(f, tag);
    }
  }

  /** The fields of the update around the account. */
  ghost predicate SameOuter(d: Decoded, e: Decoded) {
    && e.info.slot == d.info.slot && e.info.isStartup == d.info.isStartup && e.info.bankId == d.info.bankId
    && e.at.account == d.at.account
  }

  lemma TypedPush(f: Field, fs: seq<Field>)
    ensures AccountTyped([f] + fs) <==> AccountTyped([f]) && AccountTyped(fs)
  {
    assert [f][0] == f == ([f] + fs)[0];
    assert forall i :: 0 <= i < |fs| ==> fs[i] == ([f] + fs)[i + 1];
  }

  /** A nested account is accepted exactly if its fields end where it ends and have their types; then the last field
      with a tag counts. */
  lemma {:induction false} AccountMeans(d: Decoded, b: Bytes, pos: nat, end: nat)
    requires pos <= |b|
    ensures var r, fs := InnerLoop(d, b, pos, end), FieldsFrom(b, pos, end);
      && (r.Some? <==> fs.Some? && AccountTyped(fs.value))
      && (r.Some? ==> Merged(d, r.value, b, fs.value) && SameOuter(d, r.value))
    decreases |b| - pos
  {
    hide InnerStep, ReadField, Merged, AccountTyped;
    if pos >= end {
      MergedNothing(d, b);
      assert AccountTyped([]) by {
        NothingIsTyped();
      }
    } else if ReadField(b, pos).Some? {
      var f := ReadField(b, pos).value;
      StepMeans(d, b, f);
      if InnerStep(d, b, f).Some? {
        var d' := InnerStep(d, b, f).value;
        AccountMeans(d', b, f.next, end);
        if FieldsFrom(b, f.next, end).Some? {
          var rest := FieldsFrom(b, f.next, end).value;
          TypedPush(f, rest);
          if AccountTyped(rest) {
            MergedAppend(d, d', InnerLoop(d', b, f.next, end).value, b, [f], rest);
          }
        }
      } else if FieldsFrom(b, f.next, end).Some? {
        TypedPush(f, FieldsFrom(b, f.next, end).value);
      }
    }
  }

  lemma NothingIsTyped()
    ensures AccountTyped([])
  {
  }

  // ----- the whole update -----

  /** The fields of all nested accounts, one account after the other. */
  function Nested(b: Bytes, fs: seq<Field>): seq<Field> {
    if fs == [] then [] else NestedIn(b, fs[0]) + Nested(b, fs[1..])
  }

  function NestedIn(b: Bytes, f: Field): seq<Field> {
    if f.tag == 1 && f.start <= |b| && FieldsFrom(b, f.start, f.next).Some?
    then FieldsFrom(b, f.start, f.next).value else []
  }

  /** Field 1 is a well-formed account, fields 2 to 4 are varints. */
  ghost predicate UpdateTyped(b: Bytes, fs: seq<Field>) {
    forall i :: 0 <= i < |fs| ==>
      && (fs[i].tag == 1 ==>
            && fs[i].wire == LengthDelimited && fs[i].start <= |b|
            && FieldsFrom(b, fs[i].start, fs[i].next).Some? && AccountTyped(NestedIn(b, fs[i])))
      && (fs[i].tag == 2 ==> fs[i].wire == VarintType)
      && (fs[i].tag == 3 ==> fs[i].wire == VarintType)
      && (fs[i].tag == 4 ==> fs[i].wire == VarintType)
  }

  ghost predicate MergedUpdate(d: Decoded, e: Decoded, b: Bytes, fs: seq<Field>) {
    && Merged(d, e, b, Nested(b, fs))
    && e.info.slot == NumberOr(fs, 2, d.info.slot)
    && e.info.isStartup == FlagOr(fs, 3, d.info.isStartup)
    && e.info.bankId == (if LastOf(fs, 4).Some? then Some(LastOf(fs, 4).value.value) else d.info.bankId)
    && e.at.account == (if LastOf(fs, 1).Some? then Some(LastOf(fs, 1).value.mark) else d.at.account)
  }

  lemma NestedOne(b: Bytes, f: Field)
    ensures Nested(b, [f]) == NestedIn(b, f)
  {
    assert [f][1..] == [] && Nested(b, []) == [];
    assert NestedIn(b, f) + [] == NestedIn(b, f);
  }

  lemma MergedUpdateNothing(d: Decoded, b: Bytes)
    ensures MergedUpdate(d, d, b, []) && UpdateTyped(b, [])
  {
    MergedNothing(d, b);
  }

  lemma MergedUpdatePush(d: Decoded, e: Decoded, g: Decoded, b: Bytes, f: Field, fs: seq<Field>)
    requires MergedUpdate(d, e, b, [f]) && MergedUpdate(e, g, b, fs)
    ensures MergedUpdate(d, g, b, [f] + fs)
  {
    hide LastOf, Merged, NestedIn;
    NestedOne(b, f);
    MergedAppend(d, e, g, b, NestedIn(b, f), Nested(b, fs));
    assert ([f] + fs)[1..] == fs && ([f] + fs)[0] == f;
    LastOfAppend([f], fs, 1);
    LastOfAppend([f], fs, 2);
    LastOfAppend([f], fs, 3);
    LastOfAppend([f], fs, 4);
  }

  lemma UpdateTypedPush(b: Bytes, f: Field, fs: seq<Field>)
    ensures UpdateTyped(b, [f] + fs) <==> UpdateTyped(b, [f]) && UpdateTyped(b, fs)
  {
    hide AccountTyped, FieldsFrom, NestedIn;
    assert [f][0] == f == ([f] + fs)[0];
    assert forall i :: 0 <= i < |fs| ==> fs[i] == ([f] + fs)[i + 1];
  }

  lemma OuterStepMeans(d: Decoded, b: Bytes, f: Field)
    requires f.start <= f.next <= |b|
    ensures OuterStep(d, b, f).Some? <==> UpdateTyped(b, [f])
    ensures OuterStep(d, b, f).Some? ==> MergedUpdate(d, OuterStep(d, b, f).value, b, [f])
  {
    hide LastOf, InnerLoop, Merged, AccountTyped, FieldsFrom;
    assert UpdateTyped(b, [f]) ==> [f][0] == f;
    NestedOne(b, f);
    OneIsLast(f, 1);
    OneIsLast(f, 2);
    OneIsLast(f, 3);
    OneIsLast(f, 4);
    if f.tag == 1 {
      AccountMeans(Opened(d, f.mark), b, f.start, f.next);
      if OuterStep(d, b, f).Some? {
        OpenedMerges(d, f.mark, OuterStep(d, b, f).value, b, NestedIn(b, f));
      }
    } else if OuterStep(d, b, f).Some? {
      OuterFieldMerges(d, OuterStep(d, b, f).value, b);
    }
  }

  lemma OpenedMerges(d: Decoded, mark: nat, e: Decoded, b: Bytes, fs: seq<Field>)
    requires Merged(Opened(d, mark), e, b, fs)
    ensures Merged(d, e, b, fs)
  {
  }

  lemma OuterFieldMerges(d: Decoded, e: Decoded, b: Bytes)
    requires e.at == d.at && e.info.pubkey == d.info.pubkey && e.info.owner == d.info.owner
    requires e.info.lamports == d.info.lamports && e.info.executable == d.info.executable
    requires e.info.rentEpoch == d.info.rentEpoch
    ensures Merged(d, e, b, [])
  {
  }

  lemma {:induction false} UpdateMeans(d: Decoded, b: Bytes, pos: nat)
    requires pos <= |b|
    ensures var r, fs := OuterLoop(d, b, pos), FieldsFrom(b, pos, |b|);
      && (r.Some? <==> fs.Some? && UpdateTyped(b, fs.value))
      && (r.Some? ==> MergedUpdate(d, r.value, b, fs.value))
    decreases |b| - pos
  {
    hide OuterStep, ReadField, MergedUpdate, UpdateTyped;
    if pos == |b| {
      MergedUpdateNothing(d, b);
    } else if ReadField(b, pos).Some? {
      var f := ReadField(b, pos).value;
      OuterStepMeans(d, b, f);
      if OuterStep(d, b, f).Some? {
        var d' := OuterStep(d, b, f).value;
        UpdateMeans(d', b, f.next);
        if FieldsFrom(b, f.next, |b|).Some? {
          var rest := FieldsFrom(b, f.next, |b|).value;
          UpdateTypedPush(b, f, rest);
          if UpdateTyped(b, rest) {
            MergedUpdatePush(d, d', OuterLoop(d', b, f.next).value, b, f, rest);
          }
        }
      } else if FieldsFrom(b, f.next, |b|).Some? {
        UpdateTypedPush(b, f, FieldsFrom(b, f.next, |b|).value);
      }
    }
  }

  /** Which bytes decode, and to what: every value is that of the last field with its tag, or the default. */
  lemma DecodeMeans(b: Bytes)
    ensures var fs := FieldsFrom(b, 0, |b|);
      && (Decode(b).Some? <==> fs.Some? && UpdateTyped(b, fs.value))
      && (Decode(b).Some? ==>
            var e, inner := Decode(b).value, Nested(b, fs.value);
            && e.info.pubkey == BytesOr(b, inner, 1, Zeros(32)) && e.info.owner == BytesOr(b, inner, 3, Zeros(32))
            && e.info.lamports == NumberOr(inner, 2, 0) && e.info.executable == FlagOr(inner, 4, false)
            && e.info.rentEpoch == NumberOr(inner, 5, 0)
            && e.info.slot == NumberOr(fs.value, 2, 0) && e.info.isStartup == FlagOr(fs.value, 3, false)
            && e.info.bankId == (if LastOf(fs.value, 4).Some? then Some(NumberOr(fs.value, 4, 0)) else None)
            && (e.at.account.Some? <==> LastOf(fs.value, 1).Some?)
            && MergedOffsets(Offsets(None, 0, 0, None, 0), e.at, inner))
  {
    hide LastOf, FieldsFrom, OuterLoop, UpdateTyped, Nested, Cut;
    UpdateMeans(DEFAULT, b, 0);
  }

  // ----- fields that are skipped -----

  /** A field of fixed width takes its key and eight or four bytes. */
  lemma FixedIsRead(tag: nat, wide: bool, x: Bytes, rest: Bytes)
    requires 1 <= tag < 0x2000_0000 && |x| == if wide then 8 else 4
    ensures var key := EncodeVarint(8 * tag + if wide then 1 else 5);
      var b := key + x + rest;
      ReadField(b, 0).Some? && ReadField(b, 0).value.tag == tag && ReadField(b, 0).value.next == |key| + |x|
  {
    hide DecodeVarintFrom, VarintLen, EncodeVarint;
    var k := 8 * tag + if wide then 1 else 5;
    VarintLenIsLength(k);
    var b := EncodeVarint(k) + x + rest;
    assert b[0..|EncodeVarint(k)|] == EncodeVarint(k);
    VarintWritten(b, 0, k);
  }
}
