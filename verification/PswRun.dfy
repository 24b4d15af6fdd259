/** A call of the procedure that EmitBody writes, from the static records to the bytes on the context. */
module PswRun {
  import opened PswTypes
  import opened PswLayout
  import opened PswNames
  import opened PswCompiler
  import opened PswStatics
  import opened PswStream
  import opened PswWrite
  import opened PswOffsets
  import PswDict

  /** What the compile-time passes leave for a wrap. */
  ghost predicate Compiled(o: Opts, root: seq<Tok>, p: Plan, recs: seq<ORec>, chars: seq<int>) {
    && ValidToks(o, root) && Listed(o, root, p) && Ready(p) && Addressed(o, p)
    && Fields(o, p, recs) && |recs| == |p.toks|
    && chars == Bytes(Shared(p.toks, p.literals).placed)
  }

  // Every formal in toks is a parameter of the wrap.
  predicate Known(toks: seq<Tok>, items: seq<Item>) {
    forall k | 0 <= k < |toks| && toks[k].formal.Some? :: toks[k].formal.value in items
  }

  function PatchAll(p: Plan, env: Env, nTop: nat, recs: seq<ORec>): (r: seq<ORec>)
    requires |recs| == |p.toks|
    ensures |r| == |recs|
  {
    seq(|recs|, k requires 0 <= k < |recs| => Patched(env, nTop, p.toks[k], k, recs[k]))
  }

  // The records after parameters and names have been stored.
  function Loaded(p: Plan, env: Env, nTop: nat, recs: seq<ORec>): (r: seq<ORec>)
    requires |recs| == |p.toks| && InRange(p.names, |p.toks|)
    ensures |r| == |recs|
  {
    Fill(if p.writable then PatchAll(p, env, nTop, recs) else recs, p.names, Codes(env, Texts(p.toks, p.names)))
  }

  predicate Fixes(p: Plan) { p.writable && (p.arrays != [] || p.strings != []) }

  // The records as they are written.
  function Final(o: Opts, p: Plan, env: Env, nTop: nat, recs: seq<ORec>): (r: seq<ORec>)
    requires |recs| == |p.toks| && InRange(p.names, |p.toks|)
    requires InRange(p.arrays, |p.toks|) && InRange(p.strings, |p.toks|) && InRange(p.literals, |p.toks|)
    ensures |r| == |recs|
  {
    if Fixes(p) then FixedRecords(o, p, env, Loaded(p, env, nTop, recs)) else Loaded(p, env, nTop, recs)
  }

  // The record of token k but for the offset in it.
  function Shaped(o: Opts, p: Plan, env: Env, nTop: nat, k: nat): ORec
    requires k < |p.toks| == |p.body| == |p.wellKnown|
  {
    Patched(env, nTop, p.toks[k], k, FieldRecord(o, p.toks[k], p.body[k], p.wellKnown[k]))
  }

  // A token that does not make the data writable needs no patch.
  lemma NoPatch(o: Opts, env: Env, nTop: nat, t: Tok, k: nat, body: int, wellKnown: bool)
    requires ValidTok(o, t) && !MakesWritable(t) && (wellKnown ==> t.formal.None?)
    requires !(t.formal.Some? && t.formal.value.ConstSub() && t.formal.value.ctype.IsNumStr())
    ensures Patched(env, nTop, t, k, FieldRecord(o, t, body, wellKnown)) == FieldRecord(o, t, body, wellKnown)
  {
  }

  lemma InStrings(o: Opts, p: Plan, k: nat)
    requires InRange(p.strings, |p.toks|) && p.strings == Picks(o, InString, p.toks)
    requires k < |p.toks| && RoleOf(o, p.toks[k]) == InString
    ensures exists i | 0 <= i < |p.strings| :: Strings(p)[i] == p.toks[k]
  {
    PicksComplete(o, InString, p.toks, k);
    var i :| 0 <= i < |p.strings| && p.strings[i] == k;
    assert Strings(p)[i] == p.toks[k];
  }

  // The token of record k, and what the compiler knows of it.
  lemma TokenOf(o: Opts, root: seq<Tok>, p: Plan, recs: seq<ORec>, chars: seq<int>, k: nat)
    requires Compiled(o, root, p, recs, chars) && k < |recs|
    ensures ValidTok(o, p.toks[k]) && p.wellKnown[k] == SysName(o, p.toks[k])
    ensures recs[k] == FieldRecord(o, p.toks[k], p.body[k], p.wellKnown[k])
  {
    FlatValid(o, [root]);
  }

  lemma ConstantToken(o: Opts, p: Plan, k: nat)
    requires Unpatched(o, p) && k < |p.toks|
    ensures !MakesWritable(p.toks[k])
    ensures !(p.toks[k].formal.Some? && p.toks[k].formal.value.ConstSub() && p.toks[k].formal.value.ctype.IsNumStr()
              && RoleOf(o, p.toks[k]) == InString)
  {
    Unwritten(p.toks, k);
    if RoleOf(o, p.toks[k]) == InString {
      InStrings(o, p, k);
      var i :| 0 <= i < |p.strings| && Strings(p)[i] == p.toks[k];
      Unwritten(Strings(p), i);
    }
  }

  // Parameters reach every record that needs one, whether the data is writable or not.
  lemma LoadedShape(o: Opts, root: seq<Tok>, p: Plan, env: Env, nTop: nat, recs: seq<ORec>, chars: seq<int>, k: nat)
    requires Compiled(o, root, p, recs, chars) && k < |recs|
    ensures (if p.writable then PatchAll(p, env, nTop, recs) else recs)[k] == Shaped(o, p, env, nTop, k)
  {
    TokenOf(o, root, p, recs, chars, k);
    if !p.writable {
      UnpatchedWhen(o, root, p);
      ConstantToken(o, p, k);
      NoPatch(o, env, nTop, p.toks[k], k, p.body[k], p.wellKnown[k]);
    }
  }

  // The length fields on which FixupOffsets and WriteObjSeq rely.
  lemma LengthOf(o: Opts, p: Plan, env: Env, nTop: nat, k: nat)
    requires k < |p.toks| == |p.body| == |p.wellKnown|
    requires Fits(InString, p.toks[k]) && RoleOf(o, p.toks[k]) == InString && p.toks[k].formal.value.sub.None?
    requires p.toks[k].kind.NameTok? || p.toks[k].kind.LitNameTok? || p.toks[k].kind.StringTok? || p.toks[k].kind.HexTok?
    ensures Shaped(o, p, env, nTop, k).len == U16(env.strlen(p.toks[k].formal.value.name))
  {
  }

  lemma StringLengths(o: Opts, root: seq<Tok>, p: Plan, env: Env, nTop: nat, recs: seq<ORec>, chars: seq<int>)
    requires Compiled(o, root, p, recs, chars)
    ensures LengthsSet(p, env, Loaded(p, env, nTop, recs))
  {
    hide Layout, Traced, Fields, Share, Bytes, Addressed, ValidToks, PatchAll, Shaped;
    var r := if p.writable then PatchAll(p, env, nTop, recs) else recs;
    FillKeepsLengths(r, p.names, Codes(env, Texts(p.toks, p.names)), |p.names|);
    PicksRange(o, InString, p.toks);
    forall i | 0 <= i < |p.strings|
      ensures var t := p.toks[p.strings[i]];
              t.formal.Some? && t.formal.value.sub.None? ==> r[p.strings[i]].len == U16(env.strlen(t.formal.value.name))
    {
      var k := p.strings[i];
      assert Strings(p)[i] == p.toks[k] && Strings(p)[i] in Strings(p);
      LoadedShape(o, root, p, env, nTop, recs, chars, k);
      if p.toks[k].formal.value.sub.None? { LengthOf(o, p, env, nTop, k); }
    }
  }

  lemma FixKeepsLengths(o: Opts, p: Plan, env: Env, recs: seq<ORec>)
    requires InRange(p.arrays, |p.toks|) && InRange(p.strings, |p.toks|) && InRange(p.literals, |p.toks|)
    requires |recs| == |p.toks| && LengthsSet(p, env, recs)
    ensures LengthsSet(p, env, FixedRecords(o, p, env, recs))
  {
    var av := ArrayFixes(env, At(p.toks, p.arrays), FixStart(p));
    var sv := StringFixes(o, env, At(p.toks, p.strings), StringBase(p, env));
    FillKeepsLengths(recs, p.arrays, av, |p.arrays|);
    var r1 := Fill(recs, p.arrays, av);
    FillKeepsLengths(r1, p.strings, sv, |p.strings|);
    var r2 := Fill(r1, p.strings, sv);
    FillKeepsLengths(r2, p.literals, Shift(Shared(p.toks, p.literals).locs, LitBase(o, p, env)), |p.literals|);
  }

  // dpsHeaderSize
  function HeaderSize(large: bool): nat { if large then LONG_HEADER_SIZE else HEADER_SIZE }

  // No element reference in the wrap's own body makes pswrap end.
  predicate Emittable(root: seq<Tok>) { forall k | 0 <= k < |root| :: !Refused(root[k]) }

  // Parameters, then names. Nothing is emitted when pswrap ends.
  method Load(o: Opts, ghost root: seq<Tok>, p: Plan, env: Env, items: seq<Item>, nTop: nat, garbage: string,
              recs: seq<ORec>, ghost chars: seq<int>) returns (emitted: bool, ok: bool, recs': seq<ORec>)
    requires Compiled(o, root, p, recs, chars) && nTop == |root| && Known(p.toks, items)
    ensures emitted <==> Emittable(root)
    ensures emitted ==> (ok <==> p.names == [] || garbage != Text(p.toks, p.names[0]))
    ensures |recs'| == |recs| && (emitted && ok ==> recs' == Loaded(p, env, nTop, recs))
  {
    emitted, ok, recs' := true, false, recs;
    WalkPlaced(root, p);
    RootFirst(root, p);
    if p.writable {
      ElementsSubscripted(o, root, p);
      emitted, recs' := ScanParamsAndEmitValues(p, env, items, nTop, recs');
      if !emitted { return; }
      assert recs' == PatchAll(p, env, nTop, recs);
    } else {
      ConstantEmittable(o, root, p);
    }
    ok := true;
    if p.names != [] { ok, recs' := AcquireNames(p, env, garbage, recs'); }
  }

  lemma WalkPlaced(root: seq<Tok>, p: Plan)
    requires Layout(root, [], p.toks, p.body) && p.toks == Flat([root])
    ensures AllInPlace(p) && AllCovered(|root|, [], p.toks, p.body) && |root| <= |p.toks|
  {
    RootWork(root);
    forall k | 0 <= k < |p.toks| && p.toks[k].Nested()
      ensures Placed(p.toks, p.body, k)
    {
      assert !Pending([], k);
    }
  }

  lemma RootFirst(root: seq<Tok>, p: Plan)
    requires p.toks == Flat([root])
    ensures |root| <= |p.toks| && forall k | 0 <= k < |root| :: p.toks[k] == root[k]
  {
    RootWork(root);
  }

  // An element reference makes the data writable.
  lemma ConstantEmittable(o: Opts, root: seq<Tok>, p: Plan)
    requires Listed(o, root, p) && Addressed(o, p) && !p.writable
    ensures Emittable(root)
  {
    hide Addressed, Unpatched, Refused, MakesWritable, Layout, Traced, Picks, NameList, SysName;
    UnpatchedWhen(o, root, p);
    RootFirst(root, p);
    forall k | 0 <= k < |root|
      ensures !Refused(root[k])
    {
      ConstantToken(o, p, k);
      RefusedWritable(root[k]);
    }
  }

  lemma RefusedWritable(t: Tok)
    ensures Refused(t) ==> MakesWritable(t)
  {
  }

  lemma ElementsSubscripted(o: Opts, root: seq<Tok>, p: Plan)
    requires ValidToks(o, root) && p.toks == Flat([root])
    ensures forall k | 0 <= k < |p.toks| && p.toks[k].formal.Some? && p.toks[k].kind.SubscriptedTok? ::
              p.toks[k].formal.value.sub.Some?
  {
    FlatValid(o, [root]);
    forall k | 0 <= k < |p.toks| && p.toks[k].formal.Some? && p.toks[k].kind.SubscriptedTok?
      ensures p.toks[k].formal.value.sub.Some?
    {
      assert ValidTok(o, p.toks[k]);
    }
  }

  // Offsets, if there are any to fix, and the byte count.
  method Fix(o: Opts, p: Plan, env: Env, large: bool, interner: PswDict.Interner, recs: seq<ORec>)
    returns (nBytes: nat, recs': seq<ORec>)
    requires Ready(p) && |recs| == |p.toks| && LengthsSet(p, env, recs) && interner.Valid()
    modifies interner.Repr
    ensures interner.Valid() && fresh(interner.Repr - old(interner.Repr))
    ensures recs' == (if Fixes(p) then FixedRecords(o, p, env, recs) else recs)
    ensures nBytes == Total(o, p, env) + HeaderSize(large)
  {
    recs', nBytes := recs, p.size + HeaderSize(large);
    if p.writable && (p.arrays != [] || p.strings != []) {
      var offset;
      recs', offset := FixupOffsets(o, p, env, interner, recs');
      nBytes := offset + HeaderSize(large);
    }
  }

  // What is left to do once parameters and names are stored.
  method Send(o: Opts, p: Plan, env: Env, large: bool, nTop: nat, interner: PswDict.Interner, recs: seq<ORec>, chars: seq<int>)
    returns (ended: bool, out: seq<Cell>)
    requires Ready(p) && |recs| == |p.toks| && LengthsSet(p, env, recs) && interner.Valid()
    modifies interner.Repr
    ensures interner.Valid() && fresh(interner.Repr - old(interner.Repr))
    ensures ended <==> Stops(env, Strings(p))
    ensures ended ==> out == HeadCells(large, nTop, Total(o, p, env) + HeaderSize(large))
                             + Stream(o, p, env, if Fixes(p) then FixedRecords(o, p, env, recs) else recs, chars)
  {
    hide HeadCells, Stream, Total, FixedRecords, LengthsSet;
    FixKeepsLengths(o, p, env, recs);
    var nBytes, recs' := Fix(o, p, env, large, interner, recs);
    ended, out := WriteObjSeq(o, p, env, HeadCells(large, nTop, nBytes), recs', chars);
  }

  // The whole sequence of a call.
  function Sequence(o: Opts, p: Plan, env: Env, large: bool, nTop: nat, recs: seq<ORec>, chars: seq<int>): seq<Cell>
    requires |recs| == |p.toks| && InRange(p.names, |p.toks|)
    requires InRange(p.arrays, |p.toks|) && InRange(p.strings, |p.toks|) && InRange(p.literals, |p.toks|)
  {
    HeadCells(large, nTop, Total(o, p, env) + HeaderSize(large)) + Stream(o, p, env, Final(o, p, env, nTop, recs), chars)
  }

  lemma CompiledReady(o: Opts, root: seq<Tok>, p: Plan, recs: seq<ORec>, chars: seq<int>)
    requires Compiled(o, root, p, recs, chars)
    ensures Ready(p) && |recs| == |p.toks|
  {
  }

  /** What comes of a wrap and a call of it: pswrap ends on it; the client library rejects its name table, or does not
      stop at the end of a numstring; or the call writes its bytes. */
  datatype Outcome = Aborted | Rejected | RunsOn | Called(out: seq<Cell>)

  /** The rest of pswrap's work on a wrap, and one call. */
  method CallWrap(o: Opts, ghost root: seq<Tok>, p: Plan, env: Env, items: seq<Item>, nTop: nat, garbage: string, large: bool,
                  interner: PswDict.Interner, recs: seq<ORec>, chars: seq<int>)
    returns (r: Outcome)
    requires Compiled(o, root, p, recs, chars) && nTop == |root| && Known(p.toks, items) && interner.Valid()
    modifies interner.Repr
    ensures interner.Valid() && fresh(interner.Repr - old(interner.Repr))
    ensures r.Aborted? <==> !Emittable(root)
    ensures r.Rejected? <==> Emittable(root) && p.names != [] && garbage == Text(p.toks, p.names[0])
    ensures r.RunsOn? || r.Called? ==> (r.Called? <==> Stops(env, Strings(p)))
    ensures r.Called? ==> r.out == Sequence(o, p, env, large, nTop, recs, chars)
  {
    hide Compiled, Ready, Stream, Total, Loaded, FixedRecords, LengthsSet, Known, HeadCells, Text, Emittable, Stops;
    var emitted, ok, recs' := Load(o, root, p, env, items, nTop, garbage, recs, chars);
    if !emitted { return Aborted; }
    if !ok { return Rejected; }
    CompiledReady(o, root, p, recs, chars);
    StringLengths(o, root, p, env, nTop, recs, chars);
    var ended, out := Send(o, p, env, large, nTop, interner, recs', chars);
    r := if ended then Called(out) else RunsOn;
  }

  // The byte count before the header is added.
  function Total(o: Opts, p: Plan, env: Env): nat
    requires InRange(p.arrays, |p.toks|) && InRange(p.strings, |p.toks|) && InRange(p.literals, |p.toks|)
  {
    if Fixes(p) then LitBase(o, p, env) + if p.arrays != [] then Shared(p.toks, p.literals).total else 0 else p.size
  }
}
