/** The records of a wrap call when they are written: every offset is the position of its piece, under a condition
    that says exactly when. */
module PswSettled {
  import opened PswTypes
  import opened PswLayout
  import opened PswNames
  import opened PswCompiler
  import opened PswStatics
  import opened PswStream
  import opened PswWrite
  import opened PswOffsets
  import opened PswRun

  // ----- the records a call writes

  function ArrayPositions(p: Plan, env: Env): (r: seq<int>)
    requires InRange(p.arrays, |p.toks|)
    ensures |r| == |p.arrays|
  {
    seq(|p.arrays|, i requires 0 <= i < |p.arrays| => ArrayPos(p, env, i))
  }

  function StringPositions(o: Opts, p: Plan, env: Env): (r: seq<int>)
    requires InRange(p.arrays, |p.toks|) && InRange(p.strings, |p.toks|)
    ensures |r| == |p.strings|
  {
    seq(|p.strings|, i requires 0 <= i < |p.strings| => StringPos(o, p, env, i))
  }

  function LitPositions(o: Opts, p: Plan, env: Env): (r: seq<int>)
    requires InRange(p.arrays, |p.toks|) && InRange(p.strings, |p.toks|) && InRange(p.literals, |p.toks|)
    ensures |r| == |p.literals|
  {
    Shift(Shared(p.toks, p.literals).locs, LitPos(o, p, env))
  }

  /** The condition under which every offset is the position of its piece. A wrap with patched data must be given
      input strings that are written as reserved; a wrap with constant data must not have input arrays, literals and
      input strings all at once. */
  ghost predicate OffsetsHold(o: Opts, p: Plan, env: Env)
    requires InRange(p.strings, |p.toks|)
  {
    if p.writable then forall t | t in Strings(p) :: Exact(o, env, t)
    else !p.twoStatics || p.strings == []
  }

  ghost predicate Settled(o: Opts, p: Plan, env: Env, nTop: nat, recs: seq<ORec>)
    requires |p.body| == |p.wellKnown| == |p.toks|
    requires InRange(p.arrays, |p.toks|) && InRange(p.strings, |p.toks|) && InRange(p.literals, |p.toks|)
  {
    && |recs| == |p.toks|
    && (forall k | 0 <= k < |recs| :: recs[k] == Shaped(o, p, env, nTop, k).(val := recs[k].val))
    && (forall k | 0 <= k < |recs| && RoleOf(o, p.toks[k]) == Plain :: recs[k] == Shaped(o, p, env, nTop, k))
    && (forall k | 0 <= k < |recs| && RoleOf(o, p.toks[k]) == UserName :: recs[k].val == IntWord(env.code(p.toks[k].text)))
    && Valued(recs, p.arrays, ArrayPositions(p, env))
    && Valued(recs, p.strings, StringPositions(o, p, env))
    && Valued(recs, p.literals, LitPositions(o, p, env))
  }

  lemma NamesFilled(o: Opts, p: Plan, env: Env, recs: seq<ORec>)
    requires |recs| == |p.toks| && p.names == NameList(o, p.toks)
    ensures var r := Fill(recs, p.names, Codes(env, Texts(p.toks, p.names)));
            && SameBut(recs, r, set k | k in p.names)
            && forall k | 0 <= k < |recs| && RoleOf(o, p.toks[k]) == UserName :: r[k].val == IntWord(env.code(p.toks[k].text))
  {
    var codes := Codes(env, Texts(p.toks, p.names));
    var r := Fill(recs, p.names, codes);
    NameListDistinct(o, p.toks);
    FillSameBut(recs, p.names, codes);
    forall k | 0 <= k < |recs| && RoleOf(o, p.toks[k]) == UserName
      ensures r[k].val == IntWord(env.code(p.toks[k].text))
    {
      assert k in p.names;
      var i :| 0 <= i < |p.names| && p.names[i] == k;
      assert r[p.names[i]].val == IntWord(codes[i]);
    }
  }

  // Loaded records: everything but offsets is in place.
  ghost predicate Filled(o: Opts, p: Plan, env: Env, nTop: nat, recs: seq<ORec>)
    requires |p.body| == |p.wellKnown| == |p.toks|
  {
    && |recs| == |p.toks|
    && (forall k | 0 <= k < |recs| :: recs[k] == Shaped(o, p, env, nTop, k).(val := recs[k].val))
    && (forall k | 0 <= k < |recs| && RoleOf(o, p.toks[k]) != UserName :: recs[k] == Shaped(o, p, env, nTop, k))
    && (forall k | 0 <= k < |recs| && RoleOf(o, p.toks[k]) == UserName :: recs[k].val == IntWord(env.code(p.toks[k].text)))
  }

  lemma LoadedFilled(o: Opts, root: seq<Tok>, p: Plan, env: Env, nTop: nat, recs: seq<ORec>, chars: seq<int>)
    requires Compiled(o, root, p, recs, chars)
    ensures Filled(o, p, env, nTop, Loaded(p, env, nTop, recs))
  {
    hide Shaped, PatchAll, RoleOf, Layout, Traced, Fields, Share, Bytes, Addressed, ValidToks;
    var r := if p.writable then PatchAll(p, env, nTop, recs) else recs;
    forall k | 0 <= k < |r|
      ensures r[k] == Shaped(o, p, env, nTop, k)
    {
      LoadedShape(o, root, p, env, nTop, recs, chars, k);
    }
    NamesFilled(o, p, env, r);
  }

  // A record that keeps its compile-time offset.
  lemma ShapedVal(o: Opts, p: Plan, env: Env, nTop: nat, k: nat)
    requires k < |p.toks| == |p.body| == |p.wellKnown| && ValidTok(o, p.toks[k])
    requires p.wellKnown[k] == SysName(o, p.toks[k])
    requires RoleOf(o, p.toks[k]) in {InArray, InString, Lit}
    ensures Shaped(o, p, env, nTop, k).val == IntWord(p.body[k])
  {
  }

  lemma KeepsCompiled(o: Opts, root: seq<Tok>, p: Plan, env: Env, nTop: nat, recs: seq<ORec>, idx: seq<nat>, role: Role,
                      vals: seq<int>)
    requires ValidToks(o, root) && Listed(o, root, p) && Filled(o, p, env, nTop, recs)
    requires role in {InArray, InString, Lit} && idx == Picks(o, role, p.toks) && Stored(p.body, idx, vals)
    ensures Valued(recs, idx, vals)
  {
    FlatValid(o, [root]);
    PicksRange(o, role, p.toks);
    forall i | 0 <= i < |idx|
      ensures recs[idx[i]].val == IntWord(vals[i])
    {
      assert ValidTok(o, p.toks[idx[i]]);
      ShapedVal(o, p, env, nTop, idx[i]);
    }
  }

  // Offsets that nobody touched.
  lemma StaticOffsets(o: Opts, root: seq<Tok>, p: Plan, env: Env, nTop: nat, recs: seq<ORec>)
    requires ValidToks(o, root) && Listed(o, root, p) && Addressed(o, p) && Filled(o, p, env, nTop, recs)
    ensures Valued(recs, p.arrays, ArrayAddresses(p.toks, p.arrays))
    ensures Valued(recs, p.strings, StringAddresses(o, p.toks, p.arrays, p.literals, p.strings))
    ensures Valued(recs, p.literals, LitAddresses(p.toks, p.arrays, p.literals))
  {
    KeepsCompiled(o, root, p, env, nTop, recs, p.arrays, InArray, ArrayAddresses(p.toks, p.arrays));
    KeepsCompiled(o, root, p, env, nTop, recs, p.strings, InString,
                  StringAddresses(o, p.toks, p.arrays, p.literals, p.strings));
    KeepsCompiled(o, root, p, env, nTop, recs, p.literals, Lit, LitAddresses(p.toks, p.arrays, p.literals));
  }

  lemma SizedWhen(o: Opts, root: seq<Tok>, p: Plan, recs: seq<ORec>, chars: seq<int>)
    requires Compiled(o, root, p, recs, chars)
    ensures Sized(p, recs, chars)
  {
    SharingServes(Literals(p));
  }

  lemma ConstantSettled(o: Opts, root: seq<Tok>, p: Plan, env: Env, nTop: nat, recs: seq<ORec>, chars: seq<int>)
    requires Compiled(o, root, p, recs, chars) && !p.writable && OffsetsHold(o, p, env)
    ensures Settled(o, p, env, nTop, Final(o, p, env, nTop, recs))
  {
    hide Layout, Traced, Fields, Share, Bytes, Stored, Shaped, Counted, Flagged, Picks, RoleOf, Unpatched;
    var r := Loaded(p, env, nTop, recs);
    LoadedFilled(o, root, p, env, nTop, recs, chars);
    StaticOffsets(o, root, p, env, nTop, r);
    UnpatchedWhen(o, root, p);
    SizedWhen(o, root, p, recs, chars);
    ConstantPositions(o, p, env, recs, chars);
  }

  lemma ConstantPositions(o: Opts, p: Plan, env: Env, recs: seq<ORec>, chars: seq<int>)
    requires Unpatched(o, p) && Sized(p, recs, chars) && (!p.twoStatics || p.strings == [])
    ensures ArrayAddresses(p.toks, p.arrays) == ArrayPositions(p, env)
    ensures StringAddresses(o, p.toks, p.arrays, p.literals, p.strings) == StringPositions(o, p, env)
    ensures LitAddresses(p.toks, p.arrays, p.literals) == LitPositions(o, p, env)
  {
    forall i | 0 <= i < |p.arrays|
      ensures ArrayAddresses(p.toks, p.arrays)[i] == ArrayPositions(p, env)[i]
    {
      ConstantArrayOffset(o, p, env, recs, chars, i);
    }
    forall i | 0 <= i < |p.strings|
      ensures StringAddresses(o, p.toks, p.arrays, p.literals, p.strings)[i] == StringPositions(o, p, env)[i]
    {
      ConstantStringOffset(o, p, env, recs, chars, i);
    }
    forall i | 0 <= i < |p.literals|
      ensures LitAddresses(p.toks, p.arrays, p.literals)[i] == LitPositions(o, p, env)[i]
    {
      ConstantLiteralOffset(o, p, env, recs, chars, i);
    }
  }

  lemma PatchedArrays(p: Plan, env: Env)
    requires Ready(p)
    ensures ArrayFixes(env, Arrays(p), FixStart(p)) == ArrayPositions(p, env)
  {
    hide ArraySizes, FixStart;
  }

  lemma PatchedStrings(o: Opts, p: Plan, env: Env)
    requires Ready(p) && env.longSize >= 4 && forall t | t in Strings(p) :: Exact(o, env, t)
    ensures StringFixes(o, env, Strings(p), StringBase(p, env)) == StringPositions(o, p, env)
  {
    hide StringFixes, StringPos, StringBase, Exact, Fits;
    var a, b := StringFixes(o, env, Strings(p), StringBase(p, env)), StringPositions(o, p, env);
    assert |a| == |b| == |p.strings|;
    forall i | 0 <= i < |p.strings|
      ensures a[i] == b[i]
    {
      PatchedString(o, p, env, i);
    }
  }

  lemma PatchedPositions(o: Opts, p: Plan, env: Env, recs: seq<ORec>, chars: seq<int>)
    requires Ready(p) && Sized(p, recs, chars) && env.longSize >= 4 && forall t | t in Strings(p) :: Exact(o, env, t)
    ensures ArrayFixes(env, Arrays(p), FixStart(p)) == ArrayPositions(p, env)
    ensures StringFixes(o, env, Strings(p), StringBase(p, env)) == StringPositions(o, p, env)
    ensures p.twoStatics ==> LitBase(o, p, env) == LitPos(o, p, env)
    ensures !p.twoStatics ==> LitAddresses(p.toks, p.arrays, p.literals) == LitPositions(o, p, env)
  {
    hide ArrayPos, StringPos, FixSizes, ArraySizes, Exact, Fits;
    PatchedArrays(p, env);
    PatchedStrings(o, p, env);
    ReservedAll(o, env, Strings(p));
  }

  lemma ListsApart(o: Opts, p: Plan)
    requires p.arrays == Picks(o, InArray, p.toks) && p.strings == Picks(o, InString, p.toks)
    requires p.literals == Picks(o, Lit, p.toks)
    ensures Distinct(p.arrays) && Distinct(p.strings) && Distinct(p.literals)
    ensures Apart(p.arrays, p.strings) && Apart(p.arrays, p.literals) && Apart(p.strings, p.literals)
  {
    RolesApart(o, InArray, InString, p.toks);
    RolesApart(o, InArray, Lit, p.toks);
    RolesApart(o, InString, Lit, p.toks);
    RolesApart(o, Lit, InString, p.toks);
  }

  // FixupOffsets touches no record but those on the three lists.
  lemma FixedElsewhere(o: Opts, p: Plan, recs: seq<ORec>, recs': seq<ORec>, touched: set<nat>)
    requires p.arrays == Picks(o, InArray, p.toks) && p.strings == Picks(o, InString, p.toks)
    requires p.literals == Picks(o, Lit, p.toks) && |recs| == |p.toks|
    requires touched <= (set k | k in p.arrays) + (set k | k in p.strings) + (set k | k in p.literals)
    requires SameBut(recs, recs', touched)
    ensures forall k | 0 <= k < |recs| && RoleOf(o, p.toks[k]) !in {InArray, InString, Lit} :: recs'[k] == recs[k]
  {
    PicksRange(o, InArray, p.toks);
    PicksRange(o, InString, p.toks);
    PicksRange(o, Lit, p.toks);
  }

  lemma FilledFixed(o: Opts, p: Plan, env: Env, nTop: nat, recs: seq<ORec>, recs': seq<ORec>, touched: set<nat>)
    requires |p.body| == |p.wellKnown| == |p.toks| && Filled(o, p, env, nTop, recs) && SameBut(recs, recs', touched)
    requires forall k | 0 <= k < |recs| && RoleOf(o, p.toks[k]) !in {InArray, InString, Lit} :: recs'[k] == recs[k]
    ensures forall k | 0 <= k < |recs'| :: recs'[k] == Shaped(o, p, env, nTop, k).(val := recs'[k].val)
    ensures forall k | 0 <= k < |recs'| && RoleOf(o, p.toks[k]) == Plain :: recs'[k] == Shaped(o, p, env, nTop, k)
    ensures forall k | 0 <= k < |recs'| && RoleOf(o, p.toks[k]) == UserName :: recs'[k].val == IntWord(env.code(p.toks[k].text))
  {
  }

  lemma OnlyStrings(o: Opts, p: Plan, env: Env, recs: seq<ORec>, recs': seq<ORec>)
    requires InRange(p.arrays, |p.toks|) && InRange(p.strings, |p.toks|) && InRange(p.literals, |p.toks|)
    requires Fixed(o, p, env, recs, recs') && p.arrays == []
    ensures SameBut(recs, recs', set k | k in p.strings)
  {
    assert (set k | k in p.arrays) + (set k | k in p.strings) + {} == set k | k in p.strings;
  }

  lemma LiteralsSettled(o: Opts, root: seq<Tok>, p: Plan, env: Env, nTop: nat, recs: seq<ORec>, recs': seq<ORec>)
    requires ValidToks(o, root) && Listed(o, root, p) && Addressed(o, p) && Filled(o, p, env, nTop, recs)
    requires Fixed(o, p, env, recs, recs')
    requires p.twoStatics ==> LitBase(o, p, env) == LitPos(o, p, env)
    requires !p.twoStatics ==> LitAddresses(p.toks, p.arrays, p.literals) == LitPositions(o, p, env)
    ensures Valued(recs', p.literals, LitPositions(o, p, env))
  {
    if p.arrays == [] {
      StaticOffsets(o, root, p, env, nTop, recs);
      OnlyStrings(o, p, env, recs, recs');
      RolesApart(o, Lit, InString, p.toks);
      StillValued(recs, recs', p.literals, LitPositions(o, p, env), p.strings);
    }
  }

  lemma PatchedSettled(o: Opts, root: seq<Tok>, p: Plan, env: Env, nTop: nat, recs: seq<ORec>, chars: seq<int>)
    requires Compiled(o, root, p, recs, chars) && p.writable && OffsetsHold(o, p, env) && env.longSize >= 4
    ensures Settled(o, p, env, nTop, Final(o, p, env, nTop, recs))
  {
    hide Filled, Layout, Traced, Fields, Counted, Picks, NameList, Share, Bytes, RoleOf, Exact, Fits, Settled;
    var r := Loaded(p, env, nTop, recs);
    LoadedFilled(o, root, p, env, nTop, recs, chars);
    SizedWhen(o, root, p, recs, chars);
    PatchedPositions(o, p, env, recs, chars);
    if Fixes(p) { FixesSettled(o, root, p, env, nTop, r); } else { NothingToFix(o, root, p, env, nTop, r); }
  }

  // Patched data without input arrays and strings.
  lemma NothingToFix(o: Opts, root: seq<Tok>, p: Plan, env: Env, nTop: nat, recs: seq<ORec>)
    requires ValidToks(o, root) && Listed(o, root, p) && Addressed(o, p) && Filled(o, p, env, nTop, recs)
    requires p.arrays == [] && p.strings == [] && LitAddresses(p.toks, p.arrays, p.literals) == LitPositions(o, p, env)
    ensures Settled(o, p, env, nTop, recs)
  {
    hide Layout, Traced, Picks, NameList, Addressed, RoleOf, Shaped, LitAddresses, LitPositions;
    StaticOffsets(o, root, p, env, nTop, recs);
  }

  lemma FixesSettled(o: Opts, root: seq<Tok>, p: Plan, env: Env, nTop: nat, recs: seq<ORec>)
    requires ValidToks(o, root) && Listed(o, root, p) && Addressed(o, p) && Filled(o, p, env, nTop, recs)
    requires ArrayFixes(env, Arrays(p), FixStart(p)) == ArrayPositions(p, env)
    requires StringFixes(o, env, Strings(p), StringBase(p, env)) == StringPositions(o, p, env)
    requires p.twoStatics ==> LitBase(o, p, env) == LitPos(o, p, env)
    requires !p.twoStatics ==> LitAddresses(p.toks, p.arrays, p.literals) == LitPositions(o, p, env)
    ensures Settled(o, p, env, nTop, FixedRecords(o, p, env, recs))
  {
    var recs' := FixedRecords(o, p, env, recs);
    ListsApart(o, p);
    FixedBy(o, p, env, recs);
    LiteralsSettled(o, root, p, env, nTop, recs, recs');
    var touched := (set k | k in p.arrays) + (set k | k in p.strings) + if p.arrays != [] then (set k | k in p.literals) else {};
    FixedElsewhere(o, p, recs, recs', touched);
    FilledFixed(o, p, env, nTop, recs, recs', touched);
  }

  /** Under OffsetsHold a call leaves in each record the position of its piece. */
  lemma FinalSettled(o: Opts, root: seq<Tok>, p: Plan, env: Env, nTop: nat, recs: seq<ORec>, chars: seq<int>)
    requires Compiled(o, root, p, recs, chars) && OffsetsHold(o, p, env) && env.longSize >= 4
    ensures Settled(o, p, env, nTop, Final(o, p, env, nTop, recs))
  {
    if p.writable {
      PatchedSettled(o, root, p, env, nTop, recs, chars);
    } else {
      ConstantSettled(o, root, p, env, nTop, recs, chars);
    }
  }
}
