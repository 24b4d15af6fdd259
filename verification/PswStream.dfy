/** What a compiled wrap does when it is called: it patches a copy of its records with the actual parameters and the
    offsets of the variable pieces, and writes records, pieces and literals to the context. The statements pswrap
    emits have no control flow, so each emitting procedure is modelled by the effect of the code it emits. */
module PswStream {
  import opened Options
  import opened PswTypes
  import opened PswLayout
  import opened PswNames
  import opened PswCompiler
  import opened PswStatics
  import PswDict

  /** The actual parameters of a call, by formal name, and the sizes of C types. */
  datatype Env = Env(
    intParam: string -> nat,            // an int parameter that serves as a subscript
    scalar: string -> Word,             // a scalar parameter
    element: (string, string) -> Word,  // param[expression]
    load: (string, CObject, nat) -> Word, // the object of a C type at a byte of an array parameter
    strlen: string -> nat,              // the length of a char * parameter
    charAt: (string, nat) -> int,        // character i of a char parameter
    numByte: (string, nat) -> int,      // byte i of an encoded numstring
    code: string -> int,                // the index of a user name
    longSize: nat)                      // sizeof(long)

  datatype CObject = CChar | CUChar | CShort | CUShort | CInt | CUInt | CLong | CULong | CFloat | CDouble

  // TypeToText: what the elements of a parameter are declared as.
  function TypeToText(c: CType): CObject {
    match c
    case CharT => CChar
    case UCharT => CUChar
    case ShortT | ShortNumStrT => CShort
    case UShortT => CUShort
    case BooleanT | UserObjectT | IntT | NumStrT => CInt
    case UIntT => CUInt
    case LongT | LongNumStrT => CLong
    case ULongT => CULong
    case FloatT | FloatNumStrT => CFloat
    case DoubleT => CDouble
  }

  // sizeof.
  function CSize(env: Env, t: CObject): nat {
    match t
    case CChar | CUChar => 1
    case CShort | CUShort => 2
    case CInt | CUInt | CFloat => 4
    case CLong | CULong => env.longSize
    case CDouble => 8
  }

  function ActualLen(env: Env, item: Item): nat {
    match item.sub
    case None => env.strlen(item.name)
    case Some(Constant(v)) => v
    case Some(Named(n)) => env.intParam(n)
  }

  // sizeof of the element type that TypeToText prints.
  function SizeOf(env: Env, c: CType): nat { CSize(env, TypeToText(c)) }

  // The length field of a parameter, as ScanParamsAndEmitValues prints it.
  function LenOf(env: Env, item: Item): nat {
    if item.ctype.IsNumStr() then ActualLen(env, item) * SizeOf(env, item.ctype) + NUMSTR_HEADER_SIZE
    else ActualLen(env, item)
  }

  // ----- ScanParamsAndEmitValues

  // The assignments EmitValueAssignments makes to the record of a token that is the formal `item`.
  function Assign(env: Env, item: Item, t: Tok, r: ORec): ORec {
    match t.kind
    case StringTok | HexTok | LitNameTok => r.(len := U16(LenOf(env, item)))
    case NameTok =>
      var r' := if (item.sub.Some? && !item.ConstSub()) || (item.starred && item.ctype.IsChar()) || item.ctype.IsNumStr()
                then r.(len := U16(LenOf(env, item))) else r;
      if item.ctype.IsChar() || item.ctype.IsNumStr() || item.sub.Some? then r' else r'.(val := env.scalar(item.name))
    case _ => r
  }

  // The record after all parameters: an element reference gets its value only in the wrap's own body, nTop long.
  function Patched(env: Env, nTop: nat, t: Tok, k: nat, r: ORec): ORec {
    if t.formal.None? then r
    else if t.kind.SubscriptedTok? then
      if k < nTop then r.(val := env.element(t.formal.value.name, t.index)) else r
    else Assign(env, t.formal.value, t, r)
  }

  ghost predicate AllInPlace(p: Plan) {
    |p.body| == |p.toks| && forall k | 0 <= k < |p.toks| && p.toks[k].Nested() :: Placed(p.toks, p.body, k)
  }

  // Record k is met by the recursive walk over the body at start.
  ghost predicate Reaches(p: Plan, start: nat, len: nat, k: nat)
    requires AllInPlace(p) && start + len <= |p.toks|
    decreases |p.toks| - start
  {
    || start <= k < start + len
    || exists q :: start <= q < start + len && p.toks[q].Nested()
                   && Reaches(p, p.body[q] / BINOBJ_SIZE, |p.toks[q].kids|, k)
  }

  lemma ReachesInside(p: Plan, start: nat, len: nat, q: nat, k: nat)
    requires AllInPlace(p) && start + len <= |p.toks| && q < |p.toks|
    requires Reaches(p, start, len, q) && Inside(p.toks, p.body, q, k)
    ensures Reaches(p, start, len, k)
    decreases |p.toks| - start
  {
    if start <= q < start + len {
      assert Reaches(p, p.body[q] / BINOBJ_SIZE, |p.toks[q].kids|, k);
    } else {
      var x :| start <= x < start + len && p.toks[x].Nested()
               && Reaches(p, p.body[x] / BINOBJ_SIZE, |p.toks[x].kids|, q);
      ReachesInside(p, p.body[x] / BINOBJ_SIZE, |p.toks[x].kids|, q, k);
    }
  }

  /** The recursive walk from the wrap's own body meets every record. */
  lemma ReachesAll(p: Plan, n: nat, k: nat)
    requires AllInPlace(p) && AllCovered(n, [], p.toks, p.body) && n <= |p.toks| && k < |p.toks|
    ensures Reaches(p, 0, n, k)
  {
    if k >= n {
      assert Covered([], p.toks, p.body, k);
      var q: nat :| q < k && q < |p.toks| && !Pending([], q) && Inside(p.toks, p.body, q, k);
      ReachesAll(p, n, q);
      ReachesInside(p, 0, n, q, k);
    }
  }

  lemma ReachesSnoc(p: Plan, start: nat, k: nat, j: nat)
    requires AllInPlace(p) && start <= k < |p.toks|
    ensures Reaches(p, start, k + 1 - start, j) <==>
              || Reaches(p, start, k - start, j) || j == k
              || (p.toks[k].Nested() && Reaches(p, p.body[k] / BINOBJ_SIZE, |p.toks[k].kids|, j))
  {
  }

  // The record of t, assigned if the walk has met it.
  function Met(env: Env, item: Item, met: bool, t: Tok, r: ORec): ORec {
    if met && t.formal == Some(item) then Assign(env, item, t, r) else r
  }

  lemma MetTwice(env: Env, item: Item, a: bool, b: bool, t: Tok, r: ORec)
    ensures Met(env, item, a, t, Met(env, item, b, t, r)) == Met(env, item, a || b, t, r)
  {
  }

  // EmitValueAssignments for one parameter, over the body at start.
  method EmitValueAssignments(p: Plan, env: Env, item: Item, start: nat, len: nat, recs: seq<ORec>) returns (recs': seq<ORec>)
    requires AllInPlace(p) && start + len <= |p.toks| == |recs|
    ensures |recs'| == |recs|
    ensures forall k | 0 <= k < |recs| :: recs'[k] == Met(env, item, Reaches(p, start, len, k), p.toks[k], recs[k])
    decreases |p.toks| - start
  {
    recs' := recs;
    for k := start to start + len
      invariant |recs'| == |recs|
      invariant forall j | 0 <= j < |recs| ::
                  recs'[j] == Met(env, item, Reaches(p, start, k - start, j), p.toks[j], recs[j])
    {
      var t := p.toks[k];
      ghost var was := recs';
      if t.Nested() {
        recs' := EmitValueAssignments(p, env, item, p.body[k] / BINOBJ_SIZE, |t.kids|, recs');
      }
      if t.formal == Some(item) { recs' := recs'[k := Assign(env, item, t, recs'[k])]; }
      forall j | 0 <= j < |recs|
        ensures recs'[j] == Met(env, item, Reaches(p, start, k + 1 - start, j), p.toks[j], recs[j])
      {
        var inside := t.Nested() && Reaches(p, p.body[k] / BINOBJ_SIZE, |t.kids|, j);
        ReachesSnoc(p, start, k, j);
        MetTwice(env, item, inside, Reaches(p, start, k - start, j), p.toks[j], recs[j]);
        MetTwice(env, item, j == k, inside || Reaches(p, start, k - start, j), p.toks[j], recs[j]);
      }
    }
  }

  // An element reference of a type that EmitElementValueAssignments has no case for: pswrap ends.
  predicate Refused(t: Tok) { t.kind.SubscriptedTok? && t.formal.Some? && t.formal.value.ctype.UserObjectT? }

  // EmitElementValueAssignments: only the wrap's own body is scanned. Not done when pswrap ends.
  method EmitElementValues(p: Plan, env: Env, item: Item, nTop: nat, recs: seq<ORec>) returns (done: bool, recs': seq<ORec>)
    requires nTop <= |p.toks| == |recs|
    ensures done <==> forall k | 0 <= k < nTop && p.toks[k].formal == Some(item) :: !Refused(p.toks[k])
    ensures |recs'| == |recs|
    ensures done ==> forall k | 0 <= k < |recs| ::
              recs'[k] == if k < nTop && p.toks[k].kind.SubscriptedTok? && p.toks[k].formal == Some(item)
                          then recs[k].(val := env.element(item.name, p.toks[k].index)) else recs[k]
  {
    recs' := recs;
    for k := 0 to nTop
      invariant |recs'| == |recs|
      invariant forall j | 0 <= j < k && p.toks[j].formal == Some(item) :: !Refused(p.toks[j])
      invariant forall j | 0 <= j < |recs| ::
                  recs'[j] == if j < k && p.toks[j].kind.SubscriptedTok? && p.toks[j].formal == Some(item)
                              then recs[j].(val := env.element(item.name, p.toks[j].index)) else recs[j]
    {
      var t := p.toks[k];
      if t.kind.SubscriptedTok? && t.formal == Some(item) {
        if item.ctype.UserObjectT? { return false, recs'; }
        recs' := recs'[k := recs'[k].(val := env.element(item.name, t.index))];
      }
    }
    done := true;
  }

  function PatchedFor(env: Env, nTop: nat, done: bool, t: Tok, k: nat, r: ORec): ORec {
    if done then Patched(env, nTop, t, k, r) else r
  }

  // The two emitters for one parameter amount to Patched.
  lemma OneParam(env: Env, nTop: nat, item: Item, t: Tok, k: nat, done: bool, r: ORec)
    requires t.formal.Some?
    requires t.kind.SubscriptedTok? ==> t.formal.value.sub.Some?
    ensures var r0 := PatchedFor(env, nTop, done, t, k, r);
            var r1 := Met(env, item, true, t, r0);
            var r2 := if item.sub.Some? && k < nTop && t.kind.SubscriptedTok? && t.formal == Some(item)
                      then r1.(val := env.element(item.name, t.index)) else r1;
            r2 == PatchedFor(env, nTop, done || t.formal == Some(item), t, k, r)
  {
  }

  /** Every record that stands for a parameter is patched, wherever it is nested; element references only at the top. It is
      not done when pswrap ends, which is exactly when one of those is to a userobject array. */
  method ScanParamsAndEmitValues(p: Plan, env: Env, items: seq<Item>, nTop: nat, recs: seq<ORec>)
    returns (done: bool, recs': seq<ORec>)
    requires AllInPlace(p) && AllCovered(nTop, [], p.toks, p.body) && nTop <= |p.toks| == |recs|
    requires forall k | 0 <= k < |p.toks| && p.toks[k].formal.Some? :: p.toks[k].formal.value in items
    requires forall k | 0 <= k < |p.toks| && p.toks[k].formal.Some? && p.toks[k].kind.SubscriptedTok? ::
               p.toks[k].formal.value.sub.Some?
    ensures done <==> forall k | 0 <= k < nTop :: !Refused(p.toks[k])
    ensures |recs'| == |recs|
    ensures done ==> forall k | 0 <= k < |recs| :: recs'[k] == Patched(env, nTop, p.toks[k], k, recs[k])
  {
    done, recs' := true, recs;
    for i := 0 to |items|
      invariant |recs'| == |recs|
      invariant forall k | 0 <= k < nTop && p.toks[k].formal.Some? && p.toks[k].formal.value in items[..i] :: !Refused(p.toks[k])
      invariant forall k | 0 <= k < |recs| :: p.toks[k].formal.None? ==> recs'[k] == recs[k]
      invariant forall k | 0 <= k < |recs| :: p.toks[k].formal.Some? ==>
                  recs'[k] == PatchedFor(env, nTop, p.toks[k].formal.value in items[..i], p.toks[k], k, recs[k])
    {
      var item := items[i];
      ghost var was := recs';
      recs' := EmitValueAssignments(p, env, item, 0, nTop, recs');
      if item.sub.Some? {
        done, recs' := EmitElementValues(p, env, item, nTop, recs');
        if !done { return; }
      }
      forall k | 0 <= k < |recs| && p.toks[k].formal.Some?
        ensures recs'[k] == PatchedFor(env, nTop, p.toks[k].formal.value in items[..i + 1], p.toks[k], k, recs[k])
      {
        ReachesAll(p, nTop, k);
        OneParam(env, nTop, item, p.toks[k], k, p.toks[k].formal.value in items[..i], recs[k]);
      }
    }
  }

  // ----- storing into the val fields of records

  function SetVal(recs: seq<ORec>, k: nat, v: int): seq<ORec>
    requires k < |recs|
  {
    recs[k := recs[k].(val := IntWord(v))]
  }

  // recs after recs[idx[i]].val := vals[i] for the first n indices in turn.
  function FillN(recs: seq<ORec>, idx: seq<nat>, vals: seq<int>, n: nat): (r: seq<ORec>)
    requires InRange(idx, |recs|) && |vals| == |idx| && n <= |idx|
    ensures |r| == |recs|
  {
    if n == 0 then recs else SetVal(FillN(recs, idx, vals, n - 1), idx[n - 1], vals[n - 1])
  }

  function Fill(recs: seq<ORec>, idx: seq<nat>, vals: seq<int>): (r: seq<ORec>)
    requires InRange(idx, |recs|) && |vals| == |idx|
    ensures |r| == |recs|
  {
    FillN(recs, idx, vals, |idx|)
  }

  lemma {:induction false} FillAt(recs: seq<ORec>, idx: seq<nat>, vals: seq<int>, n: nat)
    requires InRange(idx, |recs|) && |vals| == |idx| && Distinct(idx) && n <= |idx|
    ensures forall i | 0 <= i < n :: FillN(recs, idx, vals, n)[idx[i]] == recs[idx[i]].(val := IntWord(vals[i]))
    ensures forall k | 0 <= k < |recs| && (forall i | 0 <= i < n :: idx[i] != k) :: FillN(recs, idx, vals, n)[k] == recs[k]
  {
    if n > 0 {
      FillAt(recs, idx, vals, n - 1);
    }
  }

  // ----- EmitMappedNames

  function Codes(env: Env, names: seq<string>): (r: seq<int>)
    ensures |r| == |names|
  {
    seq(|names|, i requires 0 <= i < |names| => env.code(names[i]))
  }

  /** The name part of a wrap: map the emitted table to indices, store index i into the record of name i. Not ok when
      the client library's own check of the table fails. */
  method AcquireNames(p: Plan, env: Env, garbage: string, recs: seq<ORec>) returns (ok: bool, recs': seq<ORec>)
    requires |p.toks| == |recs| && InRange(p.names, |recs|)
    ensures ok <==> p.names == [] || garbage != Text(p.toks, p.names[0])
    ensures |recs'| == |recs|
    ensures ok ==> recs' == Fill(recs, p.names, Codes(env, Texts(p.toks, p.names)))
  {
    var names := Texts(p.toks, p.names);
    var table, meant := NameTableRoundTrip(names, garbage);
    if meant.None? || meant.value != names { return false, recs; }
    var codes := Codes(env, meant.value);
    recs' := recs;
    for i := 0 to |p.names|
      invariant |recs'| == |recs| && recs' == FillN(recs, p.names, codes, i)
    {
      recs' := SetVal(recs', p.names[i], codes[i]);
    }
    ok := true;
  }

  // ----- FixupOffsets

  // What the emitted code adds to _dps_offset for an input string.
  function FixSize(o: Opts, env: Env, t: Tok): nat {
    if t.formal.None? then 0
    else
      var item := t.formal.value;
      if item.ctype.IsNumStr() then
        var n := ActualLen(env, item) * SizeOf(env, item.ctype) + NUMSTR_HEADER_SIZE;
        if o.pad && item.ctype.IsPadNumStr() then RoundUp(n) else n
      else
        var n := if item.sub.Some? then ActualLen(env, item) else U16(env.strlen(item.name));
        if o.pad then RoundUp(n) else n
  }

  function ArraySize(env: Env, t: Tok): nat {
    if t.formal.None? then 0 else ActualLen(env, t.formal.value) * BINOBJ_SIZE
  }

  function ArraySizes(env: Env, ts: seq<Tok>): nat {
    if ts == [] then 0 else ArraySizes(env, ts[..|ts| - 1]) + ArraySize(env, ts[|ts| - 1])
  }

  function FixSizes(o: Opts, env: Env, ts: seq<Tok>): nat {
    if ts == [] then 0 else FixSizes(o, env, ts[..|ts| - 1]) + FixSize(o, env, ts[|ts| - 1])
  }

  function ArrayFixes(env: Env, ts: seq<Tok>, start: nat): (r: seq<int>)
    ensures |r| == |ts|
  {
    seq(|ts|, i requires 0 <= i < |ts| => start + ArraySizes(env, ts[..i]))
  }

  function StringFixes(o: Opts, env: Env, ts: seq<Tok>, start: nat): (r: seq<int>)
    ensures |r| == |ts|
  {
    seq(|ts|, i requires 0 <= i < |ts| => start + FixSizes(o, env, ts[..i]))
  }

  // The starting value of _dps_offset, from EmitLocals.
  function FixStart(p: Plan): nat { if p.twoStatics then p.structSize else p.structSize + p.stringBytes }

  // The size expression printed for one input array.
  method FixArray(env: Env, t: Tok) returns (size: nat)
    requires Fits(InArray, t)
    ensures size == ArraySize(env, t)
  {
    var sub := t.formal.value.sub.value;
    if sub.Constant? {
      size := sub.val * BINOBJ_SIZE;
    } else {
      size := env.intParam(sub.name) * BINOBJ_SIZE;
    }
  }

  method FixArrays(p: Plan, env: Env, recs: seq<ORec>, start: nat) returns (recs': seq<ORec>, offset: nat)
    requires Ready(p) && |recs| == |p.toks|
    ensures recs' == Fill(recs, p.arrays, ArrayFixes(env, At(p.toks, p.arrays), start))
    ensures offset == start + ArraySizes(env, At(p.toks, p.arrays))
  {
    ghost var ts := At(p.toks, p.arrays);
    hide SetVal, ArraySize, RoleOf;
    ghost var fixes := ArrayFixes(env, ts, start);
    recs', offset := recs, start;
    for i := 0 to |p.arrays|
      invariant |recs'| == |recs| && recs' == FillN(recs, p.arrays, fixes, i)
      invariant offset == start + ArraySizes(env, ts[..i])
    {
      assert ts[..i + 1][..i] == ts[..i];
      var k := p.arrays[i];
      assert p.toks[k] == ts[i] && ts[i] in ts;
      recs' := SetVal(recs', k, offset);
      var size := FixArray(env, p.toks[k]);
      offset := offset + size;
    }
    assert ts[..|ts|] == ts;
  }

  // The size expression printed for one input string; an unsubscripted one reads the record's length field.
  method FixString(o: Opts, env: Env, t: Tok, length: nat) returns (size: nat)
    requires Fits(InString, t)
    requires t.formal.value.sub.None? ==> length == U16(env.strlen(t.formal.value.name))
    ensures size == FixSize(o, env, t)
  {
    var item := t.formal.value;
    if item.sub.Some? {
      var n := if item.sub.value.Constant? then item.sub.value.val else env.intParam(item.sub.value.name);
      if item.ctype.IsNumStr() {
        if o.pad && item.ctype.IsPadNumStr() {
          size := (n * SizeOf(env, item.ctype) + NUMSTR_HEADER_SIZE + 3) / 4 * 4;
        } else {
          size := n * SizeOf(env, item.ctype) + NUMSTR_HEADER_SIZE;
        }
      } else if o.pad {
        size := (n + 3) / 4 * 4;
      } else {
        size := n;
      }
    } else if o.pad {
      size := (length + 3) / 4 * 4;
    } else {
      size := length;
    }
  }

  // The length fields of unsubscripted strings have been set from strlen.
  predicate LengthsSet(p: Plan, env: Env, recs: seq<ORec>)
    requires InRange(p.strings, |recs|) && InRange(p.strings, |p.toks|)
  {
    forall i | 0 <= i < |p.strings| :: var t := p.toks[p.strings[i]];
      t.formal.Some? && t.formal.value.sub.None? ==> recs[p.strings[i]].len == U16(env.strlen(t.formal.value.name))
  }

  lemma FillKeepsLengths(recs: seq<ORec>, idx: seq<nat>, vals: seq<int>, n: nat)
    requires InRange(idx, |recs|) && |vals| == |idx| && n <= |idx|
    ensures forall k | 0 <= k < |recs| :: FillN(recs, idx, vals, n)[k].len == recs[k].len
  {
  }

  lemma NoStrings(o: Opts, env: Env)
    ensures FixSizes(o, env, []) == 0
  {
  }

  lemma StringFixAt(o: Opts, env: Env, ts: seq<Tok>, start: nat, i: nat)
    requires i < |ts|
    ensures StringFixes(o, env, ts, start)[i] == start + FixSizes(o, env, ts[..i])
    ensures FixSizes(o, env, ts[..i + 1]) == FixSizes(o, env, ts[..i]) + FixSize(o, env, ts[i])
  {
    assert ts[..i + 1][..i] == ts[..i];
  }

  method FixStrings(o: Opts, p: Plan, env: Env, recs: seq<ORec>, start: nat) returns (recs': seq<ORec>, offset: nat)
    requires Ready(p) && |recs| == |p.toks| && LengthsSet(p, env, recs)
    ensures recs' == Fill(recs, p.strings, StringFixes(o, env, At(p.toks, p.strings), start))
    ensures offset == start + FixSizes(o, env, At(p.toks, p.strings))
  {
    hide FixSize, FixSizes, StringFixes;
    ghost var ts := At(p.toks, p.strings);
    ghost var fixes := StringFixes(o, env, ts, start);
    NoStrings(o, env);
    assert ts[..0] == [];
    recs', offset := recs, start;
    for i := 0 to |p.strings|
      invariant |recs'| == |recs| && recs' == FillN(recs, p.strings, fixes, i)
      invariant offset == start + FixSizes(o, env, ts[..i])
    {
      FillKeepsLengths(recs, p.strings, fixes, i);
      StringFixAt(o, env, ts, start, i);
      var k := p.strings[i];
      assert p.toks[k] == ts[i] && ts[i] in ts;
      recs' := SetVal(recs', k, offset);
      var size := FixString(o, env, p.toks[k], recs'[k].len);
      offset := offset + size;
    }
    assert ts[..|ts|] == ts;
  }

  // _dpsP[idx[i]].val := offset + locs[i], printed for each i in turn.
  method StoreOffsets(recs: seq<ORec>, idx: seq<nat>, locs: seq<nat>, offset: nat) returns (recs': seq<ORec>)
    requires InRange(idx, |recs|) && |locs| == |idx|
    ensures recs' == Fill(recs, idx, Shift(locs, offset))
  {
    ghost var vals := Shift(locs, offset);
    recs' := recs;
    for i := 0 to |idx|
      invariant |recs'| == |recs| && recs' == FillN(recs, idx, vals, i)
    {
      recs' := SetVal(recs', idx[i], offset + locs[i]);
    }
  }

  method FixLiterals(p: Plan, interner: PswDict.Interner, recs: seq<ORec>, offset: nat) returns (recs': seq<ORec>, next: nat)
    requires Ready(p) && |recs| == |p.toks| && interner.Valid()
    modifies interner.Repr
    ensures interner.Valid() && fresh(interner.Repr - old(interner.Repr))
    ensures recs' == Fill(recs, p.literals, Shift(Shared(p.toks, p.literals).locs, offset))
    ensures next == offset + Shared(p.toks, p.literals).total
  {
    var locs, stringOffset, _ := WalkLiterals(At(p.toks, p.literals), interner, 0);
    recs' := StoreOffsets(recs, p.literals, locs, offset);
    next := offset + stringOffset;
  }

  // Where FixupOffsets says the pieces are, counted from the first record.

  function StringBase(p: Plan, env: Env): nat
    requires InRange(p.arrays, |p.toks|)
  {
    FixStart(p) + ArraySizes(env, At(p.toks, p.arrays))
  }

  function LitBase(o: Opts, p: Plan, env: Env): nat
    requires InRange(p.arrays, |p.toks|) && InRange(p.strings, |p.toks|)
  {
    StringBase(p, env) + FixSizes(o, env, At(p.toks, p.strings))
  }

  // The val fields of the records idx are vals.
  predicate Valued(recs: seq<ORec>, idx: seq<nat>, vals: seq<int>) {
    && InRange(idx, |recs|) && |vals| == |idx|
    && forall i | 0 <= i < |idx| :: recs[idx[i]].val == IntWord(vals[i])
  }

  // recs' differs from recs at most in the val fields of the records in idx.
  predicate SameBut(recs: seq<ORec>, recs': seq<ORec>, idx: set<nat>) {
    && |recs'| == |recs|
    && (forall k | 0 <= k < |recs| :: recs'[k] == recs[k].(val := recs'[k].val))
    && (forall k | 0 <= k < |recs| && k !in idx :: recs'[k] == recs[k])
  }

  lemma FillSameBut(recs: seq<ORec>, idx: seq<nat>, vals: seq<int>)
    requires InRange(idx, |recs|) && |vals| == |idx| && Distinct(idx)
    ensures Valued(Fill(recs, idx, vals), idx, vals)
    ensures SameBut(recs, Fill(recs, idx, vals), set k | k in idx)
  {
    FillAt(recs, idx, vals, |idx|);
    forall k | 0 <= k < |recs|
      ensures Fill(recs, idx, vals)[k] == recs[k].(val := Fill(recs, idx, vals)[k].val)
    {
      if k in idx { var i :| 0 <= i < |idx| && idx[i] == k; }
    }
  }

  // A fill elsewhere does not disturb values.
  lemma StillValued(recs: seq<ORec>, recs': seq<ORec>, a: seq<nat>, av: seq<int>, b: seq<nat>)
    requires Valued(recs, a, av) && SameBut(recs, recs', set k | k in b) && Apart(a, b)
    ensures Valued(recs', a, av)
  {
  }

  /** Every patched offset, and nothing else, after FixupOffsets. */
  predicate Fixed(o: Opts, p: Plan, env: Env, recs: seq<ORec>, recs': seq<ORec>)
    requires InRange(p.arrays, |p.toks|) && InRange(p.strings, |p.toks|) && InRange(p.literals, |p.toks|)
  {
    && Valued(recs', p.arrays, ArrayFixes(env, At(p.toks, p.arrays), FixStart(p)))
    && Valued(recs', p.strings, StringFixes(o, env, At(p.toks, p.strings), StringBase(p, env)))
    && (p.arrays != [] ==> Valued(recs', p.literals, Shift(Shared(p.toks, p.literals).locs, LitBase(o, p, env))))
    && SameBut(recs, recs', (set k | k in p.arrays) + (set k | k in p.strings)
                            + if p.arrays != [] then (set k | k in p.literals) else {})
  }

  lemma SameButTrans(a: seq<ORec>, b: seq<ORec>, c: seq<ORec>, x: set<nat>, y: set<nat>)
    requires SameBut(a, b, x) && SameBut(b, c, y)
    ensures SameBut(a, c, x + y)
  {
  }

  lemma TwoFills(recs: seq<ORec>, a: seq<nat>, av: seq<int>, b: seq<nat>, bv: seq<int>)
    requires InRange(a, |recs|) && |av| == |a| && InRange(b, |recs|) && |bv| == |b|
    requires Distinct(a) && Distinct(b) && Apart(a, b)
    ensures var r := Fill(Fill(recs, a, av), b, bv);
            Valued(r, a, av) && Valued(r, b, bv) && SameBut(recs, r, (set k | k in a) + (set k | k in b))
  {
    var r1 := Fill(recs, a, av);
    var r2 := Fill(r1, b, bv);
    FillSameBut(recs, a, av);
    FillSameBut(r1, b, bv);
    StillValued(r1, r2, a, av, b);
    SameButTrans(recs, r1, r2, set k | k in a, set k | k in b);
  }

  lemma ThreeFills(recs: seq<ORec>, a: seq<nat>, av: seq<int>, b: seq<nat>, bv: seq<int>, c: seq<nat>, cv: seq<int>)
    requires InRange(a, |recs|) && |av| == |a| && InRange(b, |recs|) && |bv| == |b| && InRange(c, |recs|) && |cv| == |c|
    requires Distinct(a) && Distinct(b) && Distinct(c) && Apart(a, b) && Apart(a, c) && Apart(b, c)
    ensures var r := Fill(Fill(Fill(recs, a, av), b, bv), c, cv);
            && Valued(r, a, av) && Valued(r, b, bv) && Valued(r, c, cv)
            && SameBut(recs, r, (set k | k in a) + (set k | k in b) + (set k | k in c))
  {
    var r2 := Fill(Fill(recs, a, av), b, bv);
    var r3 := Fill(r2, c, cv);
    TwoFills(recs, a, av, b, bv);
    FillSameBut(r2, c, cv);
    StillValued(r2, r3, a, av, c);
    StillValued(r2, r3, b, bv, c);
    SameButTrans(recs, r2, r3, (set k | k in a) + (set k | k in b), set k | k in c);
  }

  // The records FixupOffsets leaves.
  function FixedRecords(o: Opts, p: Plan, env: Env, recs: seq<ORec>): (r: seq<ORec>)
    requires InRange(p.arrays, |p.toks|) && InRange(p.strings, |p.toks|) && InRange(p.literals, |p.toks|)
    requires |recs| == |p.toks|
    ensures |r| == |recs|
  {
    var r1 := Fill(recs, p.arrays, ArrayFixes(env, At(p.toks, p.arrays), FixStart(p)));
    var r2 := Fill(r1, p.strings, StringFixes(o, env, At(p.toks, p.strings), StringBase(p, env)));
    if p.arrays == [] then r2
    else Fill(r2, p.literals, Shift(Shared(p.toks, p.literals).locs, LitBase(o, p, env)))
  }

  lemma FixedBy(o: Opts, p: Plan, env: Env, recs: seq<ORec>)
    requires InRange(p.arrays, |p.toks|) && InRange(p.strings, |p.toks|) && InRange(p.literals, |p.toks|)
    requires |recs| == |p.toks| && Distinct(p.arrays) && Distinct(p.strings) && Distinct(p.literals)
    requires Apart(p.arrays, p.strings) && Apart(p.arrays, p.literals) && Apart(p.strings, p.literals)
    ensures Fixed(o, p, env, recs, FixedRecords(o, p, env, recs))
  {
    var av := ArrayFixes(env, At(p.toks, p.arrays), FixStart(p));
    var sv := StringFixes(o, env, At(p.toks, p.strings), StringBase(p, env));
    if p.arrays == [] {
      TwoFills(recs, p.arrays, av, p.strings, sv);
      assert (set k | k in p.arrays) + (set k | k in p.strings) + {} == (set k | k in p.arrays) + (set k | k in p.strings);
    } else {
      ThreeFills(recs, p.arrays, av, p.strings, sv, p.literals, Shift(Shared(p.toks, p.literals).locs, LitBase(o, p, env)));
    }
  }

  method FixupOffsets(o: Opts, p: Plan, env: Env, interner: PswDict.Interner, recs: seq<ORec>)
    returns (recs': seq<ORec>, offset: nat)
    requires Ready(p) && |recs| == |p.toks| && LengthsSet(p, env, recs) && interner.Valid()
    modifies interner.Repr
    ensures interner.Valid() && fresh(interner.Repr - old(interner.Repr))
    ensures recs' == FixedRecords(o, p, env, recs)
    ensures offset == LitBase(o, p, env) + if p.arrays != [] then Shared(p.toks, p.literals).total else 0
  {
    hide PswDict.Interner.Valid, FillN, ArraySizes, FixSizes, Share, RoleOf;
    FillKeepsLengths(recs, p.arrays, ArrayFixes(env, At(p.toks, p.arrays), FixStart(p)), |p.arrays|);
    recs', offset := FixArrays(p, env, recs, FixStart(p));
    recs', offset := FixStrings(o, p, env, recs', offset);
    if p.arrays != [] { recs', offset := FixLiterals(p, interner, recs', offset); }
  }
}
