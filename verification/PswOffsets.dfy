/** The offsets in the records against the positions in the stream. */
module PswOffsets {
  import opened PswTypes
  import opened PswLayout
  import opened PswCompiler
  import opened PswStatics
  import opened PswStream
  import opened PswWrite

  function Arrays(p: Plan): seq<Tok>
    requires InRange(p.arrays, |p.toks|)
  {
    At(p.toks, p.arrays)
  }

  function Strings(p: Plan): seq<Tok>
    requires InRange(p.strings, |p.toks|)
  {
    At(p.toks, p.strings)
  }

  function Literals(p: Plan): seq<Tok>
    requires InRange(p.literals, |p.toks|)
  {
    At(p.toks, p.literals)
  }

  // Where WriteObjSeq puts each piece, counted from the first record.

  function ArrayPos(p: Plan, env: Env, i: nat): nat
    requires InRange(p.arrays, |p.toks|) && i <= |p.arrays|
  {
    FixStart(p) + ArraySizes(env, Arrays(p)[..i])
  }

  function StringPos(o: Opts, p: Plan, env: Env, i: nat): nat
    requires InRange(p.arrays, |p.toks|) && InRange(p.strings, |p.toks|) && i <= |p.strings|
  {
    StringBase(p, env) + Written(o, env, Strings(p)[..i])
  }

  function LitPos(o: Opts, p: Plan, env: Env): nat
    requires InRange(p.arrays, |p.toks|) && InRange(p.strings, |p.toks|)
  {
    if p.twoStatics then StringBase(p, env) + Written(o, env, Strings(p)) else p.structSize
  }

  // The plan's totals, and the characters, are those of its lists.
  ghost predicate Sized(p: Plan, recs: seq<ORec>, chars: seq<int>) {
    && InRange(p.arrays, |p.toks|) && InRange(p.strings, |p.toks|) && InRange(p.literals, |p.toks|)
    && |recs| == |p.toks| && p.structSize == BINOBJ_SIZE * |p.toks|
    && |chars| == p.stringBytes == Shared(p.toks, p.literals).total
    && p.twoStatics == (p.arrays != [] && p.literals != [])
  }

  lemma StreamSize(o: Opts, p: Plan, env: Env, recs: seq<ORec>, chars: seq<int>)
    requires Sized(p, recs, chars)
    ensures |Stream(o, p, env, recs, chars)|
            == p.structSize + p.stringBytes + ArraySizes(env, Arrays(p)) + Written(o, env, Strings(p))
    ensures |Struct(p, recs, chars)| == FixStart(p)
    ensures |Struct(p, recs, chars) + ArrayCells(env, Arrays(p))| == StringBase(p, env)
  {
    ArrayCellsSize(env, Arrays(p));
  }

  lemma RecordsAt(o: Opts, p: Plan, env: Env, recs: seq<ORec>, chars: seq<int>)
    requires Sized(p, recs, chars)
    ensures Holds(Stream(o, p, env, recs, chars), 0, RecCells(recs))
  {
    assert Struct(p, recs, chars)[..p.structSize] == RecCells(recs);
  }

  lemma ArrayAt(o: Opts, p: Plan, env: Env, recs: seq<ORec>, chars: seq<int>, i: nat)
    requires Sized(p, recs, chars) && i < |p.arrays|
    ensures Holds(Stream(o, p, env, recs, chars), ArrayPos(p, env, i), ArrayPiece(env, Arrays(p)[i]))
  {
    hide Holds, ArrayPiece, ArrayCells, StringCells, ArraySizes;
    var head, mid := Struct(p, recs, chars), ArrayCells(env, Arrays(p));
    var piece := ArrayPiece(env, Arrays(p)[i]);
    var late := StringCells(o, env, Strings(p));
    StreamSize(o, p, env, recs, chars);
    ArrayPieceAt(env, Arrays(p), i);
    HoldsRight(head, mid, ArraySizes(env, Arrays(p)[..i]), piece);
    HoldsLeft(head + mid, late, ArrayPos(p, env, i), piece);
    HoldsLeft(head + mid + late, if p.twoStatics then DataCells(chars) else [], ArrayPos(p, env, i), piece);
  }

  lemma StringAt(o: Opts, p: Plan, env: Env, recs: seq<ORec>, chars: seq<int>, i: nat)
    requires Sized(p, recs, chars) && i < |p.strings|
    ensures Holds(Stream(o, p, env, recs, chars), StringPos(o, p, env, i), StringPiece(o, env, Strings(p)[i]))
  {
    hide Holds, StringPiece, ArrayCells, StringCells, ArraySizes;
    var ts := Strings(p);
    var head, mid := Struct(p, recs, chars) + ArrayCells(env, Arrays(p)), StringCells(o, env, ts);
    assert |head| == StringBase(p, env) by { StreamSize(o, p, env, recs, chars); }
    assert Holds(mid, Written(o, env, ts[..i]), StringPiece(o, env, ts[i])) by { StringPieceAt(o, env, ts, i); }
    Middle(head, mid, if p.twoStatics then DataCells(chars) else [], Written(o, env, ts[..i]), StringPiece(o, env, ts[i]));
  }

  lemma Middle<T>(a: seq<T>, b: seq<T>, c: seq<T>, pos: int, x: seq<T>)
    requires Holds(b, pos, x)
    ensures Holds(a + b + c, |a| + pos, x)
  {
    HoldsRight(a, b, pos, x);
    HoldsLeft(a + b, c, |a| + pos, x);
  }

  lemma Whole<T>(a: seq<T>, b: seq<T>, c: seq<T>)
    ensures Holds(a + b + c, |a|, b)
  {
  }

  lemma CharsAt(o: Opts, p: Plan, env: Env, recs: seq<ORec>, chars: seq<int>)
    requires Sized(p, recs, chars)
    ensures Holds(Stream(o, p, env, recs, chars), LitPos(o, p, env), DataCells(chars))
  {
    var r, c, a, s := RecCells(recs), DataCells(chars), ArrayCells(env, Arrays(p)), StringCells(o, env, Strings(p));
    StreamSize(o, p, env, recs, chars);
    if p.twoStatics {
      Whole(Struct(p, recs, chars) + a + s, c, []);
      assert Struct(p, recs, chars) + a + s + c + [] == Struct(p, recs, chars) + a + s + c;
    } else {
      Whole(r, c, a + s);
      Regroup(r, c, a, s);
    }
  }

  lemma Regroup<T>(r: seq<T>, c: seq<T>, a: seq<T>, s: seq<T>)
    ensures r + c + (a + s) == (r + c) + a + s + []
  {
  }

  lemma DataHolds(a: seq<int>, pos: int, b: seq<int>)
    requires Holds(a, pos, b)
    ensures Holds(DataCells(a), pos, DataCells(b))
  {
    assert forall i | 0 <= i < |b| :: a[pos..pos + |b|][i] == b[i];
  }

  lemma HoldsWithin<T>(s: seq<T>, pos: int, x: seq<T>, q: int, y: seq<T>)
    requires Holds(s, pos, x) && Holds(x, q, y)
    ensures Holds(s, pos + q, y)
  {
    forall i | 0 <= i < |y|
      ensures s[pos + q + i] == y[i]
    {
      assert s[pos..pos + |x|][q + i] == x[q..q + |y|][i];
    }
  }

  lemma LiteralAt(o: Opts, p: Plan, env: Env, recs: seq<ORec>, chars: seq<int>, i: nat)
    requires Sized(p, recs, chars) && chars == Bytes(Shared(p.toks, p.literals).placed)
    requires OneNotation(Literals(p)) && i < |p.literals|
    ensures Holds(Stream(o, p, env, recs, chars), LitPos(o, p, env) + Shared(p.toks, p.literals).locs[i],
                  DataCells(LitBytes(Literals(p)[i])))
  {
    hide Stream, Holds, LitPos, DataCells, Bytes;
    var loc, bytes := Shared(p.toks, p.literals).locs[i], LitBytes(Literals(p)[i]);
    CharsAt(o, p, env, recs, chars);
    SharedBytes(Literals(p), i);
    DataHolds(chars, loc, bytes);
    HoldsWithin(Stream(o, p, env, recs, chars), LitPos(o, p, env), DataCells(chars), loc, DataCells(bytes));
  }

  // ----- a wrap with patched offsets

  lemma PrefixFits(p: Plan, ts: seq<Tok>, i: nat)
    requires (forall t | t in ts :: Fits(InString, t)) && i <= |ts|
    ensures forall t | t in ts[..i] :: Fits(InString, t)
  {
  }

  /** String i is where its record says exactly when all strings before it were written as reserved. */
  lemma PatchedString(o: Opts, p: Plan, env: Env, i: nat)
    requires Ready(p) && env.longSize >= 4 && i < |p.strings|
    ensures Stops(env, Strings(p)[..i]) && StringFixes(o, env, Strings(p), StringBase(p, env))[i] == StringPos(o, p, env, i)
            <==> forall t | t in Strings(p)[..i] :: Exact(o, env, t)
  {
    PrefixFits(p, Strings(p), i);
    ReservedAll(o, env, Strings(p)[..i]);
  }

  /** The literals of a wrap with input arrays, and the byte count, are right exactly when every string is written
      as reserved. */
  lemma PatchedTotal(o: Opts, p: Plan, env: Env, recs: seq<ORec>, chars: seq<int>, offset: nat)
    requires Ready(p) && Sized(p, recs, chars) && env.longSize >= 4
    requires offset == LitBase(o, p, env) + if p.arrays != [] then Shared(p.toks, p.literals).total else 0
    ensures p.twoStatics ==>
              (Stops(env, Strings(p)) && LitBase(o, p, env) == LitPos(o, p, env) <==> forall t | t in Strings(p) :: Exact(o, env, t))
    ensures Stops(env, Strings(p)) && offset == |Stream(o, p, env, recs, chars)|
            <==> forall t | t in Strings(p) :: Exact(o, env, t)
  {
    ReservedAll(o, env, Strings(p));
    StreamSize(o, p, env, recs, chars);
  }

  // ----- a wrap whose data is constant

  // t needs nothing at run time.
  predicate Constant(t: Tok) { t.formal.Some? && t.formal.value.ConstSub() && !t.formal.value.ctype.IsNumStr() }

  lemma ConstantSizes(o: Opts, env: Env, ts: seq<Tok>)
    requires forall t | t in ts :: Constant(t)
    ensures ConstArrays(ts) == ArraySizes(env, ts)
    ensures ConstStrings(o, ts) == Written(o, env, ts)
  {
    if ts != [] {
      assert ts[|ts| - 1] in ts;
      ConstantSizes(o, env, ts[..|ts| - 1]);
    }
  }

  lemma Unwritten(ts: seq<Tok>, k: nat)
    requires k < |ts|
    ensures !AnyWritable(ts) ==> !MakesWritable(ts[k])
    ensures !AnyConstNumStr(ts) ==> !(ts[k].formal.Some? && ts[k].formal.value.ConstSub() && ts[k].formal.value.ctype.IsNumStr())
  {
    if k < |ts| - 1 { Unwritten(ts[..|ts| - 1], k); }
  }

  lemma ConstantArrays(o: Opts, p: Plan)
    requires InRange(p.arrays, |p.toks|) && p.arrays == Picks(o, InArray, p.toks) && !AnyWritable(p.toks)
    ensures forall t | t in Arrays(p) :: Constant(t)
  {
    PicksRange(o, InArray, p.toks);
    forall i | 0 <= i < |p.arrays|
      ensures Constant(Arrays(p)[i])
    {
      Unwritten(p.toks, p.arrays[i]);
      assert RoleOf(o, p.toks[p.arrays[i]]) == InArray;
    }
  }

  lemma ConstantStrings(o: Opts, p: Plan)
    requires InRange(p.strings, |p.toks|) && p.strings == Picks(o, InString, p.toks)
    requires !AnyWritable(p.toks) && !AnyConstNumStr(Strings(p))
    ensures forall t | t in Strings(p) :: Constant(t)
  {
    PicksRange(o, InString, p.toks);
    forall i | 0 <= i < |p.strings|
      ensures Constant(Strings(p)[i])
    {
      Unwritten(p.toks, p.strings[i]);
      Unwritten(Strings(p), i);
      assert RoleOf(o, p.toks[p.strings[i]]) == InString;
    }
  }

  lemma ConstantStops(o: Opts, env: Env, p: Plan)
    requires InRange(p.strings, |p.toks|) && p.strings == Picks(o, InString, p.toks)
    requires !AnyWritable(p.toks) && !AnyConstNumStr(Strings(p))
    ensures Stops(env, Strings(p))
  {
    ConstantStrings(o, p);
  }

  lemma ConstantPrefix(o: Opts, env: Env, ts: seq<Tok>, i: nat)
    requires (forall t | t in ts :: Constant(t)) && i <= |ts|
    ensures ConstArrays(ts[..i]) == ArraySizes(env, ts[..i])
    ensures ConstStrings(o, ts[..i]) == Written(o, env, ts[..i])
  {
    ConstantSizes(o, env, ts[..i]);
  }

  // The lists of a wrap that is not writable.
  ghost predicate Unpatched(o: Opts, p: Plan) {
    && InRange(p.arrays, |p.toks|) && p.arrays == Picks(o, InArray, p.toks)
    && InRange(p.strings, |p.toks|) && p.strings == Picks(o, InString, p.toks)
    && !AnyWritable(p.toks) && !AnyConstNumStr(Strings(p))
  }

  lemma UnpatchedWhen(o: Opts, root: seq<Tok>, p: Plan)
    requires Listed(o, root, p) && Addressed(o, p) && !p.writable
    ensures Unpatched(o, p)
  {
  }

  lemma UnpatchedSizes(o: Opts, p: Plan, env: Env)
    requires Unpatched(o, p)
    ensures ConstArrays(Arrays(p)) == ArraySizes(env, Arrays(p))
    ensures ConstStrings(o, Strings(p)) == Written(o, env, Strings(p))
  {
    ConstantArrays(o, p);
    ConstantStrings(o, p);
    ConstantSizes(o, env, Arrays(p));
    ConstantSizes(o, env, Strings(p));
  }

  /** Without patching, the compile-time addresses hold for arrays and the byte count. */
  lemma ConstantArrayOffset(o: Opts, p: Plan, env: Env, recs: seq<ORec>, chars: seq<int>, i: nat)
    requires Unpatched(o, p) && Sized(p, recs, chars) && i < |p.arrays|
    ensures ArrayAddresses(p.toks, p.arrays)[i] == ArrayPos(p, env, i)
  {
    ConstantArrays(o, p);
    ConstantPrefix(o, env, Arrays(p), i);
    assert p.literals == [] ==> Shared(p.toks, p.literals).total == 0;
  }

  lemma ConstantTotal(o: Opts, p: Plan, env: Env, recs: seq<ORec>, chars: seq<int>)
    requires Unpatched(o, p) && Sized(p, recs, chars) && Counted(o, p)
    ensures p.size == |Stream(o, p, env, recs, chars)|
  {
    UnpatchedSizes(o, p, env);
    StreamSize(o, p, env, recs, chars);
  }

  // What only a call brings: the elements of an array of that length, the characters of a string of that length, and
  // the numbers of any numstring behind the four bytes it starts with.

  function ArrayBrought(env: Env, t: Tok): nat {
    if t.formal.None? || t.formal.value.ConstSub() then 0 else |ArrayPiece(env, t)|
  }

  function StringBrought(o: Opts, env: Env, t: Tok): nat {
    if t.formal.None? then 0
    else if !t.formal.value.ConstSub() then |StringPiece(o, env, t)|
    else if t.formal.value.ctype.IsNumStr() then ActualLen(env, t.formal.value) * NumWidth(t.formal.value.ctype) else 0
  }

  function ArraysBrought(env: Env, ts: seq<Tok>): nat {
    if ts == [] then 0 else ArraysBrought(env, ts[..|ts| - 1]) + ArrayBrought(env, ts[|ts| - 1])
  }

  function StringsBrought(o: Opts, env: Env, ts: seq<Tok>): nat {
    if ts == [] then 0 else StringsBrought(o, env, ts[..|ts| - 1]) + StringBrought(o, env, ts[|ts| - 1])
  }

  lemma {:induction false} ArraysCounted(env: Env, ts: seq<Tok>)
    ensures ArraySizes(env, ts) == ConstArrays(ts) + ArraysBrought(env, ts)
  {
    if ts != [] { ArraysCounted(env, ts[..|ts| - 1]); }
  }

  lemma {:induction false} StringsCounted(o: Opts, env: Env, ts: seq<Tok>)
    requires forall t | t in ts :: Fits(InString, t)
    ensures Written(o, env, ts) == ConstStrings(o, ts) + StringsBrought(o, env, ts)
  {
    if ts != [] {
      var rest, last := ts[..|ts| - 1], ts[|ts| - 1];
      assert last in ts;
      StringsCounted(o, env, rest);
    }
  }

  /** The size that pswrap counts is that of the bytes of a call less what the call brings. */
  lemma CountedSize(o: Opts, p: Plan, env: Env, recs: seq<ORec>, chars: seq<int>)
    requires Ready(p) && Sized(p, recs, chars) && Counted(o, p)
    ensures |Stream(o, p, env, recs, chars)|
            == p.size + ArraysBrought(env, Arrays(p)) + StringsBrought(o, env, Strings(p))
  {
    StreamSize(o, p, env, recs, chars);
    ArraysCounted(env, Arrays(p));
    StringsCounted(o, env, Strings(p));
  }

  /** A constant input string is where its record says unless literals were placed before it that are written after. */
  lemma ConstantStringOffset(o: Opts, p: Plan, env: Env, recs: seq<ORec>, chars: seq<int>, i: nat)
    requires Unpatched(o, p) && Sized(p, recs, chars) && i < |p.strings|
    ensures StringAddresses(o, p.toks, p.arrays, p.literals, p.strings)[i] == StringPos(o, p, env, i)
            <==> !p.twoStatics || p.stringBytes == 0
  {
    UnpatchedSizes(o, p, env);
    ConstantStrings(o, p);
    ConstantPrefix(o, env, Strings(p), i);
  }

  /** A literal of such a wrap is where its record says unless input strings are written before it. */
  lemma ConstantLiteralOffset(o: Opts, p: Plan, env: Env, recs: seq<ORec>, chars: seq<int>, i: nat)
    requires Unpatched(o, p) && Sized(p, recs, chars) && i < |p.literals|
    ensures LitAddresses(p.toks, p.arrays, p.literals)[i] == LitPos(o, p, env) + Shared(p.toks, p.literals).locs[i]
            <==> !p.twoStatics || Written(o, env, Strings(p)) == 0
  {
    UnpatchedSizes(o, p, env);
  }
}
