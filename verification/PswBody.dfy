/** EmitBody: the passes over one wrap in order, and what they guarantee together. */
module PswBody {
  import opened Options
  import opened PswTypes
  import opened PswString
  import opened PswLayout
  import opened PswNames
  import opened PswFlatten
  import opened PswCompiler
  import opened PswStatics
  import opened PswStream
  import opened PswWrite
  import opened PswOffsets
  import opened PswRun
  import opened PswSettled
  import opened PswRoundTrip
  import PswDict

  lemma SameSize(o: Opts, root: seq<Tok>, p: Plan)
    requires Listed(o, root, p) && Counted(o, p)
    ensures p.size == TotalSize(o, root)
  {
    PickToksAt(o, InArray, p.toks);
    PickToksAt(o, InString, p.toks);
    PickToksAt(o, Lit, p.toks);
  }

  /** A compiled wrap. */
  datatype Wrap = Wrap(large: bool, count: nat, plan: Plan, recs: seq<ORec>, chars: seq<int>)

  // A char * input parameter.
  predicate CharStar(item: Item) { item.ctype.CharT? && item.starred }

  method AnyCharStar(items: seq<Item>) returns (r: bool)
    ensures r <==> exists i | 0 <= i < |items| :: CharStar(items[i])
  {
    for i := 0 to |items|
      invariant forall j | 0 <= j < i :: !CharStar(items[j])
    {
      if items[i].ctype.CharT? && items[i].starred { return true; }
    }
    r := false;
  }

  /** The long header is chosen for many tokens, for addresses past 16 bits, and for char * parameters. */
  ghost predicate NeedsLarge(o: Opts, flat: seq<Tok>, items: seq<Item>) {
    |flat| > 0xff || TotalSize(o, flat) > 0xffff || exists i | 0 <= i < |items| :: CharStar(items[i])
  }

  method ChooseHeader(compiler: WrapCompiler, flat: seq<Tok>, items: seq<Item>) returns (large: bool)
    requires ValidToks(compiler.opts, flat) && compiler.interner.Valid()
    modifies compiler.interner.Repr
    ensures compiler.interner.Valid() && fresh(compiler.interner.Repr - old(compiler.interner.Repr))
    ensures large == NeedsLarge(compiler.opts, flat, items)
  {
    large := |flat| > 0xff;
    if !large {
      var r := compiler.CheckSize(flat);
      large := r == 1;
    }
    if !large { large := AnyCharStar(items); }
  }

  /** The compile-time half. Nothing is emitted for an empty body. */
  method Compile(o: Opts, body: seq<Tok>, items: seq<Item>, interner: PswDict.Interner) returns (r: Option<Wrap>)
    requires ValidToks(o, body) && interner.Valid()
    modifies interner.Repr
    ensures interner.Valid() && fresh(interner.Repr - old(interner.Repr))
    ensures r.None? <==> body == []
    ensures r.Some? ==>
              var w := r.value;
              && Compiled(o, Flattened(body), w.plan, w.recs, w.chars)
              && w.count == |Flattened(body)| && w.large == NeedsLarge(o, Flattened(body), items)
  {
    hide Listed, Ready, Addressed, Fields, ValidToks, Flattened, TotalSize;
    if |body| == 0 { return None; }
    var flat := FlattenSomeArrays(body);
    FlattenedValid(o, body);
    var compiler := new WrapCompiler(o, interner);
    var large := ChooseHeader(compiler, flat, items);
    var p := compiler.BuildTypesAndAssignAddresses(flat);
    var recs, chars := ConstructStatics(o, flat, |flat|, p, interner);
    r := Some(Wrap(large, |flat|, p, recs, chars));
  }

  /** The long header is what it takes for the addresses: without it, every compile-time address and the number of
      top-level objects fit their fields. */
  lemma ShortHeaderFits(o: Opts, root: seq<Tok>, p: Plan, items: seq<Item>)
    requires Listed(o, root, p) && Counted(o, p) && !NeedsLarge(o, root, items)
    ensures |root| < 0x100 && p.size < 0x10000
  {
    SameSize(o, root, p);
  }

  // Lengths fit, and no literal is spelled in two notations.
  ghost predicate Presentable(o: Opts, p: Plan, env: Env)
    requires InRange(p.literals, |p.toks|)
  {
    OneNotation(Literals(p)) && forall k | 0 <= k < |p.toks| :: Sendable(o, env, p.toks[k])
  }

  lemma CompiledSent(o: Opts, root: seq<Tok>, p: Plan, env: Env, recs: seq<ORec>, chars: seq<int>)
    requires Compiled(o, root, p, recs, chars) && OffsetsHold(o, p, env) && Presentable(o, p, env) && env.longSize >= 4
    ensures Sent(o, root, p, env, Final(o, p, env, |root|, recs), chars)
  {
    hide Flat, Layout, Traced, Fields, Settled, Final, OneNotation, Sendable, Share, Stored;
    FlatValid(o, [root]);
    FinalSettled(o, root, p, env, |root|, recs, chars);
    SizedWhen(o, root, p, recs, chars);
  }

  lemma SentReads(o: Opts, root: seq<Tok>, p: Plan, env: Env, recs: seq<ORec>, chars: seq<int>)
    requires Sent(o, root, p, env, recs, chars) && p.toks == root + p.toks[|root|..]
    ensures ReadMany(Stream(o, p, env, recs, chars), 0, |root|) == Insts(o, env, true, root)
  {
    hide Listed, Settled, ValidToks, OneNotation, Sendable, Stream, Read, ReadMany;
    if root != [] { AtRecord(o, root, p, env, recs, chars, |root| - 1); }
    forall i | 0 <= i < |root|
      ensures Read(Stream(o, p, env, recs, chars), 0 + BINOBJ_SIZE * i) == Insts(o, env, true, root)[i]
    {
      TokenReads(o, root, p, env, recs, chars, i);
      assert p.toks[i] == root[i];
    }
    ReadManyIs(Stream(o, p, env, recs, chars), 0, Insts(o, env, true, root));
  }

  /** Encode and decode: what a call of an emitted wrap writes reads back as the wrap's own tokens, parameters filled in, at any depth; but
      element references below the wrap's own body come back as zero, so it is what is meant exactly if they are. */
  lemma RoundTrip(o: Opts, root: seq<Tok>, p: Plan, env: Env, recs: seq<ORec>, chars: seq<int>)
    requires Compiled(o, root, p, recs, chars) && Emittable(root)
    requires OffsetsHold(o, p, env) && Presentable(o, p, env) && env.longSize >= 4
    ensures var objs := ReadMany(Stream(o, p, env, Final(o, p, env, |root|, recs), chars), 0, |root|);
            && objs == Insts(o, env, true, root)
            && (objs == Meanings(o, env, root) <==> ZeroBelow(env, root))
  {
    NestingMatters(o, env, root);
    CompiledSent(o, root, p, env, recs, chars);
    RootWork(root);
    assert p.toks == root + p.toks[|root|..];
    SentReads(o, root, p, env, Final(o, p, env, |root|, recs), chars);
  }

  /** The byte count is that of the bytes written exactly when every input string of a patched wrap is written as
      reserved; a wrap with constant data always has it right. */
  lemma ByteCount(o: Opts, root: seq<Tok>, p: Plan, env: Env, recs: seq<ORec>, recs': seq<ORec>, chars: seq<int>)
    requires Compiled(o, root, p, recs, chars) && |recs'| == |recs| && env.longSize >= 4
    ensures Stops(env, Strings(p)) && Total(o, p, env) == |Stream(o, p, env, recs', chars)|
            <==> !p.writable || forall t | t in Strings(p) :: Exact(o, env, t)
  {
    SizedWhen(o, root, p, recs, chars);
    assert Sized(p, recs', chars);
    if Fixes(p) {
      PatchedTotal(o, p, env, recs', chars, Total(o, p, env));
    } else if !p.writable {
      UnpatchedWhen(o, root, p);
      ConstantStops(o, env, p);
      ConstantTotal(o, p, env, recs', chars);
    } else {
      StreamSize(o, p, env, recs', chars);
    }
  }

  /** A whole wrap, compiled and called. Nothing is emitted for an empty body; pswrap ends exactly on an element of a
      userobject array in the flattened body itself; the client library rejects the names exactly when its unset buffer
      holds the first. Otherwise the sequence reads back, header and all, as the flattened body with its parameters. */
  method CompileAndCall(o: Opts, body: seq<Tok>, items: seq<Item>, env: Env, garbage: string, interner: PswDict.Interner)
    returns (w: Option<Wrap>, r: Option<Outcome>)
    requires ValidToks(o, body) && interner.Valid() && env.longSize >= 4
    requires Known(Flat([Flattened(body)]), items)
    modifies interner.Repr
    ensures (w.None? <==> body == []) && (r.None? <==> body == [])
    ensures w.Some? ==> Delivers(o, Flattened(body), items, env, garbage, w.value, r.value)
  {
    hide Compiled, OffsetsHold, Presentable, Sequence, ReadGoody, Insts, Meanings, ZeroBelow, Flat, Emittable, Stops, Exact;
    if body != [] { FlattenedSome(body); }
    w := Compile(o, body, items, interner);
    if w.None? { return None, None; }
    var v := w.value;
    CompiledToks(o, Flattened(body), v.plan, v.recs, v.chars);
    var called := CallWrap(o, Flattened(body), v.plan, env, items, v.count, garbage, v.large, interner, v.recs, v.chars);
    if called.Called? {
      Framed(o, Flattened(body), items, env, v);
      Delivered(o, Flattened(body), items, env, v);
    }
    r := Some(called);
  }

  // What pswrap makes of a flattened body that is not empty, and what comes of a call.
  ghost predicate Delivers(o: Opts, root: seq<Tok>, items: seq<Item>, env: Env, garbage: string, w: Wrap, r: Outcome) {
    && Compiled(o, root, w.plan, w.recs, w.chars) && w.count == |root| && w.large == NeedsLarge(o, root, items)
    && ((exists i :: 0 <= i < |items| && items[i].ctype == CharT && items[i].starred) ==> w.large)
    && (r.Aborted? <==> !Emittable(root))
    && (r.Rejected? <==> Emittable(root) && w.plan.names != [] && garbage == Text(w.plan.toks, w.plan.names[0]))
    && (r.RunsOn? || r.Called? ==> (r.Called? <==> Stops(env, Strings(w.plan))))
    && (r.Called? ==> Frames(o, root, env, w, r.out))
    && (r.Called? && OffsetsHold(o, w.plan, env) && Presentable(o, w.plan, env) && (w.large ==> |root| < 0x1_0000) ==>
          var objs := ReadGoody(r.out).value.objs;
          objs == Insts(o, env, true, root) && (objs == Meanings(o, env, root) <==> ZeroBelow(env, root)))
  }

  // Every input string of a wrap with patched data is written as reserved.
  ghost predicate AllExact(o: Opts, p: Plan, env: Env)
    requires InRange(p.strings, |p.toks|)
  {
    !p.writable || forall t | t in Strings(p) :: Exact(o, env, t)
  }

  /** The header of a sequence: it can be read; its count is that of the top-level objects exactly if it is wide enough;
      its length, if that is wide enough, is that of the whole sequence exactly if every input string is written as
      reserved. With a char * parameter it has 32 bits. */
  ghost predicate Frames(o: Opts, root: seq<Tok>, env: Env, w: Wrap, out: seq<Cell>)
    requires InRange(w.plan.arrays, |w.plan.toks|) && InRange(w.plan.strings, |w.plan.toks|)
    requires InRange(w.plan.literals, |w.plan.toks|)
  {
    var g, limit := ReadGoody(out), if w.large then 0x1_0000_0000 else 0x1_0000;
    && g.Some? && (g.value.count == |root| <==> (w.large ==> |root| < 0x1_0000))
    && (AllExact(o, w.plan, env) ==> (g.value.length == |out| <==> |out| < limit))
    && (Total(o, w.plan, env) + 8 < limit ==> (g.value.length == |out| <==> AllExact(o, w.plan, env)))
  }

  // How a sequence reads.
  lemma SequenceReads(o: Opts, p: Plan, env: Env, large: bool, n: nat, recs: seq<ORec>, chars: seq<int>)
    requires |recs| == |p.toks| && InRange(p.names, |p.toks|)
    requires InRange(p.arrays, |p.toks|) && InRange(p.strings, |p.toks|) && InRange(p.literals, |p.toks|)
    requires !large ==> 0 < n < 0x100
    ensures var out, stream := Sequence(o, p, env, large, n, recs, chars), Stream(o, p, env, Final(o, p, env, n, recs), chars);
            var count := if large then n % 0x1_0000 else n;
            && |out| == |stream| + HeaderSize(large)
            && ReadGoody(out) == Some(Goody(count, (Total(o, p, env) + HeaderSize(large)) % if large then 0x1_0000_0000 else 0x1_0000,
                                            ReadMany(stream, 0, count)))
  {
    hide Stream, Total, Final, HeadCells, ReadGoody, ReadMany, InRange;
    HeadReads(large, n, Total(o, p, env) + HeaderSize(large), Stream(o, p, env, Final(o, p, env, n, recs), chars));
  }

  // Whether a count survives its field.
  lemma CountKept(total: nat, written: nat, limit: nat)
    requires limit > 0
    ensures total == written ==> (total % limit == written <==> written < limit)
    ensures total < limit ==> (total % limit == written <==> total == written)
  {
  }

  lemma NamesRanged(o: Opts, root: seq<Tok>, p: Plan, recs: seq<ORec>, chars: seq<int>)
    requires Compiled(o, root, p, recs, chars)
    ensures |recs| == |p.toks| && InRange(p.names, |p.toks|)
    ensures InRange(p.arrays, |p.toks|) && InRange(p.strings, |p.toks|) && InRange(p.literals, |p.toks|)
  {
  }

  lemma Framed(o: Opts, root: seq<Tok>, items: seq<Item>, env: Env, w: Wrap)
    requires Compiled(o, root, w.plan, w.recs, w.chars) && root != [] && w.large == NeedsLarge(o, root, items)
    requires env.longSize >= 4 && Stops(env, Strings(w.plan))
    ensures Frames(o, root, env, w, Sequence(o, w.plan, env, w.large, |root|, w.recs, w.chars))
  {
    hide Compiled, Stream, Total, Final, Sequence, ReadGoody, ReadMany, TotalSize, Exact, Stops;
    NamesRanged(o, root, w.plan, w.recs, w.chars);
    var final := Final(o, w.plan, env, |root|, w.recs);
    SequenceReads(o, w.plan, env, w.large, |root|, w.recs, w.chars);
    ByteCount(o, root, w.plan, env, w.recs, final, w.chars);
    CountKept(Total(o, w.plan, env) + HeaderSize(w.large), |Stream(o, w.plan, env, final, w.chars)| + HeaderSize(w.large),
              if w.large then 0x1_0000_0000 else 0x1_0000);
  }

  lemma Delivered(o: Opts, root: seq<Tok>, items: seq<Item>, env: Env, w: Wrap)
    requires Compiled(o, root, w.plan, w.recs, w.chars) && root != [] && w.large == NeedsLarge(o, root, items)
    requires Emittable(root) && env.longSize >= 4
    ensures OffsetsHold(o, w.plan, env) && Presentable(o, w.plan, env) && (w.large ==> |root| < 0x1_0000) ==>
              var g := ReadGoody(Sequence(o, w.plan, env, w.large, |root|, w.recs, w.chars));
              && g.Some? && g.value.objs == Insts(o, env, true, root)
              && (g.value.objs == Meanings(o, env, root) <==> ZeroBelow(env, root))
  {
    hide Compiled, Stream, Total, Final, Sequence, ReadGoody, ReadMany, TotalSize, OffsetsHold, Presentable, Emittable, Insts,
         Meanings, ZeroBelow;
    NamesRanged(o, root, w.plan, w.recs, w.chars);
    SequenceReads(o, w.plan, env, w.large, |root|, w.recs, w.chars);
    if OffsetsHold(o, w.plan, env) && Presentable(o, w.plan, env) { RoundTrip(o, root, w.plan, env, w.recs, w.chars); }
  }

  // userobject u[2], and the body \u[1]
  const ELEMENT := Tok(SubscriptedTok, "u", 0, "1", Some(Item("u", UserObjectT, false, Some(Constant(2)))), [])

  /** The front end accepts this body, and pswrap ends on it; in a procedure the same reference is not looked at. */
  lemma ElementAborts(o: Opts)
    ensures var proc := Tok(ProcTok, "", 0, "", None, [ELEMENT]);
            && ValidToks(o, [ELEMENT]) && !Emittable(Flattened([ELEMENT]))
            && ValidToks(o, [proc]) && Emittable(Flattened([proc]))
  {
    var proc := Tok(ProcTok, "", 0, "", None, [ELEMENT]);
    assert [ELEMENT][1..] == [] && [proc][1..] == [];
    assert Flattened([ELEMENT]) == [ELEMENT];
    assert Refused(Flattened([ELEMENT])[0]);
    assert Flattened([proc]) == [proc];
  }

  // unsigned char *s, and the body (s)
  const USTAR := Item("s", UCharT, true, None)
  const USTRING := Tok(StringTok, "s", 0, "", Some(USTAR), [])

  /** Only char * makes the header long, unsigned char * does not: 65530 characters fit the length field of their record,
      but the length of the sequence is cut to 16 bits. */
  lemma LengthCut(o: Opts, p: Plan, env: Env, recs: seq<ORec>, chars: seq<int>)
    requires Compiled(o, [USTRING], p, recs, chars) && env.strlen("s") == 65530
    ensures ValidToks(o, [USTRING]) && Sendable(o, env, USTRING) && !NeedsLarge(o, [USTRING], [USTAR])
    ensures |recs| == |p.toks| && InRange(p.names, |p.toks|)
    ensures var out := Sequence(o, p, env, false, 1, recs, chars);
            ReadGoody(out).Some? && ReadGoody(out).value.length != |out|
  {
    hide Compiled, Sequence, ReadGoody, Sendable, TotalSize, Total, Final, Stream;
    UStringAlone(o, env);
    NamesRanged(o, [USTRING], p, recs, chars);
    SequenceReads(o, p, env, false, 1, recs, chars);
    LongStream(o, p, env, recs, Final(o, p, env, 1, recs), chars);
  }

  lemma LongStream(o: Opts, p: Plan, env: Env, recs: seq<ORec>, recs': seq<ORec>, chars: seq<int>)
    requires Compiled(o, [USTRING], p, recs, chars) && |recs'| == |recs| && env.strlen("s") == 65530
    ensures |Stream(o, p, env, recs', chars)| >= 65532
  {
    hide Stream, Layout, Traced, Fields, NameList, Stored, Flagged, Share, StringPiece;
    UStringAlone(o, env);
    SizedWhen(o, [USTRING], p, recs, chars);
    CountedSize(o, p, env, recs', chars);
    SameSize(o, [USTRING], p);
    assert Strings(p) == [USTRING] && [USTRING][..0] == [];
    assert StringsBrought(o, env, [USTRING]) == StringsBrought(o, env, []) + StringBrought(o, env, USTRING);
  }

  lemma UStringAlone(o: Opts, env: Env)
    ensures ValidToks(o, [USTRING]) && RoleOf(o, USTRING) == InString && Flat([[USTRING]]) == [USTRING]
    ensures Picks(o, InString, [USTRING]) == [0] && TotalSize(o, [USTRING]) == 8
    ensures env.strlen("s") == 65530 ==> Sendable(o, env, USTRING) && |StringPiece(o, env, USTRING)| >= 65530
  {
    assert [USTRING][..0] == [] && Push([USTRING]) == [] && [[USTRING]][1..] == [];
    assert Flat([[USTRING]]) == [USTRING] + Flat([]);
    assert PickToks(o, InArray, [USTRING]) == PickToks(o, InArray, []) == [];
    assert PickToks(o, Lit, [USTRING]) == PickToks(o, Lit, []) == [];
    assert PickToks(o, InString, [USTRING]) == [USTRING] + PickToks(o, InString, []);
    assert Picks(o, InString, [USTRING]) == [0] + Picks(o, InString, []);
    assert ConstStrings(o, [USTRING]) == ConstStrings(o, []) + 0;
  }

  lemma CompiledToks(o: Opts, root: seq<Tok>, p: Plan, recs: seq<ORec>, chars: seq<int>)
    requires Compiled(o, root, p, recs, chars)
    ensures p.toks == Flat([root])
  {
  }

  // ----- a wrap whose constant string is misplaced: int arr[2], char str[3], and the body arr (abc) (str)

  const ARR := Tok(NameTok, "arr", 0, "", Some(Item("arr", IntT, false, Some(Constant(2)))), [])
  const ABC := Tok(StringTok, "abc", 0, "", None, [])
  const STR := Tok(StringTok, "str", 0, "", Some(Item("str", CharT, false, Some(Constant(3)))), [])
  const THREE := [ARR, ABC, STR]

  lemma Prefixes()
    ensures THREE[..2] == [ARR, ABC] && THREE[..1] == [ARR] && [ARR, ABC][..1] == [ARR] && [ARR][..0] == []
    ensures |LitBytes(ABC)| == 3 && WellEscaped("abc")
  {
    DigitsAsString("abc");
  }

  lemma ThreeRoles(o: Opts)
    ensures RoleOf(o, ARR) == InArray && RoleOf(o, ABC) == Lit && RoleOf(o, STR) == InString
    ensures Picks(o, InArray, THREE) == [0] && Picks(o, Lit, THREE) == [1] && Picks(o, InString, THREE) == [2]
    ensures NameList(o, THREE) == [] && !AnyWritable(THREE)
  {
    hide LitBytes;
    Prefixes();
    PicksThree(o, InArray);
    PicksThree(o, Lit);
    PicksThree(o, InString);
    assert NameList(o, [ARR]) == NameList(o, []) == [] && NameList(o, [ARR, ABC]) == NameList(o, [ARR]);
    assert !AnyWritable([ARR]) && !AnyWritable([ARR, ABC]);
  }

  lemma PicksThree(o: Opts, role: Role)
    ensures Picks(o, role, THREE) == (if RoleOf(o, STR) == role then [2] else []) + (if RoleOf(o, ABC) == role then [1] else [])
                                     + if RoleOf(o, ARR) == role then [0] else []
  {
    hide RoleOf;
    Prefixes();
    assert Picks(o, role, [ARR]) == (if RoleOf(o, ARR) == role then [0] else []) + Picks(o, role, []);
    assert Picks(o, role, [ARR, ABC]) == (if RoleOf(o, ABC) == role then [1] else []) + Picks(o, role, [ARR]);
  }

  lemma ThreeFlat()
    ensures Flattened(THREE) == THREE && Flat([THREE]) == THREE
  {
    Prefixes();
    assert THREE[1..] == [ABC, STR] && [ABC, STR][1..] == [STR] && [STR][1..] == [];
    assert Flattened([STR]) == [STR] && Flattened([ABC, STR]) == [ABC, STR];
    assert Push([ARR]) == [] && Push([ARR, ABC]) == [] && Push(THREE) == [];
    assert [THREE][1..] == [];
  }

  lemma ThreeLists(o: Opts, p: Plan)
    requires Listed(o, THREE, p)
    ensures p.toks == THREE && |p.body| == 3 && p.names == []
    ensures p.arrays == [0] && p.literals == [1] && p.strings == [2]
    ensures At(THREE, [0]) == [ARR] && At(THREE, [1]) == [ABC] && At(THREE, [2]) == [STR] && [STR][..0] == []
  {
    hide Layout, Traced, Picks, NameList, Flat;
    ThreeRoles(o);
    ThreeFlat();
  }

  lemma ThreePlaced(o: Opts, p: Plan, env: Env)
    requires Listed(o, THREE, p) && Addressed(o, p)
    ensures p.arrays == [0] && p.literals == [1] && p.strings == [2] && !p.writable && p.twoStatics
    ensures p.body[1] == 40 && p.body[2] == 43
    ensures StringPos(o, p, env, 0) == 40 && LitPos(o, p, env) + Shared(p.toks, p.literals).locs[0] == if o.pad then 44 else 43
  {
    hide Listed, At, RoleOf, Picks, NameList, AnyWritable, AnyConstNumStr, Share, ConstArrays, ConstStrings, ArraySizes, Written, BodyInit;
    ThreeLists(o, p);
    ThreeRoles(o);
    ThreeSizes(o, env);
    assert ArraySizes(env, At(THREE, p.arrays)) == 16;
    assert StrStart(p.toks, p.arrays, p.literals) == 43;
    assert At(p.toks, p.strings)[..0] == [];
    assert StringAddresses(o, p.toks, p.arrays, p.literals, p.strings)[0] == 43;
    assert LitAddresses(p.toks, p.arrays, p.literals)[0] == 40;
    assert p.body[p.literals[0]] == 40 && p.body[p.strings[0]] == 43;
    assert Strings(p)[..0] == [] && Arrays(p) == [ARR] && Strings(p) == [STR];
    assert StringBase(p, env) == 40;
  }

  lemma ThreeSizes(o: Opts, env: Env)
    ensures ConstArrays([ARR]) == 16 && ArraySizes(env, [ARR]) == 16
    ensures Share([ABC]).total == 3 && Share([ABC]).locs == [0]
    ensures ConstStrings(o, []) == 0 && !AnyConstNumStr([STR])
    ensures Written(o, env, [STR]) == if o.pad then 4 else 3
    ensures Written(o, env, []) == 0
  {
    Prefixes();
    assert [STR][..0] == [] && [ABC][..0] == [];
    assert Share([ABC]) == ShareStep(Share([]), ABC);
    var data := StringData(env, STR);
    assert |data| == 3 && StringCells(o, env, []) == [];
    assert |StringPiece(o, env, STR)| == if o.pad then 4 else 3;
    assert StringCells(o, env, [STR]) == StringCells(o, env, []) + StringPiece(o, env, STR);
  }

  lemma ThreeValid(o: Opts)
    ensures ValidToks(o, THREE) && Flattened(THREE) == THREE
  {
    Prefixes();
    ThreeFlat();
  }

  lemma CompiledListed(o: Opts, root: seq<Tok>, p: Plan, recs: seq<ORec>, chars: seq<int>)
    requires Compiled(o, root, p, recs, chars)
    ensures Listed(o, root, p) && Addressed(o, p)
  {
  }

  /** That there is such a wrap: its string is written at 40, where its record has the literal; the record of the string
      has 43, and the literal is written behind the string. */
  method MisplacedString(o: Opts, env: Env, interner: PswDict.Interner) returns (w: Wrap)
    requires interner.Valid()
    modifies interner.Repr
    ensures Compiled(o, THREE, w.plan, w.recs, w.chars) && w.plan.strings == [2] && w.plan.literals == [1]
    ensures w.plan.body[2] == 43 && StringPos(o, w.plan, env, 0) == 40
    ensures w.plan.body[1] == 40 && LitPos(o, w.plan, env) + Shared(w.plan.toks, w.plan.literals).locs[0] >= 43
  {
    hide Compiled, Listed, Addressed, Flattened, ValidToks, StringPos, LitPos, Shared, NeedsLarge, Flat;
    ThreeValid(o);
    var r := Compile(o, THREE, [ARR.formal.value, STR.formal.value], interner);
    w := r.value;
    CompiledListed(o, THREE, w.plan, w.recs, w.chars);
    ThreePlaced(o, w.plan, env);
  }
}
