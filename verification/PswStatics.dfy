/** The static data psw.c emits: one record per token, then the characters of the literal strings. */
module PswStatics {
  import opened Options
  import opened PswTypes
  import opened PswString
  import opened PswLayout
  import opened PswNames
  import opened PswCompiler
  import PswDict

  datatype DpsType = DBool | DInt | DReal | DString | DName | DArray

  // The 32-bit value of a record: an integer, or the spelling of a real.
  datatype Word = IntWord(n: int) | RealWord(text: string)

  /** An 8-byte binary object. */
  datatype ORec = ORec(exec: bool, ty: DpsType, len: nat, val: Word)

  const DPSSYSNAME := 0xFFFF

  // What an unsigned short keeps of n.
  function U16(n: nat): (r: nat)
    ensures r < 0x10000 && (n < 0x10000 ==> r == n)
  {
    n % 0x10000
  }

  // CTypeToDPSType
  function ScalarType(c: CType): DpsType {
    match c
    case BooleanT => DBool
    case FloatT | DoubleT => DReal
    case CharT | UCharT => DString
    case _ => DInt
  }

  /** EmitFieldConstructor for a token with the given body address and well-known mark. */
  function FieldRecord(o: Opts, t: Tok, body: int, wellKnown: bool): ORec {
    match t.kind
    case BoolTok => ORec(false, DBool, 0, IntWord(t.num))
    case IntTok => ORec(false, DInt, 0, IntWord(t.num))
    case FloatTok => ORec(false, DReal, 0, RealWord(t.text))
    case ArrayTok => ORec(false, DArray, U16(|t.kids|), IntWord(body))
    case ProcTok => ORec(true, DArray, U16(|t.kids|), IntWord(body))
    case StringTok | HexTok =>
      if t.formal.None? then ORec(false, DString, U16(|LitBytes(t)|), IntWord(body))
      else if t.formal.value.ConstSub() then ORec(false, DString, U16(t.formal.value.sub.value.val), IntWord(body))
      else ORec(false, DString, 0, IntWord(body))
    case LitNameTok =>
      if wellKnown then ORec(false, DName, DPSSYSNAME, IntWord(body))
      else if t.formal.None? then
        if o.noUserNames then ORec(false, DName, U16(|LitBytes(t)|), IntWord(body)) else ORec(false, DName, 0, IntWord(0))
      else ORec(false, DName, 0, IntWord(body))
    case NameTok =>
      if wellKnown then ORec(true, DName, DPSSYSNAME, IntWord(body))
      else if t.formal.None? then
        if o.noUserNames then ORec(true, DName, U16(|LitBytes(t)|), IntWord(body)) else ORec(true, DName, 0, IntWord(0))
      else FormalRecord(t.formal.value, body)
    case SubscriptedTok =>
      ORec(false, if t.formal.Some? then ScalarType(t.formal.value.ctype) else DInt, 0, IntWord(0))
  }

  // The T_NAME case of a formal.
  function FormalRecord(item: Item, body: int): ORec {
    var n := if item.ConstSub() then item.sub.value.val else 0;
    if item.ctype.IsChar() then ORec(true, DName, U16(n), IntWord(body))
    else if item.sub.Some? then
      if item.ctype.IsNumStr() then
        ORec(false, DString, if item.ConstSub() then U16(n + NUMSTR_HEADER_SIZE) else 0, IntWord(body))
      else ORec(false, DArray, U16(n), IntWord(body))
    else ORec(false, ScalarType(item.ctype), 0, IntWord(0))
  }

  predicate Fields(o: Opts, p: Plan, recs: seq<ORec>) {
    && |recs| <= |p.toks| && |p.body| == |p.wellKnown| == |p.toks|
    && forall k | 0 <= k < |recs| :: recs[k] == FieldRecord(o, p.toks[k], p.body[k], p.wellKnown[k])
  }

  // A body on the work list: the records start..start + len.
  datatype Piece = Piece(start: int, len: nat)

  predicate Rooted(p: Plan, ws: seq<Work>) {
    forall i | 0 <= i < |ws| :: ws[i].parent.Some? && ws[i].parent.value < |p.body|
  }

  function PiecesOf(p: Plan, ws: seq<Work>): (r: seq<Piece>)
    requires Rooted(p, ws)
    ensures |r| == |ws|
  {
    seq(|ws|, i requires 0 <= i < |ws| => Piece(p.body[ws[i].parent.value] / BINOBJ_SIZE, |ws[i].toks|))
  }

  /** The state of the second walk: n tokens are out, and ws is the work list the first walk had at that point. */
  ghost predicate Replay(root: seq<Tok>, p: Plan, ws: seq<Work>, n: nat) {
    && n <= |p.toks| && Rooted(p, ws)
    && p.toks == p.toks[..n] + Flat(Bodies(ws))
    && Owned(ws, p.toks[..n])
    && Expects(RootStarts(root), ws, n)
  }

  ghost predicate Expects(S: map<nat, nat>, ws: seq<Work>, n: nat)
    requires forall w | w in ws :: w.parent.Some?
  {
    forall k | k in Starts(n, ws) :: k in S && S[k] == Starts(n, ws)[k]
  }

  lemma ReplayRoot(root: seq<Tok>, p: Plan)
    requires p.toks == Flat([root]) && |p.body| == |p.toks|
    ensures |root| <= |p.toks| && p.toks[..|root|] == root && Replay(root, p, PushWork(0, root), |root|)
  {
    var ws := PushWork(0, root);
    RootWork(root);
    assert p.toks[..|root|] == root;
    PushPiecesOf(p, 0, root);
  }

  // The recorded address of the next body is the number of records emitted.
  lemma NextStart(root: seq<Tok>, p: Plan, ws: seq<Work>, n: nat)
    requires |p.body| == |p.toks| && Traced(RootStarts(root), [], p.toks, p.body)
    requires n <= |p.toks| && Rooted(p, ws) && Owned(ws, p.toks[..n]) && Expects(RootStarts(root), ws, n) && ws != []
    requires forall w | w in PushWork(n, ws[0].toks) + ws[1..] :: w.parent.Some?
    ensures p.body[ws[0].parent.value] == BINOBJ_SIZE * n
    ensures Expects(RootStarts(root), PushWork(n, ws[0].toks) + ws[1..], n + |ws[0].toks|)
  {
    var k0 := ws[0].parent.value;
    StartsStep(n, ws);
    assert Starts(n, ws)[k0] == n;
    assert p.toks[k0].Nested();
    assert !Pending([], k0);
    var later := Starts(n + |ws[0].toks|, PushWork(n, ws[0].toks) + ws[1..]);
    forall k | k in later
      ensures k in RootStarts(root) && RootStarts(root)[k] == later[k]
    {
      assert k in Starts(n, ws);
    }
  }

  lemma RootedStep(p: Plan, ws: seq<Work>, n: nat)
    requires ws != [] && Rooted(p, ws) && n + |ws[0].toks| <= |p.body|
    ensures Rooted(p, PushWork(n, ws[0].toks) + ws[1..])
    ensures forall w | w in PushWork(n, ws[0].toks) + ws[1..] :: w.parent.Some?
  {
    PushWorkPending(n, ws[0].toks);
    var q := PushWork(n, ws[0].toks);
    forall i | 0 <= i < |q + ws[1..]|
      ensures (q + ws[1..])[i].parent.Some? && (q + ws[1..])[i].parent.value < |p.body|
    {
      assert (q + ws[1..])[i] == if i < |q| then q[i] else ws[i - |q| + 1];
      if i < |q| { assert q[i] in q; }
    }
  }

  /** The next body on the list is exactly the records not yet emitted. */
  lemma ReplayStep(o: Opts, root: seq<Tok>, p: Plan, ws: seq<Work>, n: nat)
    requires Listed(o, root, p) && Replay(root, p, ws, n) && ws != []
    ensures var c := ws[0].toks;
            && n + |c| <= |p.toks| && p.toks[n..n + |c|] == c
            && PiecesOf(p, ws)[0] == Piece(n, |c|)
            && Replay(root, p, PushWork(n, c) + ws[1..], n + |c|)
  {
    hide Flat, PushWork, Push, Layout, Starts, RootStarts, Picks, NameList;
    var c := ws[0].toks;
    var ws' := PushWork(n, c) + ws[1..];
    assert Bodies(ws) == [c] + Bodies(ws[1..]);
    FlatStep(p.toks, p.toks[..n], Bodies(ws));
    PushWorkBodies(n, c, ws[1..]);
    assert p.toks == p.toks[..n] + c + Flat(Bodies(ws'));
    assert p.toks[..n + |c|] == p.toks[..n] + c;
    RootedStep(p, ws, n);
    OwnedStep(ws, p.toks[..n], c);
    NextStart(root, p, ws, n);
  }

  lemma PiecesStep(p: Plan, ws: seq<Work>, n: nat)
    requires ws != [] && Rooted(p, ws) && n + |ws[0].toks| <= |p.body|
    ensures Rooted(p, PushWork(n, ws[0].toks)) && Rooted(p, PushWork(n, ws[0].toks) + ws[1..])
    ensures PiecesOf(p, PushWork(n, ws[0].toks) + ws[1..])
            == PiecesOf(p, PushWork(n, ws[0].toks)) + PiecesOf(p, ws)[1..]
  {
    RootedStep(p, ws, n);
    var q := PushWork(n, ws[0].toks);
    forall i | 0 <= i < |q|
      ensures q[i].parent.Some? && q[i].parent.value < |p.body|
    {
      assert q[i] == (q + ws[1..])[i];
    }
  }

  // The switch of ConstructStatics that collects the literal strings.
  predicate CollectsLiteral(o: Opts, t: Tok, wellKnown: bool) {
    match t.kind
    case StringTok | HexTok => t.formal.None? && LitBytes(t) != []
    case NameTok => t.formal.None? && o.noUserNames && !wellKnown
    case LitNameTok => o.noUserNames && t.formal.None? && !wellKnown
    case _ => false
  }

  // The pieces that the body c, at token index n, puts in front of the list.
  function PushPieces(p: Plan, n: nat, c: seq<Tok>): seq<Piece>
    requires n + |c| <= |p.body|
  {
    if c == [] then []
    else (if c[|c| - 1].Nested() then [Piece(p.body[n + |c| - 1] / BINOBJ_SIZE, |c[|c| - 1].kids|)] else [])
         + PushPieces(p, n, c[..|c| - 1])
  }

  lemma NoPieces(p: Plan, n: nat, c: seq<Tok>)
    requires n + |c| <= |p.body|
    ensures PushPieces(p, n, c[..0]) == []
  {
  }

  lemma PiecesOfCons(p: Plan, w: Work, ws: seq<Work>)
    requires w.parent.Some? && w.parent.value < |p.body| && Rooted(p, ws)
    ensures Rooted(p, [w] + ws)
    ensures PiecesOf(p, [w] + ws) == [Piece(p.body[w.parent.value] / BINOBJ_SIZE, |w.toks|)] + PiecesOf(p, ws)
  {
  }

  lemma {:induction false} PushPiecesOf(p: Plan, n: nat, c: seq<Tok>)
    requires n + |c| <= |p.body|
    ensures Rooted(p, PushWork(n, c)) && PushPieces(p, n, c) == PiecesOf(p, PushWork(n, c))
  {
    hide Rooted, PiecesOf;
    if c == [] {
      NothingRooted(p);
    } else {
      var t, c' := c[|c| - 1], c[..|c| - 1];
      PushPiecesOf(p, n, c');
      if t.Nested() {
        PiecesOfCons(p, Work(Some(n + |c| - 1), t.kids), PushWork(n, c'));
        assert PushWork(n, c) == [Work(Some(n + |c| - 1), t.kids)] + PushWork(n, c');
      } else {
        assert PushWork(n, c) == PushWork(n, c') && PushPieces(p, n, c) == PushPieces(p, n, c');
      }
    }
  }

  lemma NothingRooted(p: Plan)
    ensures Rooted(p, []) && PiecesOf(p, []) == []
  {
  }

  lemma CollectsLit(o: Opts, t: Tok)
    ensures CollectsLiteral(o, t, SysName(o, t)) <==> RoleOf(o, t) == Lit
  {
  }

  // One token in ConstructStatics.
  method EmitToken(o: Opts, p: Plan, ghost c: seq<Tok>, ghost n: nat, k: nat,
                   recs: seq<ORec>, strings: seq<nat>, bodies: seq<Piece>, ghost rest: seq<Piece>)
    returns (recs': seq<ORec>, strings': seq<nat>, bodies': seq<Piece>)
    requires Fields(o, p, recs) && k == |recs| < |p.toks|
    requires strings == Picks(o, Lit, p.toks[..k]) && p.wellKnown[k] == SysName(o, p.toks[k])
    requires n <= k < n + |c| <= |p.body| && c[k - n] == p.toks[k] && bodies == PushPieces(p, n, c[..k - n]) + rest
    ensures Fields(o, p, recs') && |recs'| == k + 1 && strings' == Picks(o, Lit, p.toks[..k + 1])
    ensures bodies' == PushPieces(p, n, c[..k - n + 1]) + rest
  {
    hide FieldRecord, RoleOf, CollectsLiteral, SysName;
    var t := p.toks[k];
    assert p.toks[..k + 1][..k] == p.toks[..k];
    assert c[..k - n + 1][..k - n] == c[..k - n];
    strings', bodies' := strings, bodies;
    CollectsLit(o, t);
    recs' := recs + [FieldRecord(o, t, p.body[k], p.wellKnown[k])];
    if CollectsLiteral(o, t, p.wellKnown[k]) { strings' := [k] + strings'; }
    if t.Nested() { bodies' := [Piece(p.body[k] / BINOBJ_SIZE, |t.kids|)] + bodies'; }
  }

  // The inner loop of ConstructStatics, over one body.
  method EmitPiece(o: Opts, p: Plan, piece: Piece, recs: seq<ORec>, strings: seq<nat>, rest: seq<Piece>)
    returns (recs': seq<ORec>, strings': seq<nat>, bodies: seq<Piece>)
    requires Fields(o, p, recs) && piece.start == |recs| && |recs| + piece.len <= |p.toks|
    requires strings == Picks(o, Lit, p.toks[..|recs|])
    requires forall k | 0 <= k < |p.toks| :: p.wellKnown[k] == SysName(o, p.toks[k])
    ensures Fields(o, p, recs') && |recs'| == |recs| + piece.len
    ensures strings' == Picks(o, Lit, p.toks[..|recs'|])
    ensures bodies == PushPieces(p, |recs|, p.toks[|recs|..|recs| + piece.len]) + rest
  {
    hide FieldRecord, Picks, SysName, PushPieces;
    ghost var n := |recs|;
    ghost var c := p.toks[n..n + piece.len];
    recs', strings', bodies := recs, strings, rest;
    NoPieces(p, n, c);
    for k := piece.start to piece.start + piece.len
      invariant Fields(o, p, recs') && |recs'| == k
      invariant strings' == Picks(o, Lit, p.toks[..k])
      invariant bodies == PushPieces(p, n, c[..k - n]) + rest
    {
      assert c[k - n] == p.toks[k];
      recs', strings', bodies := EmitToken(o, p, c, n, k, recs', strings', bodies, rest);
    }
    assert c[..piece.len] == c;
  }

  lemma NothingPicked(o: Opts, role: Role, ts: seq<Tok>)
    ensures Picks(o, role, ts[..0]) == []
  {
  }

  lemma ReplayEnd(root: seq<Tok>, p: Plan, ws: seq<Work>, n: nat)
    requires Replay(root, p, ws, n) && ws == []
    ensures n == |p.toks|
  {
    assert p.toks == p.toks[..n] + [];
  }

  // One round of ConstructStatics against one round of the first walk.
  lemma Round(o: Opts, root: seq<Tok>, p: Plan, ws: seq<Work>, n: nat)
    requires Listed(o, root, p) && Replay(root, p, ws, n) && ws != []
    ensures n + |ws[0].toks| <= |p.toks| && p.toks[n..n + |ws[0].toks|] == ws[0].toks
    ensures PiecesOf(p, ws)[0] == Piece(n, |ws[0].toks|)
    ensures Rooted(p, PushWork(n, ws[0].toks) + ws[1..])
    ensures PushPieces(p, n, ws[0].toks) + PiecesOf(p, ws)[1..] == PiecesOf(p, PushWork(n, ws[0].toks) + ws[1..])
    ensures WorkWeight(Bodies(PushWork(n, ws[0].toks) + ws[1..])) < WorkWeight(Bodies(ws))
    ensures Replay(root, p, PushWork(n, ws[0].toks) + ws[1..], n + |ws[0].toks|)
  {
    hide Layout, Traced, Expects, Owned, Flat, PushWork, PushPieces, WorkWeight, PiecesOf, Picks, NameList;
    ReplayStep(o, root, p, ws, n);
    PiecesStep(p, ws, n);
    PushPiecesOf(p, n, ws[0].toks);
    WorkShrinks(ws, n);
  }

  // The work list of ConstructStatics: record k is emitted for the token with tokenIndex k.
  method EmitRecords(o: Opts, ghost root: seq<Tok>, nTop: nat, p: Plan) returns (recs: seq<ORec>, strings: seq<nat>)
    requires Listed(o, root, p) && nTop == |root|
    ensures Fields(o, p, recs) && |recs| == |p.toks| && strings == p.literals
  {
    hide Expects, Owned, FieldRecord, Layout, Traced, NameList, Picks, Flat, PushPieces, PushWork, WorkWeight,
         Bodies, PiecesOf, Rooted;
    ghost var ws := PushWork(0, root);
    ReplayRoot(root, p);
    PushPiecesOf(p, 0, root);
    NothingPicked(o, Lit, p.toks);
    var bodies;
    recs, strings, bodies := EmitPiece(o, p, Piece(0, nTop), [], [], []);
    while bodies != []
      invariant Replay(root, p, ws, |recs|) && bodies == PiecesOf(p, ws)
      invariant Fields(o, p, recs) && strings == Picks(o, Lit, p.toks[..|recs|])
      decreases WorkWeight(Bodies(ws))
    {
      Round(o, root, p, ws, |recs|);
      ws := PushWork(|recs|, ws[0].toks) + ws[1..];
      recs, strings, bodies := EmitPiece(o, p, bodies[0], recs, strings, bodies[1..]);
    }
    ReplayEnd(root, p, ws, |recs|);
    assert p.toks[..|recs|] == p.toks;
  }

  // The initialiser of one literal, as the bytes its character constants denote.
  method EmitLiteral(t: Tok) returns (chars: seq<int>)
    requires Measurable(t)
    ensures chars == LitBytes(t)
  {
    if t.kind.HexTok? {
      var out := PSWOutputHexStringChars(t.text);
      chars := seq(|out|, i requires 0 <= i < |out| => HexConst(out[i]));
    } else {
      EscapedUnits(t.text);
      var out := PSWOutputStringChars(t.text);
      chars := seq(|out|, i requires 0 <= i < |out| => CharConst(out[i]));
    }
  }

  // The sharing state and the characters and fields emitted so far.
  ghost predicate Emitted(strings: WrapStrings, s: Sharing, chars: seq<int>, objN: nat, records: nat)
    reads strings
  {
    strings.strCount == s.count && Mirrors(strings.known, s.dict, 0, 0) && chars == Bytes(s.placed)
    && objN == records + |s.placed|
  }

  method NextInitialiser(strings: WrapStrings, t: Tok, ghost s: Sharing, chars: seq<int>, objN: nat, ghost records: nat)
    returns (chars': seq<int>, objN': nat)
    requires strings.Valid() && Fits(Lit, t) && Emitted(strings, s, chars, objN, records)
    modifies strings.Repr
    ensures strings.Valid() && fresh(strings.Repr - old(strings.Repr))
    ensures Emitted(strings, ShareStep(s, t), chars', objN', records)
  {
    chars', objN' := chars, objN;
    var loc := strings.Lookup(t.text);
    if loc == -1 {
      strings.Enter(t.text, 0);
      var bytes := EmitLiteral(t);
      assert (s.placed + [t])[..|s.placed|] == s.placed;
      chars', objN' := chars + bytes, objN + 1;
    }
  }

  method EmitLiterals(p: Plan, literals: seq<nat>, records: nat, interner: PswDict.Interner)
    returns (chars: seq<int>, objN: nat)
    requires Ready(p) && literals == p.literals && interner.Valid()
    modifies interner.Repr
    ensures interner.Valid() && fresh(interner.Repr - old(interner.Repr))
    ensures chars == Bytes(Shared(p.toks, p.literals).placed)
    ensures objN == records + |Shared(p.toks, p.literals).placed|
  {
    hide ShareStep, Fits, LitBytes;
    ghost var ts := At(p.toks, p.literals);
    var strings := new WrapStrings(interner);
    chars, objN := [], records;
    for i := 0 to |literals|
      invariant strings.Valid() && strings.interner == interner && fresh(strings.Repr - old(interner.Repr))
      invariant Emitted(strings, Share(ts[..i]), chars, objN, records)
    {
      assert ts[..i + 1][..i] == ts[..i];
      assert p.toks[literals[i]] == ts[i] && ts[i] in ts;
      chars, objN := NextInitialiser(strings, p.toks[literals[i]], Share(ts[..i]), chars, objN, records);
    }
    assert ts[..|ts|] == ts;
  }

  /** Record k belongs to token k, and the characters are those of the literals laid out; the count at the end
      agrees with the one made by BuildTypesAndAssignAddresses. */
  method ConstructStatics(o: Opts, ghost root: seq<Tok>, nTop: nat, p: Plan, interner: PswDict.Interner)
    returns (recs: seq<ORec>, chars: seq<int>)
    requires Listed(o, root, p) && Ready(p) && Addressed(o, p) && nTop == |root| && interner.Valid()
    modifies interner.Repr
    ensures interner.Valid() && fresh(interner.Repr - old(interner.Repr))
    ensures Fields(o, p, recs) && |recs| == |p.toks|
    ensures chars == Bytes(Shared(p.toks, p.literals).placed)
  {
    hide PswDict.Interner.Valid, Layout, Traced, Stored, Picks, NameList, Flat, Share, Fields, BodyInit;
    var literals, objN;
    recs, literals := EmitRecords(o, root, nTop, p);
    chars, objN := EmitLiterals(p, literals, |recs|, interner);
    assert objN == p.nObjs;
  }
}
