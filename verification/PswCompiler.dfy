/** The compile-time passes of psw.c. A token is known by its tokenIndex; the fields that the passes store into
    tokens (adr, body, wellKnownName) are sequences indexed by it. */
module PswCompiler {
  import opened Options
  import opened PswTypes
  import opened PswString
  import opened PswLayout
  import opened PswNames
  import PswDict

  /** The pair of locals wrapDict and strCount that every pass keeps while it walks literalStrings. */
  class WrapStrings {
    const wrapDict: PswDict.Dict
    const interner: PswDict.Interner
    var strCount: nat
    ghost var known: map<string, int>
    ghost var Repr: set<object>

    ghost predicate Valid()
      reads this, Repr
    {
      && this in Repr && wrapDict in Repr && wrapDict.Repr <= Repr && interner in Repr && interner.Repr <= Repr
      && this !in wrapDict.Repr && this !in interner.Repr && wrapDict.Repr !! interner.Repr
      && wrapDict.Valid() && interner.Valid()
      && known == wrapDict.Contents()
    }

    constructor (interner: PswDict.Interner)
      requires interner.Valid()
      ensures Valid() && known == map[] && strCount == 0 && this.interner == interner
      ensures fresh(Repr - interner.Repr)
    {
      var d := new PswDict.Dict(MAXSTRINGS);
      wrapDict, this.interner, strCount, known := d, interner, 0, map[];
      Repr := {this} + d.Repr + interner.Repr;
    }

    method Lookup(name: string) returns (loc: int)
      requires Valid()
      ensures loc == if name in known then known[name] else -1
    {
      loc := wrapDict.PSWDictLookup(name);
    }

    // Only the first MAXSTRINGS + 1 strings are entered.
    method Enter(name: string, value: int)
      requires Valid()
      modifies Repr
      ensures Valid() && fresh(Repr - old(Repr))
      ensures known == if old(strCount) <= MAXSTRINGS then old(known)[name := value] else old(known)
      ensures strCount == if old(strCount) <= MAXSTRINGS then old(strCount) + 1 else old(strCount)
    {
      hide PswDict.Dict.Valid, PswDict.Interner.Valid, PswDict.Dict.Contents;
      if strCount <= MAXSTRINGS {
        var _ := wrapDict.PSWDictEnter(name, value, interner);
        strCount := strCount + 1;
        known := known[name := value];
        Repr := Repr + wrapDict.Repr + interner.Repr;
      }
    }
  }

  // The dictionary has the texts of the sharing state, each with its offset (scale 1) or a dummy (scale 0).
  ghost predicate Mirrors(known: map<string, int>, dict: map<string, nat>, base: int, scale: int) {
    && (forall t | t in known :: t in dict && known[t] == base + scale * dict[t])
    && (forall t | t in dict :: t in known)
  }

  method LiteralLength(t: Tok) returns (ln: nat)
    requires Measurable(t)
    ensures ln == |LitBytes(t)|
  {
    if t.kind.HexTok? {
      ln := PSWHexStringLength(t.text);
    } else {
      var _, n := PSWStringLength(t.text);
      ln := n;
    }
  }

  // The locals of a pass agree with the sharing state s.
  ghost predicate Tracks(strings: WrapStrings, s: Sharing, start: int, next: int, declared: nat)
    reads strings
  {
    && strings.strCount == s.count && Mirrors(strings.known, s.dict, start, 1)
    && next == start + s.total && declared == |s.placed|
  }

  // One literal in BuildTypesAndAssignAddresses and in FixupOffsets: its offset goes to the end of `locs`.
  method NextLiteral(strings: WrapStrings, t: Tok, ghost s: Sharing, locs: seq<nat>, start: nat, next: nat, declared: nat)
    returns (locs': seq<nat>, next': nat, declared': nat)
    requires strings.Valid() && Tracks(strings, s, start, next, declared) && locs == s.locs && Fits(Lit, t)
    modifies strings.Repr
    ensures strings.Valid() && fresh(strings.Repr - old(strings.Repr))
    ensures Tracks(strings, ShareStep(s, t), start, next', declared')
    ensures locs' == ShareStep(s, t).locs
  {
    next', declared' := next, declared;
    var loc := strings.Lookup(t.text);
    if loc == -1 {
      locs' := locs + [next - start];
      strings.Enter(t.text, next);
      var ln := LiteralLength(t);
      next', declared' := next + ln, declared + 1;
    } else {
      locs' := locs + [loc - start];
    }
  }

  // The literalStrings loop of these two passes, in a dictionary of its own; addresses count from `start`.
  method WalkLiterals(lits: seq<Tok>, interner: PswDict.Interner, start: nat) returns (locs: seq<nat>, next: nat, declared: nat)
    requires interner.Valid() && forall t | t in lits :: Fits(Lit, t)
    modifies interner.Repr
    ensures interner.Valid() && fresh(interner.Repr - old(interner.Repr))
    ensures locs == Share(lits).locs && next == start + Share(lits).total && declared == |Share(lits).placed|
  {
    var strings := new WrapStrings(interner);
    ghost var s := Share([]);
    locs, next, declared := [], start, 0;
    for i := 0 to |lits|
      invariant strings.Valid() && strings.interner == interner && fresh(strings.Repr - old(interner.Repr))
      invariant s == Share(lits[..i])
      invariant Tracks(strings, s, start, next, declared) && locs == s.locs
    {
      assert lits[..i + 1][..i] == lits[..i];
      assert lits[i] in lits;
      locs, next, declared := NextLiteral(strings, lits[i], s, locs, start, next, declared);
      s := ShareStep(s, lits[i]);
    }
    assert lits[..|lits|] == lits;
  }

  // The literalStrings loop of CheckSize.
  method CheckLiterals(lits: seq<Tok>, interner: PswDict.Interner, start: nat) returns (next: nat)
    requires interner.Valid() && forall t | t in lits :: Fits(Lit, t)
    modifies interner.Repr
    ensures interner.Valid() && fresh(interner.Repr - old(interner.Repr))
    ensures next == start + Share(lits).total
  {
    hide PswDict.Dict.Valid, PswDict.Interner.Valid, PswDict.Dict.Contents;
    var strings := new WrapStrings(interner);
    next := start;
    ghost var s := Share([]);
    for i := 0 to |lits|
      invariant strings.Valid() && strings.interner == interner && fresh(strings.Repr - old(interner.Repr))
      invariant s == Share(lits[..i])
      invariant strings.strCount == s.count && Mirrors(strings.known, s.dict, 0, 0)
      invariant next == start + s.total
    {
      assert lits[..i + 1][..i] == lits[..i];
      var t := lits[i];
      s := ShareStep(s, t);
      assert t in lits;
      var loc := strings.Lookup(t.text);
      if loc == -1 {
        strings.Enter(t.text, 0);
        var ln := LiteralLength(t);
        next := next + ln;
      }
    }
    assert lits[..|lits|] == lits;
  }

  /** An entry of the work list: the wrap's own body, or the body of the array or procedure token `parent`. */
  datatype Work = Work(parent: Option<nat>, toks: seq<Tok>)

  function Bodies(ws: seq<Work>): seq<seq<Tok>> {
    seq(|ws|, i requires 0 <= i < |ws| => ws[i].toks)
  }

  // The entries that the body c, at token index n, puts in front of the list.
  function PushWork(n: nat, c: seq<Tok>): seq<Work> {
    if c == [] then []
    else (if c[|c| - 1].Nested() then [Work(Some(n + |c| - 1), c[|c| - 1].kids)] else []) + PushWork(n, c[..|c| - 1])
  }

  lemma PushWorkNone(n: nat, c: seq<Tok>)
    ensures PushWork(n, c[..0]) == []
  {
  }

  lemma BodiesApart(a: seq<Work>, b: seq<Work>)
    ensures Bodies(a + b) == Bodies(a) + Bodies(b)
  {
  }

  lemma {:induction false} PushWorkBodies(n: nat, c: seq<Tok>, rest: seq<Work>)
    ensures Bodies(PushWork(n, c) + rest) == Push(c) + Bodies(rest)
  {
    WorkBodies(n, c);
    BodiesApart(PushWork(n, c), rest);
  }

  lemma {:induction false} WorkBodies(n: nat, c: seq<Tok>)
    ensures Bodies(PushWork(n, c)) == Push(c)
  {
    if c != [] {
      var t := c[|c| - 1];
      var first := if t.Nested() then [Work(Some(n + |c| - 1), t.kids)] else [];
      WorkBodies(n, c[..|c| - 1]);
      BodiesApart(first, PushWork(n, c[..|c| - 1]));
      assert Bodies(first) == if t.Nested() then [t.kids] else [];
    }
  }

  predicate Pending(ws: seq<Work>, k: nat) { exists i | 0 <= i < |ws| :: ws[i].parent == Some(k) }

  // The entries of p belong to the nested tokens of c, from n on, each to another one.
  predicate WorkOf(p: seq<Work>, n: nat, c: seq<Tok>) {
    && (forall w | w in p ::
          && w.parent.Some? && n <= w.parent.value < n + |c| && c[w.parent.value - n].Nested()
          && w.toks == c[w.parent.value - n].kids)
    && (forall i, j | 0 <= i < j < |p| :: p[i].parent != p[j].parent)
  }

  lemma WorkMore(p: seq<Work>, n: nat, c: seq<Tok>, t: Tok)
    requires WorkOf(p, n, c)
    ensures WorkOf((if t.Nested() then [Work(Some(n + |c|), t.kids)] else []) + p, n, c + [t])
  {
    assert forall w | w in p :: (c + [t])[w.parent.value - n] == c[w.parent.value - n];
  }

  lemma NoWork(n: nat)
    ensures WorkOf([], n, [])
  {
  }

  lemma PendingMore(p: seq<Work>, w: Work, k: nat)
    ensures Pending([w] + p, k) <==> w.parent == Some(k) || Pending(p, k)
  {
    if i :| 0 <= i < |p| && p[i].parent == Some(k) {
      assert ([w] + p)[i + 1].parent == Some(k);
    }
    assert ([w] + p)[0] == w;
  }

  lemma PushWorkPending(n: nat, c: seq<Tok>)
    ensures WorkOf(PushWork(n, c), n, c)
    ensures forall j | 0 <= j < |c| && c[j].Nested() :: Pending(PushWork(n, c), n + j)
  {
    hide WorkOf, Pending;
    if c == [] {
      NoWork(n);
    } else {
      var c', t := c[..|c| - 1], c[|c| - 1];
      PushWorkPending(n, c');
      WorkMore(PushWork(n, c'), n, c', t);
      var w := Work(Some(n + |c'|), t.kids);
      assert c == c' + [t] && PushWork(n, c) == if t.Nested() then [w] + PushWork(n, c') else PushWork(n, c');
      forall j | 0 <= j < |c| && c[j].Nested()
        ensures Pending(PushWork(n, c), n + j)
      {
        PendingMore(PushWork(n, c'), w, n + j);
        assert j < |c'| ==> c'[j] == c[j];
      }
    }
  }

  // The kids of token k stand in one piece at the address recorded for it, behind k.
  predicate Placed(toks: seq<Tok>, body: seq<int>, k: nat)
    requires k < |toks| == |body|
  {
    && body[k] >= 0 && body[k] % BINOBJ_SIZE == 0
    && k < body[k] / BINOBJ_SIZE <= |toks| - |toks[k].kids|
    && toks[body[k] / BINOBJ_SIZE..body[k] / BINOBJ_SIZE + |toks[k].kids|] == toks[k].kids
  }

  // Position j lies in the piece of token p.
  predicate Inside(toks: seq<Tok>, body: seq<int>, p: nat, j: nat)
    requires p < |toks| == |body|
  {
    toks[p].Nested() && Placed(toks, body, p) && body[p] / BINOBJ_SIZE <= j < body[p] / BINOBJ_SIZE + |toks[p].kids|
  }

  // Each entry of the work list belongs to a token seen, and no token has two entries.
  ghost predicate Owned(ws: seq<Work>, toks: seq<Tok>) {
    && (forall i | 0 <= i < |ws| && ws[i].parent.Some? ::
          var k := ws[i].parent.value; k < |toks| && toks[k].Nested() && ws[i].toks == toks[k].kids)
    && (forall i, j | 0 <= i < j < |ws| :: ws[i].parent != ws[j].parent)
  }

  ghost predicate AllPlaced(ws: seq<Work>, toks: seq<Tok>, body: seq<int>)
    requires |body| == |toks|
  {
    forall k | 0 <= k < |toks| && toks[k].Nested() :: Pending(ws, k) || Placed(toks, body, k)
  }

  ghost predicate Covered(ws: seq<Work>, toks: seq<Tok>, body: seq<int>, j: nat)
    requires |body| == |toks|
  {
    exists p: nat :: p < j && p < |toks| && !Pending(ws, p) && Inside(toks, body, p, j)
  }

  ghost predicate AllCovered(n: nat, ws: seq<Work>, toks: seq<Tok>, body: seq<int>)
    requires |body| == |toks|
  {
    forall j | n <= j < |toks| :: Covered(ws, toks, body, j)
  }

  /** The loop state of BuildTypesAndAssignAddresses between two entries of the work list. */
  ghost predicate Layout(root: seq<Tok>, ws: seq<Work>, toks: seq<Tok>, body: seq<int>) {
    && |body| == |toks|
    && Flat([root]) == toks + Flat(Bodies(ws))
    && Owned(ws, toks)
    && AllPlaced(ws, toks, body)
    && AllCovered(|root|, ws, toks, body)
  }

  // Where each body starts when the list ws is worked off from token index n on.
  function Starts(n: nat, ws: seq<Work>): map<nat, nat>
    requires forall w | w in ws :: w.parent.Some?
    decreases WorkWeight(Bodies(ws))
  {
    if ws == [] then map[]
    else
      WorkShrinks(ws, n);
      PushWorkPending(n, ws[0].toks);
      Starts(n + |ws[0].toks|, PushWork(n, ws[0].toks) + ws[1..])[ws[0].parent.value := n]
  }

  lemma StillPending(p: seq<Work>, ws: seq<Work>, n: nat, c: seq<Tok>, k: nat)
    requires WorkOf(p, n, c) && ws != [] && k < n && Pending(p + ws[1..], k)
    ensures Pending(ws, k)
  {
    var i :| 0 <= i < |p + ws[1..]| && (p + ws[1..])[i].parent == Some(k);
    assert ws[i - |p| + 1].parent == Some(k);
  }

  lemma {:induction false} StartsKeys(n: nat, ws: seq<Work>)
    requires forall w | w in ws :: w.parent.Some?
    ensures forall k | k in Starts(n, ws) :: Pending(ws, k) || k >= n
    ensures forall i | 0 <= i < |ws| :: ws[i].parent.value in Starts(n, ws)
    decreases WorkWeight(Bodies(ws))
  {
    if ws != [] {
      WorkShrinks(ws, n);
      PushWorkPending(n, ws[0].toks);
      var p, ws' := PushWork(n, ws[0].toks), PushWork(n, ws[0].toks) + ws[1..];
      StartsKeys(n + |ws[0].toks|, ws');
      forall k | k in Starts(n, ws) && k < n
        ensures Pending(ws, k)
      {
        if k == ws[0].parent.value { assert ws[0].parent == Some(k); } else { StillPending(p, ws, n, ws[0].toks, k); }
      }
      forall i | 0 <= i < |ws|
        ensures ws[i].parent.value in Starts(n, ws)
      {
        if i > 0 { assert ws'[|p| + i - 1] == ws[i]; }
      }
    }
  }

  function RootStarts(root: seq<Tok>): map<nat, nat> {
    PushWorkPending(0, root);
    Starts(|root|, PushWork(0, root))
  }

  /** Bodies were taken up in the order of the work list: those done stand where S says, those to come will. */
  ghost predicate Traced(S: map<nat, nat>, ws: seq<Work>, toks: seq<Tok>, body: seq<int>)
    requires |body| == |toks| && forall w | w in ws :: w.parent.Some?
  {
    && (forall k | 0 <= k < |toks| && toks[k].Nested() && !Pending(ws, k) :: k in S && body[k] == BINOBJ_SIZE * S[k])
    && (forall k | k in Starts(|toks|, ws) :: k in S && S[k] == Starts(|toks|, ws)[k])
  }

  // Taking up ws[0] at token index n leaves the starts of the others as they were to be.
  lemma StartsStep(n: nat, ws: seq<Work>)
    requires ws != [] && forall w | w in ws :: w.parent.Some?
    requires ws[0].parent.value < n && forall i, j | 0 <= i < j < |ws| :: ws[i].parent != ws[j].parent
    requires forall w | w in PushWork(n, ws[0].toks) + ws[1..] :: w.parent.Some?
    ensures Starts(n, ws) == Starts(n + |ws[0].toks|, PushWork(n, ws[0].toks) + ws[1..])[ws[0].parent.value := n]
    ensures ws[0].parent.value !in Starts(n + |ws[0].toks|, PushWork(n, ws[0].toks) + ws[1..])
  {
    var c := ws[0].toks;
    WorkShrinks(ws, n);
    StartsKeys(n + |c|, PushWork(n, c) + ws[1..]);
    PendingStep(ws, n, c, ws[0].parent.value);
  }

  lemma TracedStep(S: map<nat, nat>, ws: seq<Work>, toks: seq<Tok>, body: seq<int>, body': seq<int>)
    requires |body| == |toks| && ws != [] && forall w | w in ws :: w.parent.Some?
    requires Owned(ws, toks) && Traced(S, ws, toks, body)
    requires |body'| == |toks| + |ws[0].toks|
    requires forall k | 0 <= k < |toks| :: body'[k] == if k == ws[0].parent.value then BINOBJ_SIZE * |toks| else body[k]
    requires forall w | w in PushWork(|toks|, ws[0].toks) + ws[1..] :: w.parent.Some?
    ensures Traced(S, PushWork(|toks|, ws[0].toks) + ws[1..], toks + ws[0].toks, body')
  {
    hide Starts, PushWork;
    var n, c, k0 := |toks|, ws[0].toks, ws[0].parent.value;
    var ws' := PushWork(n, c) + ws[1..];
    StartsStep(n, ws);
    var later := Starts(n + |c|, ws');
    assert Starts(n, ws)[k0] == n;
    forall k | 0 <= k < n + |c| && (toks + c)[k].Nested() && !Pending(ws', k)
      ensures k in S && body'[k] == BINOBJ_SIZE * S[k]
    {
      PendingStep(ws, n, c, k);
    }
    forall k | k in later
      ensures k in S && S[k] == later[k]
    {
      assert k in Starts(n, ws);
    }
  }

  // What the loop stores into body for a token that is not an array or a procedure: the tag of a system name.
  function BodyInit(o: Opts, t: Tok): int {
    if SysName(o, t) then o.sysNames[t.text] else 0
  }

  predicate SysName(o: Opts, t: Tok) {
    (t.kind.NameTok? || t.kind.LitNameTok?) && t.formal.None? && t.text in o.sysNames
  }

  function BodyInits(o: Opts, c: seq<Tok>): seq<int> {
    seq(|c|, i requires 0 <= i < |c| => BodyInit(o, c[i]))
  }

  lemma OwnedJoin(p: seq<Work>, ws: seq<Work>, toks: seq<Tok>, c: seq<Tok>)
    requires WorkOf(p, |toks|, c) && Owned(ws, toks)
    ensures Owned(p + ws, toks + c)
  {
    forall i, j | 0 <= i < j < |p + ws|
      ensures (p + ws)[i].parent != (p + ws)[j].parent
    {
      if i < |p| <= j { assert p[i] in p; }
    }
  }

  lemma OwnedStep(ws: seq<Work>, toks: seq<Tok>, c: seq<Tok>)
    requires Owned(ws, toks) && ws != []
    ensures Owned(PushWork(|toks|, c) + ws[1..], toks + c)
  {
    hide PushWork, WorkOf, Pending;
    PushWorkPending(|toks|, c);
    OwnedJoin(PushWork(|toks|, c), ws[1..], toks, c);
  }

  // Who is still pending after one round.
  lemma PendingStep(ws: seq<Work>, n: nat, c: seq<Tok>, k: nat)
    requires ws != [] && (forall i, j | 0 <= i < j < |ws| :: ws[i].parent != ws[j].parent)
    ensures k < n ==> (Pending(PushWork(n, c) + ws[1..], k) <==> Pending(ws, k) && ws[0].parent != Some(k))
    ensures n <= k < n + |c| && c[k - n].Nested() ==> Pending(PushWork(n, c) + ws[1..], k)
  {
    hide PushWork;
    var p, ws' := PushWork(n, c), PushWork(n, c) + ws[1..];
    PushWorkPending(n, c);
    if Pending(ws', k) && k < n {
      var i :| 0 <= i < |ws'| && ws'[i].parent == Some(k);
      assert ws[i - |p| + 1].parent == Some(k);
    }
    if Pending(ws, k) && ws[0].parent != Some(k) {
      var i :| 0 <= i < |ws| && ws[i].parent == Some(k);
      assert ws'[|p| + i - 1].parent == Some(k);
    }
    if Pending(p, k) {
      var i :| 0 <= i < |p| && p[i].parent == Some(k);
      assert ws'[i].parent == Some(k);
    }
  }

  lemma PlacedExtends(toks: seq<Tok>, body: seq<int>, c: seq<Tok>, body': seq<int>, k: nat)
    requires k < |toks| == |body| && |body'| == |toks| + |c| && body'[k] == body[k] && Placed(toks, body, k)
    ensures Placed(toks + c, body', k)
  {
    var s, n := body[k] / BINOBJ_SIZE, |toks[k].kids|;
    assert (toks + c)[s..s + n] == toks[s..s + n];
  }

  lemma JustPlaced(toks: seq<Tok>, c: seq<Tok>, body': seq<int>, k: nat)
    requires k < |toks| && toks[k].kids == c && |body'| == |toks| + |c| && body'[k] == BINOBJ_SIZE * |toks|
    ensures Placed(toks + c, body', k)
  {
  }

  // Popping a nested body, appending its tokens and pushing their bodies keeps the layout.
  lemma LayoutStep(root: seq<Tok>, ws: seq<Work>, toks: seq<Tok>, body: seq<int>, body': seq<int>)
    requires Layout(root, ws, toks, body) && ws != [] && ws[0].parent.Some?
    requires ws[0].parent.value < |toks| && |body'| == |toks| + |ws[0].toks|
    requires forall k | 0 <= k < |toks| :: body'[k] == if k == ws[0].parent.value then BINOBJ_SIZE * |toks| else body[k]
    ensures Layout(root, PushWork(|toks|, ws[0].toks) + ws[1..], toks + ws[0].toks, body')
  {
    var n, c := |toks|, ws[0].toks;
    var ws', toks' := PushWork(n, c) + ws[1..], toks + c;
    assert Bodies(ws) == [c] + Bodies(ws[1..]);
    FlatStep(Flat([root]), toks, Bodies(ws));
    PushWorkBodies(n, c, ws[1..]);
    OwnedStep(ws, toks, c);
    PlacedStep(ws, toks, body, body');
    CoveredStep(|root|, ws, toks, body, body');
  }

  lemma PlacedStep(ws: seq<Work>, toks: seq<Tok>, body: seq<int>, body': seq<int>)
    requires |body| == |toks| && Owned(ws, toks) && AllPlaced(ws, toks, body)
    requires ws != [] && ws[0].parent.Some? && |body'| == |toks| + |ws[0].toks|
    requires forall k | 0 <= k < |toks| :: body'[k] == if k == ws[0].parent.value then BINOBJ_SIZE * |toks| else body[k]
    ensures AllPlaced(PushWork(|toks|, ws[0].toks) + ws[1..], toks + ws[0].toks, body')
  {
    var n, c := |toks|, ws[0].toks;
    var ws', toks' := PushWork(n, c) + ws[1..], toks + c;
    forall k | 0 <= k < |toks'| && toks'[k].Nested()
      ensures Pending(ws', k) || Placed(toks', body', k)
    {
      PendingStep(ws, n, c, k);
      if k == ws[0].parent.value {
        JustPlaced(toks, c, body', k);
      } else if k < n && !Pending(ws, k) {
        PlacedExtends(toks, body, c, body', k);
      }
    }
  }

  lemma CoveredStep(m: nat, ws: seq<Work>, toks: seq<Tok>, body: seq<int>, body': seq<int>)
    requires |body| == |toks| && Owned(ws, toks) && AllCovered(m, ws, toks, body)
    requires ws != [] && ws[0].parent.Some? && |body'| == |toks| + |ws[0].toks|
    requires forall k | 0 <= k < |toks| :: body'[k] == if k == ws[0].parent.value then BINOBJ_SIZE * |toks| else body[k]
    ensures AllCovered(m, PushWork(|toks|, ws[0].toks) + ws[1..], toks + ws[0].toks, body')
  {
    var n, c := |toks|, ws[0].toks;
    var ws', toks' := PushWork(n, c) + ws[1..], toks + c;
    forall j | m <= j < |toks'|
      ensures Covered(ws', toks', body', j)
    {
      if j < n {
        assert Covered(ws, toks, body, j);
        var p: nat :| p < j && p < |toks| && !Pending(ws, p) && Inside(toks, body, p, j);
        PendingStep(ws, n, c, p);
        assert Pending(ws, ws[0].parent.value);
        PlacedExtends(toks, body, c, body', p);
        assert Inside(toks', body', p, j);
      } else {
        var p := ws[0].parent.value;
        PendingStep(ws, n, c, p);
        JustPlaced(toks, c, body', p);
        assert Inside(toks', body', p, j);
      }
    }
  }

  lemma WorkShrinks(ws: seq<Work>, n: nat)
    requires ws != []
    ensures WorkWeight(Bodies(PushWork(n, ws[0].toks) + ws[1..])) < WorkWeight(Bodies(ws))
  {
    assert Bodies(ws) == [ws[0].toks] + Bodies(ws[1..]);
    FlatStep(Flat(Bodies(ws)), [], Bodies(ws));
    PushWorkBodies(n, ws[0].toks, ws[1..]);
  }

  lemma PushWorkValid(o: Opts, n: nat, c: seq<Tok>)
    requires ValidToks(o, c)
    ensures forall w | w in PushWork(n, c) :: w.parent.Some? && ValidToks(o, w.toks)
  {
    if c != [] {
      assert ValidTok(o, c[|c| - 1]);
      PushWorkValid(o, n, c[..|c| - 1]);
    }
  }

  // The list after the wrap's own body.
  lemma RootWork(root: seq<Tok>)
    ensures Owned(PushWork(0, root), root) && Flat([root]) == root + Flat(Bodies(PushWork(0, root)))
  {
    PushWorkBodies(0, root, []);
    PushWorkPending(0, root);
    var ws := PushWork(0, root);
    assert ws + [] == ws;
    assert [root] == [root] + [];
    forall i | 0 <= i < |ws|
      ensures ws[i].parent.Some? && ws[i].parent.value < |root|
              && root[ws[i].parent.value].Nested() && ws[i].toks == root[ws[i].parent.value].kids
    {
      assert ws[i] in ws;
    }
  }

  lemma LayoutStart(root: seq<Tok>, body': seq<int>)
    requires |body'| == |root|
    ensures Layout(root, PushWork(0, root), root, body')
  {
    RootWork(root);
    PushWorkPending(0, root);
  }

  // body after body[idx[i]] := vals[i] for the first n indices in turn.
  function StoreN(body: seq<int>, idx: seq<nat>, vals: seq<int>, n: nat): (r: seq<int>)
    requires InRange(idx, |body|) && |vals| == |idx| && n <= |idx|
    ensures |r| == |body|
  {
    if n == 0 then body else StoreN(body, idx, vals, n - 1)[idx[n - 1] := vals[n - 1]]
  }

  function Store(body: seq<int>, idx: seq<nat>, vals: seq<int>): (r: seq<int>)
    requires InRange(idx, |body|) && |vals| == |idx|
    ensures |r| == |body|
  {
    StoreN(body, idx, vals, |idx|)
  }

  lemma {:induction false} StoreAt(body: seq<int>, idx: seq<nat>, vals: seq<int>, n: nat)
    requires InRange(idx, |body|) && |vals| == |idx| && Distinct(idx) && n <= |idx|
    ensures forall i | 0 <= i < n :: StoreN(body, idx, vals, n)[idx[i]] == vals[i]
    ensures forall k | 0 <= k < |body| && k !in idx[..n] :: StoreN(body, idx, vals, n)[k] == body[k]
  {
    if n > 0 {
      StoreAt(body, idx, vals, n - 1);
      forall k | 0 <= k < |body| && k !in idx[..n]
        ensures StoreN(body, idx, vals, n)[k] == body[k]
      {
        assert idx[n - 1] == idx[..n][n - 1];
        assert forall i | 0 <= i < n - 1 :: idx[..n - 1][i] == idx[..n][i];
      }
    }
  }

  function ArrayOffsets(ts: seq<Tok>, start: nat): seq<int> {
    seq(|ts|, i requires 0 <= i < |ts| => start + ConstArrays(ts[..i]))
  }

  function StringOffsets(o: Opts, ts: seq<Tok>, start: nat): seq<int> {
    seq(|ts|, i requires 0 <= i < |ts| => start + ConstStrings(o, ts[..i]))
  }

  function Shift(locs: seq<nat>, start: nat): seq<int> {
    seq(|locs|, i requires 0 <= i < |locs| => start + locs[i])
  }

  /** What BuildTypesAndAssignAddresses leaves for the passes after it: the token records, the token lists and sizes. */
  datatype Plan = Plan(
    toks: seq<Tok>, body: seq<int>, wellKnown: seq<bool>,
    arrays: seq<nat>, strings: seq<nat>, literals: seq<nat>, names: seq<nat>,
    writable: bool, twoStatics: bool, stringBytes: nat, size: nat, structSize: nat, nObjs: nat)

  // The records are laid out, and every token is on its list.
  ghost predicate Listed(o: Opts, root: seq<Tok>, p: Plan) {
    && p.toks == Flat([root]) && |p.body| == |p.wellKnown| == |p.toks|
    && Layout(root, [], p.toks, p.body) && Traced(RootStarts(root), [], p.toks, p.body)
    && p.arrays == Picks(o, InArray, p.toks) && p.strings == Picks(o, InString, p.toks)
    && p.literals == Picks(o, Lit, p.toks) && p.names == NameList(o, p.toks)
    && InRange(p.arrays, |p.toks|) && InRange(p.strings, |p.toks|) && InRange(p.literals, |p.toks|)
    && (forall k | 0 <= k < |p.toks| :: p.wellKnown[k] == SysName(o, p.toks[k]))
  }

  // vals[i] is stored at index idx[i] of body.
  predicate Stored(body: seq<int>, idx: seq<nat>, vals: seq<int>) {
    InRange(idx, |body|) && |vals| == |idx| && forall i | 0 <= i < |idx| :: body[idx[i]] == vals[i]
  }

  // The compile-time addresses: records, then input arrays, literals and input strings of constant length.

  function LitStart(ts: seq<Tok>, a: seq<nat>): nat
    requires InRange(a, |ts|)
  {
    BINOBJ_SIZE * |ts| + ConstArrays(At(ts, a))
  }

  function Shared(ts: seq<Tok>, l: seq<nat>): (s: Sharing)
    requires InRange(l, |ts|)
    ensures |s.locs| == |l|
  {
    Share(At(ts, l))
  }

  function StrStart(ts: seq<Tok>, a: seq<nat>, l: seq<nat>): nat
    requires InRange(a, |ts|) && InRange(l, |ts|)
  {
    LitStart(ts, a) + Shared(ts, l).total
  }

  function ArrayAddresses(ts: seq<Tok>, a: seq<nat>): (r: seq<int>)
    requires InRange(a, |ts|)
    ensures |r| == |a|
  {
    ArrayOffsets(At(ts, a), BINOBJ_SIZE * |ts|)
  }

  function LitAddresses(ts: seq<Tok>, a: seq<nat>, l: seq<nat>): (r: seq<int>)
    requires InRange(a, |ts|) && InRange(l, |ts|)
    ensures |r| == |l|
  {
    Shift(Shared(ts, l).locs, LitStart(ts, a))
  }

  function StringAddresses(o: Opts, ts: seq<Tok>, a: seq<nat>, l: seq<nat>, s: seq<nat>): (r: seq<int>)
    requires InRange(a, |ts|) && InRange(l, |ts|) && InRange(s, |ts|)
    ensures |r| == |s|
  {
    StringOffsets(o, At(ts, s), StrStart(ts, a, l))
  }

  // The sizes counted in the three address loops.
  ghost predicate Counted(o: Opts, p: Plan)
    requires InRange(p.arrays, |p.toks|) && InRange(p.strings, |p.toks|) && InRange(p.literals, |p.toks|)
  {
    && p.stringBytes == Shared(p.toks, p.literals).total
    && p.size == StrStart(p.toks, p.arrays, p.literals) + ConstStrings(o, At(p.toks, p.strings))
    && p.nObjs == |p.toks| + |Shared(p.toks, p.literals).placed|
  }

  // The flags and sizes that do not depend on addresses.
  ghost predicate Flagged(p: Plan, numeric: bool) {
    && p.structSize == BINOBJ_SIZE * |p.toks|
    && p.writable == (AnyWritable(p.toks) || p.names != [] || numeric)
    && p.twoStatics == (p.arrays != [] && p.literals != [])
  }

  /** Every token record has its address field, and the totals are right. */
  ghost predicate Addressed(o: Opts, p: Plan)
    requires |p.body| == |p.toks|
    requires InRange(p.arrays, |p.toks|) && InRange(p.strings, |p.toks|) && InRange(p.literals, |p.toks|)
  {
    && Stored(p.body, p.arrays, ArrayAddresses(p.toks, p.arrays))
    && Stored(p.body, p.literals, LitAddresses(p.toks, p.arrays, p.literals))
    && Stored(p.body, p.strings, StringAddresses(o, p.toks, p.arrays, p.literals, p.strings))
    && (forall k | 0 <= k < |p.toks| && RoleOf(o, p.toks[k]) !in {InArray, InString, Lit} && !p.toks[k].Nested() ::
          p.body[k] == BodyInit(o, p.toks[k]))
    && Counted(o, p)
    && Flagged(p, AnyConstNumStr(At(p.toks, p.strings)))
  }

  // Only arrays, procedures and their pieces matter to the layout.
  lemma LayoutIgnores(root: seq<Tok>, toks: seq<Tok>, body: seq<int>, body': seq<int>)
    requires Layout(root, [], toks, body) && |body'| == |body|
    requires forall k | 0 <= k < |toks| && toks[k].Nested() :: body'[k] == body[k]
    ensures Layout(root, [], toks, body')
  {
    forall k | 0 <= k < |toks| && toks[k].Nested()
      ensures Placed(toks, body', k)
    {
      assert Placed(toks, body, k);
    }
    forall j | |root| <= j < |toks|
      ensures Covered([], toks, body', j)
    {
      assert Covered([], toks, body, j);
      var p: nat :| p < j && p < |toks| && !Pending([], p) && Inside(toks, body, p, j);
      assert Inside(toks, body', p, j);
    }
  }

  predicate Apart(a: seq<nat>, b: seq<nat>) { forall i, j | 0 <= i < |a| && 0 <= j < |b| :: a[i] != b[j] }

  // The three address loops store into different records.
  lemma ThreeStores(body: seq<int>, a: seq<nat>, av: seq<int>, l: seq<nat>, lv: seq<int>, s: seq<nat>, sv: seq<int>)
    requires InRange(a, |body|) && InRange(l, |body|) && InRange(s, |body|)
    requires |av| == |a| && |lv| == |l| && |sv| == |s|
    requires Distinct(a) && Distinct(l) && Distinct(s) && Apart(a, l) && Apart(a, s) && Apart(l, s)
    ensures var b := Store(Store(Store(body, a, av), l, lv), s, sv);
            && Stored(b, a, av) && Stored(b, l, lv) && Stored(b, s, sv)
            && forall k | 0 <= k < |body| && k !in a && k !in l && k !in s :: b[k] == body[k]
  {
    var b1 := Store(body, a, av);
    var b2 := Store(b1, l, lv);
    var b3 := Store(b2, s, sv);
    StoreAt(body, a, av, |a|);
    StoreAt(b1, l, lv, |l|);
    StoreAt(b2, s, sv, |s|);
    assert a[..|a|] == a && l[..|l|] == l && s[..|s|] == s;
  }

  lemma RolesApart(o: Opts, r: Role, r': Role, ts: seq<Tok>)
    requires r != r'
    ensures Apart(Picks(o, r, ts), Picks(o, r', ts)) && Distinct(Picks(o, r, ts))
    ensures InRange(Picks(o, r, ts), |ts|)
    ensures forall k | k in Picks(o, r, ts) :: k < |ts| && RoleOf(o, ts[k]) == r
  {
    PicksRange(o, r, ts);
    PicksRange(o, r', ts);
    PicksDistinct(o, r, ts);
  }

  lemma NestedRole(o: Opts, t: Tok)
    requires t.Nested()
    ensures RoleOf(o, t) == Plain
  {
  }

  // Each list names tokens, of its own kind.
  ghost predicate Ready(p: Plan) {
    && |p.body| == |p.toks|
    && InRange(p.arrays, |p.toks|) && InRange(p.strings, |p.toks|) && InRange(p.literals, |p.toks|)
    && (forall t | t in At(p.toks, p.arrays) :: Fits(InArray, t))
    && (forall t | t in At(p.toks, p.strings) :: Fits(InString, t))
    && (forall t | t in At(p.toks, p.literals) :: Fits(Lit, t))
  }

  // ----- the second half of BuildTypesAndAssignAddresses: addresses for what follows the token records

  lemma ArrayOffsetAt(ts: seq<Tok>, start: nat, i: nat)
    requires i < |ts|
    ensures |ArrayOffsets(ts, start)| == |ts| && ArrayOffsets(ts, start)[i] == start + ConstArrays(ts[..i])
    ensures ConstArrays(ts[..i + 1]) == ConstArrays(ts[..i]) + ConstArray(ts[i])
  {
    assert ts[..i + 1][..i] == ts[..i];
  }

  lemma NoOffsets(ts: seq<Tok>, start: nat)
    ensures |ArrayOffsets(ts, start)| == |ts| && ConstArrays(ts[..0]) == 0
  {
  }

  method PlaceArrays(p: Plan, start: nat) returns (body: seq<int>, next: nat)
    requires Ready(p)
    requires start == BINOBJ_SIZE * |p.toks|
    ensures next == LitStart(p.toks, p.arrays)
    ensures body == Store(p.body, p.arrays, ArrayAddresses(p.toks, p.arrays))
  {
    hide ConstArrays, ArrayOffsets;
    ghost var ts := At(p.toks, p.arrays);
    ghost var offsets := ArrayOffsets(ts, start);
    NoOffsets(ts, start);
    body, next := p.body, start;
    for i := 0 to |p.arrays|
      invariant next == start + ConstArrays(ts[..i])
      invariant body == StoreN(p.body, p.arrays, offsets, i)
    {
      ArrayOffsetAt(ts, start, i);
      var t := p.toks[p.arrays[i]];
      assert t == ts[i] && t in ts;
      body := body[p.arrays[i] := next];
      if t.formal.value.sub.value.Constant? { next := next + t.formal.value.sub.value.val * BINOBJ_SIZE; }
    }
    assert ts[..|ts|] == ts;
  }

  // The bytes to leave for an input string: none unless its length is constant.
  method StringRoom(o: Opts, t: Tok) returns (n: nat, numeric: bool)
    requires Fits(InString, t)
    ensures n == ConstString(o, t) && (numeric <==> t.formal.value.ConstSub() && t.formal.value.ctype.IsNumStr())
  {
    n, numeric := 0, false;
    if t.formal.value.sub.Some? && t.formal.value.sub.value.Constant? {
      if t.formal.value.ctype.IsNumStr() {
        n, numeric := NUMSTR_HEADER_SIZE, true;
      } else if o.pad {
        n := RoundUp(t.formal.value.sub.value.val);
      } else {
        n := t.formal.value.sub.value.val;
      }
    }
  }

  lemma StringsNone(o: Opts, ts: seq<Tok>)
    ensures ConstStrings(o, ts[..0]) == 0 && !AnyConstNumStr(ts[..0])
  {
  }

  lemma StringsSnoc(o: Opts, ts: seq<Tok>, i: nat)
    requires i < |ts|
    ensures ConstStrings(o, ts[..i + 1]) == ConstStrings(o, ts[..i]) + ConstString(o, ts[i])
    ensures AnyConstNumStr(ts[..i + 1])
            <==> AnyConstNumStr(ts[..i])
                 || (ts[i].formal.Some? && ts[i].formal.value.ConstSub() && ts[i].formal.value.ctype.IsNumStr())
  {
    assert ts[..i + 1][..i] == ts[..i];
  }

  method PlaceStrings(o: Opts, p: Plan, start: nat) returns (body: seq<int>, next: nat, numeric: bool)
    requires Ready(p) && start == StrStart(p.toks, p.arrays, p.literals)
    ensures next == start + ConstStrings(o, At(p.toks, p.strings))
    ensures body == Store(p.body, p.strings, StringAddresses(o, p.toks, p.arrays, p.literals, p.strings))
    ensures numeric == AnyConstNumStr(At(p.toks, p.strings))
  {
    hide ConstString, StrStart, ConstStrings, AnyConstNumStr;
    ghost var ts := At(p.toks, p.strings);
    ghost var offsets := StringOffsets(o, ts, start);
    body, next, numeric := p.body, start, false;
    StringsNone(o, ts);
    for i := 0 to |p.strings|
      invariant next == start + ConstStrings(o, ts[..i])
      invariant body == StoreN(p.body, p.strings, offsets, i)
      invariant numeric == AnyConstNumStr(ts[..i])
    {
      var t := p.toks[p.strings[i]];
      assert t == ts[i] && t in ts;
      StringsSnoc(o, ts, i);
      body := body[p.strings[i] := next];
      var room, num := StringRoom(o, t);
      next, numeric := next + room, numeric || num;
    }
    assert ts[..|ts|] == ts;
  }

  // t->body = nextAdr for each literal; `declared` counts the string fields of the record type.
  method PlaceLiterals(p: Plan, start: nat, interner: PswDict.Interner) returns (body: seq<int>, next: nat, declared: nat)
    requires Ready(p) && interner.Valid() && start == LitStart(p.toks, p.arrays)
    modifies interner.Repr
    ensures interner.Valid() && fresh(interner.Repr - old(interner.Repr))
    ensures next == StrStart(p.toks, p.arrays, p.literals) && declared == |Shared(p.toks, p.literals).placed|
    ensures body == Store(p.body, p.literals, LitAddresses(p.toks, p.arrays, p.literals))
  {
    hide PswDict.Interner.Valid, Share;
    var locs;
    locs, next, declared := WalkLiterals(At(p.toks, p.literals), interner, start);
    ghost var addresses := Shift(locs, start);
    body := p.body;
    for i := 0 to |p.literals|
      invariant body == StoreN(p.body, p.literals, addresses, i)
      modifies {}
    {
      body := body[p.literals[i] := start + locs[i]];
    }
  }

  // The addresses stored by the three loops, over the body fields the work list left behind.
  ghost function Filled(p: Plan, body0: seq<int>, av: seq<int>, lv: seq<int>, sv: seq<int>): seq<int>
    requires |body0| == |p.toks|
    requires InRange(p.arrays, |p.toks|) && InRange(p.strings, |p.toks|) && InRange(p.literals, |p.toks|)
    requires |av| == |p.arrays| && |lv| == |p.literals| && |sv| == |p.strings|
  {
    Store(Store(Store(body0, p.arrays, av), p.literals, lv), p.strings, sv)
  }

  lemma FilledAddresses(o: Opts, p: Plan, body0: seq<int>, av: seq<int>, lv: seq<int>, sv: seq<int>)
    requires |body0| == |p.toks| && |av| == |p.arrays| && |lv| == |p.literals| && |sv| == |p.strings|
    requires p.arrays == Picks(o, InArray, p.toks) && p.strings == Picks(o, InString, p.toks)
    requires p.literals == Picks(o, Lit, p.toks)
    requires InRange(p.arrays, |p.toks|) && InRange(p.strings, |p.toks|) && InRange(p.literals, |p.toks|)
    requires p.body == Filled(p, body0, av, lv, sv)
    ensures Stored(p.body, p.arrays, av) && Stored(p.body, p.literals, lv) && Stored(p.body, p.strings, sv)
    ensures forall k | 0 <= k < |p.toks| && RoleOf(o, p.toks[k]) !in {InArray, InString, Lit} :: p.body[k] == body0[k]
  {
    RolesApart(o, InArray, Lit, p.toks);
    RolesApart(o, InArray, InString, p.toks);
    RolesApart(o, Lit, InString, p.toks);
    RolesApart(o, InString, Lit, p.toks);
    ThreeStores(body0, p.arrays, av, p.literals, lv, p.strings, sv);
  }

  method PlacePieces(o: Opts, q: Plan, interner: PswDict.Interner) returns (p: Plan)
    requires Ready(q) && interner.Valid()
    modifies interner.Repr
    ensures interner.Valid() && fresh(interner.Repr - old(interner.Repr))
    ensures Ready(p) && Completes(o, q, p)
  {
    p := q;
    var body, start := PlaceArrays(p, BINOBJ_SIZE * |p.toks|);
    p := p.(body := body);
    var next, declared;
    body, next, declared := PlaceLiterals(p, start, interner);
    p := p.(body := body, stringBytes := next - start, nObjs := |p.toks| + declared);
    var numeric;
    body, next, numeric := PlaceStrings(o, p, next);
    p := p.(body := body, size := next, writable := p.writable || numeric);
  }

  // p is q with the three address loops done.
  ghost predicate Completes(o: Opts, q: Plan, p: Plan)
    requires Ready(q)
  {
    && p.toks == q.toks && p.wellKnown == q.wellKnown && p.arrays == q.arrays && p.strings == q.strings
    && p.literals == q.literals && p.names == q.names && p.twoStatics == q.twoStatics && p.structSize == q.structSize
    && p.body == Filled(q, q.body, ArrayAddresses(q.toks, q.arrays), LitAddresses(q.toks, q.arrays, q.literals),
                        StringAddresses(o, q.toks, q.arrays, q.literals, q.strings))
    && p.writable == (q.writable || AnyConstNumStr(At(q.toks, q.strings)))
    && Counted(o, p)
  }

  // The address loops leave the fields of arrays and procedures alone.
  lemma PlacedLayout(o: Opts, root: seq<Tok>, q: Plan, p: Plan)
    requires Listed(o, root, q) && p.toks == q.toks && |p.body| == |p.toks|
    requires forall k | 0 <= k < |p.toks| && RoleOf(o, p.toks[k]) !in {InArray, InString, Lit} :: p.body[k] == q.body[k]
    ensures Layout(root, [], p.toks, p.body) && Traced(RootStarts(root), [], p.toks, p.body)
  {
    hide RoleOf, Picks, NameList, Flat, SysName;
    forall k | 0 <= k < |p.toks| && p.toks[k].Nested()
      ensures p.body[k] == q.body[k]
    {
      NestedRole(o, p.toks[k]);
    }
    LayoutIgnores(root, p.toks, q.body, p.body);
  }

  lemma PlacedPlan(o: Opts, root: seq<Tok>, q: Plan, p: Plan)
    requires Ready(q) && Listed(o, root, q) && Completes(o, q, p) && Flagged(q, false)
    requires forall k | 0 <= k < |q.toks| && !q.toks[k].Nested() :: q.body[k] == BodyInit(o, q.toks[k])
    ensures Listed(o, root, p) && Addressed(o, p)
  {
    hide RoleOf, BodyInit, Layout, Traced, Flat, NameList, SysName, Store, Stored, Picks, ArrayAddresses, LitAddresses, StringAddresses;
    FilledAddresses(o, p, q.body, ArrayAddresses(q.toks, q.arrays), LitAddresses(q.toks, q.arrays, q.literals),
                    StringAddresses(o, q.toks, q.arrays, q.literals, q.strings));
    PlacedLayout(o, root, q, p);
    assert Flagged(p, AnyConstNumStr(At(p.toks, p.strings)));
    assert forall k | 0 <= k < |p.toks| && RoleOf(o, p.toks[k]) !in {InArray, InString, Lit} && !p.toks[k].Nested() ::
        p.body[k] == BodyInit(o, p.toks[k]);
  }

  // The lists and fields that a token of each kind does not get to.
  lemma Visits(o: Opts, t: Tok)
    ensures t.kind.StringTok? || t.kind.HexTok? ==> RoleOf(o, t) in {Lit, InString, Plain} && !SysName(o, t) && BodyInit(o, t) == 0
    ensures t.kind.NameTok? && t.formal.Some? ==>
              RoleOf(o, t) in {InArray, InString, Plain} && !SysName(o, t) && BodyInit(o, t) == 0
    ensures (t.kind.NameTok? || t.kind.LitNameTok?) && t.formal.None? ==>
              RoleOf(o, t) in {Lit, UserName, Plain} && !MakesWritable(t)
    ensures t.kind.LitNameTok? && t.formal.Some? ==>
              RoleOf(o, t) == InString && MakesWritable(t) && !SysName(o, t) && BodyInit(o, t) == 0
    ensures t.kind.SubscriptedTok? || t.kind.FloatTok? || t.kind.IntTok? || t.kind.BoolTok? || t.Nested() ==>
              RoleOf(o, t) == Plain && !SysName(o, t) && BodyInit(o, t) == 0 && (MakesWritable(t) <==> t.kind.SubscriptedTok?)
  {
  }

  /** Compile-time state of one wrap. */
  class WrapCompiler {
    const opts: Opts
    const interner: PswDict.Interner
    // token records, by tokenIndex
    var toks: seq<Tok>
    var adr: seq<nat>
    var body: seq<int>
    var wellKnown: seq<bool>
    // token lists
    var namedInputArrays: seq<nat>
    var namedInputStrings: seq<nat>
    var literalStrings: seq<nat>
    var nameTokens: seq<nat>
    var nNames: nat
    var writable: bool

    // EmitBodyHeader resets the name list.
    constructor (opts: Opts, interner: PswDict.Interner)
      ensures this.opts == opts && this.interner == interner
      ensures toks == [] && body == [] && Visited() && !writable
    {
      this.opts, this.interner := opts, interner;
      toks, adr, body, wellKnown := [], [], [], [];
      namedInputArrays, namedInputStrings, literalStrings, nameTokens, nNames := [], [], [], [], 0;
      writable := false;
    }

    // The records and lists after the tokens `toks` have been visited in this order.
    ghost predicate Visited()
      reads this
    {
      && |adr| == |body| == |wellKnown| == |toks|
      && (forall k | 0 <= k < |toks| :: adr[k] == BINOBJ_SIZE * k && wellKnown[k] == SysName(opts, toks[k]))
      && namedInputArrays == Picks(opts, InArray, toks)
      && namedInputStrings == Picks(opts, InString, toks)
      && literalStrings == Picks(opts, Lit, toks)
      && nameTokens == NameList(opts, toks) && nNames == |nameTokens|
      && writable == AnyWritable(toks)
    }

    // The switch of CheckSize: which list a token goes to.
    method Sort(t: Tok, arrays: seq<Tok>, strings: seq<Tok>, literals: seq<Tok>)
      returns (arrays': seq<Tok>, strings': seq<Tok>, literals': seq<Tok>)
      requires ValidTok(opts, t)
      ensures arrays' == (if RoleOf(opts, t) == InArray then [t] else []) + arrays
      ensures strings' == (if RoleOf(opts, t) == InString then [t] else []) + strings
      ensures literals' == (if RoleOf(opts, t) == Lit then [t] else []) + literals
    {
      arrays', strings', literals' := arrays, strings, literals;
      match t.kind {
        case StringTok | HexTok =>
          if t.formal.None? {
            var ln := LiteralLength(t);
            if ln != 0 { literals' := [t] + literals; }
          } else {
            strings' := [t] + strings;
          }
        case NameTok =>
          if t.formal.Some? {
            if t.formal.value.ctype.IsChar() || t.formal.value.ctype.IsNumStr() {
              strings' := [t] + strings;
            } else if t.formal.value.sub.Some? {
              arrays' := [t] + arrays;
            }
          } else if opts.noUserNames && t.text !in opts.sysNames {
            literals' := [t] + literals;
          }
        case LitNameTok =>
          if t.formal.Some? {
            strings' := [t] + strings;
          } else if opts.noUserNames && t.text !in opts.sysNames {
            literals' := [t] + literals;
          }
        case SubscriptedTok | FloatTok | IntTok | BoolTok | ArrayTok | ProcTok =>
      }
    }

    method AddArrays(arrays: seq<Tok>, start: nat) returns (next: nat)
      requires forall t | t in arrays :: Fits(InArray, t)
      ensures next == start + ConstArrays(arrays)
    {
      next := start;
      for i := 0 to |arrays|
        invariant next == start + ConstArrays(arrays[..i])
      {
        assert arrays[..i + 1][..i] == arrays[..i];
        var t := arrays[i];
        assert t in arrays;
        if t.formal.value.sub.value.Constant? { next := next + t.formal.value.sub.value.val * BINOBJ_SIZE; }
      }
      assert arrays[..|arrays|] == arrays;
    }

    method AddStrings(strings: seq<Tok>, start: nat) returns (next: nat)
      requires forall t | t in strings :: Fits(InString, t)
      ensures next == start + ConstStrings(opts, strings)
    {
      next := start;
      for i := 0 to |strings|
        invariant next == start + ConstStrings(opts, strings[..i])
      {
        assert strings[..i + 1][..i] == strings[..i];
        var t := strings[i];
        assert t in strings;
        var room, _ := StringRoom(opts, t);
        next := next + room;
      }
      assert strings[..|strings|] == strings;
    }

    method AddPieces(arrays: seq<Tok>, literals: seq<Tok>, strings: seq<Tok>, start: nat) returns (next: nat)
      requires interner.Valid()
      requires forall t | t in arrays :: Fits(InArray, t)
      requires forall t | t in literals :: Fits(Lit, t)
      requires forall t | t in strings :: Fits(InString, t)
      modifies interner.Repr
      ensures interner.Valid() && fresh(interner.Repr - old(interner.Repr))
      ensures next == start + ConstArrays(arrays) + Share(literals).total + ConstStrings(opts, strings)
    {
      next := AddArrays(arrays, start);
      next := CheckLiterals(literals, interner, next);
      next := AddStrings(strings, next);
    }

    // The inner loop of CheckSize, over one body.
    method CheckBody(c: seq<Tok>, rest: seq<seq<Tok>>, ghost done: seq<Tok>,
                     arrays: seq<Tok>, strings: seq<Tok>, literals: seq<Tok>, adr: nat)
      returns (bodies: seq<seq<Tok>>, arrays': seq<Tok>, strings': seq<Tok>, literals': seq<Tok>, adr': nat)
      requires ValidToks(opts, c)
      requires arrays == PickToks(opts, InArray, done) && strings == PickToks(opts, InString, done)
      requires literals == PickToks(opts, Lit, done)
      ensures bodies == Push(c) + rest && adr' == adr + BINOBJ_SIZE * |c|
      ensures arrays' == PickToks(opts, InArray, done + c) && strings' == PickToks(opts, InString, done + c)
      ensures literals' == PickToks(opts, Lit, done + c)
    {
      hide PickToks, Push, RoleOf, ValidTok, ShareStep;
      bodies, arrays', strings', literals', adr' := rest, arrays, strings, literals, adr;
      assert done + c[..0] == done;
      PushNone(c);
      for i := 0 to |c|
        invariant bodies == Push(c[..i]) + rest && adr' == adr + BINOBJ_SIZE * i
        invariant arrays' == PickToks(opts, InArray, done + c[..i])
        invariant strings' == PickToks(opts, InString, done + c[..i])
        invariant literals' == PickToks(opts, Lit, done + c[..i])
      {
        var t := c[i];
        assert ValidTok(opts, t);
        adr' := adr' + BINOBJ_SIZE;
        arrays', strings', literals' := Sort(t, arrays', strings', literals');
        if t.Nested() { bodies := [t.kids] + bodies; }
        PickSnoc(opts, done, c, i);
        PushSnoc(c, i);
      }
      assert c[..|c|] == c;
    }

    // The work list of CheckSize.
    method CheckBodies(body: seq<Tok>) returns (arrays: seq<Tok>, strings: seq<Tok>, literals: seq<Tok>, nextAdr: nat)
      requires ValidToks(opts, body)
      ensures var ts := Flat([body]);
              && arrays == PickToks(opts, InArray, ts) && strings == PickToks(opts, InString, ts)
              && literals == PickToks(opts, Lit, ts) && nextAdr == BINOBJ_SIZE * |ts|
    {
      var bodies := [body];
      nextAdr, arrays, strings, literals := 0, [], [], [];
      ghost var done := [];
      while bodies != []
        invariant forall w | w in bodies :: ValidToks(opts, w)
        invariant Flat([body]) == done + Flat(bodies)
        invariant nextAdr == BINOBJ_SIZE * |done|
        invariant arrays == PickToks(opts, InArray, done) && strings == PickToks(opts, InString, done)
        invariant literals == PickToks(opts, Lit, done)
        decreases WorkWeight(bodies)
      {
        FlatStep(Flat([body]), done, bodies);
        var c, rest := bodies[0], bodies[1..];
        PushValid(opts, c);
        bodies, arrays, strings, literals, nextAdr := CheckBody(c, rest, done, arrays, strings, literals, nextAdr);
        done := done + c;
      }
      assert done + [] == done;
    }

    /** 1 exactly when the addresses of the wrap do not fit 16 bits. */
    method CheckSize(body: seq<Tok>) returns (r: int)
      requires ValidToks(opts, body) && interner.Valid()
      modifies interner.Repr
      ensures interner.Valid() && fresh(interner.Repr - old(interner.Repr))
      ensures r == if TotalSize(opts, body) > 0xffff then 1 else 0
    {
      var namedInputArrays, namedInputStrings, literalStrings, nextAdr := CheckBodies(body);
      FlatValid(opts, [body]);
      PickFits(opts, InArray, Flat([body]));
      PickFits(opts, InString, Flat([body]));
      PickFits(opts, Lit, Flat([body]));
      nextAdr := AddPieces(namedInputArrays, literalStrings, namedInputStrings, nextAdr);
      r := if nextAdr > 0xffff then 1 else 0;
    }

    // SetNameTag on the token just appended.
    method SetNameTag(k: nat)
      requires k < |toks| == |body| == |wellKnown| && InRange(nameTokens, |toks|)
      modifies `wellKnown, `body, `nameTokens, `nNames
      ensures var sys := toks[k].text in opts.sysNames;
              && wellKnown == old(wellKnown)[k := if sys then true else if opts.noUserNames then false else old(wellKnown)[k]]
              && body == (if sys then old(body)[k := opts.sysNames[toks[k].text]] else old(body))
              && nameTokens == (if sys || opts.noUserNames then old(nameTokens) else Cons(toks, k, old(nameTokens)))
              && nNames == old(nNames) + if sys || opts.noUserNames then 0 else 1
    {
      if toks[k].text !in opts.sysNames {
        if opts.noUserNames {
          wellKnown := wellKnown[k := false];
        } else {
          nameTokens := ConsNameToken(toks, k, nameTokens);
          nNames := nNames + 1;
        }
      } else {
        wellKnown := wellKnown[k := true];
        body := body[k := opts.sysNames[toks[k].text]];
      }
    }

    // T_STRING and T_HEXSTRING in BuildTypesAndAssignAddresses.
    method VisitString(t: Tok, k: nat)
      requires t.kind.StringTok? || t.kind.HexTok?
      requires t.formal.None? ==> Measurable(t)
      modifies `namedInputStrings, `literalStrings, `writable
      ensures literalStrings == (if RoleOf(opts, t) == Lit then [k] else []) + old(literalStrings)
      ensures namedInputStrings == (if RoleOf(opts, t) == InString then [k] else []) + old(namedInputStrings)
      ensures writable == (old(writable) || MakesWritable(t))
    {
      if t.formal.None? {
        var ln := LiteralLength(t);
        if ln != 0 { literalStrings := [k] + literalStrings; }
      } else {
        namedInputStrings := [k] + namedInputStrings;
        if !(t.formal.value.sub.Some? && t.formal.value.sub.value.Constant?) { writable := true; }
      }
    }

    // A T_NAME that is a formal.
    method VisitFormalName(t: Tok, k: nat)
      requires t.kind.NameTok? && t.formal.Some?
      modifies `namedInputArrays, `namedInputStrings, `writable
      ensures namedInputArrays == (if RoleOf(opts, t) == InArray then [k] else []) + old(namedInputArrays)
      ensures namedInputStrings == (if RoleOf(opts, t) == InString then [k] else []) + old(namedInputStrings)
      ensures writable == (old(writable) || MakesWritable(t))
    {
      var item := t.formal.value;
      if item.ctype.IsChar() || item.ctype.IsNumStr() {
        namedInputStrings := [k] + namedInputStrings;
        if !(item.sub.Some? && item.sub.value.Constant?) { writable := true; }
      } else if item.sub.Some? {
        namedInputArrays := [k] + namedInputArrays;
        if !item.sub.value.Constant? { writable := true; }
      } else {
        writable := true;
      }
    }

    // A T_NAME or T_LITNAME that is no formal.
    method VisitName(t: Tok, k: nat)
      requires (t.kind.NameTok? || t.kind.LitNameTok?) && t.formal.None?
      requires k < |toks| == |body| == |wellKnown| && InRange(nameTokens, |toks|)
      requires toks[k] == t && body[k] == 0 && !wellKnown[k]
      modifies `wellKnown, `body, `nameTokens, `nNames, `literalStrings
      ensures literalStrings == (if RoleOf(opts, t) == Lit then [k] else []) + old(literalStrings)
      ensures wellKnown == old(wellKnown)[k := SysName(opts, t)] && body == old(body)[k := BodyInit(opts, t)]
      ensures nameTokens == (if RoleOf(opts, t) == UserName then Cons(toks, k, old(nameTokens)) else old(nameTokens))
      ensures nNames == old(nNames) + if RoleOf(opts, t) == UserName then 1 else 0
    {
      SetNameTag(k);
      if opts.noUserNames && !wellKnown[k] { literalStrings := [k] + literalStrings; }
    }

    // The loop body of BuildTypesAndAssignAddresses: a token gets its address and index, and its list.
    method VisitToken(t: Tok)
      requires |adr| == |body| == |wellKnown| == |toks| && InRange(nameTokens, |toks|)
      requires (t.kind.StringTok? || t.kind.HexTok?) && t.formal.None? ==> Measurable(t)
      modifies `toks, `adr, `body, `wellKnown, `namedInputArrays, `namedInputStrings, `literalStrings, `nameTokens,
               `nNames, `writable
      ensures toks == old(toks) + [t] && adr == old(adr) + [BINOBJ_SIZE * |old(toks)|]
      ensures body == old(body) + [BodyInit(opts, t)] && wellKnown == old(wellKnown) + [SysName(opts, t)]
      ensures var r, k := RoleOf(opts, t), |old(toks)|;
              && namedInputArrays == (if r == InArray then [k] else []) + old(namedInputArrays)
              && namedInputStrings == (if r == InString then [k] else []) + old(namedInputStrings)
              && literalStrings == (if r == Lit then [k] else []) + old(literalStrings)
              && nameTokens == (if r == UserName then Cons(toks, k, old(nameTokens)) else old(nameTokens))
              && nNames == old(nNames) + if r == UserName then 1 else 0
      ensures writable == (old(writable) || MakesWritable(t))
    {
      Visits(opts, t);
      hide RoleOf, SysName, BodyInit, MakesWritable, Cons;
      var k := |toks|;
      toks, adr, body, wellKnown := toks + [t], adr + [BINOBJ_SIZE * k], body + [0], wellKnown + [false];
      match t.kind {
        case StringTok | HexTok =>
          VisitString(t, k);
        case NameTok =>
          if t.formal.None? { VisitName(t, k); } else { VisitFormalName(t, k); }
        case LitNameTok =>
          if t.formal.None? {
            VisitName(t, k);
          } else {
            namedInputStrings := [k] + namedInputStrings;
            writable := true;
          }
        case SubscriptedTok => writable := true;
        case FloatTok | IntTok | BoolTok | ArrayTok | ProcTok =>
      }
    }

    // One token more has been visited.
    method Visit(t: Tok)
      requires Visited() && ValidTok(opts, t)
      modifies `toks, `adr, `body, `wellKnown, `namedInputArrays, `namedInputStrings, `literalStrings, `nameTokens,
               `nNames, `writable
      ensures Visited()
      ensures toks == old(toks) + [t] && body == old(body) + [BodyInit(opts, t)]
    {
      VisitToken(t);
      assert toks[..|toks| - 1] == old(toks);
    }

    // One token of a body: visit it, and put its own body in front of the list.
    method BuildToken(c: seq<Tok>, i: nat, n: nat, bodies: seq<Work>, ghost rest: seq<Work>) returns (bodies': seq<Work>)
      requires Visited() && i < |c| && ValidTok(opts, c[i]) && |toks| == n + i
      requires bodies == PushWork(n, c[..i]) + rest
      modifies `toks, `adr, `body, `wellKnown, `namedInputArrays, `namedInputStrings, `literalStrings, `nameTokens,
               `nNames, `writable
      ensures Visited() && toks == old(toks) + [c[i]] && body == old(body) + [BodyInit(opts, c[i])]
      ensures bodies' == PushWork(n, c[..i + 1]) + rest
    {
      bodies' := bodies;
      assert c[..i + 1][..i] == c[..i];
      Visit(c[i]);
      if c[i].Nested() { bodies' := [Work(Some(|toks| - 1), c[i].kids)] + bodies'; }
    }

    // The records of one body: the work list entry w is taken up, the bodies nested in it are put in front of the rest.
    method BuildBody(w: Work, rest: seq<Work>) returns (bodies: seq<Work>)
      requires Visited() && ValidToks(opts, w.toks)
      requires w.parent.Some? ==> w.parent.value < |toks|
      modifies `toks, `adr, `body, `wellKnown, `namedInputArrays, `namedInputStrings, `literalStrings, `nameTokens,
               `nNames, `writable
      ensures Visited() && toks == old(toks) + w.toks && bodies == PushWork(|old(toks)|, w.toks) + rest
      ensures |body| == |toks|
      ensures forall k | 0 <= k < |old(toks)| ::
                body[k] == if w.parent == Some(k) then BINOBJ_SIZE * |old(toks)| else old(body)[k]
      ensures forall i | 0 <= i < |w.toks| :: body[|old(toks)| + i] == BodyInit(opts, w.toks[i])
    {
      hide RoleOf, Picks, NameList, PushWork, BodyInit, ValidTok, SysName, AnyWritable;
      var c, n := w.toks, |toks|;
      bodies := rest;
      if w.parent.Some? { body := body[w.parent.value := BINOBJ_SIZE * n]; }
      ghost var toks0, body0 := toks, body;
      PushWorkNone(n, c);
      for i := 0 to |c|
        invariant Visited()
        invariant toks == toks0 + c[..i]
        invariant body == body0 + BodyInits(opts, c[..i])
        invariant bodies == PushWork(n, c[..i]) + rest
      {
        assert ValidTok(opts, c[i]);
        assert c[..i + 1] == c[..i] + [c[i]];
        bodies := BuildToken(c, i, n, bodies, rest);
      }
      assert c[..|c|] == c;
    }

    // The entry taken up next belongs to a token seen.
    static lemma NextOwned(root: seq<Tok>, bodies: seq<Work>, toks: seq<Tok>, body: seq<int>)
      requires Layout(root, bodies, toks, body) && bodies != [] && bodies[0].parent.Some?
      ensures |body| == |toks| && Owned(bodies, toks) && bodies[0].parent.value < |toks|
    {
    }

    static lemma AllRooted(opts: Opts, n: nat, bodies: seq<Work>)
      requires bodies != [] && ValidToks(opts, bodies[0].toks)
      requires forall w | w in bodies :: w.parent.Some? && ValidToks(opts, w.toks)
      ensures forall w | w in PushWork(n, bodies[0].toks) + bodies[1..] :: w.parent.Some? && ValidToks(opts, w.toks)
    {
      PushWorkValid(opts, n, bodies[0].toks);
    }

    // What holds between two entries of the work list.
    ghost predicate Between(root: seq<Tok>, bodies: seq<Work>)
      reads this
    {
      && Visited() && Layout(root, bodies, toks, body)
      && (forall w | w in bodies :: w.parent.Some? && ValidToks(opts, w.toks))
      && Traced(RootStarts(root), bodies, toks, body)
      && (forall k | 0 <= k < |toks| && !toks[k].Nested() :: body[k] == BodyInit(opts, toks[k]))
    }

    // Nothing is taken up yet but the wrap's own body.
    static lemma TracedStart(root: seq<Tok>, body: seq<int>)
      requires |body| == |root|
      ensures forall w | w in PushWork(0, root) :: w.parent.Some?
      ensures Traced(RootStarts(root), PushWork(0, root), root, body)
    {
      PushWorkPending(0, root);
    }

    method BuildRoot(root: seq<Tok>) returns (bodies: seq<Work>)
      requires ValidToks(opts, root) && toks == [] && Visited()
      modifies `toks, `adr, `body, `wellKnown, `namedInputArrays, `namedInputStrings, `literalStrings, `nameTokens,
               `nNames, `writable
      ensures Between(root, bodies)
    {
      hide Layout, Traced, RootStarts, RoleOf, Picks, NameList, PushWork;
      bodies := BuildBody(Work(None, root), []);
      assert toks == root;
      LayoutStart(root, body);
      assert bodies == PushWork(0, root);
      PushWorkValid(opts, 0, root);
      TracedStart(root, body);
    }

    method BuildNext(root: seq<Tok>, bodies: seq<Work>) returns (bodies': seq<Work>)
      requires bodies != [] && Between(root, bodies)
      modifies `toks, `adr, `body, `wellKnown, `namedInputArrays, `namedInputStrings, `literalStrings, `nameTokens,
               `nNames, `writable
      ensures Between(root, bodies') && WorkWeight(Bodies(bodies')) < WorkWeight(Bodies(bodies))
    {
      hide Layout, Traced, RootStarts, Owned, PushWork, Picks, NameList, RoleOf, WorkWeight, Bodies;
      ghost var n, body0 := |toks|, body;
      var w := bodies[0];
      assert w in bodies;
      NextOwned(root, bodies, toks, body);
      AllRooted(opts, n, bodies);
      bodies' := BuildBody(w, bodies[1..]);
      LayoutStep(root, bodies, old(toks), body0, body);
      TracedStep(RootStarts(root), bodies, old(toks), body0, body);
      WorkShrinks(bodies, n);
    }

    // The work list of BuildTypesAndAssignAddresses.
    method BuildBodies(root: seq<Tok>)
      requires ValidToks(opts, root) && toks == [] && Visited()
      modifies `toks, `adr, `body, `wellKnown, `namedInputArrays, `namedInputStrings, `literalStrings, `nameTokens,
               `nNames, `writable
      ensures Between(root, []) && toks == Flat([root])
    {
      var bodies := BuildRoot(root);
      while bodies != []
        invariant Between(root, bodies)
        decreases WorkWeight(Bodies(bodies))
      {
        bodies := BuildNext(root, bodies);
      }
      assert toks + [] == toks;
    }

    // Everything a list may count on, for the tokens of a valid wrap.
    lemma ListsFit(root: seq<Tok>)
      requires ValidToks(opts, root) && toks == Flat([root]) && Visited()
      ensures InRange(namedInputArrays, |toks|) && InRange(namedInputStrings, |toks|) && InRange(literalStrings, |toks|)
      ensures forall t | t in At(toks, namedInputArrays) :: Fits(InArray, t)
      ensures forall t | t in At(toks, namedInputStrings) :: Fits(InString, t)
      ensures forall t | t in At(toks, literalStrings) :: Fits(Lit, t)
    {
      FlatValid(opts, [root]);
      forall r | r in [InArray, InString, Lit]
        ensures InRange(Picks(opts, r, toks), |toks|)
        ensures forall t | t in At(toks, Picks(opts, r, toks)) :: Fits(r, t)
      {
        PickToksAt(opts, r, toks);
        PickFits(opts, r, toks);
      }
      assert InArray in [InArray, InString, Lit] && InString in [InArray, InString, Lit] && Lit in [InArray, InString, Lit];
    }

    // The first half of BuildTypesAndAssignAddresses: token records and lists; the pieces are still to be placed.
    method BuildRecords(root: seq<Tok>) returns (p: Plan)
      requires ValidToks(opts, root) && toks == [] && Visited()
      modifies this
      ensures Listed(opts, root, p) && Ready(p)
      ensures forall k | 0 <= k < |p.toks| && !p.toks[k].Nested() :: p.body[k] == BodyInit(opts, p.toks[k])
      ensures Flagged(p, false)
    {
      BuildBodies(root);
      ListsFit(root);
      if nNames != 0 { writable := true; }
      var twoStatics := namedInputArrays != [] && literalStrings != [];
      p := Plan(toks, body, wellKnown, namedInputArrays, namedInputStrings, literalStrings, nameTokens,
                writable, twoStatics, 0, 0, BINOBJ_SIZE * |toks|, |toks|);
    }

    /** The record type, the addresses and the token lists of a wrap. */
    method BuildTypesAndAssignAddresses(root: seq<Tok>) returns (p: Plan)
      requires ValidToks(opts, root) && toks == [] && Visited()
      requires interner.Valid() && this !in interner.Repr
      modifies this, interner.Repr
      ensures interner.Valid() && fresh(interner.Repr - old(interner.Repr))
      ensures Listed(opts, root, p) && Ready(p) && Addressed(opts, p)
    {
      hide Listed, Ready, Addressed, Completes, Flagged, ValidToks, BodyInit, Visited;
      var q := BuildRecords(root);
      p := PlacePieces(opts, q, interner);
      PlacedPlan(opts, root, q, p);
    }
  }
}
