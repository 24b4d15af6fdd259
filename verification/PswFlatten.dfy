/** FlattenSomeArrays: array tokens whose elements must be executed become [ ... ] in line. */
module PswFlatten {
  import opened Options
  import opened PswTypes
  import opened PswString
  import opened PswLayout

  const LSq := Tok(NameTok, "[", 0, "", None, [])
  const RSq := Tok(NameTok, "]", 0, "", None, [])

  predicate LiteralTok(t: Tok)
    decreases t
  {
    if t.kind.NameTok? then t.formal.Some? else t.kind.ArrayTok? ==> AllLiterals(t.kids)
  }

  predicate AllLiterals(body: seq<Tok>)
    decreases body
  {
    forall i | 0 <= i < |body| :: LiteralTok(body[i])
  }

  // An array counts for more than what is in it and one bracket.
  function Bulk(t: Tok): (n: nat)
    ensures n > 0
    decreases t
  {
    if t.Nested() then 2 + Bulks(t.kids) else 1
  }

  function Bulks(ts: seq<Tok>): nat
    decreases ts
  {
    if ts == [] then 0 else Bulk(ts[0]) + Bulks(ts[1..])
  }

  lemma BulksConcat(a: seq<Tok>, b: seq<Tok>)
    ensures Bulks(a + b) == Bulks(a) + Bulks(b)
  {
    if a == [] { assert a + b == b; } else { assert (a + b)[1..] == a[1..] + b; }
  }

  function Flattened(body: seq<Tok>): seq<Tok>
    decreases body
  {
    if body == [] then [] else FlattenTok(body[0]) + Flattened(body[1..])
  }

  function FlattenTok(t: Tok): seq<Tok>
    decreases t
  {
    if t.kind.ArrayTok? && !AllLiterals(t.kids) then [LSq] + Flattened(t.kids) + [RSq]
    else if t.Nested() then [t.(kids := Flattened(t.kids))]
    else [t]
  }

  lemma FlattenedSome(body: seq<Tok>)
    requires body != []
    ensures Flattened(body) != []
  {
    assert |FlattenTok(body[0])| > 0;
  }

  lemma FlattenedConcat(a: seq<Tok>, b: seq<Tok>)
    ensures Flattened(a + b) == Flattened(a) + Flattened(b)
  {
    if a == [] { assert a + b == b; } else { assert (a + b)[1..] == a[1..] + b; }
  }

  method CheckAllLiterals(body: seq<Tok>) returns (r: bool)
    ensures r == AllLiterals(body)
    decreases body
  {
    for i := 0 to |body|
      invariant forall j | 0 <= j < i :: LiteralTok(body[j])
    {
      if body[i].kind.NameTok? && body[i].formal.None? { return false; }
      if body[i].kind.ArrayTok? {
        r := CheckAllLiterals(body[i].kids);
        if !r { return false; }
      }
    }
    r := true;
  }

  // Walking past a token in place.
  lemma FlatPast(done: seq<Tok>, rest: seq<Tok>, flat: seq<Tok>)
    requires rest != [] && flat == done + Flattened(rest)
    ensures flat == done + FlattenTok(rest[0]) + Flattened(rest[1..])
  {
  }

  // Splicing an array open: its brackets, with its elements still to be walked.
  lemma FlatOpen(done: seq<Tok>, t: Tok, rest: seq<Tok>, flat: seq<Tok>)
    requires t.kind.ArrayTok? && !AllLiterals(t.kids) && flat == done + FlattenTok(t) + Flattened(rest)
    ensures flat == done + [LSq] + Flattened(t.kids + [RSq] + rest)
    ensures Bulks(t.kids + [RSq] + rest) < Bulk(t) + Bulks(rest)
  {
    FlattenedConcat(t.kids + [RSq], rest);
    FlattenedConcat(t.kids, [RSq]);
    BulksConcat(t.kids + [RSq], rest);
    BulksConcat(t.kids, [RSq]);
    assert [RSq][1..] == [];
    assert Flattened([RSq]) == [RSq];
  }

  /** Walks a list that grows under it: an array that must be opened is replaced by its brackets and elements, and the
      walk goes on with the first element. */
  method FlattenSomeArrays(body: seq<Tok>) returns (r: seq<Tok>)
    ensures r == Flattened(body)
    decreases Bulks(body)
  {
    var i := 0;
    r := body;
    while i < |r|
      invariant i <= |r| && Flattened(body) == r[..i] + Flattened(r[i..])
      invariant Bulks(r[i..]) <= Bulks(body)
      decreases Bulks(r[i..])
    {
      var t := r[i];
      ghost var rest := r[i + 1..];
      ghost var done := r[..i];
      assert r[i..][0] == t && r[i..][1..] == rest;
      FlatPast(r[..i], r[i..], Flattened(body));
      var literal := true;
      if t.kind.ArrayTok? { literal := CheckAllLiterals(t.kids); }
      if !literal {
        FlatOpen(r[..i], t, rest, Flattened(body));
        r := r[..i] + [LSq] + t.kids + [RSq] + r[i + 1..];
        assert r[..i + 1] == done + [LSq];
        assert r[i + 1..] == t.kids + [RSq] + rest;
      } else {
        if t.Nested() {
          var kids := FlattenSomeArrays(t.kids);
          r := r[i := t.(kids := kids)];
        }
        assert r[..i + 1] == done + FlattenTok(t);
        assert r[i + 1..] == rest;
      }
      i := i + 1;
    }
    assert r[i..] == [] && r[..i] == r;
  }

  // ----- no array that must be executed is left, at any depth

  predicate CleanTok(t: Tok)
    decreases t
  {
    (t.kind.ArrayTok? ==> AllLiterals(t.kids)) && (t.Nested() ==> Clean(t.kids))
  }

  predicate Clean(body: seq<Tok>)
    decreases body
  {
    forall i | 0 <= i < |body| :: CleanTok(body[i])
  }

  // A token that may stay in an array stays one token, and may still stay.
  lemma {:induction false} FlattenLiterals(body: seq<Tok>)
    requires AllLiterals(body)
    ensures AllLiterals(Flattened(body)) && |Flattened(body)| == |body|
    decreases body
  {
    if body != [] {
      assert LiteralTok(body[0]);
      if body[0].Nested() && body[0].kind.ArrayTok? { FlattenLiterals(body[0].kids); }
      FlattenLiterals(body[1..]);
    }
  }

  lemma {:induction false} FlattenedClean(body: seq<Tok>)
    ensures Clean(Flattened(body))
    decreases body
  {
    if body != [] {
      var t := body[0];
      if t.Nested() { FlattenedClean(t.kids); }
      if t.kind.ArrayTok? && AllLiterals(t.kids) { FlattenLiterals(t.kids); }
      FlattenedClean(body[1..]);
    }
  }

  /** Indices that lead from an array down through arrays to a name that is no formal. */
  predicate LeadsToName(t: Tok, path: seq<nat>)
    decreases |path|
  {
    && t.kind.ArrayTok? && path != [] && path[0] < |t.kids|
    && var kid := t.kids[path[0]];
       if |path| == 1 then kid.kind.NameTok? && kid.formal.None? else LeadsToName(kid, path[1..])
  }

  lemma {:induction false} NoPathInLiterals(t: Tok, path: seq<nat>)
    requires LeadsToName(t, path)
    ensures !AllLiterals(t.kids)
    decreases |path|
  {
    var kid := t.kids[path[0]];
    if |path| > 1 { NoPathInLiterals(kid, path[1..]); }
    assert !LiteralTok(kid);
  }

  lemma {:induction false} PathToName(t: Tok) returns (path: seq<nat>)
    requires t.kind.ArrayTok? && !AllLiterals(t.kids)
    ensures LeadsToName(t, path)
    decreases t
  {
    var i :| 0 <= i < |t.kids| && !LiteralTok(t.kids[i]);
    var rest: seq<nat> := [];
    if t.kids[i].kind.ArrayTok? { rest := PathToName(t.kids[i]); }
    path := [i] + rest;
    assert path[1..] == rest;
  }

  ghost predicate SomeName(t: Tok) { exists path: seq<nat> :: LeadsToName(t, path) }

  lemma SomeNameWhen(t: Tok)
    requires t.kind.ArrayTok?
    ensures SomeName(t) <==> !AllLiterals(t.kids)
  {
    if SomeName(t) {
      var path: seq<nat> :| LeadsToName(t, path);
      NoPathInLiterals(t, path);
    }
    if !AllLiterals(t.kids) { var path := PathToName(t); }
  }

  /** An array stays one, with what it holds flattened, exactly when no path leads from it to such a name. */
  lemma StaysArray(t: Tok)
    requires t.kind.ArrayTok?
    ensures FlattenTok(t) == [t.(kids := Flattened(t.kids))] <==> !SomeName(t)
  {
    SomeNameWhen(t);
    if !AllLiterals(t.kids) {
      var kept := [t.(kids := Flattened(t.kids))];
      assert FlattenTok(t)[0].kind.NameTok? && kept[0].kind.ArrayTok?;
    }
  }

  lemma {:induction false} FlattenedValid(o: Opts, body: seq<Tok>)
    requires ValidToks(o, body)
    ensures ValidToks(o, Flattened(body))
    decreases body
  {
    if body != [] {
      var t := body[0];
      assert ValidTok(o, t);
      FlattenedValid(o, t.kids);
      FlattenedValid(o, body[1..]);
      assert WellEscaped("["[1..]) && WellEscaped("]"[1..]);
    }
  }

  // ----- meaning: a stack machine with marks

  /** A value on the stack: a mark, an object that a token stands for, an array, or a procedure, kept with all its
      arrays written out, so that procedures that differ only in flattening are the same. */
  datatype Value = Mark | Leaf(tok: Tok) | List(elems: seq<Value>) | Code(body: seq<Tok>)

  type Stack = Option<seq<Value>>

  function Expanded(body: seq<Tok>): seq<Tok>
    decreases body
  {
    if body == [] then [] else ExpandTok(body[0]) + Expanded(body[1..])
  }

  function ExpandTok(t: Tok): seq<Tok>
    decreases t
  {
    if t.kind.ArrayTok? then [LSq] + Expanded(t.kids) + [RSq]
    else if t.kind.ProcTok? then [t.(kids := Expanded(t.kids))]
    else [t]
  }

  // ]: everything above the topmost mark becomes a list.
  function Collect(st: seq<Value>, acc: seq<Value>): Stack {
    if st == [] then None
    else if st[|st| - 1].Mark? then Some(st[..|st| - 1] + [List(acc)])
    else Collect(st[..|st| - 1], [st[|st| - 1]] + acc)
  }

  // A name is executed: brackets here, any other as `exec` has it.
  function Call(exec: (Tok, seq<Value>) -> Stack, t: Tok, st: seq<Value>): Stack {
    if t.formal.None? && t.text == "[" then Some(st + [Mark])
    else if t.formal.None? && t.text == "]" then Collect(st, [])
    else exec(t, st)
  }

  // A name that is executed rather than pushed: a formal that is no char parameter is a value.
  predicate Executable(t: Tok) { t.kind.NameTok? && (t.formal.None? || t.formal.value.ctype.IsChar()) }

  /** The source text: an array is a mark, its elements executed, and the collecting bracket. */
  function Run(exec: (Tok, seq<Value>) -> Stack, body: seq<Tok>, st: Stack): Stack
    decreases body
  {
    if body == [] || st.None? then st else Run(exec, body[1..], Step(exec, body[0], st.value))
  }

  function Step(exec: (Tok, seq<Value>) -> Stack, t: Tok, st: seq<Value>): Stack
    decreases t
  {
    if t.kind.ArrayTok? then
      var inner := Run(exec, t.kids, Some(st + [Mark]));
      if inner.None? then None else Collect(inner.value, [])
    else if t.kind.ProcTok? then Some(st + [Code(Expanded(t.kids))])
    else if Executable(t) then Call(exec, t, st)
    else Some(st + [Leaf(t)])
  }

  // The object an array holds for a token: nothing in it is executed.
  function Element(t: Tok): Value
    decreases t
  {
    if t.kind.ArrayTok? then List(Elements(t.kids))
    else if t.kind.ProcTok? then Code(Expanded(t.kids))
    else Leaf(t)
  }

  function Elements(body: seq<Tok>): seq<Value>
    decreases body
  {
    if body == [] then [] else [Element(body[0])] + Elements(body[1..])
  }

  /** The binary object sequence: an array is pushed as the object it is. */
  function RunObjects(exec: (Tok, seq<Value>) -> Stack, body: seq<Tok>, st: Stack): Stack {
    if body == [] || st.None? then st
    else RunObjects(exec, body[1..], if Executable(body[0]) then Call(exec, body[0], st.value)
                                     else Some(st.value + [Element(body[0])]))
  }

  // No array that stays, at any depth of arrays, holds a char parameter as an executable name.
  predicate NoCharNames(t: Tok)
    decreases t
  {
    t.kind.ArrayTok? ==>
      && (AllLiterals(t.kids) ==> forall i | 0 <= i < |t.kids| :: !Executable(t.kids[i]))
      && NoneCharNames(t.kids)
  }

  predicate NoneCharNames(body: seq<Tok>)
    decreases body
  {
    forall i | 0 <= i < |body| :: NoCharNames(body[i])
  }

  lemma {:induction false} FlattenExpand(body: seq<Tok>)
    ensures Expanded(Flattened(body)) == Expanded(body)
    decreases body
  {
    if body != [] {
      var t := body[0];
      FlattenExpand(body[1..]);
      if t.Nested() { FlattenExpand(t.kids); }
      FlattenTokExpand(t);
      ExpandedConcat(FlattenTok(t), Flattened(body[1..]));
    }
  }

  lemma FlattenTokExpand(t: Tok)
    requires t.Nested() ==> Expanded(Flattened(t.kids)) == Expanded(t.kids)
    ensures Expanded(FlattenTok(t)) == ExpandTok(t)
  {
    if t.kind.ArrayTok? && !AllLiterals(t.kids) {
      ExpandedConcat([LSq] + Flattened(t.kids), [RSq]);
      ExpandedConcat([LSq], Flattened(t.kids));
      ExpandedOne(LSq);
      ExpandedOne(RSq);
    } else if t.Nested() {
      ExpandedOne(t.(kids := Flattened(t.kids)));
    } else {
      ExpandedOne(t);
    }
  }

  lemma ExpandedOne(t: Tok)
    ensures Expanded([t]) == ExpandTok(t)
  {
    assert [t][1..] == [];
    assert ExpandTok(t) + [] == ExpandTok(t);
  }

  lemma ExpandedConcat(a: seq<Tok>, b: seq<Tok>)
    ensures Expanded(a + b) == Expanded(a) + Expanded(b)
  {
    if a == [] { assert a + b == b; } else { assert (a + b)[1..] == a[1..] + b; }
  }

  lemma RunObjectsConcat(exec: (Tok, seq<Value>) -> Stack, a: seq<Tok>, b: seq<Tok>, st: Stack)
    ensures RunObjects(exec, a + b, st) == RunObjects(exec, b, RunObjects(exec, a, st))
  {
    if a == [] { assert a + b == b; } else { assert (a + b)[1..] == a[1..] + b; }
  }

  lemma {:induction false} CollectMarked(st: seq<Value>, vs: seq<Value>, acc: seq<Value>)
    requires forall i | 0 <= i < |vs| :: !vs[i].Mark?
    ensures Collect(st + [Mark] + vs, acc) == Some(st + [List(vs + acc)])
    decreases |vs|
  {
    var all := st + [Mark] + vs;
    if vs == [] {
      assert all[..|all| - 1] == st && [] + acc == acc;
    } else {
      var last := vs[|vs| - 1];
      CollectMarked(st, vs[..|vs| - 1], [last] + acc);
      assert all[..|all| - 1] == st + [Mark] + vs[..|vs| - 1];
      assert vs[..|vs| - 1] + ([last] + acc) == vs + acc;
    }
  }

  lemma ElementsPlain(body: seq<Tok>)
    ensures |Elements(body)| == |body| && forall i | 0 <= i < |body| :: !Elements(body)[i].Mark?
  {
    if body != [] { ElementsPlain(body[1..]); }
  }

  // An array that may stay leaves exactly its elements above the mark.
  lemma {:induction false} LiteralRun(exec: (Tok, seq<Value>) -> Stack, body: seq<Tok>, st: seq<Value>)
    requires AllLiterals(body) && NoneCharNames(body) && forall i | 0 <= i < |body| :: !Executable(body[i])
    ensures Run(exec, body, Some(st)) == Some(st + Elements(body))
    decreases body
  {
    hide Step, LiteralTok, NoCharNames, Executable, Element;
    if body == [] {
      assert st + [] == st;
    } else {
      var t := body[0];
      assert NoCharNames(t) && LiteralTok(t) && !Executable(t);
      LiteralStep(exec, t, st);
      LiteralRun(exec, body[1..], st + [Element(t)]);
      assert st + [Element(t)] + Elements(body[1..]) == st + Elements(body);
    }
  }

  lemma {:induction false} LiteralStep(exec: (Tok, seq<Value>) -> Stack, t: Tok, st: seq<Value>)
    requires LiteralTok(t) && NoCharNames(t) && !Executable(t)
    ensures Step(exec, t, st) == Some(st + [Element(t)])
    decreases t
  {
    if t.kind.ArrayTok? {
      LiteralRun(exec, t.kids, st + [Mark]);
      ElementsPlain(t.kids);
      CollectMarked(st, Elements(t.kids), []);
      assert Elements(t.kids) + [] == Elements(t.kids);
    }
  }

  // Flattening inside an array that stays does not change the object it is.
  lemma {:induction false} FlattenElements(body: seq<Tok>)
    requires AllLiterals(body)
    ensures Elements(Flattened(body)) == Elements(body)
    decreases body
  {
    if body != [] {
      var t := body[0];
      assert LiteralTok(t);
      if t.kind.ArrayTok? { FlattenElements(t.kids); }
      if t.kind.ProcTok? { FlattenExpand(t.kids); }
      FlattenElements(body[1..]);
      assert FlattenTok(t) == [FlattenTok(t)[0]];
      assert ([FlattenTok(t)[0]] + Flattened(body[1..]))[1..] == Flattened(body[1..]);
      assert Element(FlattenTok(t)[0]) == Element(t);
    }
  }

  // What one source token does, its flattened form does as objects.
  lemma {:induction false} FlattenStep(exec: (Tok, seq<Value>) -> Stack, t: Tok, st: seq<Value>)
    requires NoCharNames(t)
    ensures RunObjects(exec, FlattenTok(t), Some(st)) == Step(exec, t, st)
    decreases t
  {
    if t.kind.ArrayTok? && !AllLiterals(t.kids) {
      RunObjectsConcat(exec, [LSq] + Flattened(t.kids), [RSq], Some(st));
      RunObjectsConcat(exec, [LSq], Flattened(t.kids), Some(st));
      FlattenMeaning(exec, t.kids, Some(st + [Mark]));
      RunOne(exec, LSq, st);
      var inner := Run(exec, t.kids, Some(st + [Mark]));
      if inner.Some? { RunOne(exec, RSq, inner.value); }
    } else if t.kind.ArrayTok? {
      RunOne(exec, t.(kids := Flattened(t.kids)), st);
      FlattenElements(t.kids);
      assert LiteralTok(t);
      LiteralStep(exec, t, st);
    } else if t.kind.ProcTok? {
      RunOne(exec, t.(kids := Flattened(t.kids)), st);
      FlattenExpand(t.kids);
    } else {
      RunOne(exec, t, st);
    }
  }

  lemma RunOne(exec: (Tok, seq<Value>) -> Stack, t: Tok, st: seq<Value>)
    ensures RunObjects(exec, [t], Some(st)) == if Executable(t) then Call(exec, t, st) else Some(st + [Element(t)])
  {
    assert [t][1..] == [];
  }

  /** Flattening preserves meaning: whatever operators do, the flattened body leaves the stack the source leaves. A
      procedure is pushed and not run; its body is flattened in the same way, and this holds for that body too. */
  lemma {:induction false} FlattenMeaning(exec: (Tok, seq<Value>) -> Stack, body: seq<Tok>, st: Stack)
    requires NoneCharNames(body)
    ensures RunObjects(exec, Flattened(body), st) == Run(exec, body, st)
    decreases body
  {
    if body != [] && st.Some? {
      assert NoCharNames(body[0]);
      FlattenStep(exec, body[0], st.value);
      RunObjectsConcat(exec, FlattenTok(body[0]), Flattened(body[1..]), st);
      FlattenMeaning(exec, body[1..], Step(exec, body[0], st.value));
    } else if body != [] {
      RunNothing(exec, Flattened(body));
    }
  }

  lemma RunNothing(exec: (Tok, seq<Value>) -> Stack, body: seq<Tok>)
    ensures RunObjects(exec, body, None) == None
  {
  }

  // ----- the condition cannot go

  // The lexer keeps brackets out of names.
  predicate NoBracket(t: Tok)
    decreases t
  {
    && (t.kind.NameTok? ==> t.text != "[" && t.text != "]")
    && (t.kind.ArrayTok? ==> NoBrackets(t.kids))
  }

  predicate NoBrackets(body: seq<Tok>)
    decreases body
  {
    forall i | 0 <= i < |body| :: NoBracket(body[i])
  }

  // Operators that do nothing.
  const Idle: (Tok, seq<Value>) -> Stack := (t, st) => Some(st)

  // What a body leaves then: in the source the names are gone ...
  function Kept(body: seq<Tok>): seq<Value>
    decreases body
  {
    if body == [] then [] else KeptTok(body[0]) + Kept(body[1..])
  }

  function KeptTok(t: Tok): seq<Value>
    decreases t
  {
    if t.kind.ArrayTok? then [List(Kept(t.kids))]
    else if t.kind.ProcTok? then [Code(Expanded(t.kids))]
    else if Executable(t) then []
    else [Leaf(t)]
  }

  // ... and after flattening, those in arrays that stay are not.
  function Held(body: seq<Tok>): seq<Value>
    decreases body
  {
    if body == [] then [] else HeldTok(body[0]) + Held(body[1..])
  }

  function HeldTok(t: Tok): seq<Value>
    decreases t
  {
    if t.kind.ArrayTok? then [List(if AllLiterals(t.kids) then Elements(t.kids) else Held(t.kids))]
    else KeptTok(t)
  }

  lemma {:induction false} KeptPlain(body: seq<Tok>)
    ensures forall v | v in Kept(body) || v in Held(body) :: !v.Mark?
    decreases |body|
  {
    hide KeptTok, HeldTok;
    if body != [] {
      KeptTokPlain(body[0]);
      KeptPlain(body[1..]);
    }
  }

  lemma KeptTokPlain(t: Tok)
    ensures forall v | v in KeptTok(t) || v in HeldTok(t) :: !v.Mark?
  {
    hide Kept, Held, Executable;
  }

  lemma {:induction false} KeptShort(body: seq<Tok>)
    ensures |Kept(body)| <= |body|
    ensures (exists i :: 0 <= i < |body| && Executable(body[i])) ==> |Kept(body)| < |body|
    decreases |body|
  {
    if body != [] {
      NoneFirst(body);
      KeptShort(body[1..]);
      assert |KeptTok(body[0])| <= 1 && (Executable(body[0]) ==> KeptTok(body[0]) == []);
    }
  }

  lemma {:induction false} RunIdle(body: seq<Tok>, st: seq<Value>)
    requires NoBrackets(body)
    ensures Run(Idle, body, Some(st)) == Some(st + Kept(body))
    decreases body
  {
    hide KeptTok, Step, NoBracket;
    if body == [] {
      assert st + [] == st;
    } else {
      var t := body[0];
      assert NoBracket(t);
      StepIdle(t, st);
      RunIdle(body[1..], st + KeptTok(t));
      assert st + KeptTok(t) + Kept(body[1..]) == st + Kept(body);
    }
  }

  lemma {:induction false} StepIdle(t: Tok, st: seq<Value>)
    requires NoBracket(t)
    ensures Step(Idle, t, st) == Some(st + KeptTok(t))
    decreases t
  {
    if t.kind.ArrayTok? {
      RunIdle(t.kids, st + [Mark]);
      KeptPlain(t.kids);
      CollectMarked(st, Kept(t.kids), []);
      assert Kept(t.kids) + [] == Kept(t.kids);
    } else if Executable(t) {
      assert st + [] == st;
    }
  }

  lemma {:induction false} ObjectsIdle(body: seq<Tok>, st: seq<Value>)
    requires NoBrackets(body)
    ensures RunObjects(Idle, Flattened(body), Some(st)) == Some(st + Held(body))
    decreases body
  {
    hide HeldTok, NoBracket, FlattenTok;
    if body == [] {
      assert st + [] == st;
    } else {
      var t := body[0];
      assert NoBracket(t);
      ObjectIdle(t, st);
      RunObjectsConcat(Idle, FlattenTok(t), Flattened(body[1..]), Some(st));
      ObjectsIdle(body[1..], st + HeldTok(t));
      assert st + HeldTok(t) + Held(body[1..]) == st + Held(body);
    }
  }

  lemma {:induction false} ObjectIdle(t: Tok, st: seq<Value>)
    requires NoBracket(t)
    ensures RunObjects(Idle, FlattenTok(t), Some(st)) == Some(st + HeldTok(t))
    decreases t
  {
    if t.kind.ArrayTok? && !AllLiterals(t.kids) {
      RunObjectsConcat(Idle, [LSq] + Flattened(t.kids), [RSq], Some(st));
      RunObjectsConcat(Idle, [LSq], Flattened(t.kids), Some(st));
      RunOne(Idle, LSq, st);
      ObjectsIdle(t.kids, st + [Mark]);
      RunOne(Idle, RSq, st + [Mark] + Held(t.kids));
      KeptPlain(t.kids);
      CollectMarked(st, Held(t.kids), []);
      assert Held(t.kids) + [] == Held(t.kids);
    } else if t.Nested() {
      RunOne(Idle, t.(kids := Flattened(t.kids)), st);
      if t.kind.ArrayTok? { FlattenElements(t.kids); } else { FlattenExpand(t.kids); }
    } else {
      RunOne(Idle, t, st);
      assert st + [] == st;
    }
  }

  lemma HeadsApart(a: seq<Value>, b: seq<Value>, c: seq<Value>, d: seq<Value>)
    requires |a| == |b|
    ensures a + c == b + d <==> a == b && c == d
  {
    if a + c == b + d {
      assert (a + c)[..|a|] == a && (b + d)[..|a|] == b && (a + c)[|a|..] == c && (b + d)[|a|..] == d;
    }
  }

  lemma NoneFirst(body: seq<Tok>)
    requires body != []
    ensures NoneCharNames(body) <==> NoCharNames(body[0]) && NoneCharNames(body[1..])
    ensures (exists i :: 0 <= i < |body| && Executable(body[i]))
            <==> Executable(body[0]) || exists i :: 0 <= i < |body[1..]| && Executable(body[1..][i])
    ensures AllLiterals(body) ==> LiteralTok(body[0]) && AllLiterals(body[1..])
  {
    assert forall i | 0 <= i < |body[1..]| :: body[1..][i] == body[i + 1];
    assert forall i | 0 < i < |body| :: body[i] == body[1..][i - 1];
  }

  // A stored body keeps its names, so it is what the source leaves only without them.
  lemma {:induction false} KeptElements(body: seq<Tok>)
    requires AllLiterals(body)
    ensures Kept(body) == Elements(body) <==> NoneCharNames(body) && !exists i :: 0 <= i < |body| && Executable(body[i])
    decreases body
  {
    if body != [] {
      var t, rest := body[0], body[1..];
      NoneFirst(body);
      KeptElements(rest);
      KeptShort(body);
      ElementsPlain(body);
      if !Executable(t) {
        HeadsApart(KeptTok(t), [Element(t)], Kept(rest), Elements(rest));
        if t.kind.ArrayTok? { KeptElements(t.kids); }
      }
    }
  }

  lemma {:induction false} KeptHeld(body: seq<Tok>)
    ensures Kept(body) == Held(body) <==> NoneCharNames(body)
    decreases body
  {
    if body != [] {
      NoneFirst(body);
      KeptHeldTok(body[0]);
      KeptHeld(body[1..]);
      HeadsApart(KeptTok(body[0]), HeldTok(body[0]), Kept(body[1..]), Held(body[1..]));
    }
  }

  lemma {:induction false} KeptHeldTok(t: Tok)
    ensures |KeptTok(t)| == |HeldTok(t)| && (KeptTok(t) == HeldTok(t) <==> NoCharNames(t))
    decreases t
  {
    if t.kind.ArrayTok? {
      if AllLiterals(t.kids) { KeptElements(t.kids); } else { KeptHeld(t.kids); }
    }
  }

  predicate Agrees(exec: (Tok, seq<Value>) -> Stack, t: Tok, st: seq<Value>) {
    RunObjects(exec, FlattenTok(t), Some(st)) == Step(exec, t, st)
  }

  /** An array means the same after flattening, whatever operators do and whatever is on the stack, exactly when no array
      that stays in it, itself included, holds a char parameter as an executable name: such a name is executed in the
      source, and stored after flattening. */
  lemma ArrayStays(t: Tok)
    requires t.kind.ArrayTok? && NoBracket(t)
    ensures (forall exec: (Tok, seq<Value>) -> Stack, st: seq<Value> :: Agrees(exec, t, st)) <==> NoCharNames(t)
  {
    if NoCharNames(t) {
      forall exec: (Tok, seq<Value>) -> Stack, st: seq<Value>
        ensures Agrees(exec, t, st)
      {
        FlattenStep(exec, t, st);
      }
    } else {
      ObjectIdle(t, []);
      StepIdle(t, []);
      KeptHeldTok(t);
      assert [] + KeptTok(t) == KeptTok(t) && [] + HeldTok(t) == HeldTok(t);
      assert !Agrees(Idle, t, []);
    }
  }

  /** The same for a body: the condition of FlattenMeaning is exact. */
  lemma MeaningExactly(body: seq<Tok>)
    requires NoBrackets(body)
    ensures (forall exec: (Tok, seq<Value>) -> Stack, st: Stack :: RunObjects(exec, Flattened(body), st) == Run(exec, body, st))
            <==> NoneCharNames(body)
  {
    if NoneCharNames(body) {
      forall exec: (Tok, seq<Value>) -> Stack, st: Stack
        ensures RunObjects(exec, Flattened(body), st) == Run(exec, body, st)
      {
        FlattenMeaning(exec, body, st);
      }
    } else {
      ObjectsIdle(body, []);
      RunIdle(body, []);
      KeptHeld(body);
      assert [] + Kept(body) == Kept(body) && [] + Held(body) == Held(body);
      assert RunObjects(Idle, Flattened(body), Some([])) != Run(Idle, body, Some([]));
    }
  }
}
