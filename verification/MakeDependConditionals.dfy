/** Conditional groups in makedepend's parse.c: find_includes and gobble walk a flat list of lines. A test may change the
    state, as a lookup merges symbol tables. On well-nested text the walk has the effect of a recursive reading that also
    evaluates the #elif tests gobble passes; when that is the plain reading (the first group whose test holds, else the
    #else group) is proved exactly. */
module MakeDependConditionals {
  import opened Options

  /** A line as deftype classifies it. `Action` is any directive that may change definitions or include a file, `Plain`
      one that does nothing. */
  datatype Line<A, E> =
    | If(cond: E) | Ifdef(sym: string) | Ifndef(sym: string)
    | Elif(cond: E) | Else | Endif
    | Action(action: A) | Plain

  /** How the rest of the program reacts: what an expression comes to, whether a symbol is defined, and what finding out
      does to the state; what a directive does, and what a conditional directive does that stands outside any group. */
  datatype Ops<!S, !A, !E> = Ops(
    holds: (E, S) -> (bool, S),
    defined: (string, S) -> (bool, S),
    act: (A, S) -> S,
    stray: S -> S)

  // What find_includes and gobble return.
  datatype End = EndOfFile | AtElse | AtEndif | AtElif(holds: bool)

  // ----- the walk, on the lines not yet read

  datatype Scanned<S, A, E> = Scanned(end: End, rest: seq<Line<A, E>>, st: S)

  datatype Left<S, A, E> = Left(rest: seq<Line<A, E>>, st: S)

  function Gobbled<S, A, E>(ops: Ops<S, A, E>, ls: seq<Line<A, E>>, st: S): (r: Scanned<S, A, E>)
    ensures |r.rest| <= |ls| && (!r.end.EndOfFile? ==> |r.rest| < |ls|)
    decreases |ls|, 0
  {
    if ls == [] then Scanned(EndOfFile, [], st)
    else match ls[0]
      case If(_) | Ifdef(_) | Ifndef(_) =>
        var g := GobbledGroup(ops, ls[1..], st);
        Gobbled(ops, g.rest, g.st)
      case Else => Scanned(AtElse, ls[1..], st)
      case Endif => Scanned(AtEndif, ls[1..], st)
      case Elif(e) => Scanned(AtElif(ops.holds(e, st).0), ls[1..], ops.holds(e, st).1)
      case Action(_) | Plain => Gobbled(ops, ls[1..], st)
  }

  // The rest of a group whose opening line has been read.
  function GobbledGroup<S, A, E>(ops: Ops<S, A, E>, ls: seq<Line<A, E>>, st: S): (r: Left<S, A, E>)
    ensures |r.rest| <= |ls|
    decreases |ls|, 3
  {
    var r := Gobbled(ops, ls, st);
    GobbledRest(ops, r.end, r.rest, r.st)
  }

  // The groups after one that ended at `end`.
  function GobbledRest<S, A, E>(ops: Ops<S, A, E>, end: End, ls: seq<Line<A, E>>, st: S): (r: Left<S, A, E>)
    ensures |r.rest| <= |ls|
    decreases |ls|, 2
  {
    match end
    case AtElif(_) =>
      if ls == [] then Left([], st)
      else
        var r := Gobbled(ops, ls, st);
        GobbledRest(ops, r.end, r.rest, r.st)
    case AtElse => var r := Gobbled(ops, ls, st); Left(r.rest, r.st)
    case _ => Left(ls, st)
  }

  function Found<S, A, E>(ops: Ops<S, A, E>, ls: seq<Line<A, E>>, st: S, top: bool): (r: Scanned<S, A, E>)
    ensures |r.rest| <= |ls|
    decreases |ls|, 0
  {
    if ls == [] then Scanned(EndOfFile, [], st)
    else
      var rest := ls[1..];
      match ls[0]
      case If(_) | Ifdef(_) | Ifndef(_) =>
        var (taken, st1) := Opened(ops, ls[0], st);
        var r := if taken then Active(ops, rest, st1) else Inactive(ops, rest, st1);
        Found(ops, r.rest, r.st, top)
      case Else =>
        if top then var g := Gobbled(ops, rest, st); Found(ops, g.rest, ops.stray(g.st), top) else Scanned(AtElse, rest, st)
      case Elif(_) =>
        if top then var g := Gobbled(ops, rest, st); Found(ops, g.rest, ops.stray(g.st), top)
        else Scanned(AtElif(true), rest, st)
      case Endif => if top then Found(ops, rest, ops.stray(st), top) else Scanned(AtEndif, rest, st)
      case Action(a) => Found(ops, rest, ops.act(a, st), top)
      case Plain => Found(ops, rest, st, top)
  }

  // The test of a line that opens a group.
  function Opened<S, A, E>(ops: Ops<S, A, E>, line: Line<A, E>, st: S): (bool, S)
    requires line.If? || line.Ifdef? || line.Ifndef?
  {
    match line
    case If(e) => ops.holds(e, st)
    case Ifdef(s) => ops.defined(s, st)
    case Ifndef(s) => var (d, st') := ops.defined(s, st); (!d, st')
  }

  // doif: the group is read, the ones after it are not.
  function Active<S, A, E>(ops: Ops<S, A, E>, ls: seq<Line<A, E>>, st: S): (r: Left<S, A, E>)
    ensures |r.rest| <= |ls|
    decreases |ls|, 1
  {
    var r := Found(ops, ls, st, false);
    GobbledRest(ops, r.end, r.rest, r.st)
  }

  // doiffalse: the group is not read; the one after it is, if its test holds or it is the #else group.
  function Inactive<S, A, E>(ops: Ops<S, A, E>, ls: seq<Line<A, E>>, st: S): (r: Left<S, A, E>)
    ensures |r.rest| <= |ls|
    decreases |ls|, 2
  {
    var g := Gobbled(ops, ls, st);
    match g.end
    case AtElse => var r := Found(ops, g.rest, g.st, false); Left(r.rest, r.st)
    case AtElif(h) => if h then Active(ops, g.rest, g.st) else Inactive(ops, g.rest, g.st)
    case _ => Left(g.rest, g.st)
  }

  // ----- the two procedures, on a file pointer

  /** A file being read: `at` is the next line, `st` everything its directives and tests change. */
  class Scanner<S(!new), A(!new), E(!new)> {
    const ops: Ops<S, A, E>
    const lines: seq<Line<A, E>>
    var at: nat
    var st: S

    ghost predicate Valid()
      reads this
    {
      at <= |lines|
    }

    constructor (ops: Ops<S, A, E>, lines: seq<Line<A, E>>, st: S)
      ensures Valid() && this.ops == ops && this.lines == lines && at == 0 && this.st == st
    {
      this.ops, this.lines, this.st, at := ops, lines, st, 0;
    }

    ghost function Ahead(): seq<Line<A, E>>
      requires Valid()
      reads this
    {
      lines[at..]
    }

    method GetNextLine() returns (line: Option<Line<A, E>>)
      requires Valid()
      modifies `at
      ensures Valid()
      ensures line.None? <==> old(Ahead()) == []
      ensures line.None? ==> at == old(at)
      ensures line.Some? ==> at == old(at) + 1 && line.value == old(Ahead())[0] && Ahead() == old(Ahead())[1..]
    {
      if at == |lines| { return None; }
      at := at + 1;
      line := Some(lines[at - 1]);
    }

    // A test: its outcome, and the state it leaves.
    method Evaluate(e: E) returns (h: bool)
      modifies `st
      ensures (h, st) == ops.holds(e, old(st))
    {
      var (b, st') := ops.holds(e, st);
      h, st := b, st';
    }

    method Gobble() returns (end: End)
      requires Valid()
      modifies `at, `st
      ensures Valid() && at >= old(at) && (!end.EndOfFile? ==> at > old(at))
      ensures Gobbled(ops, old(Ahead()), old(st)) == Scanned(end, Ahead(), st)
      decreases |lines| - at, 0
    {
      ghost var start, st0 := Ahead(), st;
      while true
        invariant Valid() && at >= old(at)
        invariant Gobbled(ops, start, st0) == Gobbled(ops, Ahead(), st)
        decreases |lines| - at
      {
        var line := GetNextLine();
        if line.None? { return EndOfFile; }
        match line.value {
          case If(_) | Ifdef(_) | Ifndef(_) =>
            end := Gobble();
            GobbleRest(end);
          case Else => return AtElse;
          case Endif => return AtEndif;
          case Elif(e) =>
            var h := Evaluate(e);
            return AtElif(h);
          case Action(_) | Plain =>
        }
      }
    }

    // The loop over #elif and the #else that follow a group.
    method GobbleRest(end: End)
      requires Valid()
      modifies `at, `st
      ensures Valid() && at >= old(at)
      ensures GobbledRest(ops, end, old(Ahead()), old(st)) == Left(Ahead(), st)
      decreases |lines| - at, 1
    {
      ghost var start, st0 := Ahead(), st;
      var type_ := end;
      while type_.AtElif?
        invariant Valid() && at >= old(at)
        invariant GobbledRest(ops, end, start, st0) == GobbledRest(ops, type_, Ahead(), st)
        decreases |lines| - at, if type_.AtElif? then 1 else 0
      {
        type_ := Gobble();
      }
      if type_.AtElse? { var _ := Gobble(); }
    }

    // The label doif.
    method DoIf()
      requires Valid()
      modifies `at, `st
      ensures Valid() && at >= old(at)
      ensures Active(ops, old(Ahead()), old(st)) == Left(Ahead(), st)
      decreases |lines| - at, 1
    {
      var end := FindIncludes(false);
      GobbleRest(end);
    }

    // The label doiffalse.
    method DoIfFalse()
      requires Valid()
      modifies `at, `st
      ensures Valid() && at >= old(at)
      ensures Inactive(ops, old(Ahead()), old(st)) == Left(Ahead(), st)
      decreases |lines| - at, 2
    {
      var end := Gobble();
      match end {
        case AtElse => var _ := FindIncludes(false);
        case AtElif(h) => if h { DoIf(); } else { DoIfFalse(); }
        case AtEndif | EndOfFile =>
      }
    }

    // Test the line that opens a group, and read or skip the group.
    method Group(line: Line<A, E>)
      requires Valid() && (line.If? || line.Ifdef? || line.Ifndef?)
      modifies `at, `st
      ensures Valid() && at >= old(at)
      ensures var (taken, st1) := Opened(ops, line, old(st));
              (if taken then Active(ops, old(Ahead()), st1) else Inactive(ops, old(Ahead()), st1)) == Left(Ahead(), st)
      decreases |lines| - at, 3
    {
      var (taken, st1) := Opened(ops, line, st);
      st := st1;
      if taken { DoIf(); } else { DoIfFalse(); }
    }

    /** `top` when not inside a group. */
    method FindIncludes(top: bool) returns (end: End)
      requires Valid()
      modifies `at, `st
      ensures Valid() && at >= old(at)
      ensures Found(ops, old(Ahead()), old(st), top) == Scanned(end, Ahead(), st)
      decreases |lines| - at, 0
    {
      ghost var start, st0 := Ahead(), st;
      while true
        invariant Valid() && at >= old(at)
        invariant Found(ops, start, st0, top) == Found(ops, Ahead(), st, top)
        decreases |lines| - at
      {
        var line := GetNextLine();
        if line.None? { return EndOfFile; }
        match line.value {
          case If(_) | Ifdef(_) | Ifndef(_) => Group(line.value);
          case Else =>
            if !top { return AtElse; }
            var _ := Gobble();
            st := ops.stray(st);
          case Elif(_) =>
            if !top { return AtElif(true); }
            var _ := Gobble();
            st := ops.stray(st);
          case Endif =>
            if !top { return AtEndif; }
            st := ops.stray(st);
          case Action(a) => st := ops.act(a, st);
          case Plain =>
        }
      }
    }
  }

  // ----- well-nested text

  datatype Test<E> = TestIf(cond: E) | TestIfdef(sym: string) | TestIfndef(sym: string)

  /** A piece of text: a line, or a whole conditional. */
  datatype Item<A, E> =
    | Text(action: Option<A>)
    | Cond(test: Test<E>, body: seq<Item<A, E>>, tail: Tail<A, E>)

  // What follows the first group of a conditional.
  datatype Tail<A, E> =
    | Done
    | Otherwise(body: seq<Item<A, E>>)
    | ElseIf(cond: E, body: seq<Item<A, E>>, tail: Tail<A, E>)

  function Opening<A, E>(t: Test<E>): Line<A, E> {
    match t
    case TestIf(e) => If(e)
    case TestIfdef(s) => Ifdef(s)
    case TestIfndef(s) => Ifndef(s)
  }

  function Lines<A, E>(items: seq<Item<A, E>>): seq<Line<A, E>>
    decreases items
  {
    if items == [] then [] else ItemLines(items[0]) + Lines(items[1..])
  }

  function ItemLines<A, E>(item: Item<A, E>): seq<Line<A, E>>
    decreases item
  {
    match item
    case Text(None) => [Plain]
    case Text(Some(a)) => [Action(a)]
    case Cond(t, body, tail) => [Opening(t)] + Lines(body) + TailLines(tail)
  }

  function TailLines<A, E>(tail: Tail<A, E>): seq<Line<A, E>>
    decreases tail
  {
    match tail
    case Done => [Endif]
    case Otherwise(body) => [Else] + Lines(body) + [Endif]
    case ElseIf(e, body, more) => [Elif(e)] + Lines(body) + TailLines(more)
  }

  // ----- the plain reading

  function Decided<S, A, E>(ops: Ops<S, A, E>, t: Test<E>, st: S): (bool, S) { Opened(ops, Opening(t), st) }

  function Run<S, A, E>(ops: Ops<S, A, E>, items: seq<Item<A, E>>, st: S): S
    decreases items
  {
    if items == [] then st else Run(ops, items[1..], RunItem(ops, items[0], st))
  }

  function RunItem<S, A, E>(ops: Ops<S, A, E>, item: Item<A, E>, st: S): S
    decreases item
  {
    match item
    case Text(None) => st
    case Text(Some(a)) => ops.act(a, st)
    case Cond(t, body, tail) =>
      var (taken, st1) := Decided(ops, t, st);
      if taken then Run(ops, body, st1) else RunTail(ops, tail, st1)
  }

  // The first group whose test holds, else the #else group, else nothing.
  function RunTail<S, A, E>(ops: Ops<S, A, E>, tail: Tail<A, E>, st: S): S
    decreases tail
  {
    match tail
    case Done => st
    case Otherwise(body) => Run(ops, body, st)
    case ElseIf(e, body, more) =>
      var (h, st1) := ops.holds(e, st);
      if h then Run(ops, body, st1) else RunTail(ops, more, st1)
  }

  // ----- the reading that evaluates the #elif tests that are passed

  // Text that is passed: every #elif in it is tested, at any depth, and nothing else.
  function Pass<S, A, E>(ops: Ops<S, A, E>, items: seq<Item<A, E>>, st: S): S
    decreases items
  {
    if items == [] then st else Pass(ops, items[1..], PassItem(ops, items[0], st))
  }

  function PassItem<S, A, E>(ops: Ops<S, A, E>, item: Item<A, E>, st: S): S
    decreases item
  {
    match item
    case Text(_) => st
    case Cond(_, body, tail) => PassTail(ops, tail, Pass(ops, body, st))
  }

  // What follows a group that is passed.
  function PassTail<S, A, E>(ops: Ops<S, A, E>, tail: Tail<A, E>, st: S): S
    decreases tail, 1
  {
    PassRest(ops, tail, AtTail(ops, tail, st))
  }

  // The line after a group that is passed.
  function AtTail<S, A, E>(ops: Ops<S, A, E>, tail: Tail<A, E>, st: S): S {
    if tail.ElseIf? then ops.holds(tail.cond, st).1 else st
  }

  // What follows that line; after a group that is read, an #elif is not tested.
  function PassRest<S, A, E>(ops: Ops<S, A, E>, tail: Tail<A, E>, st: S): S
    decreases tail, 0
  {
    match tail
    case Done => st
    case Otherwise(body) => Pass(ops, body, st)
    case ElseIf(_, body, more) => PassTail(ops, more, Pass(ops, body, st))
  }

  function Read<S, A, E>(ops: Ops<S, A, E>, items: seq<Item<A, E>>, st: S): S
    decreases items
  {
    if items == [] then st else Read(ops, items[1..], ReadItem(ops, items[0], st))
  }

  function ReadItem<S, A, E>(ops: Ops<S, A, E>, item: Item<A, E>, st: S): S
    decreases item
  {
    match item
    case Text(None) => st
    case Text(Some(a)) => ops.act(a, st)
    case Cond(t, body, tail) =>
      var (taken, st1) := Decided(ops, t, st);
      if taken then PassRest(ops, tail, Read(ops, body, st1)) else ReadTail(ops, tail, Pass(ops, body, st1))
  }

  function ReadTail<S, A, E>(ops: Ops<S, A, E>, tail: Tail<A, E>, st: S): S
    decreases tail
  {
    match tail
    case Done => st
    case Otherwise(body) => Read(ops, body, st)
    case ElseIf(e, body, more) =>
      var (h, st1) := ops.holds(e, st);
      if h then PassRest(ops, more, Read(ops, body, st1)) else ReadTail(ops, more, Pass(ops, body, st1))
  }

  // ----- gobble

  lemma {:induction false} GobbleItems<S, A, E>(ops: Ops<S, A, E>, items: seq<Item<A, E>>, more: seq<Line<A, E>>, st: S)
    ensures Gobbled(ops, Lines(items) + more, st) == Gobbled(ops, more, Pass(ops, items, st))
    decreases items
  {
    if items == [] {
      assert Lines(items) + more == more;
    } else {
      var rest := Lines(items[1..]) + more;
      assert Lines(items) + more == ItemLines(items[0]) + rest;
      GobbleItem(ops, items[0], rest, st);
      GobbleItems(ops, items[1..], more, PassItem(ops, items[0], st));
    }
  }

  lemma {:induction false} GobbleItem<S, A, E>(ops: Ops<S, A, E>, item: Item<A, E>, more: seq<Line<A, E>>, st: S)
    ensures Gobbled(ops, ItemLines(item) + more, st) == Gobbled(ops, more, PassItem(ops, item, st))
    decreases item
  {
    var ls := ItemLines(item) + more;
    match item {
      case Text(_) =>
        assert ls[1..] == more;
      case Cond(t, body, tail) =>
        assert ls[1..] == Lines(body) + (TailLines(tail) + more);
        GobbleItems(ops, body, TailLines(tail) + more, st);
        GobbleTail(ops, tail, more, Pass(ops, body, st));
    }
  }

  // Where a group ends; the outcome of an #elif is not always known.
  predicate EndsAt<A, E>(tail: Tail<A, E>, end: End) {
    match tail
    case Done => end == AtEndif
    case Otherwise(_) => end == AtElse
    case ElseIf(_, _, _) => end.AtElif?
  }

  lemma TailSplit<A, E>(tail: Tail<A, E>, more: seq<Line<A, E>>)
    ensures var ls := TailLines(tail) + more;
            ls != [] && match tail
            case Done => ls[1..] == more && ls[0] == Endif
            case Otherwise(body) => ls[1..] == Lines(body) + ([Endif] + more) && ls[0] == Else
            case ElseIf(e, body, rest) => ls[1..] == Lines(body) + (TailLines(rest) + more) && ls[0] == Elif(e)
  {
  }

  /** From the end of any group of a conditional, gobbling on ends behind its #endif, whatever the tests say. */
  lemma {:induction false} GobbleTail<S, A, E>(ops: Ops<S, A, E>, tail: Tail<A, E>, more: seq<Line<A, E>>, st: S)
    ensures var ls := TailLines(tail) + more;
            var r := Gobbled(ops, ls, st);
            && r.rest == ls[1..] && r.st == AtTail(ops, tail, st) && EndsAt(tail, r.end)
            && (tail.ElseIf? ==> r.end == AtElif(ops.holds(tail.cond, st).0))
            && GobbledRest(ops, r.end, r.rest, r.st) == Left(more, PassTail(ops, tail, st))
    decreases tail, 1
  {
    hide Lines, TailLines;
    TailSplit(tail, more);
    GobbleRest(ops, tail, more, Gobbled(ops, TailLines(tail) + more, st).end, AtTail(ops, tail, st));
  }

  lemma {:induction false} GobbleRest<S, A, E>(ops: Ops<S, A, E>, tail: Tail<A, E>, more: seq<Line<A, E>>, end: End, st: S)
    requires EndsAt(tail, end)
    ensures var ls := TailLines(tail) + more;
            ls != [] && GobbledRest(ops, end, ls[1..], st) == Left(more, PassRest(ops, tail, st))
    decreases tail, 0
  {
    hide Lines, TailLines;
    TailSplit(tail, more);
    match tail {
      case Done =>
      case Otherwise(body) =>
        GobbleItems(ops, body, [Endif] + more, st);
        assert ([Endif] + more)[1..] == more;
      case ElseIf(e, body, rest) =>
        GobbleItems(ops, body, TailLines(rest) + more, st);
        GobbleTail(ops, rest, more, Pass(ops, body, st));
        TailSplit(rest, more);
    }
  }

  /** gobble consumes exactly the rest of one conditional; all it does to the state is to test the #elif lines in it. */
  lemma GobbleOne<S, A, E>(ops: Ops<S, A, E>, body: seq<Item<A, E>>, tail: Tail<A, E>, more: seq<Line<A, E>>, st: S)
    ensures GobbledGroup(ops, Lines(body) + TailLines(tail) + more, st)
            == Left(more, PassTail(ops, tail, Pass(ops, body, st)))
  {
    assert Lines(body) + TailLines(tail) + more == Lines(body) + (TailLines(tail) + more);
    GobbleItems(ops, body, TailLines(tail) + more, st);
    GobbleTail(ops, tail, more, Pass(ops, body, st));
  }

  // ----- find_includes

  /** find_includes on well-nested text has the effect of that text, passed #elif tests included, and goes on behind it. */
  lemma {:induction false} FindItems<S, A, E>(ops: Ops<S, A, E>, items: seq<Item<A, E>>, more: seq<Line<A, E>>, st: S, top: bool)
    ensures Found(ops, Lines(items) + more, st, top) == Found(ops, more, Read(ops, items, st), top)
    decreases items, 0
  {
    if items == [] {
      assert Lines(items) + more == more;
    } else {
      var rest := Lines(items[1..]) + more;
      assert Lines(items) + more == ItemLines(items[0]) + rest;
      FindItem(ops, items[0], rest, st, top);
      FindItems(ops, items[1..], more, ReadItem(ops, items[0], st), top);
    }
  }

  lemma {:induction false} FindItem<S, A, E>(ops: Ops<S, A, E>, item: Item<A, E>, more: seq<Line<A, E>>, st: S, top: bool)
    ensures Found(ops, ItemLines(item) + more, st, top) == Found(ops, more, ReadItem(ops, item, st), top)
    decreases item
  {
    hide Gobbled, GobbledRest;
    var ls := ItemLines(item) + more;
    match item {
      case Text(_) =>
        assert ls[1..] == more;
      case Cond(t, body, tail) =>
        assert ls[0] == Opening(t) && ls[1..] == Lines(body) + (TailLines(tail) + more);
        var (taken, st1) := Decided(ops, t, st);
        if taken {
          FindActive(ops, body, tail, more, st1);
        } else {
          FindInactive(ops, body, tail, more, st1);
        }
    }
  }

  // A group that is read, and the rest of its conditional, which is not.
  lemma {:induction false} FindActive<S, A, E>(ops: Ops<S, A, E>, body: seq<Item<A, E>>, tail: Tail<A, E>,
                                              more: seq<Line<A, E>>, st: S)
    ensures Active(ops, Lines(body) + (TailLines(tail) + more), st) == Left(more, PassRest(ops, tail, Read(ops, body, st)))
    decreases body, 1
  {
    hide Lines, TailLines, GobbledRest, Gobbled, PassRest;
    var st' := Read(ops, body, st);
    FindItems(ops, body, TailLines(tail) + more, st, false);
    TailSplit(tail, more);
    GobbleRest(ops, tail, more, Found(ops, TailLines(tail) + more, st', false).end, st');
  }

  // A group that is not read, and the rest of its conditional, of which one may be.
  lemma {:induction false} FindInactive<S, A, E>(ops: Ops<S, A, E>, body: seq<Item<A, E>>, tail: Tail<A, E>,
                                                more: seq<Line<A, E>>, st: S)
    ensures Inactive(ops, Lines(body) + (TailLines(tail) + more), st) == Left(more, ReadTail(ops, tail, Pass(ops, body, st)))
    decreases tail
  {
    hide Lines, TailLines, GobbledRest, PassRest, Pass;
    var st' := Pass(ops, body, st);
    GobbleItems(ops, body, TailLines(tail) + more, st);
    GobbleTail(ops, tail, more, st');
    TailSplit(tail, more);
    match tail {
      case Done =>
      case Otherwise(other) =>
        FindItems(ops, other, [Endif] + more, st', false);
        assert ([Endif] + more)[1..] == more;
      case ElseIf(e, other, rest) =>
        var (h, st1) := ops.holds(e, st');
        if h {
          FindActive(ops, other, rest, more, st1);
        } else {
          FindInactive(ops, other, rest, more, st1);
        }
    }
  }

  /** A file of well-nested text. */
  method ReadFile<S(!new), A(!new), E(!new)>(ops: Ops<S, A, E>, items: seq<Item<A, E>>, st: S) returns (st': S)
    ensures st' == Read(ops, items, st)
    ensures Straight(items) ==> st' == Run(ops, items, st)
  {
    var scanner := new Scanner(ops, Lines(items), st);
    var _ := scanner.FindIncludes(true);
    assert Lines(items) + [] == Lines(items);
    FindItems(ops, items, [], st, true);
    st' := scanner.st;
    if Straight(items) { StraightPlain(ops, items, st); }
  }

  // ----- when that is the plain reading: by the text

  predicate NoElif<A, E>(items: seq<Item<A, E>>)
    decreases items
  {
    forall i | 0 <= i < |items| :: items[i].Cond? ==> NoElif(items[i].body) && NoElifTail(items[i].tail)
  }

  predicate NoElifTail<A, E>(tail: Tail<A, E>)
    decreases tail
  {
    match tail
    case Done => true
    case Otherwise(body) => NoElif(body)
    case ElseIf(_, _, _) => false
  }

  /** No outermost conditional has more than one #elif line in it, and that one is its own. */
  predicate Straight<A, E>(items: seq<Item<A, E>>) {
    forall i | 0 <= i < |items| :: items[i].Cond? ==> NoElif(items[i].body) && StraightTail(items[i].tail)
  }

  predicate StraightTail<A, E>(tail: Tail<A, E>) {
    match tail
    case ElseIf(_, body, more) => NoElif(body) && NoElifTail(more)
    case _ => NoElifTail(tail)
  }

  // Nothing is tested where there is no #elif.
  lemma {:induction false} PassNoElif<S, A, E>(ops: Ops<S, A, E>, items: seq<Item<A, E>>, st: S)
    requires NoElif(items)
    ensures Pass(ops, items, st) == st
    decreases items
  {
    if items != [] {
      if items[0].Cond? {
        PassNoElif(ops, items[0].body, st);
        PassNoElifTail(ops, items[0].tail, st);
      }
      PassNoElif(ops, items[1..], st);
    }
  }

  lemma {:induction false} PassNoElifTail<S, A, E>(ops: Ops<S, A, E>, tail: Tail<A, E>, st: S)
    requires NoElifTail(tail)
    ensures PassRest(ops, tail, st) == PassTail(ops, tail, st) == st
    decreases tail
  {
    if tail.Otherwise? { PassNoElif(ops, tail.body, st); }
  }

  lemma {:induction false} ReadNoElif<S, A, E>(ops: Ops<S, A, E>, items: seq<Item<A, E>>, st: S)
    requires NoElif(items)
    ensures Read(ops, items, st) == Run(ops, items, st)
    decreases items
  {
    if items != [] {
      if items[0].Cond? {
        assert NoElif(items[0].body) && NoElifTail(items[0].tail);
        var (taken, st1) := Decided(ops, items[0].test, st);
        ReadNoElif(ops, items[0].body, st1);
        PassNoElifTail(ops, items[0].tail, Run(ops, items[0].body, st1));
        PassNoElif(ops, items[0].body, st1);
        ReadNoElifTail(ops, items[0].tail, st1);
        assert ReadItem(ops, items[0], st) == RunItem(ops, items[0], st);
      }
      ReadNoElif(ops, items[1..], RunItem(ops, items[0], st));
    }
  }

  lemma {:induction false} ReadNoElifTail<S, A, E>(ops: Ops<S, A, E>, tail: Tail<A, E>, st: S)
    requires NoElifTail(tail)
    ensures ReadTail(ops, tail, st) == RunTail(ops, tail, st)
    decreases tail
  {
    if tail.Otherwise? { ReadNoElif(ops, tail.body, st); }
  }

  lemma {:induction false} StraightPlain<S, A, E>(ops: Ops<S, A, E>, items: seq<Item<A, E>>, st: S)
    requires Straight(items)
    ensures Read(ops, items, st) == Run(ops, items, st)
    decreases |items|
  {
    if items != [] {
      if items[0].Cond? { StraightCond(ops, items[0].test, items[0].body, items[0].tail, st); }
      StraightPlain(ops, items[1..], RunItem(ops, items[0], st));
    }
  }

  lemma StraightCond<S, A, E>(ops: Ops<S, A, E>, t: Test<E>, body: seq<Item<A, E>>, tail: Tail<A, E>, st: S)
    requires NoElif(body) && StraightTail(tail)
    ensures ReadItem(ops, Cond(t, body, tail), st) == RunItem(ops, Cond(t, body, tail), st)
  {
    hide Pass, NoElif, NoElifTail;
    var (taken, st1) := Decided(ops, t, st);
    ReadNoElif(ops, body, st1);
    PassNoElif(ops, body, st1);
    match tail {
      case Done =>
      case Otherwise(other) =>
        OtherwiseNoElif(other);
        ReadNoElif(ops, other, st1);
        PassNoElif(ops, other, Run(ops, body, st1));
      case ElseIf(e, other, more) =>
        PassNoElif(ops, other, Run(ops, body, st1));
        PassNoElifTail(ops, more, Run(ops, body, st1));
        var (h, st2) := ops.holds(e, st1);
        ReadNoElif(ops, other, st2);
        PassNoElif(ops, other, st2);
        PassNoElifTail(ops, more, Run(ops, other, st2));
        ReadNoElifTail(ops, more, st2);
    }
  }

  lemma OtherwiseNoElif<A, E>(body: seq<Item<A, E>>)
    ensures NoElifTail(Otherwise(body)) == NoElif(body)
  {
  }

  // ----- what #ifdef and #ifndef mean

  /** #ifdef is #if of an expression that comes to whether the symbol is defined, and #ifndef is #if of one that comes to
      the contrary: before any lines, well nested or not, and in both readings of a conditional. */
  lemma IfdefIsIf<S, A, E>(ops: Ops<S, A, E>, e: E, sym: string, rest: seq<Line<A, E>>, body: seq<Item<A, E>>,
                           tail: Tail<A, E>, st: S, top: bool)
    ensures var on, if_, ifndef := ops.holds(e, st), [If(e)] + rest, [Ifndef(sym)] + rest;
            && (on == ops.defined(sym, st) ==>
                  && Found(ops, if_, st, top) == Found(ops, [Ifdef(sym)] + rest, st, top)
                  && RunItem(ops, Cond(TestIf(e), body, tail), st) == RunItem(ops, Cond(TestIfdef(sym), body, tail), st)
                  && ReadItem(ops, Cond(TestIf(e), body, tail), st) == ReadItem(ops, Cond(TestIfdef(sym), body, tail), st))
            && ((!on.0, on.1) == ops.defined(sym, st) ==>
                  && Found(ops, if_, st, top) == Found(ops, ifndef, st, top)
                  && RunItem(ops, Cond(TestIf(e), body, tail), st) == RunItem(ops, Cond(TestIfndef(sym), body, tail), st)
                  && ReadItem(ops, Cond(TestIf(e), body, tail), st) == ReadItem(ops, Cond(TestIfndef(sym), body, tail), st))
  {
    hide Active, Inactive, Run, Read, RunTail, ReadTail;
    assert ([If(e)] + rest)[1..] == ([Ifdef(sym)] + rest)[1..] == ([Ifndef(sym)] + rest)[1..] == rest;
  }

  /** An #if with an #else reads its first group when the expression holds, and its second when not. */
  lemma IfElse<S, A, E>(ops: Ops<S, A, E>, e: E, body: seq<Item<A, E>>, other: seq<Item<A, E>>, more: seq<Line<A, E>>,
                        st: S, top: bool)
    requires NoElif(body) && NoElif(other)
    ensures var (holds, st1) := ops.holds(e, st);
            Found(ops, [If(e)] + Lines(body) + [Else] + Lines(other) + [Endif] + more, st, top)
            == Found(ops, more, Run(ops, if holds then body else other, st1), top)
  {
    hide Found, Pass, NoElif;
    var st1 := ops.holds(e, st).1;
    var c := Cond(TestIf(e), body, Otherwise(other));
    assert ItemLines(c) == [If(e)] + Lines(body) + ([Else] + Lines(other) + [Endif]);
    assert ItemLines(c) + more == [If(e)] + Lines(body) + [Else] + Lines(other) + [Endif] + more;
    FindItem(ops, c, more, st, top);
    ReadNoElif(ops, body, st1);
    ReadNoElif(ops, other, st1);
    PassNoElif(ops, body, st1);
    PassNoElif(ops, other, Run(ops, body, st1));
  }

  // The lines of a file that defines its own guard.
  function Guarded<A, E>(guard: string, definition: A, body: seq<Item<A, E>>): seq<Line<A, E>> {
    [Ifndef(guard), Action(definition)] + Lines(body) + [Endif]
  }

  lemma GuardedText<A, E>(guard: string, definition: A, body: seq<Item<A, E>>)
    ensures ItemLines(Cond(TestIfndef(guard), [Text(Some(definition))] + body, Done)) == Guarded(guard, definition, body)
  {
    var inside: seq<Item<A, E>> := [Text(Some(definition))] + body;
    assert inside[1..] == body;
    assert Lines(inside) == [Action(definition)] + Lines(body);
    assert [Ifndef(guard)] + ([Action(definition)] + Lines(body)) == [Ifndef(guard), Action(definition)] + Lines(body);
  }

  /** A file between #ifndef H, #define H and #endif is read while H is not defined, its definition first, and passed
      once H is. */
  lemma GuardedFile<S, A, E>(ops: Ops<S, A, E>, guard: string, definition: A, body: seq<Item<A, E>>, more: seq<Line<A, E>>,
                             st: S, top: bool)
    ensures var (defined, st1) := ops.defined(guard, st);
            Found(ops, Guarded(guard, definition, body) + more, st, top)
            == Found(ops, more, if defined then Pass(ops, body, st1) else Read(ops, body, ops.act(definition, st1)), top)
  {
    var inside := [Text(Some(definition))] + body;
    var c := Cond(TestIfndef(guard), inside, Done);
    hide Found;
    GuardedText(guard, definition, body);
    assert inside[1..] == body;
    FindItem(ops, c, more, st, top);
    var st1 := ops.defined(guard, st).1;
    assert Read(ops, inside, st1) == Read(ops, body, ops.act(definition, st1));
    assert Pass(ops, inside, st1) == Pass(ops, body, st1);
    assert ReadItem(ops, c, st) == if ops.defined(guard, st).0 then Pass(ops, inside, st1) else Read(ops, inside, st1);
  }

  /** Such a file included twice in a row is read once, unless it undefines its guard. */
  lemma ReadOnce<S, A, E>(ops: Ops<S, A, E>, guard: string, definition: A, body: seq<Item<A, E>>, more: seq<Line<A, E>>,
                          st: S, top: bool)
    requires !ops.defined(guard, st).0 && NoElif(body)
    ensures var once := Run(ops, body, ops.act(definition, ops.defined(guard, st).1));
            ops.defined(guard, once).0 ==>
              Found(ops, Guarded(guard, definition, body) + Guarded(guard, definition, body) + more, st, top)
              == Found(ops, more, ops.defined(guard, once).1, top)
  {
    hide Found, Read, Pass, NoElif, Guarded;
    var st1 := ops.act(definition, ops.defined(guard, st).1);
    var once := Run(ops, body, st1);
    var g := Guarded<A, E>(guard, definition, body);
    assert g + g + more == g + (g + more);
    GuardedFile(ops, guard, definition, body, g + more, st, top);
    GuardedFile(ops, guard, definition, body, more, once, top);
    ReadNoElif(ops, body, st1);
    PassNoElif(ops, body, ops.defined(guard, once).1);
  }

  // The state counts the expressions evaluated; the outcomes are fixed.
  function Counting<A, E>(h: bool, d: bool): Ops<int, A, E> {
    Ops((e, n) => (h, n + 1), (s, n) => (d, n), (a, n) => n, n => n)
  }

  // Passing text that has an #elif evaluates something.
  lemma {:induction false} PassCounts<A, E>(h: bool, d: bool, items: seq<Item<A, E>>, n: int)
    ensures Pass(Counting(h, d), items, n) >= if NoElif(items) then n else n + 1
    decreases items
  {
    if items != [] {
      var ops := Counting<A, E>(h, d);
      var n' := n;
      if items[0].Cond? {
        PassCounts(h, d, items[0].body, n);
        PassTailCounts(h, d, items[0].tail, Pass(ops, items[0].body, n));
        n' := PassTail(ops, items[0].tail, Pass(ops, items[0].body, n));
      }
      PassCounts(h, d, items[1..], n');
      if !NoElif(items) && NoElif(items[1..]) {
        var i :| 0 <= i < |items| && items[i].Cond? && !(NoElif(items[i].body) && NoElifTail(items[i].tail));
        if i > 0 { assert items[1..][i - 1] == items[i]; }
      }
    }
  }

  lemma {:induction false} PassTailCounts<A, E>(h: bool, d: bool, tail: Tail<A, E>, n: int)
    ensures PassTail(Counting(h, d), tail, n) >= if NoElifTail(tail) then n else n + 1
    ensures PassRest(Counting(h, d), tail, n) >= n
    ensures tail.ElseIf? && !(NoElif(tail.body) && NoElifTail(tail.tail)) ==> PassRest(Counting(h, d), tail, n) > n
    decreases tail
  {
    match tail {
      case Done =>
      case Otherwise(body) => PassCounts(h, d, body, n);
      case ElseIf(_, body, more) =>
        var ops := Counting<A, E>(h, d);
        PassCounts(h, d, body, n);
        PassTailCounts(h, d, more, Pass(ops, body, n));
        PassCounts(h, d, body, n + 1);
        PassTailCounts(h, d, more, Pass(ops, body, n + 1));
    }
  }

  // The reading that tests more is never behind.
  lemma {:induction false} ReadAhead<A, E>(h: bool, d: bool, items: seq<Item<A, E>>, n: int, m: int)
    requires n >= m
    ensures Read(Counting(h, d), items, n) - n >= Run(Counting(h, d), items, m) - m
    decreases items, 1
  {
    if items != [] {
      ReadItemAhead(h, d, items[0], n, m);
      ReadAhead(h, d, items[1..], ReadItem(Counting(h, d), items[0], n), RunItem(Counting(h, d), items[0], m));
    }
  }

  lemma {:induction false} ReadItemAhead<A, E>(h: bool, d: bool, item: Item<A, E>, n: int, m: int)
    requires n >= m
    ensures ReadItem(Counting(h, d), item, n) - n >= RunItem(Counting(h, d), item, m) - m
    decreases item, 0
  {
    if item.Cond? {
      var ops := Counting<A, E>(h, d);
      var (taken, n1) := Decided(ops, item.test, n);
      var (_, m1) := Decided(ops, item.test, m);
      if taken {
        ReadAhead(h, d, item.body, n1, m1);
        PassTailCounts(h, d, item.tail, Read(ops, item.body, n1));
      } else {
        PassCounts(h, d, item.body, n1);
        ReadTailAhead(h, d, item.tail, Pass(ops, item.body, n1), m1);
      }
    }
  }

  lemma {:induction false} ReadTailAhead<A, E>(h: bool, d: bool, tail: Tail<A, E>, n: int, m: int)
    requires n >= m
    ensures ReadTail(Counting(h, d), tail, n) - n >= RunTail(Counting(h, d), tail, m) - m
    decreases tail
  {
    var ops := Counting<A, E>(h, d);
    match tail {
      case Done =>
      case Otherwise(body) => ReadAhead(h, d, body, n, m);
      case ElseIf(e, body, more) =>
        if h {
          ReadAhead(h, d, body, n + 1, m + 1);
          PassTailCounts(h, d, more, Read(ops, body, n + 1));
        } else {
          PassCounts(h, d, body, n + 1);
          ReadTailAhead(h, d, more, Pass(ops, body, n + 1), m + 1);
        }
    }
  }

  // Outcomes under which a conditional that is not straight tests more than it should.
  function Upset<A, E>(item: Item<A, E>): Ops<int, A, E>
    requires item.Cond?
  {
    var taken := NoElif(item.body);
    Counting(taken, if item.test.TestIfndef? then !taken else taken)
  }

  lemma NotStraightCond<A, E>(item: Item<A, E>, n: int, m: int)
    requires n >= m && item.Cond? && !(NoElif(item.body) && StraightTail(item.tail))
    ensures ReadItem(Upset(item), item, n) - n > RunItem(Upset(item), item, m) - m
  {
    var taken := NoElif(item.body);
    var h, d := taken, if item.test.TestIfndef? then !taken else taken;
    var ops := Counting<A, E>(h, d);
    var n1, m1 := Decided(ops, item.test, n).1, Decided(ops, item.test, m).1;
    assert Decided(ops, item.test, n).0 == Decided(ops, item.test, m).0 == taken;
    if taken {
      ReadAhead(h, d, item.body, n1, m1);
      var n2 := Read(ops, item.body, n1);
      PassTailCounts(h, d, item.tail, n2);
      if item.tail.Otherwise? { PassCounts(h, d, item.tail.body, n2); }
    } else {
      PassCounts(h, d, item.body, n1);
      ReadTailAhead(h, d, item.tail, Pass(ops, item.body, n1), m1);
    }
  }

  lemma {:induction false} NotStraight<A, E>(items: seq<Item<A, E>>, i: nat, n: int, m: int)
    requires n >= m && i < |items| && items[i].Cond? && !(NoElif(items[i].body) && StraightTail(items[i].tail))
    ensures Read(Upset(items[i]), items, n) - n > Run(Upset(items[i]), items, m) - m
    decreases i
  {
    var taken := NoElif(items[i].body);
    var h, d := taken, if items[i].test.TestIfndef? then !taken else taken;
    var ops := Upset(items[i]);
    if i == 0 {
      NotStraightCond(items[0], n, m);
      ReadAhead(h, d, items[1..], ReadItem(ops, items[0], n), RunItem(ops, items[0], m));
    } else {
      ReadItemAhead(h, d, items[0], n, m);
      NotStraight(items[1..], i - 1, ReadItem(ops, items[0], n), RunItem(ops, items[0], m));
    }
  }

  /** The text is read as C reads it, whatever its tests come to and do, exactly when no outermost conditional has more
      than one #elif in it, and that one is its own. */
  lemma PlainExactly<A(!new), E(!new)>(items: seq<Item<A, E>>)
    ensures (forall ops: Ops<int, A, E>, st: int :: Read(ops, items, st) == Run(ops, items, st)) <==> Straight(items)
  {
    if Straight(items) {
      forall ops: Ops<int, A, E>, st: int
        ensures Read(ops, items, st) == Run(ops, items, st)
      {
        StraightPlain(ops, items, st);
      }
    } else {
      var i :| 0 <= i < |items| && items[i].Cond? && !(NoElif(items[i].body) && StraightTail(items[i].tail));
      NotStraight(items, i, 0, 0);
      assert Read(Upset(items[i]), items, 0) != Run(Upset(items[i]), items, 0);
    }
  }

  // ----- when that is the plain reading: by the tests

  ghost predicate Quiet<S(!new), A, E(!new)>(ops: Ops<S, A, E>) { forall e, st :: ops.holds(e, st).1 == st }

  lemma {:induction false} QuietPass<S(!new), A, E(!new)>(ops: Ops<S, A, E>, items: seq<Item<A, E>>, st: S)
    requires Quiet(ops)
    ensures Pass(ops, items, st) == st
    decreases items
  {
    if items != [] {
      if items[0].Cond? {
        QuietPass(ops, items[0].body, st);
        QuietPassTail(ops, items[0].tail, st);
      }
      QuietPass(ops, items[1..], st);
    }
  }

  lemma {:induction false} QuietPassTail<S(!new), A, E(!new)>(ops: Ops<S, A, E>, tail: Tail<A, E>, st: S)
    requires Quiet(ops)
    ensures PassTail(ops, tail, st) == PassRest(ops, tail, st) == st
    decreases tail
  {
    match tail {
      case Done =>
      case Otherwise(body) => QuietPass(ops, body, st);
      case ElseIf(e, body, more) =>
        QuietPass(ops, body, st);
        QuietPassTail(ops, more, st);
        assert AtTail(ops, tail, st) == st;
    }
  }

  lemma {:induction false} QuietRead<S(!new), A, E(!new)>(ops: Ops<S, A, E>, items: seq<Item<A, E>>, st: S)
    requires Quiet(ops)
    ensures Read(ops, items, st) == Run(ops, items, st)
    decreases items
  {
    if items != [] {
      if items[0].Cond? {
        var (taken, st1) := Decided(ops, items[0].test, st);
        QuietRead(ops, items[0].body, st1);
        QuietPassTail(ops, items[0].tail, Run(ops, items[0].body, st1));
        QuietPass(ops, items[0].body, st1);
        QuietReadTail(ops, items[0].tail, st1);
      }
      QuietRead(ops, items[1..], RunItem(ops, items[0], st));
    }
  }

  lemma {:induction false} QuietReadTail<S(!new), A, E(!new)>(ops: Ops<S, A, E>, tail: Tail<A, E>, st: S)
    requires Quiet(ops)
    ensures ReadTail(ops, tail, st) == RunTail(ops, tail, st)
    decreases tail
  {
    match tail {
      case Done =>
      case Otherwise(body) => QuietRead(ops, body, st);
      case ElseIf(e, body, more) =>
        QuietRead(ops, body, st);
        QuietPassTail(ops, more, Run(ops, body, st));
        QuietPass(ops, body, st);
        QuietReadTail(ops, more, st);
    }
  }

  lemma NothingRead<S, A, E>(ops: Ops<S, A, E>, st: S)
    ensures Read(ops, [], st) == Run(ops, [], st) == Pass(ops, [], st) == st
  {
  }

  // A conditional whose second #elif tests e, although its first group is taken.
  function Passing<A, E>(one: E, e: E): Item<A, E> { Cond(TestIf(one), [], ElseIf(one, [], ElseIf(e, [], Done))) }

  lemma PassedTest<S, A, E>(ops: Ops<S, A, E>, one: E, e: E, st: S)
    requires ops.holds(one, st) == (true, st)
    ensures Read(ops, [Passing(one, e)], st) == ops.holds(e, st).1 && Run(ops, [Passing(one, e)], st) == st
  {
    var item: Item<A, E> := Passing(one, e);
    var two: Tail<A, E> := ElseIf(e, [], Done);
    var st1 := ops.holds(e, st).1;
    NothingRead(ops, st);
    NothingRead(ops, st1);
    assert PassTail(ops, Done, st1) == st1;
    assert PassTail(ops, two, st) == st1;
    assert PassRest(ops, item.tail, st) == st1;
    assert ReadItem(ops, item, st) == st1 && RunItem(ops, item, st) == st;
    assert [item][1..] == [];
  }

  /** All text is read as C reads it exactly when no test does anything to the state. `one` is a test like 1, which has
      no name to look up. */
  lemma PlainWhenQuiet<S(!new), A(!new), E(!new)>(ops: Ops<S, A, E>, one: E)
    requires forall st :: ops.holds(one, st) == (true, st)
    ensures (forall items: seq<Item<A, E>>, st: S :: Read(ops, items, st) == Run(ops, items, st)) <==> Quiet(ops)
  {
    if Quiet(ops) {
      forall items: seq<Item<A, E>>, st: S
        ensures Read(ops, items, st) == Run(ops, items, st)
      {
        QuietRead(ops, items, st);
      }
    } else {
      var e, st :| ops.holds(e, st).1 != st;
      PassedTest<S, A, E>(ops, one, e, st);
    }
  }

  // ----- an input where it is not

  datatype Expr = Number(truth: bool) | Names(sym: string) | Equals(sym: string, val: string)

  datatype Directive = Define(sym: string, val: string) | Include(file: string, defs: map<string, string>)

  /** A file that includes another, already read: its table, that of the other, whether the other has been merged, and
      the files included. */
  datatype Files = Files(defs: map<string, string>, child: map<string, string>, merged: bool, included: seq<string>)

  // fdefined on the two: a search that comes to the other file merges it.
  function LookUp(sym: string, fs: Files): (Option<string>, Files) {
    if sym in fs.defs then (Some(fs.defs[sym]), fs)
    else if fs.merged then (None, fs)
    else (if sym in fs.child then Some(fs.child[sym]) else None, fs.(defs := fs.defs + fs.child, merged := true))
  }

  function Holds(e: Expr, fs: Files): (bool, Files) {
    match e
    case Number(b) => (b, fs)
    case Names(s) => var (v, fs') := LookUp(s, fs); (v.Some?, fs')
    case Equals(s, val) => var (v, fs') := LookUp(s, fs); (v == Some(val), fs')
  }

  function Act(d: Directive, fs: Files): Files {
    match d
    case Define(s, v) => fs.(defs := fs.defs[s := v])
    case Include(f, defs) => fs.(child := defs, merged := false, included := fs.included + [f])
  }

  const TwoFiles: Ops<Files, Directive, Expr> :=
    Ops((e, fs) => Holds(e, fs), (s, fs) => (LookUp(s, fs).0.Some?, LookUp(s, fs).1), (d, fs) => Act(d, fs), fs => fs)

  /** r.c includes h.h, which sets X to 2, and then sets X to 1. The test of Z, which gobble passes although a group has
      been taken already, merges h.h into r.c; X is 2 from then on, and a.h is missed. */
  lemma IncludeMissed()
    ensures var items := [
              Text(Some(Include("h.h", map["X" := "2"]))), Text(Some(Define("X", "1"))),
              Cond(TestIf(Number(true)), [], ElseIf(Number(false), [], ElseIf(Names("Z"), [], Done))),
              Cond(TestIf(Equals("X", "1")), [Text(Some(Include("a.h", map[])))], Done)];
            var start := Files(map[], map[], false, []);
            && Run(TwoFiles, items, start).included == ["h.h", "a.h"]
            && Read(TwoFiles, items, start).included == ["h.h"]
  {
    var a: Item<Directive, Expr> := Text(Some(Include("h.h", map["X" := "2"])));
    var b: Item<Directive, Expr> := Text(Some(Define("X", "1")));
    var c: Item<Directive, Expr> :=
      Cond(TestIf(Number(true)), [], ElseIf(Number(false), [], ElseIf(Names("Z"), [], Done)));
    var inc: Item<Directive, Expr> := Text(Some(Include("a.h", map[])));
    var d: Item<Directive, Expr> := Cond(TestIf(Equals("X", "1")), [inc], Done);
    var items := [a, b, c, d];
    var st0 := Files(map[], map[], false, []);
    var st1 := RunItem(TwoFiles, a, st0);
    var st2 := RunItem(TwoFiles, b, st1);
    assert items[1..] == [b, c, d] && [b, c, d][1..] == [c, d] && [c, d][1..] == [d] && [d][1..] == [] && [inc][1..] == [];
    assert RunItem(TwoFiles, c, st2) == st2;
    assert st2.defs["X"] == "1";
    var st3 := ReadItem(TwoFiles, c, st2);
    assert st3 == LookUp("Z", st2).1;
    assert st3.defs["X"] == "2";
    assert Run(TwoFiles, [inc], st2).included == ["h.h", "a.h"];
    assert Decided(TwoFiles, d.test, st3) == (false, st3);
    assert Pass(TwoFiles, [inc], st3) == Pass(TwoFiles, [], st3) == st3;
    assert ReadItem(TwoFiles, d, st3) == st3;
  }
}
