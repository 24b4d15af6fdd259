/** remove_dotdot of makedepend's include.c: taking x/.. pairs out of a path, on its components. */
module MakeDependPaths {
  import opened Options

  predicate Dot(s: string) { s == "." }

  predicate DotDot(s: string) { s == ".." }

  // The test of the loop: a pair that goes. `symbolic` is what issymbolic answers for a component.
  predicate Removable(symbolic: string -> bool, x: string, next: Option<string>) {
    !Dot(x) && !DotDot(x) && next.Some? && DotDot(next.value) && !symbolic(x)
  }

  function Next(cs: seq<string>, i: nat): Option<string> { if i + 1 < |cs| then Some(cs[i + 1]) else None }

  /** The walk from component cp on: a pair that goes makes the cursor step back. */
  function Clean(symbolic: string -> bool, cs: seq<string>, cp: nat): seq<string>
    requires cp <= |cs|
    decreases |cs|, |cs| - cp
  {
    if cp == |cs| then cs
    else if Removable(symbolic, cs[cp], Next(cs, cp)) then
      Clean(symbolic, cs[..cp] + cs[cp + 2..], if cp == 0 then 0 else cp - 1)
    else Clean(symbolic, cs, cp + 1)
  }

  // The pointers from `from` on move down by two.
  method MoveDown(components: array<string>, n: nat, cp: nat)
    requires cp + 2 <= n <= components.Length
    modifies components
    ensures components[..n - 2] == old(components[..cp] + components[cp + 2..n])
  {
    ghost var was := components[..];
    var fp, tp := cp + 2, cp;
    while fp < n
      invariant cp + 2 <= fp <= n && tp == fp - 2
      invariant forall i | 0 <= i < cp :: components[i] == was[i]
      invariant forall i | cp <= i < tp :: components[i] == was[i + 2]
      invariant forall i | fp <= i < components.Length :: components[i] == was[i]
    {
      components[tp] := components[fp];
      fp, tp := fp + 1, tp + 1;
    }
  }

  /** The loop over the components, in place; n' are left. */
  method RemoveDotDot(components: array<string>, n: nat, symbolic: string -> bool) returns (n': nat)
    requires n <= components.Length
    modifies components
    ensures n' <= n && components[..n'] == Clean(symbolic, old(components[..n]), 0)
  {
    var cp := 0;
    n' := n;
    while cp < n'
      invariant cp <= n' <= n
      invariant Clean(symbolic, components[..n'], cp) == Clean(symbolic, old(components[..n]), 0)
      decreases n', n' - cp
    {
      ghost var was := components[..n'];
      if Removable(symbolic, components[cp], if cp + 1 < n' then Some(components[cp + 1]) else None) {
        assert components[..cp] == was[..cp] && components[cp + 2..n'] == was[cp + 2..];
        MoveDown(components, n', cp);
        n' := n' - 2;
        if cp != 0 { cp := cp - 1; }
      } else {
        cp := cp + 1;
      }
    }
  }

  // ----- nothing removable is left

  predicate CleanTo(symbolic: string -> bool, cs: seq<string>, cp: nat) {
    forall i | 0 <= i < cp && i < |cs| :: !Removable(symbolic, cs[i], Next(cs, i))
  }

  lemma {:induction false} CleanIsClean(symbolic: string -> bool, cs: seq<string>, cp: nat)
    requires cp <= |cs| && CleanTo(symbolic, cs, cp)
    ensures var r := Clean(symbolic, cs, cp); CleanTo(symbolic, r, |r|)
    decreases |cs|, |cs| - cp
  {
    if cp < |cs| {
      if Removable(symbolic, cs[cp], Next(cs, cp)) {
        var shorter := cs[..cp] + cs[cp + 2..];
        var back := if cp == 0 then 0 else cp - 1;
        forall i | 0 <= i < back
          ensures !Removable(symbolic, shorter[i], Next(shorter, i))
        {
          assert shorter[i] == cs[i] && Next(shorter, i) == Next(cs, i);
        }
        CleanIsClean(symbolic, shorter, back);
      } else {
        CleanIsClean(symbolic, cs, cp + 1);
      }
    }
  }

  /** No x/.. is left that could go, at any position. */
  lemma NoPairLeft(symbolic: string -> bool, cs: seq<string>)
    ensures var r := Clean(symbolic, cs, 0); CleanTo(symbolic, r, |r|)
  {
    CleanIsClean(symbolic, cs, 0);
  }

  // ----- the place a path leads to

  /** A file system as path lookup sees it: what a name leads to, links followed, and the parent of a directory. */
  datatype Tree<!N> = Tree(child: (N, string) -> Option<N>, parent: N -> N)

  function Step<N>(t: Tree<N>, at: N, c: string): Option<N> {
    if Dot(c) then Some(at) else if DotDot(c) then Some(t.parent(at)) else t.child(at, c)
  }

  function Resolve<N>(t: Tree<N>, at: N, cs: seq<string>): Option<N> {
    if cs == [] then Some(at)
    else match Step(t, at, cs[0])
      case None => None
      case Some(n) => Resolve(t, n, cs[1..])
  }

  // One component that issymbolic does not own up to leads to a child directory.
  ghost predicate HonestAt<N>(t: Tree<N>, symbolic: string -> bool, at: N, x: string) {
    !Dot(x) && !DotDot(x) && !symbolic(x) && t.child(at, x).Some? ==> t.parent(t.child(at, x).value) == at
  }

  // None does, wherever a path that starts at `at` gets to it.
  ghost predicate Honest<N(!new)>(t: Tree<N>, symbolic: string -> bool, at: N) {
    forall cs: seq<string>, x: string | Resolve(t, at, cs).Some? :: HonestAt(t, symbolic, Resolve(t, at, cs).value, x)
  }

  lemma ResolveConcat<N>(t: Tree<N>, at: N, a: seq<string>, b: seq<string>)
    ensures Resolve(t, at, a + b) == match Resolve(t, at, a) case None => None case Some(n) => Resolve(t, n, b)
  {
    if a == [] {
      assert a + b == b;
    } else {
      assert (a + b)[1..] == a[1..] + b;
      if Step(t, at, a[0]).Some? { ResolveConcat(t, Step(t, at, a[0]).value, a[1..], b); }
    }
  }

  // Taking one pair out.
  lemma DropPair<N(!new)>(t: Tree<N>, symbolic: string -> bool, at: N, cs: seq<string>, cp: nat)
    requires Honest(t, symbolic, at) && cp < |cs| && Removable(symbolic, cs[cp], Next(cs, cp)) && Resolve(t, at, cs).Some?
    ensures Resolve(t, at, cs[..cp] + cs[cp + 2..]) == Resolve(t, at, cs)
  {
    var x := cs[cp];
    assert cs == cs[..cp] + ([x, ".."] + cs[cp + 2..]);
    ResolveConcat(t, at, cs[..cp], [x, ".."] + cs[cp + 2..]);
    ResolveConcat(t, at, cs[..cp], cs[cp + 2..]);
    assert Resolve(t, at, cs[..cp]).Some?;
    var n := Resolve(t, at, cs[..cp]).value;
    assert HonestAt(t, symbolic, n, x);
    assert ([x, ".."] + cs[cp + 2..])[1..] == [".."] + cs[cp + 2..];
    assert ([".."] + cs[cp + 2..])[1..] == cs[cp + 2..];
  }

  lemma {:induction false} CleanResolves<N(!new)>(t: Tree<N>, symbolic: string -> bool, at: N, cs: seq<string>, cp: nat)
    requires Honest(t, symbolic, at) && cp <= |cs| && Resolve(t, at, cs).Some?
    ensures Resolve(t, at, Clean(symbolic, cs, cp)) == Resolve(t, at, cs)
    decreases |cs|, |cs| - cp
  {
    if cp < |cs| {
      if Removable(symbolic, cs[cp], Next(cs, cp)) {
        DropPair(t, symbolic, at, cs, cp);
        CleanResolves(t, symbolic, at, cs[..cp] + cs[cp + 2..], if cp == 0 then 0 else cp - 1);
      } else {
        CleanResolves(t, symbolic, at, cs, cp + 1);
      }
    }
  }

  /** Where a path leads that starts at `at`, the root or the current directory. The empty string, which a relative path
      without components comes to, names no file; an absolute one still has its slash. */
  function Place<N>(t: Tree<N>, absolute: bool, at: N, cs: seq<string>): Option<N> {
    if cs == [] && !absolute then None else Resolve(t, at, cs)
  }

  ghost predicate SamePlace<N>(t: Tree<N>, symbolic: string -> bool, absolute: bool, at: N, cs: seq<string>) {
    Place(t, absolute, at, cs).Some? ==> Place(t, absolute, at, Clean(symbolic, cs, 0)) == Place(t, absolute, at, cs)
  }

  /** In a tree about which issymbolic is right, a path that leads somewhere still leads there exactly when it is absolute
      or something is left of it. */
  lemma SamePlaceUnless<N(!new)>(t: Tree<N>, symbolic: string -> bool, absolute: bool, at: N, cs: seq<string>)
    requires Honest(t, symbolic, at) && Place(t, absolute, at, cs).Some?
    ensures SamePlace(t, symbolic, absolute, at, cs) <==> absolute || !Vanishes(symbolic, cs, 0)
  {
    CleanResolves(t, symbolic, at, cs, 0);
    EmptyWhen(symbolic, cs);
  }

  /** Every path from `at` that leads somewhere, and of which something is left if it is relative, still leads there
      exactly when issymbolic, which looks a component up by its bare name, is right about it wherever a path from `at`
      gets to it. */
  lemma SamePlaceExactly<N(!new)>(t: Tree<N>, symbolic: string -> bool, absolute: bool, at: N)
    ensures (forall cs: seq<string> | absolute || !Vanishes(symbolic, cs, 0) :: SamePlace(t, symbolic, absolute, at, cs))
            <==> Honest(t, symbolic, at)
  {
    if Honest(t, symbolic, at) {
      forall cs: seq<string> | absolute || !Vanishes(symbolic, cs, 0)
        ensures SamePlace(t, symbolic, absolute, at, cs)
      {
        if Place(t, absolute, at, cs).Some? { SamePlaceUnless(t, symbolic, absolute, at, cs); }
      }
    } else {
      var cs: seq<string>, x: string :| Resolve(t, at, cs).Some? && !HonestAt(t, symbolic, Resolve(t, at, cs).value, x);
      Misled(t, symbolic, absolute, at, cs, x);
    }
  }

  // Of the two paths here one goes astray where issymbolic is wrong.
  lemma Misled<N(!new)>(t: Tree<N>, symbolic: string -> bool, absolute: bool, at: N, cs: seq<string>, x: string)
    requires Resolve(t, at, cs).Some? && !HonestAt(t, symbolic, Resolve(t, at, cs).value, x)
    ensures !Vanishes(symbolic, cs + ["."], 0) && !Vanishes(symbolic, cs + [".", x, ".."], 0)
    ensures !SamePlace(t, symbolic, absolute, at, cs + ["."]) || !SamePlace(t, symbolic, absolute, at, cs + [".", x, ".."])
  {
    hide Clean, Vanishes;
    DotStays(symbolic, cs, ["."], 0);
    DotStays(symbolic, cs, [".", x, ".."], 0);
    PairCleaned(symbolic, cs, x, 0);
    var n := Resolve(t, at, cs).value;
    var m := t.child(n, x).value;
    ResolveConcat(t, at, cs, ["."]);
    ResolveConcat(t, at, cs, [".", x, ".."]);
    assert [".", x, ".."][1..] == [x, ".."] && [x, ".."][1..] == [".."] && [".."][1..] == [] && ["."][1..] == [];
    assert Resolve(t, n, [x, ".."]) == Resolve(t, m, [".."]) == Resolve(t, t.parent(m), []);
    assert Resolve(t, n, ["."]) == Resolve(t, n, []);
  }

  lemma {:induction false} DotStays(symbolic: string -> bool, cs: seq<string>, rest: seq<string>, d: nat)
    requires rest != [] && Dot(rest[0])
    ensures !Vanishes(symbolic, cs + rest, d)
  {
    if cs == [] {
      assert cs + rest == rest;
    } else {
      assert (cs + rest)[1..] == cs[1..] + rest;
      DotStays(symbolic, cs[1..], rest, d + 1);
      if d > 0 { DotStays(symbolic, cs[1..], rest, d - 1); }
    }
  }

  // A pair behind a dot is taken out, whatever stands in front.
  lemma {:induction false} PairCleaned(symbolic: string -> bool, cs: seq<string>, x: string, cp: nat)
    requires Removable(symbolic, x, Some("..")) && cp <= |cs|
    ensures Clean(symbolic, cs + [".", x, ".."], cp) == Clean(symbolic, cs + ["."], cp)
    decreases |cs|, |cs| - cp
  {
    var long, short := cs + [".", x, ".."], cs + ["."];
    if cp == |cs| {
      assert long[..|cs| + 1] + long[|cs| + 3..] == short;
      assert Clean(symbolic, long, cp) == Clean(symbolic, long, cp + 1) == Clean(symbolic, short, cp);
    } else {
      assert Next(long, cp) == Next(short, cp) == if cp + 1 < |cs| then Some(cs[cp + 1]) else Some(".");
      if Removable(symbolic, cs[cp], Next(long, cp)) {
        var shorter := cs[..cp] + cs[cp + 2..];
        assert long[..cp] + long[cp + 2..] == shorter + [".", x, ".."];
        assert short[..cp] + short[cp + 2..] == shorter + ["."];
        PairCleaned(symbolic, shorter, x, if cp == 0 then 0 else cp - 1);
      } else {
        PairCleaned(symbolic, cs, x, cp + 1);
      }
    }
  }

  // ----- when nothing is left

  /** Components that close like brackets, at depth d: one that goes with a .. opens, .. closes. */
  predicate Vanishes(symbolic: string -> bool, cs: seq<string>, d: nat) {
    if cs == [] then d == 0
    else if DotDot(cs[0]) then d > 0 && Vanishes(symbolic, cs[1..], d - 1)
    else !Dot(cs[0]) && !symbolic(cs[0]) && Vanishes(symbolic, cs[1..], d + 1)
  }

  lemma {:induction false} VanishesWithout(symbolic: string -> bool, cs: seq<string>, cp: nat, d: nat)
    requires cp < |cs| && Removable(symbolic, cs[cp], Next(cs, cp))
    ensures Vanishes(symbolic, cs, d) <==> Vanishes(symbolic, cs[..cp] + cs[cp + 2..], d)
    decreases cp
  {
    if cp == 0 {
      assert cs[..0] + cs[2..] == cs[1..][1..];
    } else {
      var shorter, rest := cs[..cp] + cs[cp + 2..], cs[1..];
      assert rest[cp - 1] == cs[cp] && Next(rest, cp - 1) == Next(cs, cp);
      assert shorter[0] == cs[0] && shorter[1..] == rest[..cp - 1] + rest[cp - 1 + 2..];
      VanishesWithout(symbolic, rest, cp - 1, d + 1);
      if d > 0 { VanishesWithout(symbolic, rest, cp - 1, d - 1); }
    }
  }

  lemma {:induction false} VanishesClean(symbolic: string -> bool, cs: seq<string>, cp: nat)
    requires cp <= |cs|
    ensures Vanishes(symbolic, Clean(symbolic, cs, cp), 0) <==> Vanishes(symbolic, cs, 0)
    decreases |cs|, |cs| - cp
  {
    if cp < |cs| {
      if Removable(symbolic, cs[cp], Next(cs, cp)) {
        VanishesWithout(symbolic, cs, cp, 0);
        VanishesClean(symbolic, cs[..cp] + cs[cp + 2..], if cp == 0 then 0 else cp - 1);
      } else {
        VanishesClean(symbolic, cs, cp + 1);
      }
    }
  }

  // Where the first .. closes there is a pair that could go.
  lemma {:induction false} PairThere(symbolic: string -> bool, cs: seq<string>, d: nat) returns (i: nat)
    requires Vanishes(symbolic, cs, d) && cs != [] && !DotDot(cs[0])
    ensures i < |cs| && Removable(symbolic, cs[i], Next(cs, i))
    decreases |cs|
  {
    if DotDot(cs[1..][0]) {
      i := 0;
    } else {
      var j := PairThere(symbolic, cs[1..], d + 1);
      i := j + 1;
      assert cs[1..][j] == cs[i] && Next(cs[1..], j) == Next(cs, i);
    }
  }

  /** Nothing is left of a path exactly when its components close like brackets. */
  lemma EmptyWhen(symbolic: string -> bool, cs: seq<string>)
    ensures Clean(symbolic, cs, 0) == [] <==> Vanishes(symbolic, cs, 0)
  {
    var r := Clean(symbolic, cs, 0);
    VanishesClean(symbolic, cs, 0);
    NoPairLeft(symbolic, cs);
    if r != [] && Vanishes(symbolic, r, 0) { var i := PairThere(symbolic, r, 0); }
  }
}
