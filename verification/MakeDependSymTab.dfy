/** The symbol table of a file in makedepend's parse.c: an array of pointers, sorted by name, that grows by SYMTABINC. */
module MakeDependSymTab {

  const SYMTABINC := 10

  // ----- strcmp

  predicate Less(a: string, b: string) {
    if b == [] then false else if a == [] then true else a[0] < b[0] || (a[0] == b[0] && Less(a[1..], b[1..]))
  }

  lemma LessTotal(a: string, b: string)
    ensures Less(a, b) || a == b || Less(b, a)
  {
    if a != [] && b != [] && a[0] == b[0] {
      LessTotal(a[1..], b[1..]);
      assert a == [a[0]] + a[1..] && b == [b[0]] + b[1..];
    }
  }

  lemma LessTrans(a: string, b: string, c: string)
    requires Less(a, b) && Less(b, c)
    ensures Less(a, c)
  {
  }

  lemma LessIrreflexive(a: string, b: string)
    ensures !(Less(a, b) && Less(b, a)) && !Less(a, a)
  {
  }

  // The comparison that both binary searches spell out: characters until they differ or both strings end.
  method Compare(s1: string, s2: string) returns (order: int)
    ensures order < 0 <==> Less(s1, s2)
    ensures order == 0 <==> s1 == s2
    ensures order > 0 <==> Less(s2, s1)
  {
    var i := 0;
    while i < |s1| && i < |s2| && s1[i] == s2[i]
      invariant i <= |s1| && i <= |s2| && s1[..i] == s2[..i]
      invariant Less(s1, s2) == Less(s1[i..], s2[i..]) && Less(s2, s1) == Less(s2[i..], s1[i..])
    {
      assert s1[i..][1..] == s1[i + 1..] && s2[i..][1..] == s2[i + 1..];
      i := i + 1;
    }
    assert s1 == s1[..i] + s1[i..] && s2 == s2[..i] + s2[i..];
    if i == |s1| {
      order := if i == |s2| then 0 else -1;
    } else {
      order := if i == |s2| || s1[i] > s2[i] then 1 else -1;
    }
    LessIrreflexive(s1, s2);
  }

  // ----- sorted names

  predicate Sorted(names: seq<string>) { forall i, j | 0 <= i < j < |names| :: Less(names[i], names[j]) }

  // name belongs at p: everything before is smaller, everything from there on larger.
  predicate Belongs(names: seq<string>, name: string, p: nat) {
    && p <= |names|
    && (forall i | 0 <= i < p :: Less(names[i], name))
    && (forall i | p <= i < |names| :: Less(name, names[i]))
  }

  lemma InsertSorted(names: seq<string>, name: string, p: nat)
    requires Sorted(names) && Belongs(names, name, p)
    ensures Sorted(names[..p] + [name] + names[p..])
  {
  }

  lemma RemoveSorted(names: seq<string>, p: nat)
    requires Sorted(names) && p < |names|
    ensures Sorted(names[..p] + names[p + 1..])
  {
  }

  // Everything at or below an element that is too small is too small, and the other way round.
  lemma Narrow(names: seq<string>, name: string, mid: nat)
    requires Sorted(names) && mid < |names|
    ensures Less(names[mid], name) ==> forall i | 0 <= i <= mid :: Less(names[i], name)
    ensures Less(name, names[mid]) ==> forall i | mid <= i < |names| :: Less(name, names[i])
  {
    forall i | 0 <= i < mid && Less(names[mid], name)
      ensures Less(names[i], name)
    {
      LessTrans(names[i], names[mid], name);
    }
    forall i | mid < i < |names| && Less(name, names[mid])
      ensures Less(name, names[i])
    {
      LessTrans(name, names[mid], names[i]);
    }
  }

  // ----- tables

  class Symbol {
    const name: string
    var value: string

    constructor (name: string, value: string)
      ensures this.name == name && this.value == value
    {
      this.name, this.value := name, value;
    }
  }

  ghost function NamesOf(syms: seq<Symbol>): (r: seq<string>)
    ensures |r| == |syms|
  {
    seq(|syms|, i requires 0 <= i < |syms| => syms[i].name)
  }

  lemma SortedDistinct(syms: seq<Symbol>)
    requires Sorted(NamesOf(syms))
    ensures forall i, j | 0 <= i < |syms| && 0 <= j < |syms| && syms[i].name == syms[j].name :: i == j
  {
    forall i, j | 0 <= i < j < |syms|
      ensures syms[i].name != syms[j].name
    {
      assert Less(NamesOf(syms)[i], NamesOf(syms)[j]);
      LessIrreflexive(syms[i].name, syms[j].name);
    }
  }

  ghost function Members(syms: seq<Symbol>): set<Symbol> { set s | s in syms }

  ghost function Keys(syms: seq<Symbol>): set<string> { set s | s in syms :: s.name }

  // The symbol named n.
  ghost function Named(syms: seq<Symbol>, n: string): Symbol
    requires n in Keys(syms)
  {
    var i :| 0 <= i < |syms| && syms[i].name == n;
    syms[i]
  }

  // The symbol that each name stands for.
  ghost function Row(syms: seq<Symbol>): map<string, Symbol> { map n | n in Keys(syms) :: Named(syms, n) }

  lemma RowMembers(syms: seq<Symbol>)
    ensures Row(syms).Keys == Keys(syms) && forall n | n in Row(syms) :: Row(syms)[n] in syms && Row(syms)[n].name == n
  {
  }

  ghost function Values(row: map<string, Symbol>): map<string, string>
    reads row.Values`value
  {
    map n | n in row :: row[n].value
  }

  /** The finite map a row of symbols stands for. */
  ghost function Contents(syms: seq<Symbol>): map<string, string>
    reads syms`value
  {
    RowMembers(syms);
    Values(Row(syms))
  }

  lemma NamedIs(syms: seq<Symbol>, i: nat)
    requires Sorted(NamesOf(syms)) && i < |syms|
    ensures syms[i].name in Keys(syms) && Named(syms, syms[i].name) == syms[i]
  {
    SortedDistinct(syms);
    assert syms[i] in syms;
  }

  lemma NamedBy(syms: seq<Symbol>, s: Symbol)
    requires Sorted(NamesOf(syms)) && s in syms
    ensures s.name in Row(syms) && Row(syms)[s.name] == s
  {
    var i :| 0 <= i < |syms| && syms[i] == s;
    NamedIs(syms, i);
  }

  lemma NamesApart(syms: seq<Symbol>)
    ensures forall m, n | m in Row(syms) && n in Row(syms) && m != n :: Row(syms)[m] != Row(syms)[n]
  {
    RowMembers(syms);
    hide Row;
  }

  lemma Inserted(syms: seq<Symbol>, p: nat, s: Symbol)
    requires p <= |syms|
    ensures forall i | 0 <= i <= |syms| :: (syms[..p] + [s] + syms[p..])[i] == if i < p then syms[i] else if i == p then s else syms[i - 1]
  {
  }

  // The symbols of r are among those of syms.
  lemma RowFrom(syms: seq<Symbol>, r: seq<Symbol>)
    requires Sorted(NamesOf(syms)) && forall s | s in r :: s in syms
    ensures forall n | n in Row(r) :: n in Row(syms) && Row(r)[n] == Row(syms)[n]
  {
    hide Row, Sorted, NamesOf;
    RowMembers(r);
    forall n | n in Row(r)
      ensures n in Row(syms) && Row(r)[n] == Row(syms)[n]
    {
      NamedBy(syms, Row(r)[n]);
    }
  }

  // The row after a symbol has been inserted, and after one has been taken out.

  lemma RowInsert(syms: seq<Symbol>, p: nat, s: Symbol)
    requires Sorted(NamesOf(syms)) && Belongs(NamesOf(syms), s.name, p)
    ensures Sorted(NamesOf(syms[..p] + [s] + syms[p..]))
    ensures Row(syms[..p] + [s] + syms[p..]) == Row(syms)[s.name := s]
  {
    var r := syms[..p] + [s] + syms[p..];
    InsertSorted(NamesOf(syms), s.name, p);
    assert NamesOf(r) == NamesOf(syms)[..p] + [s.name] + NamesOf(syms)[p..];
    hide Row, Sorted, NamesOf;
    assert syms == syms[..p] + syms[p..];
    assert forall t :: t in r <==> t == s || t in syms;
    RowMembers(r);
    RowMembers(syms);
    RowFrom(r, syms);
    NamedBy(r, s);
  }

  lemma RowRemove(syms: seq<Symbol>, p: nat)
    requires Sorted(NamesOf(syms)) && p < |syms|
    ensures Sorted(NamesOf(syms[..p] + syms[p + 1..]))
    ensures Row(syms[..p] + syms[p + 1..]) == Row(syms) - {syms[p].name}
  {
    var r := syms[..p] + syms[p + 1..];
    RemoveSorted(NamesOf(syms), p);
    assert NamesOf(r) == NamesOf(syms)[..p] + NamesOf(syms)[p + 1..];
    Others(syms, p);
    hide Row, Sorted, NamesOf;
    RowMembers(r);
    RowMembers(syms);
    RowFrom(syms, r);
  }

  lemma Others(syms: seq<Symbol>, p: nat)
    requires Sorted(NamesOf(syms)) && p < |syms|
    ensures var r := syms[..p] + syms[p + 1..];
            && (forall t :: t in syms <==> t == syms[p] || t in r)
            && (forall t | t in r :: t.name != syms[p].name)
  {
    SortedDistinct(syms);
    hide Row, Sorted, NamesOf;
    var r := syms[..p] + syms[p + 1..];
    assert syms == syms[..p] + [syms[p]] + syms[p + 1..];
    forall t | t in r
      ensures t.name != syms[p].name
    {
      var i :| 0 <= i < |r| && r[i] == t;
      assert t == syms[if i < p then i else i + 1];
    }
  }

  lemma Absent(syms: seq<Symbol>, name: string, p: nat)
    requires Belongs(NamesOf(syms), name, p)
    ensures name !in Keys(syms) && name !in Row(syms)
  {
    forall i | 0 <= i < |syms|
      ensures syms[i].name != name
    {
      LessIrreflexive(name, name);
      assert Less(NamesOf(syms)[i], name) || Less(name, NamesOf(syms)[i]);
    }
  }

  // Room up to the next multiple of SYMTABINC.
  predicate HasBlock(capacity: nat, n: nat) { (n / SYMTABINC + 1) * SYMTABINC <= capacity }

  // The array holds the entries; unless it is about to be extended it has room for all of the last block.
  predicate HasRoom(capacity: nat, n: nat) { n <= capacity && (n % SYMTABINC != 0 ==> HasBlock(capacity, n)) }

  lemma RoomKept(capacity: nat, n: nat)
    ensures HasBlock(capacity, n) ==> HasRoom(capacity, n + 1)
    ensures n > 0 && HasRoom(capacity, n) ==> HasRoom(capacity, n - 1)
    ensures HasBlock(capacity, n) ==> n < capacity
    ensures HasRoom(capacity, n) ==> n <= capacity
  {
  }

  /** One file's table. `syms` are the entries in use. */
  class Table {
    var defs: array?<Symbol?>
    var ndefs: nat
    ghost var syms: seq<Symbol>

    ghost predicate Valid()
      reads this, defs
    {
      && |syms| == ndefs && Sorted(NamesOf(syms))
      && (defs == null ==> ndefs == 0)
      && (defs != null ==> HasRoom(defs.Length, ndefs) && forall i | 0 <= i < ndefs :: defs[i] == syms[i])
    }

    constructor ()
      ensures Valid() && syms == [] && defs == null
    {
      defs, ndefs, syms := null, 0, [];
    }

    // The search of slookup.
    method Slookup(symbol: string) returns (at: int)
      requires Valid()
      ensures at < 0 <==> symbol !in Row(syms)
      ensures at >= 0 ==> at < |syms| && syms[at].name == symbol && syms[at] == Row(syms)[symbol]
    {
      var first, last: int := 0, ndefs - 1;
      while last >= first
        invariant 0 <= first <= last + 1 <= ndefs
        invariant forall i | 0 <= i < first :: Less(NamesOf(syms)[i], symbol)
        invariant forall i | last < i < ndefs :: Less(symbol, NamesOf(syms)[i])
        decreases last - first + 1
      {
        var middle := (first + last) / 2;
        var order := Compare(symbol, defs[middle].name);
        if order == 0 {
          NamedBy(syms, syms[middle]);
          return middle;
        }
        Narrow(NamesOf(syms), symbol, middle);
        if order > 0 { first := middle + 1; } else { last := middle - 1; }
      }
      at := -1;
      assert Belongs(NamesOf(syms), symbol, first);
      Absent(syms, symbol, first);
    }

    // The search of define2; a miss leaves the place of a new entry in below + 1.
    method Search(name: string) returns (sp: int, below: int)
      requires Valid()
      ensures sp >= 0 ==> sp < |syms| && syms[sp].name == name
      ensures sp < 0 ==> ndefs > 0 ==> -1 <= below < ndefs && Belongs(NamesOf(syms), name, below + 1)
      ensures sp < 0 ==> ndefs == 0 ==> below == 0
    {
      below := 0;
      var first, last: int := 0, ndefs - 1;
      while last >= first
        invariant 0 <= first <= last + 1 <= ndefs
        invariant forall i | 0 <= i < first :: Less(NamesOf(syms)[i], name)
        invariant forall i | last < i < ndefs :: Less(name, NamesOf(syms)[i])
        invariant first > last ==> if ndefs == 0 then below == 0 else below + 1 == first
        decreases last - first + 1
      {
        var middle := (first + last) / 2;
        var order := Compare(name, defs[middle].name);
        if order == 0 { return middle, below; }
        Narrow(NamesOf(syms), name, middle);
        if order > 0 {
          below := first;
          first := middle + 1;
        } else {
          last := middle - 1;
          below := last;
        }
      }
      sp := -1;
    }

    // Room for one more.
    method MakeSpace()
      requires Valid()
      modifies this
      ensures Valid() && syms == old(syms) && defs != null && HasBlock(defs.Length, ndefs)
      ensures defs == old(defs) || fresh(defs)
    {
      if defs == null {
        defs := new Symbol?[SYMTABINC](_ => null);
        ndefs := 0;
      } else if ndefs % SYMTABINC == 0 {
        var bigger := new Symbol?[ndefs + SYMTABINC](i requires 0 <= i < ndefs + SYMTABINC reads this, defs =>
          if defs != null && i < ndefs && i < defs.Length then defs[i] else null);
        defs := bigger;
      }
    }

    // Everything from dest on moves up by one, and s takes its place; in an empty table nothing moves.
    method MoveUp(s: Symbol, dest: nat, ghost p: nat)
      requires defs != null && |syms| == ndefs < defs.Length && forall i | 0 <= i < ndefs :: defs[i] == syms[i]
      requires p <= ndefs && (p == dest || (p == ndefs && dest > ndefs))
      modifies defs
      ensures forall i | 0 <= i <= ndefs :: defs[i] == (syms[..p] + [s] + syms[p..])[i]
    {
      hide *;
      var sp := ndefs;
      while sp > dest
        invariant p <= sp <= ndefs
        invariant forall i | 0 <= i < sp :: defs[i] == syms[i]
        invariant forall i | sp < i <= ndefs :: defs[i] == syms[i - 1]
      {
        defs[sp] := defs[sp - 1];
        sp := sp - 1;
      }
      defs[sp] := s;
      Inserted(syms, p, s);
    }

    method InsertAt(s: Symbol, dest: nat)
      requires Valid() && defs != null && HasBlock(defs.Length, ndefs)
      requires if ndefs == 0 then dest == 1 else Belongs(NamesOf(syms), s.name, dest)
      modifies this, defs
      ensures Valid() && defs == old(defs)
      ensures var p := if old(ndefs) == 0 then 0 else dest; syms == old(syms[..p] + [s] + syms[p..])
      ensures Row(syms) == old(Row(syms))[s.name := s]
    {
      hide Less, NamesOf, Sorted, HasRoom, HasBlock, Row;
      RoomKept(defs.Length, ndefs);
      ghost var p := if ndefs == 0 then 0 else dest;
      RowInsert(syms, p, s);
      MoveUp(s, dest, p);
      ndefs := ndefs + 1;
      syms := syms[..p] + [s] + syms[p..];
    }

    // The entry found gets a new value.
    method SetValue(s: Symbol, ghost at: nat, val: string)
      requires Valid() && at < |syms| && s == syms[at]
      modifies s`value
      ensures Valid() && Contents(syms) == old(Contents(syms))[s.name := val]
      ensures s.name in Row(syms) && Row(syms)[s.name] == s && s.value == val
    {
      hide Row, Sorted, NamesOf;
      NamedBy(syms, s);
      NamesApart(syms);
      s.value := val;
    }

    /** define2: the symbol has the value, whatever it had, and no other entry of this table changes. The value of a
        symbol that is there is written through its pointer; DefineThrough says which other tables see that. */
    method Define2(name: string, val: string)
      requires Valid()
      modifies this, defs, Members(syms)`value
      ensures Valid() && Contents(syms) == old(Contents(syms))[name := val]
      ensures name in Row(syms) && Row(syms)[name].value == val
      ensures name in old(Row(syms)) ==> syms == old(syms)
      ensures name !in old(Row(syms)) ==> fresh(Row(syms)[name]) && Row(syms) == old(Row(syms))[name := Row(syms)[name]]
      ensures forall s | s in old(syms) && s != Row(syms)[name] :: s.value == old(s.value)
      ensures defs == old(defs) || fresh(defs)
    {
      hide Less, Sorted, NamesOf, Belongs, HasRoom, HasBlock, Row, Contents;
      ghost var was := Contents(syms);
      ContentsAre(syms, was);
      MakeSpace();
      var sp, below := Search(name);
      if sp >= 0 {
        SetValue(defs[sp], sp, val);
      } else {
        RowMembers(syms);
        if ndefs > 0 { Absent(syms, name, below + 1); }
        var s := new Symbol(name, val);
        InsertAt(s, below + 1);
        ContentsAre(syms, was[name := val]);
      }
    }

    /** The inner loop of undefine: the entry found at `at` goes, the ones after it move down. */
    method Remove(at: nat)
      requires Valid() && at < |syms|
      modifies this, defs
      ensures Valid() && defs == old(defs) && syms == old(syms[..at] + syms[at + 1..])
      ensures Contents(syms) == old(Contents(syms)) - {old(syms[at].name)}
      ensures Row(syms) == old(Row(syms)) - {old(syms[at].name)}
    {
      hide Less, NamesOf, Sorted, HasRoom, Keys, Row;
      ghost var was := syms;
      RoomKept(defs.Length, ndefs);
      ndefs := ndefs - 1;
      var ptr := at;
      while ptr < ndefs
        invariant at <= ptr <= ndefs == |was| - 1 && defs == old(defs) && syms == was
        invariant forall i | 0 <= i < at :: defs[i] == was[i]
        invariant forall i | at <= i < ptr :: defs[i] == was[i + 1]
        invariant forall i | ptr < i <= ndefs :: defs[i] == was[i]
      {
        defs[ptr] := defs[ptr + 1];
        ptr := ptr + 1;
      }
      syms := was[..at] + was[at + 1..];
      RowRemove(was, at);
    }
  }

  // ----- merge2defines

  // Two sorted rows in one, the second having its way where both have a name.
  ghost function Merged(a: seq<Symbol>, b: seq<Symbol>): (r: seq<Symbol>)
    ensures |r| <= |a| + |b|
  {
    if a == [] then b
    else if b == [] then a
    else if Less(a[0].name, b[0].name) then [a[0]] + Merged(a[1..], b)
    else if Less(b[0].name, a[0].name) then [b[0]] + Merged(a, b[1..])
    else [b[0]] + Merged(a[1..], b[1..])
  }

  lemma Tail(a: seq<Symbol>)
    requires Sorted(NamesOf(a)) && a != []
    ensures Sorted(NamesOf(a[1..])) && forall s | s in a[1..] :: Less(a[0].name, s.name)
  {
    assert NamesOf(a)[1..] == NamesOf(a[1..]);
    forall i | 0 <= i < |a[1..]|
      ensures Less(a[0].name, a[1..][i].name)
    {
      assert Less(NamesOf(a)[0], NamesOf(a)[i + 1]);
    }
  }

  lemma Cons(s: Symbol, r: seq<Symbol>)
    requires Sorted(NamesOf(r)) && forall t | t in r :: Less(s.name, t.name)
    ensures Sorted(NamesOf([s] + r))
  {
    assert NamesOf([s] + r) == [s.name] + NamesOf(r);
  }

  // Where the entries of a merged row come from, and which get lost.
  lemma {:induction false} MergedFrom(a: seq<Symbol>, b: seq<Symbol>)
    ensures forall s | s in Merged(a, b) :: s in a || s in b
    ensures forall s | s in b :: s in Merged(a, b)
    ensures forall s | s in a :: s in Merged(a, b) || s.name in Keys(b)
    decreases |a| + |b|
  {
    if a != [] && b != [] {
      if Less(a[0].name, b[0].name) {
        MergedFrom(a[1..], b);
        assert a == [a[0]] + a[1..];
      } else if Less(b[0].name, a[0].name) {
        MergedFrom(a, b[1..]);
        assert b == [b[0]] + b[1..];
      } else {
        MergedFrom(a[1..], b[1..]);
        LessTotal(a[0].name, b[0].name);
        assert a == [a[0]] + a[1..] && b == [b[0]] + b[1..];
      }
    }
  }

  lemma {:induction false} MergedSorted(a: seq<Symbol>, b: seq<Symbol>)
    requires Sorted(NamesOf(a)) && Sorted(NamesOf(b))
    ensures Sorted(NamesOf(Merged(a, b)))
    decreases |a| + |b|
  {
    if a != [] && b != [] {
      Tail(a);
      Tail(b);
      var x, y := a[0].name, b[0].name;
      LessTotal(x, y);
      if Less(x, y) {
        MergedSorted(a[1..], b);
        MergedFrom(a[1..], b);
        forall s | s in b[1..] ensures Less(x, s.name) { LessTrans(x, y, s.name); }
        assert b == [b[0]] + b[1..];
        Cons(a[0], Merged(a[1..], b));
      } else if Less(y, x) {
        MergedSorted(a, b[1..]);
        MergedFrom(a, b[1..]);
        forall s | s in a[1..] ensures Less(y, s.name) { LessTrans(y, x, s.name); }
        assert a == [a[0]] + a[1..];
        Cons(b[0], Merged(a, b[1..]));
      } else {
        MergedSorted(a[1..], b[1..]);
        MergedFrom(a[1..], b[1..]);
        Cons(b[0], Merged(a[1..], b[1..]));
      }
    }
  }

  lemma MergedRow(a: seq<Symbol>, b: seq<Symbol>)
    requires Sorted(NamesOf(a)) && Sorted(NamesOf(b))
    ensures Sorted(NamesOf(Merged(a, b)))
    ensures Row(Merged(a, b)) == Row(a) + Row(b)
  {
    var r := Merged(a, b);
    MergedSorted(a, b);
    MergedFrom(a, b);
    hide Row, Merged, Sorted, NamesOf;
    RowMembers(r);
    RowMembers(a);
    RowMembers(b);
    RowFrom(r, b);
    forall n | n in Row(a) && n !in Row(b)
      ensures n in Row(r) && Row(r)[n] == Row(a)[n]
    {
      NamedBy(r, Row(a)[n]);
    }
  }

  /** As finite maps: file2 has its way. */
  lemma MergedContents(a: seq<Symbol>, b: seq<Symbol>)
    requires Sorted(NamesOf(a)) && Sorted(NamesOf(b))
    ensures Sorted(NamesOf(Merged(a, b)))
    ensures Contents(Merged(a, b)) == Contents(a) + Contents(b)
  {
    MergedRow(a, b);
    hide Row, Merged, Sorted, NamesOf;
  }

  // What one round of the merge has done.
  lemma MergedStep(a: seq<Symbol>, b: seq<Symbol>, i: nat, j: nat)
    requires i < |a| && j < |b|
    ensures Less(a[i].name, b[j].name) ==> Merged(a[i..], b[j..]) == [a[i]] + Merged(a[i + 1..], b[j..])
    ensures Less(b[j].name, a[i].name) ==> Merged(a[i..], b[j..]) == [b[j]] + Merged(a[i..], b[j + 1..])
    ensures a[i].name == b[j].name ==> Merged(a[i..], b[j..]) == [b[j]] + Merged(a[i + 1..], b[j + 1..])
  {
    LessIrreflexive(a[i].name, b[j].name);
    assert a[i..][0] == a[i] && a[i..][1..] == a[i + 1..];
    assert b[j..][0] == b[j] && b[j..][1..] == b[j + 1..];
  }

  lemma MergedEnd(a: seq<Symbol>, b: seq<Symbol>, i: nat, j: nat, out: seq<Symbol>)
    requires i <= |a| && j <= |b| && (i == |a| || j == |b|) && Merged(a, b) == out + Merged(a[i..], b[j..])
    ensures out + a[i..] + b[j..] == Merged(a, b)
  {
  }

  // The three loops of merge2defines.
  method MergeInto(defs: array<Symbol?>, file1: Table, file2: Table) returns (first: nat)
    requires file1.Valid() && file2.Valid() && defs.Length >= file1.ndefs + file2.ndefs
    requires defs != file1.defs && defs != file2.defs
    modifies defs
    ensures first == |Merged(file1.syms, file2.syms)|
    ensures forall i | 0 <= i < first :: defs[i] == Merged(file1.syms, file2.syms)[i]
  {
    hide Less, Merged, NamesOf, Sorted;
    ghost var a, b := file1.syms, file2.syms;
    var first1, first2 := 0, 0;
    ghost var out: seq<Symbol> := [];
    first := 0;
    while first1 < file1.ndefs && first2 < file2.ndefs
      invariant first1 <= |a| && first2 <= |b| && |out| == first <= first1 + first2
      invariant forall i | 0 <= i < first :: defs[i] == out[i]
      invariant Merged(a, b) == out + Merged(a[first1..], b[first2..])
    {
      MergedStep(a, b, first1, first2);
      var order := Compare(file1.defs[first1].name, file2.defs[first2].name);
      if order < 0 {
        defs[first] := file1.defs[first1];
        out := out + [a[first1]];
        first1 := first1 + 1;
      } else {
        defs[first] := file2.defs[first2];
        out := out + [b[first2]];
        if order == 0 { first1 := first1 + 1; }
        first2 := first2 + 1;
      }
      first := first + 1;
    }
    MergedEnd(a, b, first1, first2, out);
    first := CopyRest(defs, file1, first1, first, out);
    out := out + a[first1..];
    first := CopyRest(defs, file2, first2, first, out);
  }

  // What is left of one table goes behind what is there.
  method CopyRest(defs: array<Symbol?>, file: Table, from: nat, first: nat, ghost out: seq<Symbol>) returns (first': nat)
    requires file.Valid() && defs != file.defs && from <= file.ndefs && first == |out|
    requires first + (file.ndefs - from) <= defs.Length
    requires forall i | 0 <= i < first :: defs[i] == out[i]
    modifies defs
    ensures first' == |out + file.syms[from..]|
    ensures forall i | 0 <= i < first' :: defs[i] == (out + file.syms[from..])[i]
  {
    first' := first;
    var k := from;
    while k < file.ndefs
      invariant from <= k <= file.ndefs && first' == first + (k - from)
      invariant forall i | 0 <= i < first :: defs[i] == out[i]
      invariant forall i | from <= i < k :: defs[first + (i - from)] == file.syms[i]
    {
      defs[first'] := file.defs[k];
      first', k := first' + 1, k + 1;
    }
    forall i | first <= i < first'
      ensures defs[i] == (out + file.syms[from..])[i]
    {
      assert defs[first + (from + (i - first) - from)] == file.syms[from + (i - first)];
    }
  }

  lemma RoomAfterMerge(capacity: nat, n: nat)
    requires capacity % SYMTABINC == 0 && n <= capacity
    ensures HasRoom(capacity, n)
  {
  }

  lemma NothingMerged(a: seq<Symbol>, b: seq<Symbol>)
    requires a == [] && b == []
    ensures Merged(a, b) == []
  {
  }

  /** merge2defines: file1 stands for its own definitions overridden by those of file2. The symbols themselves are
      shared from then on. */
  method Merge2Defines(file1: Table, file2: Table)
    requires file1.Valid() && file2.Valid()
    modifies file1
    ensures file1.Valid() && file1.syms == Merged(old(file1.syms), old(file2.syms))
    ensures Contents(file1.syms) == old(Contents(file1.syms)) + old(Contents(file2.syms))
    ensures Row(file1.syms) == old(Row(file1.syms)) + old(Row(file2.syms))
    ensures file1.defs == null || fresh(file1.defs)
  {
    hide Merged, NamesOf, Sorted, HasRoom, Contents, Row;
    var deflen := file1.ndefs + file2.ndefs;
    var defs: array?<Symbol?> := null;
    var first := 0;
    if deflen > 0 {
      deflen := deflen + (SYMTABINC - deflen % SYMTABINC) % SYMTABINC;
      var room := new Symbol?[deflen](_ => null);
      first := MergeInto(room, file1, file2);
      RoomAfterMerge(deflen, first);
      defs := room;
    }
    if deflen == 0 { NothingMerged(file1.syms, file2.syms); }
    MergedRow(file1.syms, file2.syms);
    MergedContents(file1.syms, file2.syms);
    file1.syms := Merged(file1.syms, file2.syms);
    file1.defs := defs;
    file1.ndefs := first;
  }

  // Two tables hold the same symbol of that name.
  ghost predicate Shares(a: seq<Symbol>, b: seq<Symbol>, name: string) {
    name in Row(a) && name in Row(b) && Row(a)[name] == Row(b)[name]
  }

  // Of the symbols of u only one that t has too, under this name, is written to.
  lemma WrittenTo(a: seq<Symbol>, b: seq<Symbol>, name: string, n: string)
    requires Sorted(NamesOf(a)) && n in Row(b)
    ensures Row(b)[n] in b && Row(b)[n].name == n
    ensures Row(b)[n] in a ==> n in Row(a) && Row(a)[n] == Row(b)[n]
    ensures name in Row(a) ==> (Row(b)[n] == Row(a)[name] <==> n == name && Shares(a, b, name))
    ensures name !in Row(a) ==> !Shares(a, b, name)
  {
    RowMembers(a);
    RowMembers(b);
    if Row(b)[n] in a { NamedBy(a, Row(b)[n]); }
    hide Row;
  }

  /** A definition made through t, as another table sees it. */
  method DefineSeen(t: Table, u: Table, name: string, val: string)
    requires t.Valid() && u.Valid() && t != u && (t.defs == null || t.defs != u.defs)
    modifies t, t.defs, Members(t.syms)`value
    ensures t.Valid() && u.Valid() && u.syms == old(u.syms)
    ensures Contents(t.syms) == old(Contents(t.syms))[name := val]
    ensures forall n | n in Row(u.syms) ::
              Row(u.syms)[n].value == if n == name && Shares(old(t.syms), u.syms, name) then val else old(Row(u.syms)[n].value)
  {
    hide NamesOf, Row, Sorted, Contents, Shares, HasRoom;
    ghost var a, b := t.syms, u.syms;
    assert forall n | n in Row(b) :: Row(b)[n] in b by { RowMembers(b); }
    t.Define2(name, val);
    forall n | n in Row(b)
      ensures Row(b)[n].value == if n == name && Shares(a, b, name) then val else old(Row(b)[n].value)
    {
      WrittenTo(a, b, name, n);
    }
  }

  /** Another table sees a definition made through this one exactly if the two hold the same symbol of that name; it is
      changed by it exactly if, besides, the value is another one. */
  method DefineThrough(t: Table, u: Table, name: string, val: string)
    requires t.Valid() && u.Valid() && t != u && (t.defs == null || t.defs != u.defs)
    modifies t, t.defs, Members(t.syms)`value
    ensures t.Valid() && u.Valid() && u.syms == old(u.syms)
    ensures Contents(t.syms) == old(Contents(t.syms))[name := val]
    ensures Contents(u.syms) ==
              if Shares(old(t.syms), u.syms, name) then old(Contents(u.syms))[name := val] else old(Contents(u.syms))
    ensures Contents(u.syms) != old(Contents(u.syms))
            <==> Shares(old(t.syms), u.syms, name) && old(Contents(u.syms))[name] != val
  {
    hide Table.Valid, Row, Contents;
    ghost var b, was, shared := u.syms, Contents(u.syms), Shares(t.syms, u.syms, name);
    ContentsAre(b, was);
    DefineSeen(t, u, name, val);
    ContentsAre(b, if shared then was[name := val] else was);
    SetChanges(was, name, val, shared);
  }

  lemma SetChanges(m: map<string, string>, name: string, val: string, set_: bool)
    requires set_ ==> name in m
    ensures (if set_ then m[name := val] else m) != m <==> set_ && m[name] != val
  {
    if set_ { assert m[name := val][name] == val; }
    if set_ && m[name] == val { assert m[name := val] == m; }
  }

  lemma ContentsAre(syms: seq<Symbol>, m: map<string, string>)
    ensures Contents(syms) == m <==> m.Keys == Row(syms).Keys && forall n | n in Row(syms) :: Row(syms)[n].value == m[n]
  {
    hide Row;
  }

  /** Because a merge copies pointers, a definition made through either table shows in the other, for every symbol that
      file2 had: the value goes back into file2 when file1 goes on being read, and into file1 if file2 does. */
  method DefineAfterMerge(file1: Table, file2: Table, through1: bool, name: string, val: string)
    requires file1.Valid() && file2.Valid() && file1 != file2
    modifies file1, file2, file2.defs, Members(file1.syms)`value, Members(file2.syms)`value
    ensures var merged := old(Contents(file1.syms)) + old(Contents(file2.syms));
            && (through1 || name in old(Row(file2.syms)) ==> Contents(file1.syms) == merged[name := val])
            && (!through1 && name !in old(Row(file2.syms)) ==> Contents(file1.syms) == merged)
    ensures Contents(file2.syms) ==
              if !through1 || name in old(Row(file2.syms)) then old(Contents(file2.syms))[name := val]
              else old(Contents(file2.syms))
  {
    hide Less, NamesOf, HasRoom, HasBlock, Merged, Contents, Sorted;
    ghost var a, b := file1.syms, file2.syms;
    Merge2Defines(file1, file2);
    SharedAfterMerge(a, b, name);
    assert forall i | 0 <= i < |file1.syms| :: file1.syms[i] in a || file1.syms[i] in b;
    if through1 { DefineThrough(file1, file2, name, val); } else { DefineThrough(file2, file1, name, val); }
  }

  lemma SharedAfterMerge(a: seq<Symbol>, b: seq<Symbol>, name: string)
    requires Sorted(NamesOf(a)) && Sorted(NamesOf(b))
    ensures Shares(Merged(a, b), b, name) <==> name in Row(b)
    ensures Shares(b, Merged(a, b), name) <==> name in Row(b)
    ensures forall s | s in Merged(a, b) :: s in a || s in b
  {
    MergedFrom(a, b);
    MergedRow(a, b);
    hide Row, Merged, Sorted, NamesOf;
  }
}
