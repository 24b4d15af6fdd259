/** pswdict.c: chained hash dictionaries keyed by strings, and the table of interned atoms. */
module PswDict {

  class Atom {
    const text: string

    constructor (text: string)
      ensures this.text == text
    {
      this.text := text;
    }
  }

  class Entry {
    var next: Entry?
    const name: Atom
    var value: int

    constructor (name: Atom, value: int, next: Entry?)
      ensures this.name == name && this.value == value && this.next == next
    {
      this.name, this.value, this.next := name, value, next;
    }
  }

  function CharSum(s: string): nat {
    if s == [] then 0 else s[0] as nat + CharSum(s[1..])
  }

  function Hash(s: string, n: nat): (h: nat)
    requires n > 0
    ensures h < n
  {
    CharSum(s) % n
  }

  function Nth(c: seq<Entry>, i: nat): Entry? {
    if i < |c| then c[i] else null
  }

  // The entries of c are linked in order, head first, without repetition.
  ghost predicate Chain(head: Entry?, c: seq<Entry>)
    reads c`next
  {
    && head == Nth(c, 0)
    && (forall i | 0 <= i < |c| :: c[i].next == Nth(c, i + 1))
    && (forall i, j | 0 <= i < j < |c| :: c[i] != c[j])
  }

  lemma ChainAt(head: Entry?, c: seq<Entry>, i: nat)
    requires Chain(head, c) && i <= |c|
    ensures head == Nth(c, 0) && Nth(c, i) == if i < |c| then c[i] else null
    ensures i < |c| ==> c[i].next == Nth(c, i + 1)
  {
  }

  // Bucket x of n holds exactly the indexed entries whose name hashes to x.
  ghost predicate FiledIn(x: nat, n: nat, c: seq<Entry>, index: map<string, Entry>)
    requires n > 0
  {
    && (forall e | e in c :: Hash(e.name.text, n) == x && e.name.text in index && index[e.name.text] == e)
    && (forall t | t in index && Hash(t, n) == x :: index[t].name.text == t && index[t] in c)
  }

  lemma StillDistinct(c: seq<Entry>, i: nat)
    requires i < |c| && forall j, k | 0 <= j < k < |c| :: c[j] != c[k]
    ensures var d := c[..i] + c[i + 1..]; forall j, k | 0 <= j < k < |d| :: d[j] != d[k]
  {
  }

  lemma FiledName(x: nat, n: nat, c: seq<Entry>, index: map<string, Entry>, e: Entry)
    requires n > 0 && FiledIn(x, n, c, index) && e in c
    ensures Hash(e.name.text, n) == x && e.name.text in index && index[e.name.text] == e
  {
  }

  // A name is looked for in its bucket.
  lemma FiledFind(n: nat, c: seq<Entry>, index: map<string, Entry>, name: string)
    requires n > 0 && FiledIn(Hash(name, n), n, c, index)
    ensures forall k | 0 <= k < |c| && c[k].name.text == name :: name in index && index[name] == c[k]
    ensures name in index ==> index[name].name.text == name && exists k :: 0 <= k < |c| && c[k] == index[name]
  {
    hide Hash;
    assert forall k | 0 <= k < |c| :: c[k] in c;
  }

  // Dropping entry i of bucket x, and its name, leaves every bucket filed.
  lemma FiledAfterDrop(x: nat, n: nat, c: seq<Entry>, i: nat, index: map<string, Entry>)
    requires n > 0 && i < |c| && FiledIn(x, n, c, index)
    requires forall j, k | 0 <= j < k < |c| :: c[j] != c[k]
    ensures FiledIn(x, n, c[..i] + c[i + 1..], index - {c[i].name.text})
  {
    var d := c[..i] + c[i + 1..];
    forall k | 0 <= k < |c| && k != i
      ensures c[k] in d
    {
      assert c[k] == d[if k < i then k else k - 1];
    }
  }

  // Putting e at the head of its bucket, under its name, leaves every bucket y filed.
  lemma FiledAfterAdd(y: nat, n: nat, c: seq<Entry>, index: map<string, Entry>, e: Entry)
    requires n > 0 && FiledIn(y, n, c, index) && e.name.text !in index
    ensures FiledIn(y, n, if y == Hash(e.name.text, n) then [e] + c else c, index[e.name.text := e])
  {
    hide Hash;
  }

  // Dropping the name of an entry of another bucket does nothing to bucket y.
  lemma FiledElsewhere(y: nat, n: nat, c: seq<Entry>, index: map<string, Entry>, name: string)
    requires n > 0 && FiledIn(y, n, c, index) && Hash(name, n) != y
    ensures FiledIn(y, n, c, index - {name})
  {
    hide Hash;
  }

  class Dict {
    const entries: array<Entry?>
    ghost var chains: seq<seq<Entry>>
    ghost var index: map<string, Entry>
    ghost var nodes: set<Entry>
    ghost var Repr: set<object>

    ghost predicate Linked(x: nat)
      requires x < entries.Length == |chains|
      reads `chains, `nodes, entries, nodes`next
    {
      (forall i | 0 <= i < |chains[x]| :: chains[x][i] in nodes) && Chain(entries[x], chains[x])
    }

    ghost predicate Filed(x: nat)
      requires x < entries.Length == |chains|
      reads `chains, `index
    {
      FiledIn(x, entries.Length, chains[x], index)
    }

    ghost predicate Valid()
      reads this, Repr
    {
      && Repr == {this, entries} + nodes
      && 0 < entries.Length == |chains|
      && (forall t | t in index :: index[t] in nodes)
      && (forall x | 0 <= x < entries.Length :: Linked(x))
      && (forall x | 0 <= x < entries.Length :: Filed(x))
    }

    // The finite map a dictionary stands for.
    ghost function Contents(): map<string, int>
      reads this, index.Values
    {
      map t | t in index :: index[t].value
    }

    constructor (nEntries: nat)
      requires nEntries > 0
      ensures Valid() && fresh(Repr) && Contents() == map[] && index == map[]
      ensures entries.Length == nEntries
    {
      entries := new Entry?[nEntries](_ => null);
      chains := seq(nEntries, _ => []);
      index := map[];
      nodes := {};
      Repr := {this, entries};
    }

    lemma Owned()
      requires Valid()
      ensures this in Repr && entries in Repr
    {
    }

    // A walk down bucket x; i is the position of the hit, or the length of the chain.
    method Probe(x: nat, name: string) returns (e: Entry?, ghost i: nat)
      requires Valid() && x == Hash(name, entries.Length)
      ensures name in index ==> e == index[name] && i < |chains[x]| && chains[x][i] == e
      ensures name !in index ==> e == null && i == |chains[x]|
    {
      assert Linked(x) && Filed(x);
      FiledFind(entries.Length, chains[x], index, name);
      hide Hash, FiledIn, Chain, Nth;
      ChainAt(entries[x], chains[x], 0);
      e := entries[x];
      i := 0;
      while e != null
        invariant i <= |chains[x]|
        invariant e == Nth(chains[x], i)
        invariant forall j | 0 <= j < i :: chains[x][j].name.text != name
        decreases |chains[x]| - i
      {
        if e.name.text == name { return; }
        e := e.next;
        i := i + 1;
        ChainAt(entries[x], chains[x], i);
      }
    }

    method PrevProbe(x: nat, name: string) returns (prev: Entry?, e: Entry?, ghost i: nat)
      requires Valid() && x == Hash(name, entries.Length)
      ensures name in index ==> e == index[name] && i < |chains[x]| && chains[x][i] == e
      ensures name in index ==> prev == if i == 0 then null else chains[x][i - 1]
      ensures name !in index ==> e == null
    {
      assert Linked(x) && Filed(x);
      FiledFind(entries.Length, chains[x], index, name);
      hide Hash, FiledIn, Chain, Nth;
      ChainAt(entries[x], chains[x], 0);
      prev, e := null, entries[x];
      i := 0;
      while e != null
        invariant i <= |chains[x]|
        invariant e == Nth(chains[x], i)
        invariant prev == if i == 0 then null else chains[x][i - 1]
        invariant forall j | 0 <= j < i :: chains[x][j].name.text != name
        decreases |chains[x]| - i
      {
        if e.name.text == name { break; }
        prev, e := e, e.next;
        i := i + 1;
        ChainAt(entries[x], chains[x], i);
      }
    }

    method PSWDictLookup(name: string) returns (value: int)
      requires Valid()
      ensures value == if name in Contents() then Contents()[name] else -1
    {
      var e, _ := Probe(Hash(name, entries.Length), name);
      value := if e == null then -1 else e.value;
    }

    // Link a new entry at the head of its bucket.
    method Insert(x: nat, name: Atom, value: int)
      requires Valid() && name.text !in index && x == Hash(name.text, entries.Length)
      modifies this, entries
      ensures Valid() && fresh(Repr - old(Repr)) && old(Repr) <= Repr
      ensures index.Keys == old(index.Keys) + {name.text}
      ensures forall t | t in old(index) :: index[t] == old(index[t])
      ensures index[name.text].name == name && fresh(index[name.text])
      ensures Contents() == old(Contents())[name.text := value]
    {
      hide Hash, FiledIn;
      var e := new Entry(name, value, entries[x]);
      entries[x] := e;
      chains := chains[x := [e] + chains[x]];
      index := index[name.text := e];
      nodes := nodes + {e};
      Repr := Repr + {e};
      forall y | 0 <= y < entries.Length
        ensures Linked(y)
      {
        assert old(Linked(y));
      }
      forall y | 0 <= y < entries.Length
        ensures Filed(y)
      {
        assert old(Filed(y));
        FiledAfterAdd(y, entries.Length, old(chains[y]), old(index), e);
      }
    }

    method Replace(e: Entry, name: string, value: int)
      requires Valid() && name in index && e == index[name]
      modifies e`value
      ensures Valid() && Contents() == old(Contents())[name := value]
    {
      e.value := value;
      forall t | t in index && t != name
        ensures index[t] != e
      {
        assert Filed(Hash(t, entries.Length)) && Filed(Hash(name, entries.Length));
      }
    }

    method EnterNew(x: nat, name: string, value: int, interner: Interner)
      requires Valid() && interner.Valid() && Repr !! interner.Repr
      requires name !in index && x == Hash(name, entries.Length)
      modifies Repr, interner.Repr
      ensures Valid() && fresh(Repr - old(Repr))
      ensures interner.Valid() && fresh(interner.Repr - old(interner.Repr))
      ensures Repr !! interner.Repr
      ensures Contents() == old(Contents())[name := value]
      ensures interner.Extends(old(interner.Issued()))
    {
      ghost var was := Contents();
      var a := interner.MakeAtom(name);
      assert Contents() == was;
      ghost var apart := interner.Repr;
      assert apart !! Repr;
      Insert(x, a, value);
      assert interner.Repr == apart;
    }

    /** 0 for a new name, -1 when the name was there and its value has been replaced. */
    method PSWDictEnter(name: string, value: int, interner: Interner) returns (r: int)
      requires Valid() && interner.Valid() && Repr !! interner.Repr
      modifies Repr, interner.Repr
      ensures Valid() && fresh(Repr - old(Repr))
      ensures interner.Valid() && fresh(interner.Repr - old(interner.Repr))
      ensures Repr !! interner.Repr
      ensures Contents() == old(Contents())[name := value]
      ensures r == if name in old(Contents()) then -1 else 0
      ensures interner.Extends(old(interner.Issued()))
    {
      var x := Hash(name, entries.Length);
      var e, i := Probe(x, name);
      if e != null {
        Replace(e, name, value);
        return -1;
      }
      EnterNew(x, name, value, interner);
      return 0;
    }

    // An entry lies in one bucket only.
    lemma OneBucket(x: nat, i: nat, y: nat)
      requires Valid() && x < entries.Length && i < |chains[x]| && y < entries.Length && y != x
      ensures chains[x][i] !in chains[y]
    {
      assert Filed(x) && Filed(y);
    }

    // Pass over entry i of bucket x.
    method PassOver(x: nat, prev: Entry?, e: Entry, ghost i: nat)
      requires x < entries.Length == |chains| && Linked(x) && i < |chains[x]| && e == chains[x][i]
      requires prev == if i == 0 then null else chains[x][i - 1]
      modifies entries, nodes`next
      ensures forall y | 0 <= y < entries.Length && y != x :: entries[y] == old(entries[y])
      ensures forall n | n in nodes && n != prev :: n.next == old(n.next)
      ensures Chain(entries[x], chains[x][..i] + chains[x][i + 1..])
    {
      ghost var c := chains[x];
      ghost var d := c[..i] + c[i + 1..];
      StillDistinct(c, i);
      if prev == null { entries[x] := e.next; } else { prev.next := e.next; }
      forall k | 0 <= k < |d|
        ensures d[k].next == Nth(d, k + 1)
      {
        assert d[k] == if k < i then c[k] else c[k + 1];
      }
    }

    // Take entry i out of bucket x.
    method Unlink(x: nat, prev: Entry?, e: Entry, ghost i: nat)
      requires 0 < entries.Length == |chains| && forall y | 0 <= y < entries.Length :: Linked(y)
      requires x < entries.Length && i < |chains[x]| && e == chains[x][i]
      requires prev == if i == 0 then null else chains[x][i - 1]
      requires forall y | 0 <= y < entries.Length && y != x && prev != null :: prev !in chains[y]
      modifies entries, nodes`next, `chains
      ensures 0 < entries.Length == |chains|
      ensures chains == old(chains)[x := old(chains[x][..i] + chains[x][i + 1..])]
      ensures forall y | 0 <= y < entries.Length :: Linked(y)
    {
      assert Linked(x);
      PassOver(x, prev, e, i);
      chains := chains[x := chains[x][..i] + chains[x][i + 1..]];
      forall y | 0 <= y < entries.Length && y != x
        ensures Linked(y)
      {
        assert old(Linked(y));
      }
    }

    // Entry i of bucket x goes, and its name with it.
    method TakeOut(x: nat, prev: Entry?, e: Entry, ghost i: nat)
      requires Valid() && x < entries.Length && i < |chains[x]| && e == chains[x][i]
      requires prev == if i == 0 then null else chains[x][i - 1]
      modifies Repr
      ensures Valid() && Repr == old(Repr) && Contents() == old(Contents()) - {e.name.text}
    {
      hide Hash, FiledIn;
      assert Linked(x);
      forall y | 0 <= y < entries.Length && y != x && prev != null
        ensures prev !in chains[y]
      {
        OneBucket(x, i - 1, y);
      }
      assert Filed(x);
      FiledName(x, entries.Length, chains[x], index, e);
      Unlink(x, prev, e, i);
      assert old(Filed(x));
      index := index - {e.name.text};
      forall y | 0 <= y < entries.Length
        ensures Filed(y)
      {
        assert old(Filed(y));
        if y == x {
          FiledAfterDrop(x, entries.Length, old(chains[x]), i, old(index));
        } else {
          FiledElsewhere(y, entries.Length, chains[y], old(index), e.name.text);
        }
      }
    }

    /** -1 when the name is not there; otherwise the value, and the entry is unlinked. */
    method PSWDictRemove(name: string) returns (value: int)
      requires Valid()
      modifies Repr
      ensures Valid() && Repr == old(Repr)
      ensures value == if name in old(Contents()) then old(Contents())[name] else -1
      ensures Contents() == old(Contents()) - {name}
    {
      hide Chain;
      var x := Hash(name, entries.Length);
      var prev, e, i := PrevProbe(x, name);
      assert Filed(x);
      if e == null { return -1; }
      value := e.value;
      TakeOut(x, prev, e, i);
    }
  }

  method InternIn(d: Dict, name: string) returns (a: Atom)
    requires d.Valid()
    modifies d, d.entries
    ensures d.Valid() && fresh(d.Repr - old(d.Repr)) && old(d.Repr) <= d.Repr
    ensures name in d.index && d.index[name].name == a && a.text == name
    ensures d.index.Keys == old(d.index.Keys) + {name}
    ensures forall t | t in old(d.index) :: d.index[t] == old(d.index[t])
  {
    var x := Hash(name, d.entries.Length);
    var e, i := d.Probe(x, name);
    assert d.Filed(x);
    if e == null {
      a := new Atom(name);
      d.Insert(x, a, 0);
    } else {
      a := e.name;
    }
  }

  /** The global atom table. */
  class Interner {
    var atoms: Dict?
    ghost var Repr: set<object>

    ghost predicate Valid()
      reads this, Repr
    {
      && this in Repr
      && (atoms != null ==>
            atoms in Repr && atoms.Repr <= Repr && this !in atoms.Repr && atoms.Valid() && atoms.entries.Length == 511)
    }

    // The atoms handed out so far.
    ghost function Issued(): map<string, Atom>
      reads this, atoms
    {
      if atoms == null then map[] else map t | t in atoms.index :: atoms.index[t].name
    }

    // Every atom issued earlier is still the atom of its string.
    ghost predicate Extends(earlier: map<string, Atom>)
      reads this, atoms
    {
      forall t | t in earlier :: t in Issued() && Issued()[t] == earlier[t]
    }

    constructor ()
      ensures Valid() && fresh(Repr) && Issued() == map[]
    {
      atoms := null;
      Repr := {this};
    }

    /** Equal atoms exactly for equal strings; an issued atom is never replaced. */
    method MakeAtom(name: string) returns (a: Atom)
      requires Valid()
      modifies Repr
      ensures Valid() && fresh(Repr - old(Repr))
      ensures a.text == name
      ensures Issued() == old(Issued())[name := a] && Extends(old(Issued()))
    {
      hide Dict.Valid, Dict.Contents;
      if atoms == null { atoms := new Dict(511); }
      atoms.Owned();
      a := InternIn(atoms, name);
      Repr := Repr + atoms.Repr;
    }
  }

  /** Over any run of requests, atoms are equal exactly where the strings are. */
  method MakeAtoms(names: seq<string>, interner: Interner) returns (atoms: seq<Atom>)
    requires interner.Valid()
    modifies interner.Repr
    ensures interner.Valid() && |atoms| == |names|
    ensures forall i, j | 0 <= i < |names| && 0 <= j < |names| :: atoms[i] == atoms[j] <==> names[i] == names[j]
  {
    atoms := [];
    for i := 0 to |names|
      invariant interner.Valid() && fresh(interner.Repr - old(interner.Repr)) && |atoms| == i
      invariant forall j | 0 <= j < i :: names[j] in interner.Issued() && interner.Issued()[names[j]] == atoms[j]
      invariant forall j | 0 <= j < i :: atoms[j].text == names[j]
    {
      ghost var earlier := interner.Issued();
      var a := interner.MakeAtom(names[i]);
      assert forall j | 0 <= j < i :: names[j] in earlier;
      atoms := atoms + [a];
    }
  }

  datatype Op = LookupOp(name: string) | EnterOp(name: string, value: int) | RemoveOp(name: string)

  // A finite map under the three operations: the map after one, and what the operation returns.
  function After(m: map<string, int>, op: Op): map<string, int> {
    match op
    case LookupOp(_) => m
    case EnterOp(n, v) => m[n := v]
    case RemoveOp(n) => m - {n}
  }

  function Answer(m: map<string, int>, op: Op): int {
    match op
    case EnterOp(n, _) => if n in m then -1 else 0
    case _ => if op.name in m then m[op.name] else -1
  }

  function AfterAll(m: map<string, int>, ops: seq<Op>): map<string, int> {
    if ops == [] then m else After(AfterAll(m, ops[..|ops| - 1]), ops[|ops| - 1])
  }

  method Perform(d: Dict, op: Op, interner: Interner) returns (r: int)
    requires d.Valid() && interner.Valid() && d.Repr !! interner.Repr
    modifies d.Repr, interner.Repr
    ensures d.Valid() && fresh(d.Repr - old(d.Repr))
    ensures interner.Valid() && fresh(interner.Repr - old(interner.Repr)) && d.Repr !! interner.Repr
    ensures d.Contents() == After(old(d.Contents()), op) && r == Answer(old(d.Contents()), op)
  {
    match op {
      case LookupOp(n) => r := d.PSWDictLookup(n);
      case EnterOp(n, v) => r := d.PSWDictEnter(n, v, interner);
      case RemoveOp(n) => r := d.PSWDictRemove(n);
    }
  }

  /** Any run of operations on a dictionary answers, and leaves, what the finite map does. */
  method PerformAll(d: Dict, ops: seq<Op>, interner: Interner) returns (rs: seq<int>)
    requires d.Valid() && interner.Valid() && d.Repr !! interner.Repr
    modifies d.Repr, interner.Repr
    ensures d.Valid() && d.Contents() == AfterAll(old(d.Contents()), ops) && |rs| == |ops|
    ensures forall i | 0 <= i < |ops| :: rs[i] == Answer(AfterAll(old(d.Contents()), ops[..i]), ops[i])
  {
    hide After, Answer;
    rs := [];
    ghost var m := d.Contents();
    for i := 0 to |ops|
      invariant d.Valid() && fresh(d.Repr - old(d.Repr)) && |rs| == i
      invariant interner.Valid() && fresh(interner.Repr - old(interner.Repr)) && d.Repr !! interner.Repr
      invariant d.Contents() == AfterAll(m, ops[..i])
      invariant forall j | 0 <= j < i :: rs[j] == Answer(AfterAll(m, ops[..j]), ops[j])
    {
      assert ops[..i + 1][..i] == ops[..i];
      var r := Perform(d, ops[i], interner);
      rs := rs + [r];
    }
    assert ops[..|ops|] == ops;
  }
}
