/** Looking a symbol up through the include graph: fdefined, isdefined and undefine of makedepend's parse.c. A file's
    symbol table is the finite map that MakeDependSymTab shows it to be. */
module MakeDependDefs {
  import opened Options

  class File {
    var defs: map<string, string>
    var list: seq<File>
    var merged: seq<bool>
    var checked: bool       // DEFCHECKED
    var finished: bool      // FINISHED
  }

  // ----- snapshots of the files in `nodes`

  type Tables = map<File, map<string, string>>
  type Marks = map<File, seq<bool>>
  type Graph = map<File, seq<File>>

  ghost function TablesOf(nodes: set<File>): Tables
    reads nodes`defs
  {
    map n | n in nodes :: n.defs
  }

  ghost function MarksOf(nodes: set<File>): Marks
    reads nodes`merged
  {
    map n | n in nodes :: n.merged
  }

  ghost function GraphOf(nodes: set<File>): Graph
    reads nodes`list
  {
    map n | n in nodes :: n.list
  }

  ghost function CheckedOf(nodes: set<File>): set<File>
    reads nodes`checked
  {
    set n | n in nodes && n.checked
  }

  // The graph holds every file its files include.
  ghost predicate Closed(g: Graph) {
    forall n, i | n in g && 0 <= i < |g[n]| :: g[n][i] in g
  }

  // Each include has a merge mark.
  ghost predicate Fits(g: Graph, m: Marks) {
    m.Keys == g.Keys && forall n | n in g :: |m[n]| == |g[n]|
  }

  // A walk along includes.
  ghost predicate Path(g: Graph, p: seq<File>) {
    && p != [] && (forall i | 0 <= i < |p| :: p[i] in g)
    && forall i | 0 <= i < |p| - 1 :: p[i + 1] in g[p[i]]
  }

  // Nothing is lost from a table, and every entry is one that some file had.
  ghost predicate Grown(t: Tables, t': Tables) {
    && t'.Keys == t.Keys
    && (forall n | n in t :: t[n].Keys <= t'[n].Keys)
    && Sourced(t, t')
  }

  ghost predicate Sourced(t: Tables, t': Tables) {
    forall n, s {:trigger t'[n][s]} | n in t' && s in t'[n] :: Had(t, s, t'[n][s])
  }

  ghost predicate Had(t: Tables, s: string, v: string) { exists n :: n in t && s in t[n] && t[n][s] == v }

  // Marks are set and never cleared.
  ghost predicate Raised(m: Marks, m': Marks) {
    m'.Keys == m.Keys && forall n | n in m :: |m'[n]| == |m[n]| && forall i | 0 <= i < |m[n]| && m[n][i] :: m'[n][i]
  }

  /** `seen` is closed under the includes not merged at first, but for the files being searched already. */
  ghost predicate Explored(g: Graph, m: Marks, seen: set<File>, busy: set<File>)
    requires Fits(g, m)
  {
    forall n, i | n in seen && n in g && 0 <= i < |g[n]| && !m[n][i] :: g[n][i] in seen + busy
  }

  // Includes merged in the meantime lead to files seen or being searched.
  ghost predicate MergedSeen(g: Graph, m: Marks, m': Marks, seen: set<File>, busy: set<File>)
    requires Fits(g, m) && Fits(g, m')
  {
    forall n, i | n in g && 0 <= i < |g[n]| && m'[n][i] && !m[n][i] :: g[n][i] in seen + busy
  }

  ghost predicate Lacks(t: Tables, seen: set<File>, symbol: string) {
    forall n | n in seen && n in t :: symbol !in t[n]
  }

  lemma HadEarlier(a: Tables, b: Tables, s: string, v: string)
    requires Sourced(a, b) && Had(b, s, v)
    ensures Had(a, s, v)
  {
    var k :| k in b && s in b[k] && b[k][s] == v;
    assert Had(a, s, b[k][s]);
  }

  lemma GrownTrans(a: Tables, b: Tables, c: Tables)
    requires Grown(a, b) && Grown(b, c)
    ensures Grown(a, c)
  {
    hide Had;
    forall n, s | n in c && s in c[n]
      ensures Had(a, s, c[n][s])
    {
      HadEarlier(a, b, s, c[n][s]);
    }
  }

  // The snapshots after b has been merged into a, as include i.

  ghost function Joined(t: Tables, a: File, b: File): Tables
    requires a in t && b in t
  {
    t[a := t[a] + t[b]]
  }

  ghost function Ticked(m: Marks, a: File, i: nat): Marks
    requires a in m && i < |m[a]|
  {
    m[a := m[a][i := true]]
  }

  lemma GrownMerge(t: Tables, a: File, b: File)
    requires a in t && b in t
    ensures Grown(t, Joined(t, a, b))
  {
    var t' := t[a := t[a] + t[b]];
    forall n, s | n in t' && s in t'[n]
      ensures Had(t, s, t'[n][s])
    {
      if n == a && s in t[b] { assert t'[n][s] == t[b][s]; } else { assert t'[n][s] == t[n][s]; }
    }
  }

  // ----- the search

  // merge2defines: where both define a symbol, file2 has its way.
  method Merge2Defines(file1: File, file2: File)
    modifies file1`defs
    ensures file1.defs == old(file1.defs) + old(file2.defs)
  {
    file1.defs := file1.defs + file2.defs;
  }

  // What a search of the files in nodes, of which `busy` are being searched already, may do to them.
  ghost predicate Steady(g: Graph, t: Tables, m: Marks, t': Tables, m': Marks) {
    && Closed(g) && Fits(g, m) && Fits(g, m') && Grown(t, t') && Raised(m, m')
    && t.Keys == g.Keys && (m == m' ==> t == t')
  }

  /** What a search that found nothing has established. */
  ghost predicate Missed(g: Graph, t: Tables, m: Marks, m': Marks, seen: set<File>, busy: set<File>, symbol: string)
    requires Fits(g, m) && Fits(g, m')
  {
    && seen <= g.Keys && Lacks(t, seen, symbol)
    && Explored(g, m, seen, busy) && MergedSeen(g, m, m', seen, busy)
  }

  // The first n includes of `file` not merged at first were found.
  ghost predicate Covered(g: Graph, m: Marks, file: File, n: nat, found: set<File>)
    requires Fits(g, m) && file in g && n <= |g[file]|
  {
    forall i | 0 <= i < n && !m[file][i] :: g[file][i] in found
  }

  // A file whose includes have all been searched counts as seen itself.
  lemma MissedFile(g: Graph, t: Tables, m: Marks, m': Marks, seen: set<File>, busy: set<File>, file: File, symbol: string)
    requires Fits(g, m) && Fits(g, m') && file in g && file in t && symbol !in t[file]
    requires Missed(g, t, m, m', seen, busy + {file}, symbol)
    requires Covered(g, m, file, |g[file]|, seen + (busy + {file}))
    ensures Missed(g, t, m, m', seen + {file}, busy, symbol)
  {
    assert seen + (busy + {file}) == (seen + {file}) + busy;
  }

  lemma SteadyTrans(g: Graph, t: Tables, m: Marks, t1: Tables, m1: Marks, t2: Tables, m2: Marks)
    requires Steady(g, t, m, t1, m1) && Steady(g, t1, m1, t2, m2)
    ensures Steady(g, t, m, t2, m2)
  {
    GrownTrans(t, t1, t2);
    if m == m2 {
      forall n | n in m
        ensures m1[n] == m[n]
      {
      }
      assert m1 == m;
    }
  }

  // Two fruitless searches in a row, the second with one more file busy.
  lemma MissedTrans(g: Graph, t: Tables, m: Marks, t1: Tables, m1: Marks, m2: Marks,
                    seen1: set<File>, seen2: set<File>, busy: set<File>, file: File, symbol: string)
    requires Fits(g, m) && Fits(g, m1) && Fits(g, m2) && Grown(t, t1) && Raised(m, m1) && Raised(m1, m2)
    requires Missed(g, t, m, m1, seen1, busy + {file}, symbol)
    requires Missed(g, t1, m1, m2, seen2, busy + {file}, symbol)
    requires t.Keys == g.Keys
    ensures Missed(g, t, m, m2, seen1 + seen2, busy + {file}, symbol)
  {
    var seen := seen1 + seen2;
    forall n, i | n in seen && n in g && 0 <= i < |g[n]| && !m[n][i]
      ensures g[n][i] in seen + (busy + {file})
    {
      if n in seen1 {
      } else if m1[n][i] {
        assert g[n][i] in seen1 + (busy + {file});
      }
    }
    forall n, i | n in g && 0 <= i < |g[n]| && m2[n][i] && !m[n][i]
      ensures g[n][i] in seen + (busy + {file})
    {
    }
  }

  // Files being searched are left alone.
  ghost predicate Untouched(t: Tables, m: Marks, t': Tables, m': Marks, busy: set<File>) {
    t'.Keys == t.Keys && m'.Keys == m.Keys
    && forall n | n in busy :: (n in t ==> t'[n] == t[n]) && (n in m ==> m'[n] == m[n])
  }

  lemma UntouchedTrans(t: Tables, m: Marks, t1: Tables, m1: Marks, t2: Tables, m2: Marks, busy: set<File>, file: File)
    requires Untouched(t, m, t1, m1, busy) && Untouched(t1, m1, t2, m2, busy + {file})
    ensures Untouched(t, m, t2, m2, busy)
  {
  }

  lemma SteadyStill(g: Graph, t: Tables, m: Marks)
    requires Closed(g) && Fits(g, m) && t.Keys == g.Keys
    ensures Steady(g, t, m, t, m)
  {
    forall n, s | n in t && s in t[n]
      ensures Had(t, s, t[n][s])
    {
    }
  }

  // No table gains the symbol.
  ghost predicate NoGain(t: Tables, t': Tables, symbol: string) {
    t'.Keys == t.Keys && forall n | n in t && symbol in t'[n] :: symbol in t[n]
  }

  lemma NoGainTrans(t: Tables, t1: Tables, t2: Tables, symbol: string, files: set<File>)
    requires NoGain(t, t1, symbol) && NoGain(t1, t2, symbol)
    ensures NoGain(t, t2, symbol)
    ensures Lacks(t, files, symbol) ==> Lacks(t2, files, symbol)
  {
  }

  // Merging a file that lacks the symbol.
  lemma NoGainMerge(t: Tables, t1: Tables, t2: Tables, symbol: string, a: File, b: File, files: set<File>)
    requires NoGain(t, t1, symbol) && NoGain(t1, t2, symbol) && a in t && b in t
    requires Lacks(t1, files, symbol) && b in files
    ensures NoGain(t, Joined(t2, a, b), symbol)
  {
  }

  lemma LacksBoth(g: Graph, t: Tables, m: Marks, m': Marks, seen: set<File>, busy: set<File>, symbol: string)
    requires Fits(g, m) && Fits(g, m') && Missed(g, t, m, m', seen, busy, symbol) && Lacks(t, busy, symbol)
    ensures Lacks(t, seen + busy, symbol)
  {
  }

  lemma SteadyFits(g: Graph, t: Tables, m: Marks, t': Tables, m': Marks)
    requires Steady(g, t, m, t', m')
    ensures Closed(g) && Fits(g, m) && Fits(g, m') && t.Keys == t'.Keys == g.Keys
  {
  }

  lemma SteadyMerge(g: Graph, t: Tables, m: Marks, file: File, i: nat)
    requires Closed(g) && Fits(g, m) && t.Keys == g.Keys && file in g && i < |g[file]| && !m[file][i]
    ensures Steady(g, t, m, Joined(t, file, g[file][i]), Ticked(m, file, i))
  {
    GrownMerge(t, file, g[file][i]);
    assert Ticked(m, file, i)[file][i];
  }

  lemma MissedMerge(g: Graph, t: Tables, m: Marks, m': Marks, seen: set<File>, busy: set<File>, symbol: string, file: File, i: nat)
    requires Fits(g, m) && Fits(g, m') && file in g && i < |g[file]|
    requires Missed(g, t, m, m', seen, busy, symbol) && g[file][i] in seen + busy
    ensures Fits(g, Ticked(m', file, i))
    ensures Missed(g, t, m, Ticked(m', file, i), seen, busy, symbol)
  {
  }

  lemma MissedNothing(g: Graph, t: Tables, m: Marks, busy: set<File>, symbol: string)
    requires Fits(g, m)
    ensures Missed(g, t, m, m, {}, busy, symbol)
  {
  }

  lemma PathCons(g: Graph, file: File, i: nat, p: seq<File>)
    requires file in g && i < |g[file]| && Path(g, p) && p[0] == g[file][i]
    ensures Path(g, [file] + p) && ([file] + p)[|p|] == p[|p| - 1]
  {
    var q := [file] + p;
    forall k | 0 <= k < |q| - 1
      ensures q[k + 1] in g[q[k]]
    {
      if k > 0 { assert p[k - 1 + 1] in g[p[k - 1]]; }
    }
  }

  // The file found, if any, and how.
  ghost predicate Reached(g: Graph, t: Tables, file: File, hit: Option<File>, path: seq<File>, busy: set<File>, symbol: string) {
    hit.Some? ==> && Path(g, path) && path[0] == file && path[|path| - 1] == hit.value
                  && hit.value in t && symbol in t[hit.value] && hit.value !in busy
  }

  lemma ReachedHere(g: Graph, t: Tables, file: File, busy: set<File>, symbol: string)
    requires file in g && file in t && symbol in t[file] && file !in busy
    ensures Reached(g, t, file, Some(file), [file], busy, symbol)
  {
  }

  // A hit through include i stands, also after a merge into `file`.
  lemma ReachedThrough(g: Graph, t: Tables, t': Tables, file: File, i: nat, hit: Option<File>, path: seq<File>, busy: set<File>,
                       symbol: string)
    requires file in g && i < |g[file]| && Reached(g, t, g[file][i], hit, path, busy + {file}, symbol)
    requires t'.Keys == t.Keys && forall n | n in t && n != file :: t'[n] == t[n]
    ensures Reached(g, t', file, hit, [file] + path, busy + {file}, symbol)
  {
    if hit.Some? { PathCons(g, file, i, path); }
  }

  // ----- the path a search finds

  /** Of the walks from `file` along includes not merged, through files not being searched, the first in the order of the
      lists that gets to a file with the symbol. */
  ghost function FirstPath(g: Graph, t: Tables, m: Marks, file: File, busy: set<File>, symbol: string): Option<seq<File>>
    requires Closed(g) && Fits(g, m) && t.Keys == g.Keys && file in g
    decreases g.Keys - busy, 0
  {
    if file in busy then None
    else if symbol in t[file] then Some([file])
    else FirstBehind(g, t, m, file, 0, busy + {file}, symbol)
  }

  // The same through the includes from the i-th on.
  ghost function FirstBehind(g: Graph, t: Tables, m: Marks, file: File, i: nat, busy: set<File>,
                             symbol: string): Option<seq<File>>
    requires Closed(g) && Fits(g, m) && t.Keys == g.Keys && file in g && i <= |g[file]|
    decreases g.Keys - busy, 1 + |g[file]| - i
  {
    if i == |g[file]| then None
    else
      var p := if m[file][i] then None else FirstPath(g, t, m, g[file][i], busy, symbol);
      if p.Some? then Through(file, p) else FirstBehind(g, t, m, file, i + 1, busy, symbol)
  }

  ghost function Through(file: File, p: Option<seq<File>>): Option<seq<File>> {
    if p.Some? then Some([file] + p.value) else None
  }

  // What a search returns.
  ghost function Result(hit: Option<File>, path: seq<File>): Option<seq<File>> { if hit.Some? then Some(path) else None }

  // No path leads out of files that a fruitless search has seen.
  lemma {:induction false} SeenNone(g: Graph, t: Tables, m: Marks, seen: set<File>, busy: set<File>, file: File,
                                    busy': set<File>, symbol: string)
    requires Closed(g) && Fits(g, m) && t.Keys == g.Keys && file in g && busy <= busy'
    requires Lacks(t, seen, symbol) && Explored(g, m, seen, busy) && file in seen + busy
    ensures FirstPath(g, t, m, file, busy', symbol).None?
    decreases g.Keys - busy', 0
  {
    if file !in busy' { SeenNoneBehind(g, t, m, seen, busy, file, 0, busy' + {file}, symbol); }
  }

  lemma {:induction false} SeenNoneBehind(g: Graph, t: Tables, m: Marks, seen: set<File>, busy: set<File>, file: File, i: nat,
                                          busy': set<File>, symbol: string)
    requires Closed(g) && Fits(g, m) && t.Keys == g.Keys && file in g && busy <= busy' && i <= |g[file]|
    requires Lacks(t, seen, symbol) && Explored(g, m, seen, busy) && file in seen
    ensures FirstBehind(g, t, m, file, i, busy', symbol).None?
    decreases g.Keys - busy', 1 + |g[file]| - i
  {
    hide Lacks;
    if i < |g[file]| {
      if !m[file][i] { SeenNone(g, t, m, seen, busy, g[file][i], busy', symbol); }
      SeenNoneBehind(g, t, m, seen, busy, file, i + 1, busy', symbol);
    }
  }

  // A fruitless search makes no difference to what the next one finds.
  lemma {:induction false} SameFirst(g: Graph, t: Tables, m: Marks, t': Tables, m': Marks, seen: set<File>, busy: set<File>,
                                     file: File, busy': set<File>, symbol: string)
    requires Steady(g, t, m, t', m') && NoGain(t, t', symbol) && Missed(g, t, m, m', seen, busy, symbol)
    requires file in g && busy <= busy'
    ensures FirstPath(g, t', m', file, busy', symbol) == FirstPath(g, t, m, file, busy', symbol)
    decreases g.Keys - busy', 0
  {
    hide Explored, MergedSeen, Sourced;
    if file in seen {
      StillSeen(g, t, m, t', m', seen, busy, symbol);
      SeenNone(g, t, m, seen, busy, file, busy', symbol);
      SeenNone(g, t', m', seen, busy, file, busy', symbol);
    } else if file !in busy' {
      SameBehind(g, t, m, t', m', seen, busy, file, 0, busy' + {file}, symbol);
    }
  }

  lemma StillSeen(g: Graph, t: Tables, m: Marks, t': Tables, m': Marks, seen: set<File>, busy: set<File>, symbol: string)
    requires Steady(g, t, m, t', m') && NoGain(t, t', symbol) && Missed(g, t, m, m', seen, busy, symbol)
    ensures Lacks(t', seen, symbol) && Fits(g, m') && Explored(g, m', seen, busy)
  {
    hide Sourced, MergedSeen;
  }

  lemma {:induction false} SameBehind(g: Graph, t: Tables, m: Marks, t': Tables, m': Marks, seen: set<File>, busy: set<File>,
                                      file: File, i: nat, busy': set<File>, symbol: string)
    requires Steady(g, t, m, t', m') && NoGain(t, t', symbol) && Missed(g, t, m, m', seen, busy, symbol)
    requires file in g && busy <= busy' && i <= |g[file]|
    ensures FirstBehind(g, t', m', file, i, busy', symbol) == FirstBehind(g, t, m, file, i, busy', symbol)
    decreases g.Keys - busy', 1 + |g[file]| - i
  {
    hide Grown, NoGain, Lacks, Explored;
    if i < |g[file]| {
      if !m[file][i] {
        if m'[file][i] {
          SeenNone(g, t, m, seen, busy, g[file][i], busy', symbol);
        } else {
          SameFirst(g, t, m, t', m', seen, busy, g[file][i], busy', symbol);
        }
      }
      SameBehind(g, t, m, t', m', seen, busy, file, i + 1, busy', symbol);
    }
  }

  /** The path through an include is that of the first in the list, of those not merged, behind which there is one. */
  lemma {:induction false} FirstInList(g: Graph, t: Tables, m: Marks, file: File, i: nat, busy: set<File>, symbol: string)
    returns (k: nat)
    requires Closed(g) && Fits(g, m) && t.Keys == g.Keys && file in g && i <= |g[file]|
    ensures i <= k <= |g[file]|
    ensures forall j | i <= j < k && !m[file][j] :: FirstPath(g, t, m, g[file][j], busy, symbol).None?
    ensures k < |g[file]| ==> !m[file][k] && FirstPath(g, t, m, g[file][k], busy, symbol).Some?
    ensures FirstBehind(g, t, m, file, i, busy, symbol)
            == if k < |g[file]| then Through(file, FirstPath(g, t, m, g[file][k], busy, symbol)) else None
    decreases |g[file]| - i
  {
    if i == |g[file]| || (!m[file][i] && FirstPath(g, t, m, g[file][i], busy, symbol).Some?) {
      k := i;
    } else {
      k := FirstInList(g, t, m, file, i + 1, busy, symbol);
    }
  }

  // What is known about the path, from the tables at the start.
  lemma {:induction false} FirstHolds(g: Graph, t: Tables, m: Marks, file: File, busy: set<File>, symbol: string)
    requires Closed(g) && Fits(g, m) && t.Keys == g.Keys && file in g
    ensures var p := FirstPath(g, t, m, file, busy, symbol);
            p.Some? ==> p.value != [] && p.value[0] == file && p.value[|p.value| - 1] in t && symbol in t[p.value[|p.value| - 1]]
    decreases g.Keys - busy, 0
  {
    if file !in busy && symbol !in t[file] { FirstHoldsBehind(g, t, m, file, 0, busy + {file}, symbol); }
  }

  lemma {:induction false} FirstHoldsBehind(g: Graph, t: Tables, m: Marks, file: File, i: nat, busy: set<File>, symbol: string)
    requires Closed(g) && Fits(g, m) && t.Keys == g.Keys && file in g && i <= |g[file]|
    ensures var p := FirstBehind(g, t, m, file, i, busy, symbol);
            p.Some? ==> p.value != [] && p.value[0] == file && p.value[|p.value| - 1] in t && symbol in t[p.value[|p.value| - 1]]
    decreases g.Keys - busy, 1 + |g[file]| - i
  {
    if i < |g[file]| {
      if !m[file][i] { FirstHolds(g, t, m, g[file][i], busy, symbol); }
      FirstHoldsBehind(g, t, m, file, i + 1, busy, symbol);
    }
  }

  // Whoever had the symbol still has it, with its value.
  ghost predicate Keeps(t: Tables, t': Tables, symbol: string) {
    t'.Keys == t.Keys && forall n | n in t && symbol in t[n] :: symbol in t'[n] && t'[n][symbol] == t[n][symbol]
  }

  lemma KeepsTrans(t: Tables, t1: Tables, t2: Tables, symbol: string)
    requires Keeps(t, t1, symbol) && Keeps(t1, t2, symbol)
    ensures Keeps(t, t2, symbol)
  {
  }

  lemma KeepsAll(t: Tables, symbol: string)
    ensures Keeps(t, t, symbol)
  {
  }

  lemma KeepsMerge(t: Tables, t': Tables, a: File, b: File, symbol: string)
    requires Keeps(t, t', symbol) && a in t' && b in t' && symbol !in t[a]
    ensures Keeps(t, Joined(t', a, b), symbol)
  {
  }

  /** fdefined. `hit` is the file whose table has the symbol; `seen` the files a fruitless search looked into, `path`
      how a fruitful one got to its hit. */
  method FDefined(symbol: string, file: File, ghost nodes: set<File>)
    returns (hit: Option<File>, ghost seen: set<File>, ghost path: seq<File>)
    requires file in nodes && Closed(GraphOf(nodes)) && Fits(GraphOf(nodes), MarksOf(nodes))
    requires Lacks(TablesOf(nodes), CheckedOf(nodes), symbol)
    modifies nodes`defs, nodes`merged, nodes`checked
    ensures CheckedOf(nodes) == old(CheckedOf(nodes)) && GraphOf(nodes) == old(GraphOf(nodes))
    ensures Steady(GraphOf(nodes), old(TablesOf(nodes)), old(MarksOf(nodes)), TablesOf(nodes), MarksOf(nodes))
    ensures hit.None? ==> NoGain(old(TablesOf(nodes)), TablesOf(nodes), symbol)
    ensures Untouched(old(TablesOf(nodes)), old(MarksOf(nodes)), TablesOf(nodes), MarksOf(nodes), CheckedOf(nodes))
    ensures Reached(GraphOf(nodes), TablesOf(nodes), file, hit, path, CheckedOf(nodes), symbol)
    ensures hit.None? ==> Missed(GraphOf(nodes), old(TablesOf(nodes)), old(MarksOf(nodes)), MarksOf(nodes), seen,
                                 CheckedOf(nodes), symbol)
    ensures hit.None? ==> file in seen + CheckedOf(nodes)
    ensures Result(hit, path)
            == FirstPath(GraphOf(nodes), old(TablesOf(nodes)), old(MarksOf(nodes)), file, CheckedOf(nodes), symbol)
    ensures Keeps(old(TablesOf(nodes)), TablesOf(nodes), symbol)
    ensures symbol in old(file.defs) ==> hit == Some(file) && TablesOf(nodes) == old(TablesOf(nodes))
                                         && MarksOf(nodes) == old(MarksOf(nodes))
    decreases nodes - CheckedOf(nodes), 0
  {
    hide Steady, Missed, Path, Covered, Closed, Fits, Reached, NoGain, TablesOf, MarksOf, GraphOf, CheckedOf;
    ghost var g, t, m, busy := GraphOf(nodes), TablesOf(nodes), MarksOf(nodes), CheckedOf(nodes);
    Snapshots(nodes, file);
    SteadyStill(g, t, m);
    MissedNothing(g, t, m, busy, symbol);
    GainNothing(t, symbol);
    KeepsAll(t, symbol);
    hit, seen, path := None, {}, [];
    if file.checked {
      assert symbol !in t[file];
      NotReached(g, t, file, path, busy, symbol);
      return;
    }
    SetChecked(file, nodes);
    if symbol in file.defs {
      hit, path := Some(file), [file];
      ReachedHere(g, t, file, busy, symbol);
    } else {
      hit, seen, path := SearchIncludes(symbol, file, nodes, busy);
      Narrower(g, TablesOf(nodes), file, hit, path, busy, symbol);
    }
    ghost var t', m' := TablesOf(nodes), MarksOf(nodes);
    ClearChecked(file, nodes);
    SteadyFits(g, t, m, t', m');
    if hit.None? {
      MissedFile(g, t, m, m', seen, busy, file, symbol);
      seen := seen + {file};
    }
  }

  lemma Snapshots(nodes: set<File>, file: File)
    requires file in nodes
    ensures TablesOf(nodes).Keys == MarksOf(nodes).Keys == GraphOf(nodes).Keys == nodes
    ensures TablesOf(nodes)[file] == file.defs && MarksOf(nodes)[file] == file.merged && GraphOf(nodes)[file] == file.list
    ensures file.checked <==> file in CheckedOf(nodes)
  {
  }

  method SetChecked(file: File, ghost nodes: set<File>)
    requires file in nodes
    modifies file`checked
    ensures CheckedOf(nodes) == old(CheckedOf(nodes)) + {file}
  {
    file.checked := true;
  }

  method ClearChecked(file: File, ghost nodes: set<File>)
    requires file in nodes
    modifies file`checked
    ensures CheckedOf(nodes) == old(CheckedOf(nodes)) - {file}
  {
    file.checked := false;
  }

  lemma GainNothing(t: Tables, symbol: string)
    ensures NoGain(t, t, symbol)
  {
  }

  lemma NotReached(g: Graph, t: Tables, file: File, path: seq<File>, busy: set<File>, symbol: string)
    ensures Reached(g, t, file, None, path, busy, symbol)
  {
  }

  lemma Narrower(g: Graph, t: Tables, file: File, hit: Option<File>, path: seq<File>, busy: set<File>, symbol: string)
    requires Reached(g, t, file, hit, path, busy + {file}, symbol)
    ensures Reached(g, t, file, hit, path, busy, symbol)
  {
  }

  // The loop of fdefined over the files that `file` includes.
  method SearchIncludes(symbol: string, file: File, ghost nodes: set<File>, ghost busy: set<File>)
    returns (hit: Option<File>, ghost seen: set<File>, ghost path: seq<File>)
    requires file in nodes && Closed(GraphOf(nodes)) && Fits(GraphOf(nodes), MarksOf(nodes))
    requires file !in busy && CheckedOf(nodes) == busy + {file}
    requires Lacks(TablesOf(nodes), busy + {file}, symbol)
    modifies nodes`defs, nodes`merged, nodes`checked
    ensures CheckedOf(nodes) == busy + {file}
    ensures Steady(GraphOf(nodes), old(TablesOf(nodes)), old(MarksOf(nodes)), TablesOf(nodes), MarksOf(nodes))
    ensures hit.None? ==> NoGain(old(TablesOf(nodes)), TablesOf(nodes), symbol)
    ensures Untouched(old(TablesOf(nodes)), old(MarksOf(nodes)), TablesOf(nodes), MarksOf(nodes), busy)
    ensures Reached(GraphOf(nodes), TablesOf(nodes), file, hit, path, busy + {file}, symbol)
    ensures hit.None? ==> Missed(GraphOf(nodes), old(TablesOf(nodes)), old(MarksOf(nodes)), MarksOf(nodes), seen,
                                 busy + {file}, symbol)
    ensures hit.None? ==> Covered(GraphOf(nodes), old(MarksOf(nodes)), file, |file.list|, seen + (busy + {file}))
    ensures Result(hit, path)
            == FirstBehind(GraphOf(nodes), old(TablesOf(nodes)), old(MarksOf(nodes)), file, 0, busy + {file}, symbol)
    ensures Keeps(old(TablesOf(nodes)), TablesOf(nodes), symbol)
    decreases nodes - CheckedOf(nodes), 2
  {
    hide Steady, Missed, Path, Closed, Fits, Reached, Untouched, NoGain, Lacks, Keeps, Covered, FirstBehind, FirstPath;
    hide TablesOf, MarksOf, GraphOf, CheckedOf;
    ghost var g, t, m := GraphOf(nodes), TablesOf(nodes), MarksOf(nodes);
    hit, seen, path := None, {}, [];
    Snapshots(nodes, file);
    SteadyStill(g, t, m);
    UntouchedStill(t, m, busy);
    MissedNothing(g, t, m, busy + {file}, symbol);
    GainNothing(t, symbol);
    KeepsAll(t, symbol);
    CoversNone(g, m, file, seen + (busy + {file}));
    for i := 0 to |file.list|
      invariant GraphOf(nodes) == g && CheckedOf(nodes) == busy + {file}
      invariant Steady(g, t, m, TablesOf(nodes), MarksOf(nodes)) && Fits(g, MarksOf(nodes))
      invariant Untouched(t, m, TablesOf(nodes), MarksOf(nodes), busy) && NoGain(t, TablesOf(nodes), symbol)
      invariant hit.None? && Missed(g, t, m, MarksOf(nodes), seen, busy + {file}, symbol)
      invariant Covered(g, m, file, i, seen + (busy + {file}))
      invariant FirstBehind(g, t, m, file, 0, busy + {file}, symbol) == FirstBehind(g, t, m, file, i, busy + {file}, symbol)
      invariant Keeps(t, TablesOf(nodes), symbol)
    {
      ghost var found := seen + (busy + {file});
      Snapshots(nodes, file);
      SteadyFits(g, t, m, TablesOf(nodes), MarksOf(nodes));
      Behind(g, t, m, file, i, busy + {file}, symbol);
      if !file.merged[i] {
        NotMerged(g, t, m, TablesOf(nodes), MarksOf(nodes), file, i);
        ghost var seen';
        hit, seen', path := SearchInclude(symbol, file, i, nodes, busy, t, m, seen);
        if hit.Some? { return; }
        seen := seen + seen';
        SteadyFits(g, t, m, TablesOf(nodes), MarksOf(nodes));
      } else if !m[file][i] {
        MergedFound(g, t, m, MarksOf(nodes), seen, busy + {file}, symbol, file, i);
      }
      CoversMore(g, m, file, i, found, seen + (busy + {file}));
    }
    NotReached(g, TablesOf(nodes), file, path, busy + {file}, symbol);
    NothingBehind(g, t, m, file, busy + {file}, symbol);
  }

  lemma UntouchedStill(t: Tables, m: Marks, busy: set<File>)
    ensures Untouched(t, m, t, m, busy)
  {
  }

  lemma CoversNone(g: Graph, m: Marks, file: File, found: set<File>)
    requires Fits(g, m) && file in g
    ensures Covered(g, m, file, 0, found)
  {
  }

  lemma CoversMore(g: Graph, m: Marks, file: File, i: nat, found: set<File>, found': set<File>)
    requires Fits(g, m) && file in g && i < |g[file]| && Covered(g, m, file, i, found) && found <= found'
    requires file in m && i < |m[file]| && (m[file][i] || g[file][i] in found')
    ensures Covered(g, m, file, i + 1, found')
  {
  }

  // One round of the search for a path.
  lemma Behind(g: Graph, t: Tables, m: Marks, file: File, i: nat, busy: set<File>, symbol: string)
    requires Closed(g) && Fits(g, m) && t.Keys == g.Keys && file in g && i < |g[file]|
    ensures file in m && i < |m[file]| && g[file][i] in g
    ensures FirstBehind(g, t, m, file, i, busy, symbol)
            == var p := if m[file][i] then None else FirstPath(g, t, m, g[file][i], busy, symbol);
               if p.Some? then Through(file, p) else FirstBehind(g, t, m, file, i + 1, busy, symbol)
  {
  }

  lemma NothingBehind(g: Graph, t: Tables, m: Marks, file: File, busy: set<File>, symbol: string)
    requires Closed(g) && Fits(g, m) && t.Keys == g.Keys && file in g
    ensures FirstBehind(g, t, m, file, |g[file]|, busy, symbol).None?
  {
  }

  // An include merged in the meantime has been seen, and no path leads through it.
  lemma MergedFound(g: Graph, t: Tables, m: Marks, m': Marks, seen: set<File>, busy: set<File>, symbol: string,
                    file: File, i: nat)
    requires Closed(g) && Fits(g, m) && Fits(g, m') && t.Keys == g.Keys && file in g && i < |g[file]|
    requires Missed(g, t, m, m', seen, busy, symbol) && m'[file][i] && !m[file][i]
    ensures g[file][i] in seen + busy && g[file][i] in g && FirstPath(g, t, m, g[file][i], busy, symbol).None?
  {
    SeenNone(g, t, m, seen, busy, g[file][i], busy, symbol);
  }

  lemma NotMerged(g: Graph, t: Tables, m: Marks, t': Tables, m': Marks, file: File, i: nat)
    requires Steady(g, t, m, t', m') && file in g && i < |g[file]| && file in m' && i < |m'[file]| && !m'[file][i]
    ensures Fits(g, m) && !m[file][i]
  {
  }

  // One include not merged yet: search it, and merge it if it has been read to its end.
  method SearchInclude(symbol: string, file: File, i: nat, ghost nodes: set<File>, ghost busy: set<File>,
                       ghost t: Tables, ghost m: Marks, ghost seen: set<File>)
    returns (hit: Option<File>, ghost seen': set<File>, ghost path: seq<File>)
    requires file in nodes && i < |file.list| == |file.merged| && !file.merged[i]
    requires file !in busy && CheckedOf(nodes) == busy + {file}
    requires Steady(GraphOf(nodes), t, m, TablesOf(nodes), MarksOf(nodes))
    requires Untouched(t, m, TablesOf(nodes), MarksOf(nodes), busy)
    requires Lacks(t, busy + {file}, symbol) && NoGain(t, TablesOf(nodes), symbol)
    requires Missed(GraphOf(nodes), t, m, MarksOf(nodes), seen, busy + {file}, symbol)
    requires Keeps(t, TablesOf(nodes), symbol)
    modifies nodes`defs, nodes`merged, nodes`checked
    ensures CheckedOf(nodes) == busy + {file}
    ensures Steady(GraphOf(nodes), t, m, TablesOf(nodes), MarksOf(nodes))
    ensures Untouched(t, m, TablesOf(nodes), MarksOf(nodes), busy)
    ensures hit.None? ==> NoGain(t, TablesOf(nodes), symbol)
    ensures Reached(GraphOf(nodes), TablesOf(nodes), file, hit, path, busy + {file}, symbol)
    ensures hit.None? ==> Missed(GraphOf(nodes), t, m, MarksOf(nodes), seen + seen', busy + {file}, symbol)
    ensures hit.None? ==> file.list[i] in seen' + (busy + {file})
    ensures Result(hit, path) == Through(file, FirstPath(GraphOf(nodes), t, m, file.list[i], busy + {file}, symbol))
    ensures Keeps(t, TablesOf(nodes), symbol)
    decreases nodes - CheckedOf(nodes), 1
  {
    hide Steady, Missed, Path, Closed, Fits, Reached, Untouched, NoGain, Lacks, TablesOf, MarksOf, GraphOf, CheckedOf;
    hide Joined, Ticked;
    ghost var g, t1, m1 := GraphOf(nodes), TablesOf(nodes), MarksOf(nodes);
    var ip := file.list[i];
    SteadyFits(g, t, m, t1, m1);
    Snapshots(nodes, file);
    InGraph(g, file, i);
    GainNothing(t, symbol);
    NoGainTrans(t, t, t1, symbol, busy + {file});
    SameFirst(g, t, m, t1, m1, seen, busy + {file}, ip, busy + {file}, symbol);
    hit, seen', path := FDefined(symbol, ip, nodes);
    ghost var t2, m2 := TablesOf(nodes), MarksOf(nodes);
    AfterChild(g, t, m, t1, m1, t2, m2, busy, file);
    KeepsTrans(t, t1, t2, symbol);
    Snapshots(nodes, file);
    Snapshots(nodes, ip);
    if hit.None? { Fruitless(g, t, m, t1, m1, t2, m2, seen, seen', busy, file, i, symbol); }
    ReachedThrough(g, t2, t2, file, i, hit, path, busy, symbol);
    if ip.finished {
      AfterMerge(g, t, m, t2, m2, busy, file, i, hit, path, symbol);
      KeepsMerge(t, t2, file, ip, symbol);
      Merge(file, i, nodes);
    }
    path := [file] + path;
  }

  // Nothing found behind include i: it makes no difference, merged or not.
  lemma Fruitless(g: Graph, t: Tables, m: Marks, t1: Tables, m1: Marks, t2: Tables, m2: Marks,
                  seen1: set<File>, seen2: set<File>, busy: set<File>, file: File, i: nat, symbol: string)
    requires Steady(g, t, m, t1, m1) && Steady(g, t1, m1, t2, m2) && file in g && i < |g[file]|
    requires Missed(g, t, m, m1, seen1, busy + {file}, symbol) && Missed(g, t1, m1, m2, seen2, busy + {file}, symbol)
    requires NoGain(t, t1, symbol) && NoGain(t1, t2, symbol) && Lacks(t, busy + {file}, symbol)
    requires g[file][i] in seen2 + (busy + {file})
    ensures Fits(g, m) && Fits(g, m2) && g[file][i] in g && g[file][i] in t2
    ensures Missed(g, t, m, m2, seen1 + seen2, busy + {file}, symbol) && NoGain(t, t2, symbol)
    ensures Fits(g, Ticked(m2, file, i))
    ensures Missed(g, t, m, Ticked(m2, file, i), seen1 + seen2, busy + {file}, symbol)
    ensures NoGain(t, Joined(t2, file, g[file][i]), symbol)
  {
    hide Missed, NoGain, Lacks, Grown, Raised;
    BothMissed(g, t, m, t1, m1, t2, m2, seen1, seen2, busy, file, symbol);
    NoGainTrans(t, t1, t2, symbol, {});
    NoGainTrans(t, t, t1, symbol, busy + {file});
    LacksBoth(g, t1, m1, m2, seen2, busy + {file}, symbol);
    NoGainMerge(t, t1, t2, symbol, file, g[file][i], seen2 + (busy + {file}));
    MissedMerge(g, t, m, m2, seen1 + seen2, busy + {file}, symbol, file, i);
  }

  lemma JoinedElsewhere(t: Tables, a: File, b: File)
    requires a in t && b in t
    ensures Joined(t, a, b).Keys == t.Keys && forall n | n in t && n != a :: Joined(t, a, b)[n] == t[n]
  {
  }

  lemma AfterChild(g: Graph, t: Tables, m: Marks, t1: Tables, m1: Marks, t2: Tables, m2: Marks, busy: set<File>, file: File)
    requires Steady(g, t, m, t1, m1) && Steady(g, t1, m1, t2, m2) && file in m1
    requires Untouched(t, m, t1, m1, busy) && Untouched(t1, m1, t2, m2, busy + {file})
    ensures Steady(g, t, m, t2, m2) && Untouched(t, m, t2, m2, busy) && m2.Keys == m1.Keys && m2[file] == m1[file]
  {
    hide Steady, Untouched;
    SteadyTrans(g, t, m, t1, m1, t2, m2);
    UntouchedTrans(t, m, t1, m1, t2, m2, busy, file);
    StillUnmerged(t1, m1, t2, m2, busy, file);
  }

  lemma AfterMerge(g: Graph, t: Tables, m: Marks, t2: Tables, m2: Marks, busy: set<File>, file: File, i: nat,
                   hit: Option<File>, path: seq<File>, symbol: string)
    requires Steady(g, t, m, t2, m2) && Untouched(t, m, t2, m2, busy) && file !in busy
    requires file in g && i < |g[file]| && file in t2 && g[file][i] in t2 && file in m2 && i < |m2[file]| && !m2[file][i]
    requires Reached(g, t2, g[file][i], hit, path, busy + {file}, symbol)
    ensures Steady(g, t, m, Joined(t2, file, g[file][i]), Ticked(m2, file, i))
    ensures Untouched(t, m, Joined(t2, file, g[file][i]), Ticked(m2, file, i), busy)
    ensures Reached(g, Joined(t2, file, g[file][i]), file, hit, [file] + path, busy + {file}, symbol)
  {
    hide Steady, Untouched, Reached, Joined, Ticked;
    JoinedElsewhere(t2, file, g[file][i]);
    ReachedThrough(g, t2, Joined(t2, file, g[file][i]), file, i, hit, path, busy, symbol);
    UntouchedMerge(t, m, t2, m2, busy, file, g[file][i], i);
    SteadyAfterMerge(g, t, m, t2, m2, file, i);
  }

  lemma InGraph(g: Graph, file: File, i: nat)
    requires Closed(g) && file in g && i < |g[file]|
    ensures g[file][i] in g
  {
  }

  lemma StillUnmerged(t: Tables, m: Marks, t': Tables, m': Marks, busy: set<File>, file: File)
    requires Untouched(t, m, t', m', busy + {file}) && file in m
    ensures m'.Keys == m.Keys && m'[file] == m[file]
  {
  }

  lemma UntouchedMerge(t: Tables, m: Marks, t': Tables, m': Marks, busy: set<File>, file: File, ip: File, i: nat)
    requires Untouched(t, m, t', m', busy) && file !in busy && file in t' && ip in t' && file in m' && i < |m'[file]|
    ensures Untouched(t, m, Joined(t', file, ip), Ticked(m', file, i), busy)
  {
  }

  lemma BothMissed(g: Graph, t: Tables, m: Marks, t1: Tables, m1: Marks, t2: Tables, m2: Marks,
                   seen1: set<File>, seen2: set<File>, busy: set<File>, file: File, symbol: string)
    requires Steady(g, t, m, t1, m1) && Steady(g, t1, m1, t2, m2)
    requires Missed(g, t, m, m1, seen1, busy + {file}, symbol) && Missed(g, t1, m1, m2, seen2, busy + {file}, symbol)
    ensures Fits(g, m) && Fits(g, m2) && Missed(g, t, m, m2, seen1 + seen2, busy + {file}, symbol)
  {
    hide Missed;
    MissedTrans(g, t, m, t1, m1, m2, seen1, seen2, busy, file, symbol);
  }

  // Include i of `file` is merged and marked.
  method Merge(file: File, i: nat, ghost nodes: set<File>)
    requires file in nodes && i < |file.list| == |file.merged| && file.list[i] in nodes
    modifies file`defs, file`merged
    ensures CheckedOf(nodes) == old(CheckedOf(nodes)) && GraphOf(nodes) == old(GraphOf(nodes))
    ensures TablesOf(nodes) == Joined(old(TablesOf(nodes)), file, file.list[i])
    ensures MarksOf(nodes) == Ticked(old(MarksOf(nodes)), file, i)
  {
    Merge2Defines(file, file.list[i]);
    file.merged := file.merged[i := true];
  }

  lemma SteadyAfterMerge(g: Graph, t: Tables, m: Marks, t1: Tables, m1: Marks, file: File, i: nat)
    requires Steady(g, t, m, t1, m1) && file in g && i < |g[file]| && g[file][i] in t1 && file in m1 && i < |m1[file]|
    requires !m1[file][i]
    ensures Steady(g, t, m, Joined(t1, file, g[file][i]), Ticked(m1, file, i))
  {
    hide Steady, Grown, Raised, Joined, Ticked;
    SteadyFits(g, t, m, t1, m1);
    SteadyMerge(g, t1, m1, file, i);
    SteadyTrans(g, t, m, t1, m1, Joined(t1, file, g[file][i]), Ticked(m1, file, i));
  }

  // ----- what a search says about the graph

  // A set closed under includes holds every file a walk from it can reach.
  lemma {:induction false} StaysIn(g: Graph, seen: set<File>, p: seq<File>)
    requires Path(g, p) && p[0] in seen && forall n, i | n in seen && n in g && 0 <= i < |g[n]| :: g[n][i] in seen
    ensures p[|p| - 1] in seen
    decreases |p|
  {
    if |p| > 1 {
      assert p[0 + 1] in g[p[0]];
      var i :| 0 <= i < |g[p[0]]| && g[p[0]][i] == p[1];
      var q := p[1..];
      forall k | 0 <= k < |q| - 1
        ensures q[k + 1] in g[q[k]]
      {
        assert p[k + 1 + 1] in g[p[k + 1]];
      }
      StaysIn(g, seen, q);
    }
  }

  ghost predicate Fresh(m: Marks) { forall n, i | n in m && 0 <= i < |m[n]| :: !m[n][i] }

  lemma MissedAll(g: Graph, t: Tables, m: Marks, m': Marks, seen: set<File>, symbol: string, p: seq<File>)
    requires Fits(g, m) && Fits(g, m') && t.Keys == g.Keys && Fresh(m) && Missed(g, t, m, m', seen, {}, symbol)
    requires Path(g, p) && p[0] in seen
    ensures symbol !in t[p[|p| - 1]]
  {
    forall n, i | n in seen && n in g && 0 <= i < |g[n]|
      ensures g[n][i] in seen
    {
      assert g[n][i] in seen + {};
    }
    StaysIn(g, seen, p);
  }

  lemma SomeHad(t: Tables, t': Tables, file: File, symbol: string)
    requires Sourced(t, t') && file in t' && symbol in t'[file]
    ensures exists n | n in t :: symbol in t[n]
  {
    assert Had(t, symbol, t'[file][symbol]);
  }

  /** While nothing has been merged, and no search is under way, a symbol is found exactly if some file that can be
      reached defines it, whatever cycles there are. `routes` witnesses that `nodes` are the files that can be reached. */
  method FindFresh(symbol: string, file: File, ghost nodes: set<File>, ghost routes: map<File, seq<File>>)
    returns (hit: Option<File>)
    requires file in nodes && Closed(GraphOf(nodes)) && Fits(GraphOf(nodes), MarksOf(nodes))
    requires Fresh(MarksOf(nodes)) && CheckedOf(nodes) == {}
    requires routes.Keys == nodes
    requires forall n | n in nodes :: var p := routes[n]; Path(GraphOf(nodes), p) && p[0] == file && p[|p| - 1] == n
    modifies nodes`defs, nodes`merged, nodes`checked
    ensures hit.Some? <==> exists n | n in nodes :: symbol in old(n.defs)
    ensures hit.Some? ==> hit.value in nodes && symbol in hit.value.defs
    ensures CheckedOf(nodes) == {}
  {
    hide Missed, Path, Closed, Fits, Raised, Fresh, Sourced, NoGain;
    ghost var g, t, m, seen, path := GraphOf(nodes), TablesOf(nodes), MarksOf(nodes), {}, [];
    hit, seen, path := FDefined(symbol, file, nodes);
    ghost var t', m' := TablesOf(nodes), MarksOf(nodes);
    SteadyFits(g, t, m, t', m');
    if hit.None? {
      forall n | n in nodes
        ensures symbol !in t[n]
      {
        MissedAll(g, t, m, m', seen, symbol, routes[n]);
      }
    } else {
      SomeHad(t, t', hit.value, symbol);
    }
  }

  // ----- isdefined and undefine

  /** The command line's entry, if it has one; else that of the file the search finds, as it was before. */
  method IsDefined(symbol: string, file: File, main: File, ghost nodes: set<File>)
    returns (hit: Option<File>, ghost seen: set<File>, ghost path: seq<File>)
    requires file in nodes && main in nodes && Closed(GraphOf(nodes)) && Fits(GraphOf(nodes), MarksOf(nodes))
    requires Lacks(TablesOf(nodes), CheckedOf(nodes), symbol)
    modifies nodes`defs, nodes`merged, nodes`checked
    ensures CheckedOf(nodes) == old(CheckedOf(nodes))
    ensures hit.None? ==> NoGain(old(TablesOf(nodes)), TablesOf(nodes), symbol)
    ensures Steady(GraphOf(nodes), old(TablesOf(nodes)), old(MarksOf(nodes)), TablesOf(nodes), MarksOf(nodes))
    ensures hit.Some? ==> hit.value in nodes && symbol in hit.value.defs
    ensures hit.None? ==> symbol !in old(main.defs)
    ensures hit.None? ==> Missed(GraphOf(nodes), old(TablesOf(nodes)), old(MarksOf(nodes)), MarksOf(nodes), seen,
                                 CheckedOf(nodes), symbol)
    ensures hit.None? ==> file in seen + CheckedOf(nodes)
    ensures symbol in old(main.defs) ==> hit == Some(main) && TablesOf(nodes) == old(TablesOf(nodes))
                                         && MarksOf(nodes) == old(MarksOf(nodes))
    ensures symbol !in old(main.defs) ==>
              && Result(hit, path)
                 == FirstPath(GraphOf(nodes), old(TablesOf(nodes)), old(MarksOf(nodes)), file, CheckedOf(nodes), symbol)
              && Reached(GraphOf(nodes), TablesOf(nodes), file, hit, path, CheckedOf(nodes), symbol)
    ensures hit.Some? ==> symbol in old(TablesOf(nodes))[hit.value]
                          && hit.value.defs[symbol] == old(TablesOf(nodes))[hit.value][symbol]
  {
    hide Steady, Missed, Path, Closed, Fits, FirstPath;
    ghost var g, t, m := GraphOf(nodes), TablesOf(nodes), MarksOf(nodes);
    SteadyStill(g, t, m);
    if symbol in main.defs { return Some(main), {}, []; }
    FirstHolds(g, t, m, file, CheckedOf(nodes), symbol);
    hit, seen, path := FDefined(symbol, file, nodes);
  }

  // The includes not merged yet, and the files whose tables have the symbol.

  ghost function Open(m: Marks): set<(File, nat)> {
    set n, i | n in m && 0 <= i < |m[n]| && !m[n][i] :: (n, i)
  }

  ghost function Holders(t: Tables, symbol: string): set<File> {
    set n | n in t && symbol in t[n]
  }

  lemma OpenShrinks(m: Marks, m': Marks)
    requires Raised(m, m')
    ensures Open(m') <= Open(m) && (Open(m') == Open(m) ==> m' == m)
  {
    if Open(m') == Open(m) {
      forall n | n in m
        ensures m'[n] == m[n]
      {
        forall i | 0 <= i < |m[n]|
          ensures m'[n][i] == m[n][i]
        {
          assert (n, i) in Open(m) <==> (n, i) in Open(m');
        }
      }
    }
  }

  // Lookups, and removals of `symbol`, since t.
  ghost predicate OthersKept(t: Tables, t': Tables, symbol: string) {
    && t'.Keys == t.Keys
    && (forall n, s | n in t && s in t[n] && s != symbol :: s in t'[n])
    && Sourced(t, t')
  }

  lemma OthersRemove(t: Tables, t1: Tables, symbol: string, src: File)
    requires OthersKept(t, t1, symbol) && src in t1
    ensures OthersKept(t, t1[src := t1[src] - {symbol}], symbol)
  {
    hide Had;
    var t2 := t1[src := t1[src] - {symbol}];
    forall n, s | n in t2 && s in t2[n]
      ensures Had(t, s, t2[n][s])
    {
      assert t2[n][s] == t1[n][s];
    }
  }

  lemma OthersGrown(t: Tables, t1: Tables, t2: Tables, symbol: string)
    requires OthersKept(t, t1, symbol) && Grown(t1, t2)
    ensures OthersKept(t, t2, symbol)
  {
    hide Had;
    forall n, s | n in t2 && s in t2[n]
      ensures Had(t, s, t2[n][s])
    {
      HadEarlier(t, t1, s, t2[n][s]);
    }
  }

  lemma OthersAll(t: Tables, symbol: string)
    ensures OthersKept(t, t, symbol)
  {
  }

  // One lookup in undefine.
  method Look(symbol: string, file: File, main: File, ghost nodes: set<File>, ghost t0: Tables)
    returns (hit: Option<File>, ghost seen: set<File>)
    requires file in nodes && main in nodes && Closed(GraphOf(nodes)) && Fits(GraphOf(nodes), MarksOf(nodes))
    requires CheckedOf(nodes) == {} && OthersKept(t0, TablesOf(nodes), symbol)
    modifies nodes`defs, nodes`merged, nodes`checked
    ensures CheckedOf(nodes) == {} && Fits(GraphOf(nodes), MarksOf(nodes)) && OthersKept(t0, TablesOf(nodes), symbol)
    ensures Raised(old(MarksOf(nodes)), MarksOf(nodes))
    ensures MarksOf(nodes) == old(MarksOf(nodes)) ==> TablesOf(nodes) == old(TablesOf(nodes))
    ensures hit.Some? ==> hit.value in nodes && symbol in hit.value.defs
    ensures hit.None? ==> file in seen && symbol !in main.defs && Lacks(TablesOf(nodes), seen, symbol)
  {
    hide Closed, Fits, Path, Grown, Raised, OthersKept, Sourced;
    ghost var t, m := TablesOf(nodes), MarksOf(nodes);
    ghost var path;
    hit, seen, path := IsDefined(symbol, file, main, nodes);
    OthersGrown(t0, t, TablesOf(nodes), symbol);
    if hit.None? { assert symbol !in t[main] && symbol !in TablesOf(nodes)[main]; }
  }

  /** undefine: although each lookup may copy the symbol into more tables, it ends, and leaves the symbol undefined on
      the command line and from this file, and every other symbol where it was. */
  method Undefine(symbol: string, file: File, main: File, ghost nodes: set<File>) returns (ghost seen: set<File>)
    requires file in nodes && main in nodes && Closed(GraphOf(nodes)) && Fits(GraphOf(nodes), MarksOf(nodes))
    requires CheckedOf(nodes) == {}
    modifies nodes`defs, nodes`merged, nodes`checked
    ensures CheckedOf(nodes) == {} && symbol !in main.defs && symbol !in file.defs
    ensures OthersKept(old(TablesOf(nodes)), TablesOf(nodes), symbol)
    ensures file in seen && Lacks(TablesOf(nodes), seen, symbol)
  {
    hide Closed, Fits, Path, Grown, Raised, OthersKept, Sourced;
    ghost var g, t0 := GraphOf(nodes), TablesOf(nodes);
    OthersAll(t0, symbol);
    var hit;
    hit, seen := Look(symbol, file, main, nodes, t0);
    while hit.Some?
      invariant GraphOf(nodes) == g && Fits(g, MarksOf(nodes)) && CheckedOf(nodes) == {}
      invariant OthersKept(t0, TablesOf(nodes), symbol)
      invariant hit.Some? ==> hit.value in nodes && symbol in hit.value.defs
      invariant hit.None? ==> file in seen && symbol !in main.defs && Lacks(TablesOf(nodes), seen, symbol)
      decreases Open(MarksOf(nodes)), Holders(TablesOf(nodes), symbol)
    {
      hit, seen := Again(symbol, hit.value, file, main, nodes, t0);
    }
    assert file in TablesOf(nodes);
  }

  // One round of undefine: either includes have been merged, or the symbol is in one table less.
  method Again(symbol: string, src: File, file: File, main: File, ghost nodes: set<File>, ghost t0: Tables)
    returns (hit: Option<File>, ghost seen: set<File>)
    requires file in nodes && main in nodes && Closed(GraphOf(nodes)) && Fits(GraphOf(nodes), MarksOf(nodes))
    requires CheckedOf(nodes) == {} && OthersKept(t0, TablesOf(nodes), symbol) && src in nodes && symbol in src.defs
    modifies nodes`defs, nodes`merged, nodes`checked
    ensures CheckedOf(nodes) == {} && Fits(GraphOf(nodes), MarksOf(nodes)) && OthersKept(t0, TablesOf(nodes), symbol)
    ensures hit.Some? ==> hit.value in nodes && symbol in hit.value.defs
    ensures hit.None? ==> file in seen && symbol !in main.defs && Lacks(TablesOf(nodes), seen, symbol)
    ensures Open(MarksOf(nodes)) < old(Open(MarksOf(nodes)))
            || (Open(MarksOf(nodes)) == old(Open(MarksOf(nodes)))
                && Holders(TablesOf(nodes), symbol) < old(Holders(TablesOf(nodes), symbol)))
  {
    hide Closed, Fits, Path, Grown, Raised, OthersKept, Sourced, Open, Holders, Lacks;
    ghost var m1 := MarksOf(nodes);
    Remove(symbol, src, nodes, t0);
    hit, seen := Look(symbol, file, main, nodes, t0);
    OpenShrinks(m1, MarksOf(nodes));
  }

  // The inner loop of undefine takes the entry out of the table it was found in.
  method Remove(symbol: string, src: File, ghost nodes: set<File>, ghost t0: Tables)
    requires src in nodes && symbol in src.defs && OthersKept(t0, TablesOf(nodes), symbol)
    modifies src`defs
    ensures OthersKept(t0, TablesOf(nodes), symbol)
    ensures Holders(TablesOf(nodes), symbol) == old(Holders(TablesOf(nodes), symbol)) - {src}
    ensures src in old(Holders(TablesOf(nodes), symbol))
  {
    hide OthersKept;
    ghost var t := TablesOf(nodes);
    src.defs := src.defs - {symbol};
    assert TablesOf(nodes) == t[src := t[src] - {symbol}];
    OthersRemove(t0, t, symbol, src);
  }
}
