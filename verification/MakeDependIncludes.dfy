/** The include graph of makedepend: who includes whom (include.c), reading each file once and printing what a source
    depends on (pr.c). */
module MakeDependIncludes {

  class Inc {
    var list: seq<Inc>        // i_list
    var merged: seq<bool>     // i_merged
    var text: seq<Inc>        // the files that the #include lines of this one lead to, in order
    var marked: bool          // MARKED
    var searched: bool        // SEARCHED
  }

  predicate Distinct<T(==)>(s: seq<T>) { forall i, j | 0 <= i < j < |s| :: s[i] != s[j] }

  // ----- printing the dependencies

  ghost predicate Closed(nodes: set<Inc>)
    reads nodes`list
  {
    forall n | n in nodes :: forall m | m in n.list :: m in nodes
  }

  ghost function Marked(nodes: set<Inc>): set<Inc>
    reads nodes`marked
  {
    set n | n in nodes && n.marked
  }

  // Everything that the files of `done` include is among `found`.
  ghost predicate Followed(done: set<Inc>, found: set<Inc>)
    reads done`list
  {
    forall n | n in done :: forall m | m in n.list :: m in found
  }

  // out lists, once each, the files marked in the meantime, but for the root.
  ghost predicate Lists(out: seq<Inc>, before: set<Inc>, after: set<Inc>, root: Inc) {
    && Distinct(out) && before <= after
    && (forall n | n in out :: n in after - before && n != root)
    && (forall n | n in after - before && n != root :: n in out)
  }

  lemma ListsConcat(a: seq<Inc>, b: seq<Inc>, s0: set<Inc>, s1: set<Inc>, s2: set<Inc>, root: Inc)
    requires Lists(a, s0, s1, root) && Lists(b, s1, s2, root)
    ensures Lists(a + b, s0, s2, root)
  {
    forall i, j | 0 <= i < j < |a + b|
      ensures (a + b)[i] != (a + b)[j]
    {
      if i < |a| <= j { assert a[i] in a && b[j - |a|] in b; }
    }
  }

  /** recursive_pr_include: a marked depth-first walk; `root` is the file the dependencies are of. */
  method RecursivePrInclude(head: Inc, root: Inc, ghost nodes: set<Inc>) returns (out: seq<Inc>)
    requires head in nodes && Closed(nodes)
    modifies nodes`marked
    ensures head.marked && Lists(out, old(Marked(nodes)), Marked(nodes), root)
    ensures Followed(Marked(nodes) - old(Marked(nodes)), Marked(nodes))
    decreases nodes - Marked(nodes)
  {
    out := [];
    if head.marked { return; }
    ghost var before := Marked(nodes);
    head.marked := true;
    assert Marked(nodes) == before + {head};
    if head != root { out := [head]; }
    for i := 0 to |head.list|
      invariant Marked(nodes) >= before + {head} && Lists(out, before, Marked(nodes), root)
      invariant forall j | 0 <= j < i :: head.list[j] in Marked(nodes)
      invariant Followed(Marked(nodes) - before - {head}, Marked(nodes))
    {
      ghost var was := Marked(nodes);
      assert head.list[i] in nodes;
      var more := RecursivePrInclude(head.list[i], root, nodes);
      ListsConcat(out, more, before, was, Marked(nodes), root);
      assert Marked(nodes) - before - {head} == (was - before - {head}) + (Marked(nodes) - was);
      out := out + more;
    }
    assert Marked(nodes) - before == (Marked(nodes) - before - {head}) + {head};
  }

  // A walk along includes.
  ghost predicate Walk(p: seq<Inc>, nodes: set<Inc>)
    reads nodes`list
  {
    p != [] && (forall i | 0 <= i < |p| :: p[i] in nodes) && forall i | 0 <= i < |p| - 1 :: p[i + 1] in p[i].list
  }

  lemma {:induction false} WalkStays(p: seq<Inc>, nodes: set<Inc>, found: set<Inc>)
    requires Walk(p, nodes) && p[0] in found && found <= nodes && Followed(found, found)
    ensures p[|p| - 1] in found
    decreases |p|
  {
    if |p| > 1 {
      assert p[0 + 1] in p[0].list;
      forall i | 0 <= i < |p[1..]| - 1
        ensures p[1..][i + 1] in p[1..][i].list
      {
        assert p[i + 1 + 1] in p[i + 1].list;
      }
      WalkStays(p[1..], nodes, found);
    }
  }

  /** From clean marks, every file that can be reached from the root is printed exactly once, and the root is not, on any
      graph. `walks` witnesses that `nodes` are the files that can be reached. */
  method PrintAll(root: Inc, ghost nodes: set<Inc>, ghost walks: map<Inc, seq<Inc>>) returns (out: seq<Inc>)
    requires root in nodes && Closed(nodes) && Marked(nodes) == {} && walks.Keys == nodes
    requires forall n | n in nodes :: Walk(walks[n], nodes) && walks[n][0] == root && walks[n][|walks[n]| - 1] == n
    modifies nodes`marked
    ensures Distinct(out) && forall n :: n in out <==> n in nodes && n != root
  {
    out := RecursivePrInclude(root, root, nodes);
    ghost var found := Marked(nodes);
    assert found - {} == found;
    forall n | n in nodes
      ensures n in found
    {
      WalkStays(walks[n], nodes, found);
    }
  }

  /** inc_clean, between two source files. */
  method IncClean(inclist: seq<Inc>)
    modifies inclist`marked
    ensures forall n | n in inclist :: !n.marked
  {
    for i := 0 to |inclist|
      invariant forall j | 0 <= j < i :: !inclist[j].marked
    {
      inclist[i].marked := false;
    }
  }

  // ----- reading the files

  /** included_by: at the end of the list, unless it is on it. */
  method IncludedBy(ip: Inc, newfile: Inc)
    requires |ip.merged| == |ip.list|
    modifies ip`list, ip`merged
    ensures ip.list == if newfile in old(ip.list) then old(ip.list) else old(ip.list) + [newfile]
    ensures ip.merged == if newfile in old(ip.list) then old(ip.merged) else old(ip.merged) + [false]
    ensures old(Distinct(ip.list)) ==> Distinct(ip.list)
  {
    for i := 0 to |ip.list|
      invariant newfile !in ip.list[..i]
      modifies {}
    {
      if ip.list[i] == newfile { return; }
    }
    assert ip.list[..|ip.list|] == ip.list;
    ip.list := ip.list + [newfile];
    ip.merged := ip.merged + [false];
  }

  ghost function Searched(nodes: set<Inc>): set<Inc>
    reads nodes`searched
  {
    set n | n in nodes && n.searched
  }

  // Each list names, without repetition, files that the text includes, and has a merge mark for each.
  ghost predicate Tidy(nodes: set<Inc>)
    reads nodes`list, nodes`merged, nodes`text
  {
    forall n | n in nodes :: |n.merged| == |n.list| && Distinct(n.list) && forall m | m in n.list :: m in n.text
  }

  ghost predicate TextClosed(nodes: set<Inc>)
    reads nodes`text
  {
    forall n | n in nodes :: forall m | m in n.text :: m in nodes
  }

  // The files of `done` have been read: what they include is listed, and has been read or is being read.
  ghost predicate ReadAll(done: set<Inc>, texts: map<Inc, seq<Inc>>, lists: map<Inc, seq<Inc>>, searched: set<Inc>) {
    forall n | n in done && n in texts && n in lists :: forall m | m in texts[n] :: m in lists[n] && m in searched
  }

  ghost function TextsOf(nodes: set<Inc>): map<Inc, seq<Inc>>
    reads nodes`text
  {
    map n | n in nodes :: n.text
  }

  ghost function ListsOf(nodes: set<Inc>): map<Inc, seq<Inc>>
    reads nodes`list
  {
    map n | n in nodes :: n.list
  }

  ghost predicate Longer(a: map<Inc, seq<Inc>>, b: map<Inc, seq<Inc>>) {
    a.Keys == b.Keys && forall n | n in a :: a[n] <= b[n]
  }

  lemma LongerSame(a: map<Inc, seq<Inc>>)
    ensures Longer(a, a)
  {
  }

  lemma LongerYet(a: map<Inc, seq<Inc>>, b: map<Inc, seq<Inc>>, c: map<Inc, seq<Inc>>)
    requires Longer(a, b) && Longer(b, c)
    ensures Longer(a, c)
  {
    assert forall n | n in a :: a[n] <= b[n] && b[n] <= c[n];
  }

  lemma ReadAllLater(a: set<Inc>, b: set<Inc>, texts: map<Inc, seq<Inc>>, l1: map<Inc, seq<Inc>>, l2: map<Inc, seq<Inc>>,
                     s1: set<Inc>, s2: set<Inc>)
    requires ReadAll(a, texts, l1, s1) && ReadAll(b, texts, l2, s2) && Longer(l1, l2) && s1 <= s2
    ensures ReadAll(a + b, texts, l2, s2)
  {
  }

  // The first n includes of `file`, which is being read, are listed and read.
  ghost predicate ReadTo(file: Inc, n: nat, texts: map<Inc, seq<Inc>>, lists: map<Inc, seq<Inc>>, searched: set<Inc>) {
    && file in texts && file in lists && n <= |texts[file]|
    && forall j | 0 <= j < n :: texts[file][j] in lists[file] && texts[file][j] in searched
  }

  lemma ReadFurther(file: Inc, n: nat, texts: map<Inc, seq<Inc>>, l1: map<Inc, seq<Inc>>, l2: map<Inc, seq<Inc>>,
                    s1: set<Inc>, s2: set<Inc>)
    requires ReadTo(file, n, texts, l1, s1) && Longer(l1, l2) && s1 <= s2
    requires n < |texts[file]| && file in l2 && texts[file][n] in l2[file] && texts[file][n] in s2
    ensures ReadTo(file, n + 1, texts, l2, s2)
  {
    assert l1[file] <= l2[file];
  }

  // What reading may do: `scanned` are the files read, each once, in the order in which they were opened.
  ghost predicate Reading(scanned: seq<Inc>, before: set<Inc>, after: set<Inc>) {
    && Distinct(scanned) && before <= after
    && (forall n | n in scanned :: n in after - before)
    && (forall n | n in after - before :: n in scanned)
  }

  lemma ReadingConcat(a: seq<Inc>, b: seq<Inc>, s0: set<Inc>, s1: set<Inc>, s2: set<Inc>)
    requires Reading(a, s0, s1) && Reading(b, s1, s2)
    ensures Reading(a + b, s0, s2)
  {
    forall i, j | 0 <= i < j < |a + b|
      ensures (a + b)[i] != (a + b)[j]
    {
      if i < |a| <= j { assert a[i] in a && b[j - |a|] in b; }
    }
  }

  /** add_include, once the file is known: it goes on the list, and is read unless it has been. */
  method AddInclude(file: Inc, newfile: Inc, ghost nodes: set<Inc>) returns (scanned: seq<Inc>)
    requires file in nodes && newfile in file.text && Tidy(nodes) && TextClosed(nodes)
    modifies nodes`list, nodes`merged, nodes`searched
    ensures Tidy(nodes) && Longer(old(ListsOf(nodes)), ListsOf(nodes))
    ensures newfile in nodes && newfile in file.list && newfile.searched
    ensures Reading(scanned, old(Searched(nodes)), Searched(nodes))
    ensures ReadAll(Searched(nodes) - old(Searched(nodes)), TextsOf(nodes), ListsOf(nodes), Searched(nodes))
    decreases nodes - Searched(nodes), 1
  {
    assert newfile in nodes;
    scanned := [];
    IncludedBy(file, newfile);
    ghost var lists := ListsOf(nodes);
    assert newfile in lists[file];
    if !newfile.searched { scanned := FindIncludes(newfile, nodes); }
    assert lists[file] <= ListsOf(nodes)[file];
  }

  // The #include lines of a file being read.
  method FindIncludes(newfile: Inc, ghost nodes: set<Inc>) returns (scanned: seq<Inc>)
    requires newfile in nodes && !newfile.searched && Tidy(nodes) && TextClosed(nodes)
    modifies nodes`list, nodes`merged, nodes`searched
    ensures Tidy(nodes) && Longer(old(ListsOf(nodes)), ListsOf(nodes))
    ensures newfile.searched && Reading(scanned, old(Searched(nodes)), Searched(nodes))
    ensures ReadAll(Searched(nodes) - old(Searched(nodes)), TextsOf(nodes), ListsOf(nodes), Searched(nodes))
    decreases nodes - Searched(nodes), 0
  {
    hide Distinct, Reading, ReadAll, ReadTo, Tidy, TextClosed, Longer;
    ghost var before := Searched(nodes);
    LongerSame(ListsOf(nodes));
    newfile.searched := true;
    assert ListsOf(nodes) == old(ListsOf(nodes));
    assert Searched(nodes) == before + {newfile};
    scanned := [newfile];
    FirstRead(newfile, before);
    assert ReadTo(newfile, 0, TextsOf(nodes), ListsOf(nodes), Searched(nodes)) by {
      ReadNone(newfile, TextsOf(nodes), ListsOf(nodes), Searched(nodes));
    }
    NothingRead(TextsOf(nodes), ListsOf(nodes), Searched(nodes));
    assert Searched(nodes) - before - {newfile} == {};
    for i := 0 to |newfile.text|
      invariant Tidy(nodes) && Longer(old(ListsOf(nodes)), ListsOf(nodes))
      invariant before + {newfile} <= Searched(nodes) && Reading(scanned, before, Searched(nodes))
      invariant ReadTo(newfile, i, TextsOf(nodes), ListsOf(nodes), Searched(nodes))
      invariant ReadAll(Searched(nodes) - before - {newfile}, TextsOf(nodes), ListsOf(nodes), Searched(nodes))
    {
      ghost var was, lists := Searched(nodes), ListsOf(nodes);
      var more := AddInclude(newfile, newfile.text[i], nodes);
      LongerYet(old(ListsOf(nodes)), lists, ListsOf(nodes));
      ReadingConcat(scanned, more, before, was, Searched(nodes));
      ReadAllLater(was - before - {newfile}, Searched(nodes) - was, TextsOf(nodes), lists, ListsOf(nodes), was, Searched(nodes));
      assert Searched(nodes) - before - {newfile} == (was - before - {newfile}) + (Searched(nodes) - was);
      ReadFurther(newfile, i, TextsOf(nodes), lists, ListsOf(nodes), was, Searched(nodes));
      scanned := scanned + more;
    }
    OneMoreRead(newfile, Searched(nodes) - before - {newfile}, TextsOf(nodes), ListsOf(nodes), Searched(nodes));
    assert Searched(nodes) - before == (Searched(nodes) - before - {newfile}) + {newfile};
  }

  lemma ReadNone(file: Inc, texts: map<Inc, seq<Inc>>, lists: map<Inc, seq<Inc>>, searched: set<Inc>)
    requires file in texts && file in lists
    ensures ReadTo(file, 0, texts, lists, searched)
  {
  }

  lemma FirstRead(file: Inc, before: set<Inc>)
    requires file !in before
    ensures Reading([file], before, before + {file})
  {
  }

  lemma NothingRead(texts: map<Inc, seq<Inc>>, lists: map<Inc, seq<Inc>>, searched: set<Inc>)
    ensures ReadAll({}, texts, lists, searched)
  {
  }

  lemma OneMoreRead(file: Inc, done: set<Inc>, texts: map<Inc, seq<Inc>>, lists: map<Inc, seq<Inc>>, searched: set<Inc>)
    requires ReadAll(done, texts, lists, searched) && file in texts && ReadTo(file, |texts[file]|, texts, lists, searched)
    ensures ReadAll(done + {file}, texts, lists, searched)
  {
  }
}
