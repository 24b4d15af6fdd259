/** User names in psw.c: the list that keeps equal names together, the name table emitted from it, and what
    DPSMapNames makes of that table. */
module PswNames {
  import opened Options
  import opened PswTypes
  import opened PswLayout

  function Text(ts: seq<Tok>, k: nat): string
    requires k < |ts|
  {
    ts[k].text
  }

  // Where ConsNameToken stops on a non-empty list: at the first equal name, else at the last element.
  function StopAt(ts: seq<Tok>, ll: seq<nat>, text: string): (p: nat)
    requires InRange(ll, |ts|) && ll != []
    ensures p < |ll|
    ensures forall j | 0 <= j < p :: Text(ts, ll[j]) != text
    ensures Text(ts, ll[p]) == text || p == |ll| - 1
  {
    if |ll| == 1 || Text(ts, ll[0]) == text then 0 else 1 + StopAt(ts, ll[1..], text)
  }

  function Cons(ts: seq<Tok>, t: nat, ll: seq<nat>): seq<nat>
    requires t < |ts| && InRange(ll, |ts|)
  {
    if ll == [] then [t]
    else var p := StopAt(ts, ll, Text(ts, t)); ll[..p + 1] + [t] + ll[p + 1..]
  }

  lemma StopUnique(ts: seq<Tok>, ll: seq<nat>, text: string, p: nat)
    requires InRange(ll, |ts|) && p < |ll|
    requires forall j | 0 <= j < p :: Text(ts, ll[j]) != text
    requires Text(ts, ll[p]) == text || p == |ll| - 1
    ensures p == StopAt(ts, ll, text)
  {
    if p > 0 && |ll| > 1 {
      StopUnique(ts, ll[1..], text, p - 1);
    }
  }

  method ConsNameToken(ts: seq<Tok>, t: nat, ll: seq<nat>) returns (ll': seq<nat>)
    requires t < |ts| && InRange(ll, |ts|)
    ensures ll' == Cons(ts, t, ll)
  {
    if ll == [] { return [t]; }
    var temp := 0;
    while temp + 1 < |ll| && ts[ll[temp]].text != ts[t].text
      invariant temp < |ll|
      invariant forall j | 0 <= j < temp :: Text(ts, ll[j]) != Text(ts, t)
    {
      temp := temp + 1;
    }
    StopUnique(ts, ll, Text(ts, t), temp);
    ll' := ll[..temp + 1] + [t] + ll[temp + 1..];
  }

  // The list after the tokens ts have been visited.
  function NameList(o: Opts, ts: seq<Tok>): (ll: seq<nat>)
    ensures InRange(ll, |ts|)
    ensures forall k :: k in ll <==> 0 <= k < |ts| && RoleOf(o, ts[k]) == UserName
  {
    if ts == [] then []
    else
      var n, rest := |ts| - 1, NameList(o, ts[..|ts| - 1]);
      if RoleOf(o, ts[n]) == UserName then Cons(ts, n, rest) else rest
  }

  lemma {:induction false} NameListDistinct(o: Opts, ts: seq<Tok>)
    ensures Distinct(NameList(o, ts))
  {
    if ts != [] {
      var n, rest := |ts| - 1, NameList(o, ts[..|ts| - 1]);
      NameListDistinct(o, ts[..n]);
      ConsDistinct(ts, n, rest);
    }
  }

  lemma ConsDistinct(ts: seq<Tok>, n: nat, ll: seq<nat>)
    requires n < |ts| && InRange(ll, |ts|) && Distinct(ll) && n !in ll
    ensures Distinct(Cons(ts, n, ll))
  {
    hide StopAt;
  }

  function Texts(ts: seq<Tok>, ll: seq<nat>): seq<string>
    requires InRange(ll, |ts|)
  {
    seq(|ll|, i requires 0 <= i < |ll| => Text(ts, ll[i]))
  }

  // Equal names stand next to each other.
  predicate Grouped<T(==)>(xs: seq<T>) {
    forall i, j, k | 0 <= i < j < k < |xs| && xs[i] == xs[k] :: xs[j] == xs[i]
  }

  lemma InsertGrouped<T>(xs: seq<T>, p: nat, x: T)
    requires Grouped(xs) && p < |xs|
    requires xs[p] == x || (p == |xs| - 1 && x !in xs)
    ensures Grouped(xs[..p + 1] + [x] + xs[p + 1..])
  {
    var r := xs[..p + 1] + [x] + xs[p + 1..];
    forall i, j, k | 0 <= i < j < k < |r| && r[i] == r[k]
      ensures r[j] == r[i]
    {
      if xs[p] == x {
        // the new element stands where its equal stands
        var i', j', k' := if i <= p then i else i - 1, if j <= p then j else j - 1, if k <= p then k else k - 1;
        assert r[i] == xs[i'] && r[j] == xs[j'] && r[k] == xs[k'];
      } else {
        assert r == xs + [x];
      }
    }
  }

  lemma {:induction false} NameListGrouped(o: Opts, ts: seq<Tok>)
    ensures Grouped(Texts(ts, NameList(o, ts)))
  {
    if ts != [] {
      var n, rest := |ts| - 1, ts[..|ts| - 1];
      hide Grouped, Cons;
      NameListGrouped(o, rest);
      var ll := NameList(o, rest);
      assert Texts(ts, ll) == Texts(rest, ll);
      if RoleOf(o, ts[n]) == UserName && ll != [] {
        ConsGrouped(ts, n, ll);
      }
    }
  }

  lemma ConsGrouped(ts: seq<Tok>, n: nat, ll: seq<nat>)
    requires n < |ts| && InRange(ll, |ts|) && ll != [] && Grouped(Texts(ts, ll))
    ensures InRange(Cons(ts, n, ll), |ts|) && Grouped(Texts(ts, Cons(ts, n, ll)))
  {
    var p, xs := StopAt(ts, ll, Text(ts, n)), Texts(ts, ll);
    hide Grouped, StopAt;
    assert p == |ll| - 1 && xs[p] != Text(ts, n) ==> Text(ts, n) !in xs;
    InsertGrouped(xs, p, Text(ts, n));
    TextsInsert(ts, ll, p, n);
  }

  lemma TextsInsert(ts: seq<Tok>, ll: seq<nat>, p: nat, n: nat)
    requires n < |ts| && InRange(ll, |ts|) && p < |ll|
    ensures InRange(ll[..p + 1] + [n] + ll[p + 1..], |ts|)
    ensures Texts(ts, ll[..p + 1] + [n] + ll[p + 1..]) == Texts(ts, ll)[..p + 1] + [Text(ts, n)] + Texts(ts, ll)[p + 1..]
  {
    var l, xs := ll[..p + 1] + [n] + ll[p + 1..], Texts(ts, ll);
    var r := xs[..p + 1] + [Text(ts, n)] + xs[p + 1..];
    assert forall i | 0 <= i < |l| :: l[i] == if i <= p then ll[i] else if i == p + 1 then n else ll[i - 1];
    assert forall i | 0 <= i < |l| :: r[i] == if i <= p then xs[i] else if i == p + 1 then Text(ts, n) else xs[i - 1];
  }

  // ----- the emitted table

  // Entry i is null when its name repeats the one before it; `garbage` is what the unset buffer last_str holds.
  function Entry(names: seq<string>, garbage: string, i: nat): Option<string>
    requires i < |names|
  {
    if names[i] == (if i == 0 then garbage else names[i - 1]) then None else Some(names[i])
  }

  predicate IsTable(names: seq<string>, garbage: string, table: seq<Option<string>>) {
    |table| == |names| && forall i | 0 <= i < |names| :: table[i] == Entry(names, garbage, i)
  }

  // The table part of EmitNameTagAcquisition.
  method EmitNameTable(names: seq<string>, garbage: string) returns (table: seq<Option<string>>)
    ensures IsTable(names, garbage, table)
  {
    var last_str := garbage;
    table := [];
    for i := 0 to |names|
      invariant |table| == i && last_str == if i == 0 then garbage else names[i - 1]
      invariant forall j | 0 <= j < i :: table[j] == Entry(names, garbage, j)
    {
      if last_str != names[i] {
        last_str := names[i];
        table := table + [Some(names[i])];
      } else {
        table := table + [None];
      }
    }
  }

  // A null entry means the name of the entry before it.
  function Meaning(table: seq<Option<string>>, i: nat): string
    requires i < |table| && table[0].Some?
  {
    if table[i].Some? then table[i].value else Meaning(table, i - 1)
  }

  /** DPSMapNames: the name meant by each entry; None when the assertion that there is such a name fails. */
  method MapNames(table: seq<Option<string>>) returns (meant: Option<seq<string>>)
    ensures meant.None? <==> table != [] && table[0].None?
    ensures meant.Some? ==> |meant.value| == |table|
    ensures meant.Some? ==> forall i | 0 <= i < |table| :: meant.value[i] == Meaning(table, i)
  {
    var last: Option<string> := None;
    var out := [];
    for i := 0 to |table|
      invariant |out| == i
      invariant i > 0 ==> table[0].Some? && last == Some(Meaning(table, i - 1))
      invariant forall j | 0 <= j < i :: out[j] == Meaning(table, j)
    {
      var n := table[i];
      if i == 0 { last := table[0]; }
      if n.None? { n := last; } else { last := n; }
      if n.None? { return None; }
      out := out + [n.value];
    }
    meant := Some(out);
  }

  lemma {:induction false} MeaningIsName(names: seq<string>, garbage: string, table: seq<Option<string>>, i: nat)
    requires IsTable(names, garbage, table) && i < |table| && table[0].Some?
    ensures Meaning(table, i) == names[i]
  {
    if table[i].None? {
      MeaningIsName(names, garbage, table, i - 1);
    }
  }

  /** The round trip through the table is exact unless the unset buffer held the first name. */
  method NameTableRoundTrip(names: seq<string>, garbage: string) returns (table: seq<Option<string>>, meant: Option<seq<string>>)
    ensures IsTable(names, garbage, table)
    ensures meant == Some(names) <==> (names == [] || garbage != names[0])
  {
    table := EmitNameTable(names, garbage);
    meant := MapNames(table);
    if names == [] || garbage != names[0] {
      forall i | 0 <= i < |names|
        ensures meant.value[i] == names[i]
      {
        MeaningIsName(names, garbage, table, i);
      }
      assert meant.value == names;
    }
  }

  /** Each distinct user name of a wrap is spelled out at most once in its table. */
  lemma EachNameOnce(o: Opts, ts: seq<Tok>, table: seq<Option<string>>, garbage: string, i: nat, j: nat)
    requires IsTable(Texts(ts, NameList(o, ts)), garbage, table)
    requires i < j < |table| && table[i].Some? && table[j].Some?
    ensures table[i] != table[j]
  {
    NameListGrouped(o, ts);
    SpelledOnce(Texts(ts, NameList(o, ts)), table, garbage, i, j);
  }

  lemma SpelledOnce(names: seq<string>, table: seq<Option<string>>, garbage: string, i: nat, j: nat)
    requires Grouped(names) && IsTable(names, garbage, table)
    requires i < j < |table| && table[i].Some? && table[j].Some?
    ensures table[i] != table[j]
  {
    assert table[i] == Entry(names, garbage, i) && table[j] == Entry(names, garbage, j);
    assert names[j - 1] != names[j];
  }
}
