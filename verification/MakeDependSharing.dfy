/** Whole runs over the symbol tables of several files: merging shares symbols, and what a definition through one table
    does to the others is said without them. */
module MakeDependSharing {
  import opened MakeDependSymTab

  /** What happens to table t: a definition, table u merged into it, or a name taken out of it. */
  datatype Op = Define(t: nat, name: string, val: string) | Merge(t: nat, u: nat) | Undef(t: nat, name: string)

  predicate On(op: Op, n: nat) { op.t < n && (op.Merge? ==> op.u < n) }

  predicate AllOn(ops: seq<Op>, n: nat) { forall op | op in ops :: On(op, n) }

  // ----- without symbols

  /** After the operations i and j have `name` in common: a merge of a table that has the name makes the other one share it
      with all that share it there. With itself a table has in common what it has. */
  predicate Joined(ops: seq<Op>, i: nat, j: nat, name: string)
    decreases |ops|
  {
    if ops == [] then false
    else
      var before := ops[..|ops| - 1];
      match ops[|ops| - 1]
      case Define(t, n, _) => Joined(before, i, j, name) || (i == t && j == t && name == n)
      case Merge(t, u) =>
        if Joined(before, u, u, name) then Joined(before, if i == t then u else i, if j == t then u else j, name)
        else Joined(before, i, j, name)
      case Undef(t, n) => Joined(before, i, j, name) && !(name == n && (i == t || j == t))
  }

  /** What table i then stands for: a definition shows in every table that has the name in common with the one it is made
      through. */
  function Meaning(ops: seq<Op>, i: nat): map<string, string>
    decreases |ops|
  {
    if ops == [] then map[]
    else
      var before := ops[..|ops| - 1];
      match ops[|ops| - 1]
      case Define(t, n, v) => if i == t || Joined(before, t, i, n) then Meaning(before, i)[n := v] else Meaning(before, i)
      case Merge(t, u) => if i == t then Meaning(before, t) + Meaning(before, u) else Meaning(before, i)
      case Undef(t, n) => if i == t then Meaning(before, i) - {n} else Meaning(before, i)
  }

  // ----- with symbols: a row of numbers for each table, and what each number stands for

  datatype Cell = Cell(name: string, value: string)

  datatype State = State(rows: seq<map<string, int>>, cells: seq<Cell>)

  // Every number is that of a symbol of its name.
  predicate RowFits(row: map<string, int>, cells: seq<Cell>) {
    forall n | n in row :: 0 <= row[n] < |cells| && cells[row[n]].name == n
  }

  predicate Fits(s: State) { forall i | 0 <= i < |s.rows| :: RowFits(s.rows[i], s.cells) }

  function After(s: State, op: Op): (r: State)
    requires Fits(s) && On(op, |s.rows|)
    ensures |r.rows| == |s.rows| && Fits(r)
  {
    match op
    case Define(t, n, v) =>
      assert RowFits(s.rows[t], s.cells);
      if n in s.rows[t] then s.(cells := s.cells[s.rows[t][n] := Cell(n, v)])
      else State(s.rows[t := s.rows[t][n := |s.cells|]], s.cells + [Cell(n, v)])
    case Merge(t, u) =>
      assert RowFits(s.rows[t], s.cells) && RowFits(s.rows[u], s.cells);
      s.(rows := s.rows[t := s.rows[t] + s.rows[u]])
    case Undef(t, n) =>
      assert RowFits(s.rows[t], s.cells);
      s.(rows := s.rows[t := s.rows[t] - {n}])
  }

  function RunOf(n: nat, ops: seq<Op>): (s: State)
    requires AllOn(ops, n)
    ensures |s.rows| == n && Fits(s)
  {
    if ops == [] then State(seq(n, _ => map[]), []) else After(RunOf(n, ops[..|ops| - 1]), ops[|ops| - 1])
  }

  function View(row: map<string, int>, cells: seq<Cell>): map<string, string>
    requires RowFits(row, cells)
  {
    map n | n in row :: cells[row[n]].value
  }

  predicate Same(s: State, i: nat, j: nat, name: string)
    requires i < |s.rows| && j < |s.rows|
  {
    name in s.rows[i] && name in s.rows[j] && s.rows[i][name] == s.rows[j][name]
  }

  lemma {:induction false} JoinedExactly(n: nat, ops: seq<Op>, i: nat, j: nat, name: string)
    requires AllOn(ops, n) && i < n && j < n
    ensures Joined(ops, i, j, name) <==> Same(RunOf(n, ops), i, j, name)
    decreases |ops|
  {
    if ops != [] {
      var before, op := ops[..|ops| - 1], ops[|ops| - 1];
      var s := RunOf(n, before);
      assert On(op, n);
      JoinedExactly(n, before, i, j, name);
      if op.Merge? {
        JoinedExactly(n, before, op.u, op.u, name);
        JoinedExactly(n, before, if i == op.t then op.u else i, if j == op.t then op.u else j, name);
      }
      SameAfter(s, op, i, j, name);
    }
  }

  lemma SameAfter(s: State, op: Op, i: nat, j: nat, name: string)
    requires Fits(s) && On(op, |s.rows|) && i < |s.rows| && j < |s.rows|
    ensures Same(After(s, op), i, j, name) <==>
              match op
              case Define(t, n, _) => Same(s, i, j, name) || (i == t && j == t && name == n)
              case Merge(t, u) =>
                if Same(s, u, u, name) then Same(s, if i == t then u else i, if j == t then u else j, name)
                else Same(s, i, j, name)
              case Undef(t, n) => Same(s, i, j, name) && !(name == n && (i == t || j == t))
  {
    assert RowFits(s.rows[i], s.cells) && RowFits(s.rows[j], s.cells);
  }

  lemma {:induction false} MeaningIsView(n: nat, ops: seq<Op>, i: nat)
    requires AllOn(ops, n) && i < n
    ensures RowFits(RunOf(n, ops).rows[i], RunOf(n, ops).cells)
    ensures Meaning(ops, i) == View(RunOf(n, ops).rows[i], RunOf(n, ops).cells)
    decreases |ops|
  {
    if ops != [] {
      hide View, Joined;
      var before, op := ops[..|ops| - 1], ops[|ops| - 1];
      assert On(op, n);
      MeaningIsView(n, before, i);
      MeaningIsView(n, before, op.t);
      match op {
        case Define(t, m, v) =>
          JoinedExactly(n, before, t, i, m);
          DefineView(RunOf(n, before), t, m, v, i);
        case Merge(t, u) =>
          MeaningIsView(n, before, u);
          MergeView(RunOf(n, before), t, u, i);
        case Undef(t, m) => UndefView(RunOf(n, before), t, m, i);
      }
    }
  }

  lemma DefineView(s: State, t: nat, m: string, v: string, i: nat)
    requires Fits(s) && t < |s.rows| && i < |s.rows|
    ensures var r := After(s, Define(t, m, v));
            && RowFits(s.rows[i], s.cells) && RowFits(r.rows[i], r.cells)
            && View(r.rows[i], r.cells) ==
                 if i == t || Same(s, t, i, m) then View(s.rows[i], s.cells)[m := v] else View(s.rows[i], s.cells)
  {
    assert RowFits(s.rows[t], s.cells) && RowFits(s.rows[i], s.cells);
  }

  lemma MergeView(s: State, t: nat, u: nat, i: nat)
    requires Fits(s) && t < |s.rows| && u < |s.rows| && i < |s.rows|
    ensures var r := After(s, Merge(t, u));
            && RowFits(s.rows[t], s.cells) && RowFits(s.rows[u], s.cells) && RowFits(s.rows[i], s.cells)
            && RowFits(r.rows[i], r.cells)
            && View(r.rows[i], r.cells) ==
                 if i == t then View(s.rows[t], s.cells) + View(s.rows[u], s.cells) else View(s.rows[i], s.cells)
  {
    assert RowFits(s.rows[t], s.cells) && RowFits(s.rows[u], s.cells) && RowFits(s.rows[i], s.cells);
  }

  lemma UndefView(s: State, t: nat, m: string, i: nat)
    requires Fits(s) && t < |s.rows| && i < |s.rows|
    ensures var r := After(s, Undef(t, m));
            && RowFits(s.rows[i], s.cells) && RowFits(r.rows[i], r.cells)
            && View(r.rows[i], r.cells) == View(s.rows[i], s.cells) - if i == t then {m} else {}
  {
    assert RowFits(s.rows[t], s.cells) && RowFits(s.rows[i], s.cells);
  }

  /** After every run, tables that have a name in common agree about it; a table has a name exactly if it has it in common
      with itself; and having a name in common is symmetric and transitive. */
  lemma JoinedAgree(n: nat, ops: seq<Op>, i: nat, j: nat, k: nat, name: string)
    requires AllOn(ops, n) && i < n && j < n && k < n
    ensures name in Meaning(ops, i) <==> Joined(ops, i, i, name)
    ensures Joined(ops, i, j, name) ==> name in Meaning(ops, i) && name in Meaning(ops, j) && Meaning(ops, i)[name] == Meaning(ops, j)[name]
    ensures Joined(ops, i, j, name) <==> Joined(ops, j, i, name)
    ensures Joined(ops, i, j, name) && Joined(ops, j, k, name) ==> Joined(ops, i, k, name)
  {
    hide Joined, Meaning, RunOf;
    JoinedExactly(n, ops, i, i, name);
    JoinedExactly(n, ops, i, j, name);
    JoinedExactly(n, ops, j, i, name);
    JoinedExactly(n, ops, j, k, name);
    JoinedExactly(n, ops, i, k, name);
    MeaningIsView(n, ops, i);
    MeaningIsView(n, ops, j);
  }

  // ----- tables

  ghost predicate Separate(tables: seq<Table>)
    reads tables
  {
    forall i, j | 0 <= i < j < |tables| ::
      tables[i] != tables[j] && (tables[i].defs == null || tables[i].defs != tables[j].defs)
  }

  ghost function Arrays(tables: seq<Table>): set<object>
    reads tables
  {
    set t | t in tables && t.defs != null :: t.defs
  }

  // The tables are sorted and apart, and hold these symbols.
  ghost predicate Hold(tables: seq<Table>, rows: seq<map<string, Symbol>>)
    reads tables, Arrays(tables)
  {
    && |rows| == |tables| && Separate(tables)
    && forall i | 0 <= i < |tables| :: tables[i].Valid() && Row(tables[i].syms) == rows[i]
  }

  ghost function Objects(tables: seq<Table>): set<Table> { set t | t in tables }

  ghost predicate RowIs(row: map<string, Symbol>, symbols: seq<Symbol>, numbers: map<string, int>) {
    row.Keys == numbers.Keys && forall n | n in numbers :: 0 <= numbers[n] < |symbols| && symbols[numbers[n]] == row[n]
  }

  ghost predicate RowsAre(rows: seq<map<string, Symbol>>, symbols: seq<Symbol>, numbers: seq<map<string, int>>) {
    |rows| == |numbers| && forall i | 0 <= i < |rows| :: RowIs(rows[i], symbols, numbers[i])
  }

  ghost predicate CellsAre(symbols: seq<Symbol>, cells: seq<Cell>)
    reads Members(symbols)
  {
    && |symbols| == |cells| && (forall k | 0 <= k < |cells| :: cells[k] == Cell(symbols[k].name, symbols[k].value))
    && (forall j, k | 0 <= j < k < |symbols| :: symbols[j] != symbols[k])
  }

  // A definition through one table; x is the symbol.
  method DefineIn(tab: Table, name: string, val: string, ghost tables: seq<Table>, ghost t: nat,
                  ghost rows: seq<map<string, Symbol>>, ghost symbols: seq<Symbol>) returns (ghost x: Symbol)
    requires t < |tables| && tables[t] == tab && Hold(tables, rows) && rows[t].Values <= Members(symbols)
    modifies tab, tab.defs, Members(symbols)`value
    ensures Hold(tables, rows[t := rows[t][name := x]])
    ensures if name in rows[t] then x == rows[t][name] else fresh(x)
    ensures x.name == name && x.value == val && forall s | s in symbols && s != x :: s.value == old(s.value)
    ensures tab.defs == old(tab.defs) || fresh(tab.defs)
  {
    hide Row, Table.Valid;
    SymbolsIn(tab);
    tab.Define2(name, val);
    x := Row(tab.syms)[name];
    NamedAlike(tab, name);
  }

  lemma SymbolsIn(tab: Table)
    requires tab.Valid()
    ensures Members(tab.syms) <= Row(tab.syms).Values
  {
    forall s | s in tab.syms
      ensures s in Row(tab.syms).Values
    {
      NamedBy(tab.syms, s);
    }
  }

  lemma NamedAlike(tab: Table, name: string)
    requires name in Row(tab.syms)
    ensures Row(tab.syms)[name].name == name
  {
    RowMembers(tab.syms);
  }

  // One table merged into another, or into itself.
  method MergeIn(tab: Table, other: Table, ghost tables: seq<Table>, ghost t: nat, ghost u: nat,
                 ghost rows: seq<map<string, Symbol>>)
    requires t < |tables| && u < |tables| && tables[t] == tab && tables[u] == other && Hold(tables, rows)
    modifies tab
    ensures Hold(tables, rows[t := rows[t] + rows[u]]) && (tab.defs == null || fresh(tab.defs))
  {
    hide Row, Table.Valid, Merged;
    Merge2Defines(tab, other);
  }

  method UndefIn(tab: Table, name: string, ghost tables: seq<Table>, ghost t: nat, ghost rows: seq<map<string, Symbol>>)
    requires t < |tables| && tables[t] == tab && Hold(tables, rows)
    modifies tab, tab.defs
    ensures Hold(tables, rows[t := rows[t] - {name}]) && tab.defs == old(tab.defs)
  {
    hide Row, Table.Valid;
    var at := tab.Slookup(name);
    if at >= 0 {
      tab.Remove(at);
    } else {
      assert rows[t] - {name} == rows[t];
    }
  }

  method PerformDefine(tab: Table, name: string, val: string, ghost tables: seq<Table>, ghost t: nat,
                       ghost rows: seq<map<string, Symbol>>, ghost symbols: seq<Symbol>, ghost s: State)
    returns (ghost symbols': seq<Symbol>, ghost rows': seq<map<string, Symbol>>)
    requires t < |tables| && tables[t] == tab && Fits(s) && Stands(tables, rows, symbols, s)
    modifies tab, tab.defs, Members(symbols)`value
    ensures Stands(tables, rows', symbols', After(s, Define(t, name, val)))
    ensures tab.defs == old(tab.defs) || fresh(tab.defs)
    ensures forall x | x in Members(symbols') :: x in Members(symbols) || fresh(x)
  {
    hide Hold, RowsAre, RowIs, After, Fits, CellsAre;
    RowMember(rows, symbols, s, t);
    CellValues(symbols, s.cells);
    ghost var x := DefineIn(tab, name, val, tables, t, rows, symbols);
    DefineNumbers(rows, symbols, s, t, name, val, x);
    DefineCells(rows[t], symbols, s, t, name, val, x);
    symbols' := if name in rows[t] then symbols else symbols + [x];
    rows' := rows[t := rows[t][name := x]];
  }

  // The tables stand for the state s.
  ghost predicate Stands(tables: seq<Table>, rows: seq<map<string, Symbol>>, symbols: seq<Symbol>, s: State)
    reads tables, Arrays(tables), Members(symbols)
  {
    |tables| == |rows| == |s.rows| && Hold(tables, rows) && RowsAre(rows, symbols, s.rows) && CellsAre(symbols, s.cells)
  }

  lemma CellValues(symbols: seq<Symbol>, cells: seq<Cell>)
    requires CellsAre(symbols, cells)
    ensures |symbols| == |cells|
    ensures forall k | 0 <= k < |cells| :: symbols[k] in symbols && symbols[k].name == cells[k].name && symbols[k].value == cells[k].value
    ensures forall j, k | 0 <= j < k < |symbols| :: symbols[j] != symbols[k]
  {
  }

  lemma DefineCells(row: map<string, Symbol>, symbols: seq<Symbol>, s: State, t: nat, name: string, val: string, x: Symbol)
    requires Fits(s) && t < |s.rows| && |symbols| == |s.cells| && RowIs(row, symbols, s.rows[t])
    requires forall j, k | 0 <= j < k < |symbols| :: symbols[j] != symbols[k]
    requires forall k | 0 <= k < |symbols| :: symbols[k].name == s.cells[k].name
    requires forall k | 0 <= k < |symbols| :: symbols[k].value == if symbols[k] == x then val else s.cells[k].value
    requires x.name == name && x.value == val && if name in row then x == row[name] else x !in symbols
    ensures CellsAre(if name in row then symbols else symbols + [x], After(s, Define(t, name, val)).cells)
  {
    assert RowFits(s.rows[t], s.cells);
  }

  method Perform(tables: seq<Table>, op: Op, ghost rows: seq<map<string, Symbol>>, ghost symbols: seq<Symbol>, ghost s: State)
    returns (ghost symbols': seq<Symbol>, ghost rows': seq<map<string, Symbol>>)
    requires Fits(s) && On(op, |s.rows|) && Stands(tables, rows, symbols, s)
    modifies tables[op.t], tables[op.t].defs, Members(symbols)`value
    ensures Stands(tables, rows', symbols', After(s, op))
    ensures forall a | a in Arrays(tables) :: a in old(Arrays(tables)) || fresh(a)
    ensures forall x | x in Members(symbols') :: x in Members(symbols) || fresh(x)
  {
    hide Hold, RowsAre, CellsAre, Fits;
    var t, tab := op.t, tables[op.t];
    symbols' := symbols;
    match op {
      case Define(_, name, val) => symbols', rows' := PerformDefine(tab, name, val, tables, t, rows, symbols, s);
      case Merge(_, u) =>
        MergeIn(tab, tables[u], tables, t, u, rows);
        MergeNumbers(rows, symbols, s, t, u);
        rows' := rows[t := rows[t] + rows[u]];
      case Undef(_, name) =>
        UndefIn(tab, name, tables, t, rows);
        UndefNumbers(rows, symbols, s, t, name);
        rows' := rows[t := rows[t] - {name}];
    }
  }

  // ----- the numbers of the symbols after an operation

  lemma DefineNumbers(rows: seq<map<string, Symbol>>, symbols: seq<Symbol>, s: State, t: nat, name: string, val: string, x: Symbol)
    requires Fits(s) && RowsAre(rows, symbols, s.rows) && |symbols| == |s.cells| && t < |rows|
    requires name in rows[t] ==> x == rows[t][name]
    ensures RowsAre(rows[t := rows[t][name := x]], if name in rows[t] then symbols else symbols + [x],
                    After(s, Define(t, name, val)).rows)
  {
    forall i | 0 <= i < |rows|
      ensures RowIs(rows[i], symbols, s.rows[i]) && RowIs(rows[i], symbols + [x], s.rows[i])
    {
    }
    assert RowIs(rows[t], symbols, s.rows[t]) && RowFits(s.rows[t], s.cells);
  }

  lemma MergeNumbers(rows: seq<map<string, Symbol>>, symbols: seq<Symbol>, s: State, t: nat, u: nat)
    requires Fits(s) && RowsAre(rows, symbols, s.rows) && t < |rows| && u < |rows|
    ensures RowsAre(rows[t := rows[t] + rows[u]], symbols, After(s, Merge(t, u)).rows)
  {
    assert RowIs(rows[t], symbols, s.rows[t]) && RowIs(rows[u], symbols, s.rows[u]);
  }

  lemma UndefNumbers(rows: seq<map<string, Symbol>>, symbols: seq<Symbol>, s: State, t: nat, name: string)
    requires Fits(s) && RowsAre(rows, symbols, s.rows) && t < |rows|
    ensures RowsAre(rows[t := rows[t] - {name}], symbols, After(s, Undef(t, name)).rows)
  {
    assert RowIs(rows[t], symbols, s.rows[t]);
  }

  lemma RowMember(rows: seq<map<string, Symbol>>, symbols: seq<Symbol>, s: State, t: nat)
    requires RowsAre(rows, symbols, s.rows) && t < |rows|
    ensures RowIs(rows[t], symbols, s.rows[t]) && rows[t].Values <= Members(symbols)
  {
    assert RowIs(rows[t], symbols, s.rows[t]);
  }

  lemma ViewIs(syms: seq<Symbol>, symbols: seq<Symbol>, numbers: map<string, int>, cells: seq<Cell>)
    requires RowIs(Row(syms), symbols, numbers) && CellsAre(symbols, cells) && RowFits(numbers, cells)
    ensures Contents(syms) == View(numbers, cells)
  {
    hide Row;
  }

  method NewTables(n: nat) returns (tables: seq<Table>)
    ensures |tables| == n && Hold(tables, seq(n, _ => map[]))
    ensures fresh(Objects(tables)) && Arrays(tables) == {}
  {
    hide Row, Sorted, NamesOf;
    tables := [];
    while |tables| < n
      invariant |tables| <= n && fresh(Objects(tables))
      invariant forall i, j | 0 <= i < j < |tables| :: tables[i] != tables[j]
      invariant forall i | 0 <= i < |tables| :: tables[i].Valid() && tables[i].syms == [] && tables[i].defs == null
    {
      var t := new Table();
      assert forall i | 0 <= i < |tables| :: tables[i] in Objects(tables);
      tables := tables + [t];
    }
    RowMembers([]);
    assert Row([]) == map[];
  }

  lemma NothingYet(n: nat)
    ensures AllOn([], n) && RowsAre(seq(n, _ => map[]), [], RunOf(n, []).rows) && CellsAre([], RunOf(n, []).cells)
  {
  }

  lemma RunNext(n: nat, ops: seq<Op>, k: nat)
    requires AllOn(ops, n) && k < |ops|
    ensures AllOn(ops[..k], n) && AllOn(ops[..k + 1], n) && On(ops[k], n)
    ensures RunOf(n, ops[..k + 1]) == After(RunOf(n, ops[..k]), ops[k])
  {
    assert ops[..k + 1][..k] == ops[..k];
  }

  lemma TableMeans(tables: seq<Table>, rows: seq<map<string, Symbol>>, symbols: seq<Symbol>, n: nat, ops: seq<Op>, i: nat)
    requires AllOn(ops, n) && i < n && Stands(tables, rows, symbols, RunOf(n, ops))
    ensures tables[i].Valid() && Contents(tables[i].syms) == Meaning(ops, i)
  {
    hide Meaning, RunOf, View, Contents, RowIs, CellsAre, Row, Table.Valid;
    assert RowIs(rows[i], symbols, RunOf(n, ops).rows[i]);
    MeaningIsView(n, ops, i);
    ViewIs(tables[i].syms, symbols, RunOf(n, ops).rows[i], RunOf(n, ops).cells);
  }

  // The objects an operation may write are those of the run.
  lemma WrittenIn(tables: seq<Table>, t: nat)
    requires t < |tables|
    ensures tables[t] in Objects(tables) && (tables[t].defs != null ==> tables[t].defs in Arrays(tables))
  {
  }

  /** Whatever the run, each table stands for what the run means for it. */
  method PerformAll(n: nat, ops: seq<Op>) returns (tables: seq<Table>)
    requires AllOn(ops, n)
    ensures |tables| == n && forall i | 0 <= i < n :: tables[i].Valid() && Contents(tables[i].syms) == Meaning(ops, i)
  {
    hide Hold, RowsAre, CellsAre, RunOf, Meaning, Contents, AllOn, Table.Valid;
    tables := NewTables(n);
    ghost var rows: seq<map<string, Symbol>> := seq(n, _ => map[]);
    ghost var symbols: seq<Symbol> := [];
    NothingYet(n);
    assert ops[..0] == [];
    for k := 0 to |ops|
      invariant AllOn(ops[..k], n) && Stands(tables, rows, symbols, RunOf(n, ops[..k])) && |tables| == n
      invariant fresh(Objects(tables)) && fresh(Arrays(tables)) && fresh(Members(symbols))
    {
      RunNext(n, ops, k);
      WrittenIn(tables, ops[k].t);
      symbols, rows := Perform(tables, ops[k], rows, symbols, RunOf(n, ops[..k]));
    }
    assert ops[..|ops|] == ops;
    forall i | 0 <= i < n
      ensures tables[i].Valid() && Contents(tables[i].syms) == Meaning(ops, i)
    {
      TableMeans(tables, rows, symbols, n, ops, i);
    }
  }
}
