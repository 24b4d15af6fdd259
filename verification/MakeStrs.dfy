/** makestrs: a file of string tables is written as C arrays of characters, and a header that says at which offset of
    which array each string starts. */
module MakeStrs {
  import opened Options

  // The strings of a table, by their text; a file is its tables in order.
  type Table = seq<string>

  // A string as it lies in an array, with its terminator.
  function Terminated(s: string): seq<int> { Codes(s) + [0] }

  function Codes(s: string): (r: seq<int>)
    ensures |r| == |s|
  {
    seq(|s|, i requires 0 <= i < |s| => s[i] as int)
  }

  function TableBytes(t: Table): seq<int> {
    if t == [] then [] else TableBytes(t[..|t| - 1]) + Terminated(t[|t| - 1])
  }

  function FileBytes(ts: seq<Table>): seq<int> {
    if ts == [] then [] else FileBytes(ts[..|ts| - 1]) + TableBytes(ts[|ts| - 1])
  }

  // A C string has no NUL in it.
  predicate CString(s: string) { forall i | 0 <= i < |s| :: s[i] != '\0' }

  // The string that starts at `at`: up to the first NUL.
  function StringAt(bytes: seq<int>, at: nat): seq<int>
    decreases |bytes| - at
  {
    if at >= |bytes| || bytes[at] == 0 then [] else [bytes[at]] + StringAt(bytes, at + 1)
  }

  lemma NoBytes(ts: seq<Table>, t: Table)
    ensures FileBytes(ts[..0]) == [] && TableBytes(t[..0]) == []
  {
  }

  // ----- offsets

  // DefaultIndexEntries: offsets go on from table to table.
  method DefaultIndexEntries(ts: seq<Table>) returns (offsets: seq<seq<nat>>)
    ensures |offsets| == |ts|
    ensures forall i | 0 <= i < |ts| :: |offsets[i]| == |ts[i]|
              && forall j | 0 <= j < |ts[i]| :: offsets[i][j] == |FileBytes(ts[..i])| + |TableBytes(ts[i][..j])|
  {
    hide FileBytes, TableBytes;
    offsets := [];
    var offset := 0;
    NoBytes(ts, []);
    for i := 0 to |ts|
      invariant |offsets| == i && offset == |FileBytes(ts[..i])|
      invariant forall k | 0 <= k < i :: |offsets[k]| == |ts[k]|
                  && forall j | 0 <= j < |ts[k]| :: offsets[k][j] == |FileBytes(ts[..k])| + |TableBytes(ts[k][..j])|
    {
      var row;
      row, offset := IndexTable(ts[i], offset);
      offsets := offsets + [row];
      FileSnoc(ts, i);
    }
  }

  // IntelABIIndexEntries: each table counts for itself.
  method IntelIndexEntries(ts: seq<Table>) returns (offsets: seq<seq<nat>>)
    ensures |offsets| == |ts|
    ensures forall i | 0 <= i < |ts| :: |offsets[i]| == |ts[i]|
              && forall j | 0 <= j < |ts[i]| :: offsets[i][j] == |TableBytes(ts[i][..j])|
  {
    offsets := [];
    for i := 0 to |ts|
      invariant |offsets| == i
      invariant forall k | 0 <= k < i :: |offsets[k]| == |ts[k]|
                  && forall j | 0 <= j < |ts[k]| :: offsets[k][j] == |TableBytes(ts[k][..j])|
    {
      var row, _ := IndexTable(ts[i], 0);
      offsets := offsets + [row];
    }
  }

  // The loop over the entries of a table.
  method IndexTable(t: Table, start: nat) returns (row: seq<nat>, offset: nat)
    ensures |row| == |t| && offset == start + |TableBytes(t)|
    ensures forall j | 0 <= j < |t| :: row[j] == start + |TableBytes(t[..j])|
  {
    hide TableBytes;
    row, offset := [], start;
    NoBytes([], t);
    for j := 0 to |t|
      invariant |row| == j && offset == start + |TableBytes(t[..j])|
      invariant forall k | 0 <= k < j :: row[k] == start + |TableBytes(t[..k])|
    {
      row := row + [offset];
      offset := offset + |t[j]|;
      offset := offset + 1;
      TableSnoc(t, j);
    }
    assert t[..|t|] == t;
  }

  // ----- the text of the arrays

  datatype Tok = Lit(value: int) | Comma | Junk

  // A character between quotes; a quote, a backslash or the end of a line does not stand for itself there.
  function Quoted(b: int): Tok { if b in {10, 39, 92} then Junk else Lit(b) }

  // No line end, quote or backslash.
  predicate Plain(bytes: seq<int>) {
    forall i | 0 <= i < |bytes| ::
      bytes[i] != '\n' as int && bytes[i] != '\'' as int && bytes[i] != '\\' as int
  }

  // The initialiser that lists the bytes, each followed by a comma.
  function Items(bytes: seq<int>): (r: seq<Tok>)
    ensures |r| == 2 * |bytes|
  {
    seq(2 * |bytes|, i requires 0 <= i < 2 * |bytes| => if i % 2 == 0 then Quoted(bytes[i / 2]) else Comma)
  }

  // The same with or without its last comma.
  function Listing(bytes: seq<int>, comma: bool): seq<Tok> {
    var items := Items(bytes);
    if comma || items == [] then items else items[..|items| - 1]
  }

  // What a C compiler makes of an initialiser: literals separated by commas, one more comma allowed at the end.
  function Initialised(toks: seq<Tok>): Option<seq<int>> {
    if toks == [] then Some([])
    else if !toks[0].Lit? then None
    else if |toks| == 1 then Some([toks[0].value])
    else if !toks[1].Comma? then None
    else match Initialised(toks[2..])
      case None => None
      case Some(rest) => Some([toks[0].value] + rest)
  }

  lemma {:induction false} ListingReads(bytes: seq<int>, comma: bool)
    ensures Initialised(Listing(bytes, comma)) == if Plain(bytes) then Some(bytes) else None
    decreases |bytes|
  {
    hide Listing;
    if bytes == [] {
      ListingEmpty(comma);
    } else {
      ListingReads(bytes[1..], comma);
      ListingStarts(bytes, comma);
      var l := Listing(bytes, comma);
      assert bytes == [bytes[0]] + bytes[1..] && (bytes[1..] == [] ==> bytes == [bytes[0]]);
      assert |l| > 1 ==> l[0] == l[..2][0] && l[1] == l[..2][1];
    }
  }

  lemma ListingEmpty(comma: bool)
    ensures Listing([], comma) == []
  {
  }

  lemma ListingStarts(bytes: seq<int>, comma: bool)
    requires bytes != []
    ensures var l := Listing(bytes, comma);
            if |bytes| > 1 || comma then |l| >= 2 && l[..2] == [Quoted(bytes[0]), Comma] && l[2..] == Listing(bytes[1..], comma)
            else l == [Quoted(bytes[0])] && bytes[1..] == []
  {
    var l, rest := Items(bytes), Items(bytes[1..]);
    forall i | 0 <= i < |rest|
      ensures l[2 + i] == rest[i]
    {
      assert (2 + i) % 2 == i % 2 && (2 + i) / 2 == i / 2 + 1;
    }
    assert l[2..] == rest;
  }

  lemma ItemsConcat(a: seq<int>, b: seq<int>, comma: bool)
    ensures b != [] || comma ==> Items(a) + Listing(b, comma) == Listing(a + b, comma)
    ensures Items(a) + Items(b) == Items(a + b)
  {
    assert Items(a) + Items(b) == Items(a + b) by {
      forall i | 0 <= i < 2 * |a + b|
        ensures (Items(a) + Items(b))[i] == Items(a + b)[i]
      {
      }
    }
  }

  // WriteSourceLine: the characters, then the terminator, with a comma if something follows.
  method WriteSourceLine(right: string, comma: bool) returns (out: seq<Tok>)
    ensures out == Listing(Terminated(right), comma)
  {
    out := [];
    for c := 0 to |right|
      invariant out == Items(Codes(right)[..c])
    {
      ItemsConcat(Codes(right)[..c], [right[c] as int], true);
      assert Items([right[c] as int]) == [Quoted(right[c] as int), Comma];
      assert Codes(right)[..c + 1] == Codes(right)[..c] + [right[c] as int];
      out := out + [Quoted(right[c] as int), Comma];
    }
    assert Codes(right)[..|right|] == Codes(right);
    ItemsConcat(Codes(right), [0], comma);
    assert Listing([0], comma) == if comma then [Lit(0), Comma] else [Lit(0)];
    out := out + [Lit(0)];
    if comma { out := out + [Comma]; }
  }

  lemma LineThere(s: string)
    ensures Terminated(s) != []
  {
  }

  // The lines of one table; `fudge` asks for a comma after the last one too.
  method WriteTable(t: Table, fudge: bool) returns (out: seq<Tok>)
    ensures out == Listing(TableBytes(t), fudge)
  {
    hide TableBytes, Terminated;
    out := [];
    NoBytes([], t);
    for j := 0 to |t|
      invariant out == Listing(TableBytes(t[..j]), j < |t| || fudge)
    {
      TableSnoc(t, j);
      LineThere(t[j]);
      var comma := j + 1 < |t| || fudge;
      var line := WriteSourceLine(t[j], comma);
      ItemsConcat(TableBytes(t[..j]), Terminated(t[j]), comma);
      out := out + line;
    }
    assert t[..|t|] == t;
  }

  // The lines of all tables, as DefaultWriteSource writes them: every table but the last ends in a comma.
  method WriteTables(ts: seq<Table>) returns (out: seq<Tok>)
    ensures Initialised(out) == if Plain(FileBytes(ts)) then Some(FileBytes(ts)) else None
  {
    out := [];
    ghost var comma := true;
    for i := 0 to |ts|
      invariant out == Listing(FileBytes(ts[..i]), comma) && (i < |ts| ==> comma)
    {
      assert ts[..i + 1][..i] == ts[..i];
      var fudge := i + 1 < |ts|;
      var lines := WriteTable(ts[i], fudge);
      ItemsConcat(FileBytes(ts[..i]), TableBytes(ts[i]), fudge);
      comma := if TableBytes(ts[i]) == [] then true else fudge;
      assert TableBytes(ts[i]) == [] ==> FileBytes(ts[..i + 1]) == FileBytes(ts[..i]) && lines == [];
      out := out + lines;
    }
    assert ts[..|ts|] == ts;
    ListingReads(FileBytes(ts), comma);
  }

  // ----- headers against arrays

  lemma {:induction false} StringThere(bytes: seq<int>, at: nat, s: string)
    requires CString(s) && at + |s| < |bytes| && bytes[at..at + |s| + 1] == Terminated(s)
    ensures StringAt(bytes, at) == Codes(s)
    decreases |s|
  {
    assert bytes[at] == bytes[at..at + |s| + 1][0];
    if s == [] {
      assert StringAt(bytes, at) == [];
    } else {
      assert bytes[at + 1..at + 1 + |s[1..]| + 1] == bytes[at..at + |s| + 1][1..];
      assert Terminated(s)[1..] == Terminated(s[1..]);
      StringThere(bytes, at + 1, s[1..]);
      assert Codes(s) == [s[0] as int] + Codes(s[1..]);
    }
  }

  // A string of a table, and a table of a file, lie where the bytes before them end.

  lemma {:induction false} InTable(t: Table, j: nat)
    requires j < |t|
    ensures var at := |TableBytes(t[..j])|;
            at + |t[j]| < |TableBytes(t)| && TableBytes(t)[at..at + |t[j]| + 1] == Terminated(t[j])
  {
    var rest := t[..|t| - 1];
    if j < |t| - 1 {
      InTable(rest, j);
      assert rest[..j] == t[..j];
    }
  }

  lemma {:induction false} InFile(ts: seq<Table>, i: nat)
    requires i < |ts|
    ensures var at := |FileBytes(ts[..i])|;
            at + |TableBytes(ts[i])| <= |FileBytes(ts)| && FileBytes(ts)[at..at + |TableBytes(ts[i])|] == TableBytes(ts[i])
  {
    var rest := ts[..|ts| - 1];
    if i < |ts| - 1 {
      InFile(rest, i);
      assert rest[..i] == ts[..i];
    }
  }

  lemma EntryInTable(t: Table, j: nat)
    requires j < |t| && CString(t[j])
    ensures StringAt(TableBytes(t), |TableBytes(t[..j])|) == Codes(t[j])
  {
    InTable(t, j);
    StringThere(TableBytes(t), |TableBytes(t[..j])|, t[j]);
  }

  lemma SliceOfSlice(s: seq<int>, at: nat, n: nat, k: nat, m: nat)
    requires at + n <= |s| && k + m <= n
    ensures s[at..at + n][k..k + m] == s[at + k..at + k + m]
  {
    var l, r := s[at..at + n][k..k + m], s[at + k..at + k + m];
    forall i | 0 <= i < m
      ensures l[i] == r[i]
    {
      assert s[at..at + n][k + i] == s[at + k + i];
    }
  }

  lemma FileSnoc(ts: seq<Table>, i: nat)
    requires i < |ts|
    ensures FileBytes(ts[..i + 1]) == FileBytes(ts[..i]) + TableBytes(ts[i])
  {
    assert ts[..i + 1][..i] == ts[..i];
  }

  lemma TableSnoc(t: Table, j: nat)
    requires j < |t|
    ensures TableBytes(t[..j + 1]) == TableBytes(t[..j]) + Terminated(t[j])
  {
    assert t[..j + 1][..j] == t[..j];
  }

  lemma EntryInFile(ts: seq<Table>, i: nat, j: nat)
    requires i < |ts| && j < |ts[i]| && CString(ts[i][j])
    ensures StringAt(FileBytes(ts), |FileBytes(ts[..i])| + |TableBytes(ts[i][..j])|) == Codes(ts[i][j])
  {
    hide FileBytes, TableBytes, StringAt, Terminated;
    InFile(ts, i);
    InTable(ts[i], j);
    var at, k := |FileBytes(ts[..i])|, |TableBytes(ts[i][..j])|;
    var n := |ts[i][j]| + 1;
    SliceOfSlice(FileBytes(ts), at, |TableBytes(ts[i])|, k, n);
    StringThere(FileBytes(ts), at + k, ts[i][j]);
  }

  predicate AllCStrings(ts: seq<Table>) {
    forall i, j | 0 <= i < |ts| && 0 <= j < |ts[i]| :: CString(ts[i][j])
  }

  /** The default ABI: one array, which is an initialiser exactly when no string has a character that cannot be quoted;
      then each #define leads to its own string in it. */
  method Default(ts: seq<Table>) returns (offsets: seq<seq<nat>>, text: seq<Tok>)
    requires AllCStrings(ts)
    ensures (Initialised(text).Some? <==> Plain(FileBytes(ts))) && |offsets| == |ts|
    ensures forall i, j | 0 <= i < |ts| && 0 <= j < |ts[i]| && Initialised(text).Some? ::
              |offsets[i]| == |ts[i]| && StringAt(Initialised(text).value, offsets[i][j]) == Codes(ts[i][j])
  {
    hide FileBytes, TableBytes, StringAt, Initialised;
    offsets := DefaultIndexEntries(ts);
    text := WriteTables(ts);
    forall i, j | 0 <= i < |ts| && 0 <= j < |ts[i]| && Initialised(text).Some?
      ensures |offsets[i]| == |ts[i]| && StringAt(Initialised(text).value, offsets[i][j]) == Codes(ts[i][j])
    {
      EntryInFile(ts, i, j);
    }
  }

  /** The Intel ABI: an array for each table. */
  method Intel(ts: seq<Table>) returns (offsets: seq<seq<nat>>, texts: seq<seq<Tok>>)
    requires AllCStrings(ts)
    ensures |offsets| == |texts| == |ts|
    ensures forall i | 0 <= i < |ts| :: Initialised(texts[i]).Some? <==> Plain(TableBytes(ts[i]))
    ensures forall i, j | 0 <= i < |ts| && 0 <= j < |ts[i]| && Initialised(texts[i]).Some? ::
              |offsets[i]| == |ts[i]| && StringAt(Initialised(texts[i]).value, offsets[i][j]) == Codes(ts[i][j])
  {
    offsets := IntelIndexEntries(ts);
    texts := [];
    for i := 0 to |ts|
      invariant |texts| == i
      invariant forall k | 0 <= k < i ::
                  Initialised(texts[k]) == if Plain(TableBytes(ts[k])) then Some(TableBytes(ts[k])) else None
    {
      var text := WriteTable(ts[i], false);
      ListingReads(TableBytes(ts[i]), false);
      texts := texts + [text];
    }
    forall i, j | 0 <= i < |ts| && 0 <= j < |ts[i]| && Initialised(texts[i]).Some?
      ensures |offsets[i]| == |ts[i]| && StringAt(Initialised(texts[i]).value, offsets[i][j]) == Codes(ts[i][j])
    {
      EntryInTable(ts[i], j);
    }
  }

  // ----- the Intel ABI for early releases

  // The second array of IntelABIBCWriteSource: the tables from the second on, none of which ends in a comma.
  function SecondArray(ts: seq<Table>): seq<Tok> {
    if ts == [] then [] else Listing(TableBytes(ts[0]), false) + SecondArray(ts[1..])
  }

  datatype Array = Array(name: string, text: seq<Tok>)

  // The contents of the array of that name.
  function Contents(arrays: seq<Array>, name: string): Option<seq<int>> {
    if arrays == [] then None
    else if arrays[0].name == name then Initialised(arrays[0].text)
    else Contents(arrays[1..], name)
  }

  // What a #define of the Intel ABI leads to.
  predicate Finds(arrays: seq<Array>, name: string, offset: nat, s: string) {
    var bytes := Contents(arrays, name);
    bytes.Some? && StringAt(bytes.value, offset) == Codes(s)
  }

  // IntelABIBCWriteSource: the first array has all tables, the second all but the first.
  method IntelBCSource(ts: seq<Table>, names: seq<string>) returns (arrays: seq<Array>)
    requires ts != [] && |names| == |ts|
    ensures |arrays| == if |ts| == 1 then 1 else 2
    ensures arrays[0].name == names[0]
    ensures Initialised(arrays[0].text) == if Plain(FileBytes(ts)) then Some(FileBytes(ts)) else None
    ensures |ts| > 1 ==> arrays[1] == Array(names[1], SecondArray(ts[1..]))
  {
    hide FileBytes, TableBytes, Listing, SecondArray, Plain, Initialised;
    var first := WriteTables(ts);
    arrays := [Array(names[0], first)];
    if |ts| > 1 {
      var second := [];
      for i := 1 to |ts|
        invariant second + SecondArray(ts[i..]) == SecondArray(ts[1..])
      {
        var lines := WriteTable(ts[i], false);
        SecondMore(second, ts, i);
        second := second + lines;
      }
      SecondNone(second, ts);
      arrays := arrays + [Array(names[1], second)];
    }
  }

  lemma SecondMore(done: seq<Tok>, ts: seq<Table>, i: nat)
    requires i < |ts|
    ensures done + SecondArray(ts[i..]) == done + Listing(TableBytes(ts[i]), false) + SecondArray(ts[i + 1..])
  {
    hide Listing, TableBytes;
    assert ts[i..][0] == ts[i] && ts[i..][1..] == ts[i + 1..];
  }

  lemma SecondNone(done: seq<Tok>, ts: seq<Table>)
    ensures done + SecondArray(ts[|ts|..]) == done
  {
  }

  predicate Vacant(ts: seq<Table>) { forall i | 0 <= i < |ts| :: ts[i] == [] }

  predicate AtMostOne(ts: seq<Table>) { forall i, j | 0 <= i < j < |ts| :: ts[i] == [] || ts[j] == [] }

  lemma {:induction false} SecondStarts(ts: seq<Table>)
    ensures Vacant(ts) <==> SecondArray(ts) == []
    ensures !Vacant(ts) ==> !SecondArray(ts)[0].Comma?
    decreases |ts|
  {
    if ts != [] {
      SecondStarts(ts[1..]);
      VacantCons(ts);
      if ts[0] == [] { ListingEmpty(false); } else { ListingStarts(TableBytes(ts[0]), false); FirstTok(TableBytes(ts[0])); }
    }
  }

  lemma FirstTok(bytes: seq<int>)
    requires bytes != []
    ensures Listing(bytes, false) != [] && Listing(bytes, false)[0] == Quoted(bytes[0])
  {
    var l := Listing(bytes, false);
    ListingStarts(bytes, false);
    if |bytes| > 1 { assert l[0] == l[..2][0]; }
  }

  lemma VacantCons(ts: seq<Table>)
    requires ts != []
    ensures Vacant(ts) <==> ts[0] == [] && Vacant(ts[1..])
    ensures AtMostOne(ts) <==> AtMostOne(ts[1..]) && (ts[0] == [] || Vacant(ts[1..]))
  {
    var rest := ts[1..];
    if AtMostOne(rest) && (ts[0] == [] || Vacant(rest)) {
      forall i, j | 0 <= i < j < |ts|
        ensures ts[i] == [] || ts[j] == []
      {
        assert ts[j] == rest[j - 1];
        if i > 0 { assert ts[i] == rest[i - 1]; }
      }
    }
    if AtMostOne(ts) {
      forall i, j | 0 <= i < j < |rest|
        ensures rest[i] == [] || rest[j] == []
      {
        assert rest[i] == ts[i + 1] && rest[j] == ts[j + 1];
      }
      if ts[0] != [] {
        forall i | 0 <= i < |rest|
          ensures rest[i] == []
        {
          assert rest[i] == ts[i + 1];
        }
      }
    }
    if Vacant(ts) {
      forall i | 0 <= i < |rest|
        ensures rest[i] == []
      {
        assert rest[i] == ts[i + 1];
      }
    }
    if ts[0] == [] && Vacant(rest) {
      forall i | 0 <= i < |ts|
        ensures ts[i] == []
      {
        if i > 0 { assert ts[i] == rest[i - 1]; }
      }
    }
  }

  lemma {:induction false} VacantBytes(ts: seq<Table>)
    requires Vacant(ts)
    ensures FileBytes(ts) == []
    decreases |ts|
  {
    if ts != [] { VacantBytes(ts[..|ts| - 1]); }
  }

  lemma {:induction false} FileCons(ts: seq<Table>)
    requires ts != []
    ensures FileBytes(ts) == TableBytes(ts[0]) + FileBytes(ts[1..])
    decreases |ts|
  {
    hide TableBytes;
    var rest := ts[..|ts| - 1];
    if |ts| > 1 {
      var last, first := TableBytes(ts[|ts| - 1]), TableBytes(ts[0]);
      FileCons(rest);
      assert rest[0] == ts[0] && rest[1..] == ts[1..][..|ts| - 2] && ts[1..][|ts| - 2] == ts[|ts| - 1];
      assert first + FileBytes(rest[1..]) + last == first + (FileBytes(rest[1..]) + last);
    } else {
      assert rest == [] && ts[1..] == [];
    }
  }

  /** The second array is an initialiser exactly when no two of its tables have entries, whatever their number, and their
      strings can be quoted; then it holds their bytes. */
  lemma {:induction false} SecondReads(ts: seq<Table>)
    ensures Initialised(SecondArray(ts)) == if AtMostOne(ts) && Plain(FileBytes(ts)) then Some(FileBytes(ts)) else None
    decreases |ts|
  {
    hide TableBytes, FileBytes, Listing, AtMostOne, Vacant;
    if ts == [] {
      NoBytes([], []);
      assert ts == [][..0] && AtMostOne(ts) by { NoneTwice(); }
    } else {
      var rest := ts[1..];
      SecondReads(rest);
      SecondStarts(rest);
      VacantCons(ts);
      FileCons(ts);
      TableEmpty(ts[0]);
      ListingReads(TableBytes(ts[0]), false);
      if ts[0] == [] {
        ListingEmpty(false);
        assert [] + SecondArray(rest) == SecondArray(rest) && [] + FileBytes(rest) == FileBytes(rest);
      } else if Vacant(rest) {
        VacantBytes(rest);
        assert Listing(TableBytes(ts[0]), false) + [] == Listing(TableBytes(ts[0]), false);
        assert TableBytes(ts[0]) + [] == TableBytes(ts[0]);
        VacantOnce(rest);
      } else {
        NoComma(TableBytes(ts[0]), SecondArray(rest));
      }
    }
  }

  lemma NoneTwice()
    ensures AtMostOne([])
  {
  }

  lemma VacantOnce(ts: seq<Table>)
    requires Vacant(ts)
    ensures AtMostOne(ts)
  {
  }

  lemma TableEmpty(t: Table)
    ensures TableBytes(t) == [] <==> t == []
  {
  }

  // Literals that run into each other.
  lemma {:induction false} NoComma(bytes: seq<int>, more: seq<Tok>)
    requires bytes != [] && more != [] && !more[0].Comma?
    ensures Initialised(Listing(bytes, false) + more) == None
    decreases |bytes|
  {
    hide Items;
    var l := Listing(bytes, false);
    var all := l + more;
    ListingStarts(bytes, false);
    if |bytes| == 1 {
      assert all[1] == more[0];
    } else {
      assert all[0] == l[..2][0] && all[1] == l[..2][1] && all[2..] == l[2..] + more;
      NoComma(bytes[1..], more);
    }
  }

  lemma PlainConcat(a: seq<int>, b: seq<int>)
    ensures Plain(a + b) <==> Plain(a) && Plain(b)
  {
    if Plain(a + b) {
      assert forall i | 0 <= i < |a| :: a[i] == (a + b)[i];
      assert forall i | 0 <= i < |b| :: b[i] == (a + b)[|a| + i];
    }
  }

  predicate Distinct(names: seq<string>) { forall i, j | 0 <= i < j < |names| :: names[i] != names[j] }

  // The #defines of all entries.
  predicate AllFound(ts: seq<Table>, names: seq<string>, offsets: seq<seq<nat>>, arrays: seq<Array>)
    requires |names| == |offsets| == |ts| && forall i | 0 <= i < |ts| :: |offsets[i]| == |ts[i]|
  {
    forall i, j | 0 <= i < |ts| && 0 <= j < |ts[i]| :: Finds(arrays, names[i], offsets[i][j], ts[i][j])
  }

  /** The Intel ABI for early releases, for any number of tables: every #define leads to its string exactly when all
      strings can be quoted and no table from the third on has an entry, because no array of such a table is written. The
      second array is an initialiser exactly when, besides, at most one of its tables has entries. */
  method IntelBC(ts: seq<Table>, names: seq<string>) returns (offsets: seq<seq<nat>>, arrays: seq<Array>)
    requires AllCStrings(ts) && ts != [] && |names| == |ts| && Distinct(names)
    ensures |offsets| == |ts| && forall i | 0 <= i < |ts| :: |offsets[i]| == |ts[i]|
    ensures AllFound(ts, names, offsets, arrays) <==> Plain(FileBytes(ts)) && forall i | 2 <= i < |ts| :: ts[i] == []
    ensures |ts| > 1 ==> |arrays| == 2 && arrays[1].name == names[1]
    ensures |ts| > 1 ==> (Initialised(arrays[1].text).Some? <==> AtMostOne(ts[1..]) && Plain(FileBytes(ts[1..])))
  {
    hide FileBytes, TableBytes, StringAt, Initialised, Plain, SecondArray, AllFound, AtMostOne;
    offsets := IntelIndexEntries(ts);
    arrays := IntelBCSource(ts, names);
    if |ts| > 1 { SecondReads(ts[1..]); }
    if Plain(FileBytes(ts)) && forall i | 2 <= i < |ts| :: ts[i] == [] {
      BCFound(ts, names, offsets, arrays);
    } else if forall i | 2 <= i < |ts| :: ts[i] == [] {
      BCJunk(ts, names, offsets, arrays);
    } else {
      BCDangling(ts, names, offsets, arrays);
    }
  }

  // What IntelIndexEntries and IntelBCSource leave.
  predicate Written(ts: seq<Table>, names: seq<string>, offsets: seq<seq<nat>>, arrays: seq<Array>) {
    && ts != [] && |names| == |offsets| == |ts| && Distinct(names)
    && (forall i | 0 <= i < |ts| :: |offsets[i]| == |ts[i]|
          && forall j | 0 <= j < |ts[i]| :: offsets[i][j] == |TableBytes(ts[i][..j])|)
    && |arrays| == (if |ts| == 1 then 1 else 2) && arrays[0].name == names[0]
    && Initialised(arrays[0].text) == (if Plain(FileBytes(ts)) then Some(FileBytes(ts)) else None)
    && (|ts| > 1 ==> arrays[1] == Array(names[1], SecondArray(ts[1..])))
  }

  lemma BCContents(ts: seq<Table>, names: seq<string>, offsets: seq<seq<nat>>, arrays: seq<Array>, i: nat)
    requires Written(ts, names, offsets, arrays) && i < |ts|
    ensures Contents(arrays, names[i]) == if i == 0 then Initialised(arrays[0].text)
                                          else if i == 1 then Initialised(arrays[1].text) else None
  {
    hide Initialised, FileBytes, TableBytes, Plain, SecondArray;
    assert arrays[1..] == if |ts| == 1 then [] else [arrays[1]];
    if i > 0 {
      assert names[i] != names[0] && [arrays[1]][1..] == [];
      if i > 1 { assert names[i] != names[1] && Contents([arrays[1]], names[i]) == Contents([], names[i]); }
    }
  }

  // The bytes of a table that is second to none but the first.
  lemma BCSecond(ts: seq<Table>)
    requires |ts| > 1 && forall i | 2 <= i < |ts| :: ts[i] == []
    ensures AtMostOne(ts[1..]) && FileBytes(ts[1..]) == TableBytes(ts[1]) && FileBytes(ts) == TableBytes(ts[0]) + TableBytes(ts[1])
  {
    hide TableBytes, FileBytes;
    var rest := ts[1..][1..];
    FileCons(ts);
    FileCons(ts[1..]);
    assert Vacant(rest) by { assert forall i | 0 <= i < |rest| :: rest[i] == ts[i + 2]; }
    VacantBytes(rest);
    VacantOnce(rest);
    VacantCons(ts[1..]);
    assert TableBytes(ts[1]) + [] == TableBytes(ts[1]);
  }

  lemma BCFound(ts: seq<Table>, names: seq<string>, offsets: seq<seq<nat>>, arrays: seq<Array>)
    requires Written(ts, names, offsets, arrays) && AllCStrings(ts)
    requires Plain(FileBytes(ts)) && forall i | 2 <= i < |ts| :: ts[i] == []
    ensures AllFound(ts, names, offsets, arrays)
  {
    hide Initialised, FileBytes, TableBytes, Plain, SecondArray, StringAt, AtMostOne, Contents;
    forall i, j | 0 <= i < |ts| && 0 <= j < |ts[i]|
      ensures Finds(arrays, names[i], offsets[i][j], ts[i][j])
    {
      BCContents(ts, names, offsets, arrays, i);
      if i == 0 {
        EntryInFile(ts, 0, j);
        NoBytes(ts, []);
      } else {
        BCSecond(ts);
        SecondReads(ts[1..]);
        PlainConcat(TableBytes(ts[0]), TableBytes(ts[1]));
        EntryInTable(ts[1], j);
      }
    }
  }

  lemma BCJunk(ts: seq<Table>, names: seq<string>, offsets: seq<seq<nat>>, arrays: seq<Array>)
    requires Written(ts, names, offsets, arrays) && !Plain(FileBytes(ts)) && forall i | 2 <= i < |ts| :: ts[i] == []
    ensures !AllFound(ts, names, offsets, arrays)
  {
    hide Initialised, FileBytes, TableBytes, SecondArray, StringAt, AtMostOne, Contents, Plain;
    TableEmpty(ts[0]);
    if ts[0] != [] {
      BCContents(ts, names, offsets, arrays, 0);
      assert !Finds(arrays, names[0], offsets[0][0], ts[0][0]);
    } else if |ts| == 1 {
      FileCons(ts);
      NoBytes(ts, []);
      assert ts[1..] == ts[..0];
      PlainNothing();
      assert false;
    } else {
      BCSecond(ts);
      SecondReads(ts[1..]);
      assert [] + TableBytes(ts[1]) == TableBytes(ts[1]);
      TableEmpty(ts[1]);
      PlainNothing();
      BCContents(ts, names, offsets, arrays, 1);
      assert !Finds(arrays, names[1], offsets[1][0], ts[1][0]);
    }
  }

  lemma PlainNothing()
    ensures Plain([])
  {
  }

  lemma BCDangling(ts: seq<Table>, names: seq<string>, offsets: seq<seq<nat>>, arrays: seq<Array>)
    requires Written(ts, names, offsets, arrays) && exists i | 2 <= i < |ts| :: ts[i] != []
    ensures !AllFound(ts, names, offsets, arrays)
  {
    hide Initialised, FileBytes, TableBytes, SecondArray, StringAt, AtMostOne, Contents, Plain;
    var i :| 2 <= i < |ts| && ts[i] != [];
    BCContents(ts, names, offsets, arrays, i);
    assert !Finds(arrays, names[i], offsets[i][0], ts[i][0]);
  }
}
