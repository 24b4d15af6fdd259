/** The client library's reader of binary object sequences, and the round trip: what a wrap call writes reads back as
    the token tree of the wrap with its parameters filled in. */
module PswRoundTrip {
  import opened Options
  import opened PswTypes
  import opened PswLayout
  import opened PswCompiler
  import opened PswStatics
  import opened PswStream
  import opened PswWrite
  import opened PswOffsets
  import opened PswRun
  import opened PswSettled

  datatype Obj =
    | Bool(exec: bool, value: Word) | Int(exec: bool, value: Word) | Real(exec: bool, value: Word)
    | Str(exec: bool, data: seq<Cell>)
    | SysIndex(exec: bool, index: Word) | UserIndex(exec: bool, index: Word) | Spelled(exec: bool, data: seq<Cell>)
    | Arr(exec: bool, elems: seq<Obj>)
    | Bad

  // ----- WriteSeqAsAscii, as a reader: addresses count from the first record

  function RecAt(cells: seq<Cell>, at: nat): Option<ORec> {
    if at + BINOBJ_SIZE <= |cells| && cells[at].RecByte?
       && (forall i | 0 <= i < BINOBJ_SIZE :: cells[at + i] == RecByte(cells[at].rec, i)) then Some(cells[at].rec)
    else None
  }

  function Slice(cells: seq<Cell>, at: Word, len: nat): Option<seq<Cell>> {
    if at.IntWord? && 0 <= at.n && at.n + len <= |cells| then Some(cells[at.n..at.n + len]) else None
  }

  function Atom(cells: seq<Cell>, r: ORec): Obj
    requires !r.ty.DArray?
  {
    match r.ty
    case DBool => Bool(r.exec, r.val)
    case DInt => Int(r.exec, r.val)
    case DReal => Real(r.exec, r.val)
    case DString => (match Slice(cells, r.val, r.len) case Some(d) => Str(r.exec, d) case None => Bad)
    case DName =>
      if r.len == DPSSYSNAME then SysIndex(r.exec, r.val)
      else if r.len == 0 then UserIndex(r.exec, r.val)
      else (match Slice(cells, r.val, r.len) case Some(d) => Spelled(r.exec, d) case None => Bad)
  }

  // The object at `at`. An array must come after the record that refers to it.
  function Read(cells: seq<Cell>, at: nat): Obj
    requires at <= |cells|
    decreases |cells| - at, 0
  {
    match RecAt(cells, at)
    case None => Bad
    case Some(r) =>
      if !r.ty.DArray? then Atom(cells, r)
      else if r.val.IntWord? && at < r.val.n <= |cells| then Arr(r.exec, ReadMany(cells, r.val.n, r.len))
      else Bad
  }

  function ReadMany(cells: seq<Cell>, at: nat, n: nat): (objs: seq<Obj>)
    requires at <= |cells|
    ensures |objs| <= n
    decreases |cells| - at, n + 1
  {
    if n == 0 then []
    else [Read(cells, at)] + if at + BINOBJ_SIZE <= |cells| then ReadMany(cells, at + BINOBJ_SIZE, n - 1) else []
  }

  /** What WriteEntireGoody takes a sequence for: a zero behind the token type makes it an extended one. */
  datatype Goody = Goody(count: nat, length: nat, objs: seq<Obj>)

  function Field(cells: seq<Cell>, at: nat, width: nat): Option<nat> {
    if 0 < width && at + width <= |cells| && cells[at].FieldByte?
       && (forall i | 0 <= i < width :: cells[at + i] == FieldByte(cells[at].field, i)) then Some(cells[at].field)
    else None
  }

  function ReadGoody(cells: seq<Cell>): Option<Goody> {
    if |cells| < 2 || !cells[1].Byte? || cells[1].value < 0 then None
    else if cells[1].value != 0 then
      match Field(cells, 2, 2)
      case None => None
      case Some(length) => Some(Goody(cells[1].value, length, ReadMany(cells[4..], 0, cells[1].value)))
    else
      match (Field(cells, 2, 2), Field(cells, 4, 4))
      case (Some(count), Some(length)) => Some(Goody(count, length, ReadMany(cells[8..], 0, count)))
      case _ => None
  }

  /** The header: where the objects start, how many there are, how many bytes in all. A short one must not count none. */
  lemma HeadReads(large: bool, count: nat, nBytes: nat, rest: seq<Cell>)
    requires !large ==> count % 0x100 != 0
    ensures |HeadCells(large, count, nBytes)| == if large then 8 else 4
    ensures var n := if large then count % 0x1_0000 else count % 0x100;
            ReadGoody(HeadCells(large, count, nBytes) + rest)
            == Some(Goody(n, nBytes % if large then 0x1_0000_0000 else 0x1_0000, ReadMany(rest, 0, n)))
  {
    var head := HeadCells(large, count, nBytes);
    var cells := head + rest;
    assert cells[|head|..] == rest;
    var width := if large then 4 else 2;
    var at := if large then 4 else 2;
    assert forall i | 0 <= i < |head| :: cells[i] == head[i];
    assert cells[2] == head[2] && cells[3] == head[3];
    if large { assert cells[4 + 0] == head[4] && cells[5] == head[5]; }
  }

  // ----- what the wrap means

  // The literal object for a value of C type c.
  function Scalar(c: CType, w: Word): Obj {
    match c
    case BooleanT => Bool(false, w)
    case FloatT | DoubleT => Real(false, w)
    case IntT | UIntT | LongT | ULongT | ShortT | UShortT | UserObjectT => Int(false, w)
    case _ => Bad
  }

  // All characters of a char parameter.
  function AllChars(env: Env, item: Item): seq<int> {
    seq(ActualLen(env, item), i requires 0 <= i < ActualLen(env, item) => env.charAt(item.name, i))
  }

  function NameObj(o: Opts, env: Env, exec: bool, t: Tok): Obj {
    if t.text in o.sysNames then SysIndex(exec, IntWord(o.sysNames[t.text]))
    else if o.noUserNames then Spelled(exec, DataCells(LitBytes(t)))
    else UserIndex(exec, IntWord(env.code(t.text)))
  }

  // Element i of an array parameter, of the type it is declared with.
  function ItemAt(env: Env, item: Item, i: nat): Word {
    env.load(item.name, TypeToText(item.ctype), i * SizeOf(env, item.ctype))
  }

  function FormalObj(env: Env, item: Item): Obj {
    if item.ctype.IsChar() then Spelled(true, DataCells(AllChars(env, item)))
    else if item.ctype.IsNumStr() then Str(false, DataCells(NumEncoded(env, item)))
    else if item.sub.Some? then
      Arr(false, seq(ActualLen(env, item), i requires 0 <= i < ActualLen(env, item) =>
        Scalar(item.ctype, ItemAt(env, item, i))))
    else Scalar(item.ctype, env.scalar(item.name))
  }

  /** The object that is sent for a token; `top` tells whether it is a token of the wrap's own body. Below it an element
      reference is never filled in. */
  function Inst(o: Opts, env: Env, top: bool, t: Tok): Obj
    decreases t
  {
    match t.kind
    case BoolTok => Bool(false, IntWord(t.num))
    case IntTok => Int(false, IntWord(t.num))
    case FloatTok => Real(false, RealWord(t.text))
    case ArrayTok => Arr(false, Insts(o, env, false, t.kids))
    case ProcTok => Arr(true, Insts(o, env, false, t.kids))
    case StringTok | HexTok =>
      Str(false, DataCells(if t.formal.Some? then AllChars(env, t.formal.value) else LitBytes(t)))
    case LitNameTok =>
      if t.formal.Some? then Spelled(false, DataCells(AllChars(env, t.formal.value))) else NameObj(o, env, false, t)
    case NameTok => if t.formal.Some? then FormalObj(env, t.formal.value) else NameObj(o, env, true, t)
    case SubscriptedTok =>
      if t.formal.None? then Bad
      else Scalar(t.formal.value.ctype,
                  if top then env.element(t.formal.value.name, t.index) else IntWord(0))
  }

  function Insts(o: Opts, env: Env, top: bool, ts: seq<Tok>): (r: seq<Obj>)
    ensures |r| == |ts|
    decreases ts
  {
    seq(|ts|, i requires 0 <= i < |ts| => Inst(o, env, top, ts[i]))
  }

  /** The object a token is meant to stand for, every reference at any depth filled in. */
  function Meant(o: Opts, env: Env, t: Tok): Obj
    decreases t
  {
    match t.kind
    case ArrayTok => Arr(false, Meanings(o, env, t.kids))
    case ProcTok => Arr(true, Meanings(o, env, t.kids))
    case _ => Inst(o, env, true, t)
  }

  function Meanings(o: Opts, env: Env, ts: seq<Tok>): (r: seq<Obj>)
    ensures |r| == |ts|
    decreases ts
  {
    seq(|ts|, i requires 0 <= i < |ts| => Meant(o, env, ts[i]))
  }

  // ----- what fits a record

  predicate NameFits(n: nat) { 0 < n < DPSSYSNAME }

  predicate ParamFits(env: Env, item: Item, name: bool) {
    var n := ActualLen(env, item);
    if item.ctype.IsNumStr() then LenOf(env, item) < 0x10000 && LenOf(env, item) == |NumBytes(env, item)|
    else if item.ctype.IsChar() then n < 0x10000 && (name ==> NameFits(n))
    else item.sub.Some? ==> n < 0x10000
  }

  /** Every length of t fits its 16-bit field, and no name that is spelled out is empty or as long as the mark of a
      system name. */
  predicate Sendable(o: Opts, env: Env, t: Tok) {
    && |t.kids| < 0x10000
    && (t.formal.Some? ==> ParamFits(env, t.formal.value, t.kind.NameTok? || t.kind.LitNameTok?))
    && (t.formal.None? ==> |LitBytes(t)| < 0x10000)
    && (t.formal.None? && o.noUserNames && (t.kind.NameTok? || t.kind.LitNameTok?) && t.text !in o.sysNames ==>
          NameFits(|LitBytes(t)|))
  }

  // ----- reading one record

  lemma RecCell(recs: seq<ORec>, i: nat, j: nat)
    requires i < |recs| && j < BINOBJ_SIZE
    ensures RecCells(recs)[BINOBJ_SIZE * i + j] == RecByte(recs[i], j)
  {
  }

  lemma RecReads(cells: seq<Cell>, pos: nat, recs: seq<ORec>, i: nat)
    requires Holds(cells, pos, RecCells(recs)) && i < |recs|
    ensures pos + BINOBJ_SIZE * (i + 1) <= |cells| && RecAt(cells, pos + BINOBJ_SIZE * i) == Some(recs[i])
  {
    hide RecCells;
    var at := pos + BINOBJ_SIZE * i;
    forall j | 0 <= j < BINOBJ_SIZE
      ensures cells[at + j] == RecByte(recs[i], j)
    {
      RecCell(recs, i, j);
      assert cells[at + j] == cells[pos..pos + |RecCells(recs)|][BINOBJ_SIZE * i + j];
    }
    assert cells[at + 0] == RecByte(recs[i], 0);
  }

  lemma {:induction false} ReadManyIs(cells: seq<Cell>, at: nat, objs: seq<Obj>)
    requires at + BINOBJ_SIZE * |objs| <= |cells|
    requires forall i {:trigger objs[i]} | 0 <= i < |objs| :: Read(cells, at + BINOBJ_SIZE * i) == objs[i]
    ensures ReadMany(cells, at, |objs|) == objs
    decreases |objs|
  {
    if objs != [] {
      forall i | 0 <= i < |objs[1..]|
        ensures Read(cells, at + BINOBJ_SIZE + BINOBJ_SIZE * i) == objs[1..][i]
      {
        assert objs[1..][i] == objs[i + 1];
      }
      assert objs[0] == Read(cells, at + BINOBJ_SIZE * 0);
      ReadManyIs(cells, at + BINOBJ_SIZE, objs[1..]);
    }
  }

  // A token whose record has its value in it.
  lemma ReadsPlain(o: Opts, env: Env, cells: seq<Cell>, nTop: nat, t: Tok, k: nat, body: int, wellKnown: bool)
    requires ValidTok(o, t) && RoleOf(o, t) == Plain && !t.Nested() && Sendable(o, env, t)
    requires wellKnown == SysName(o, t) && body == BodyInit(o, t)
    ensures var r := Patched(env, nTop, t, k, FieldRecord(o, t, body, wellKnown));
            !r.ty.DArray? && Atom(cells, r) == Inst(o, env, k < nTop, t)
  {
    if t.kind.StringTok? || t.kind.HexTok? {
      assert LitBytes(t) == [] && DataCells([]) == [] && cells[0..0] == [];
    }
  }

  lemma ReadsUserName(o: Opts, env: Env, cells: seq<Cell>, nTop: nat, t: Tok, k: nat, body: int)
    requires RoleOf(o, t) == UserName && !SysName(o, t)
    ensures var r := Patched(env, nTop, t, k, FieldRecord(o, t, body, false)).(val := IntWord(env.code(t.text)));
            !r.ty.DArray? && Atom(cells, r) == Inst(o, env, k < nTop, t)
  {
  }

  lemma ReadsLiteral(o: Opts, env: Env, cells: seq<Cell>, nTop: nat, t: Tok, k: nat, body: int, pos: int)
    requires RoleOf(o, t) == Lit && !SysName(o, t) && Sendable(o, env, t)
    requires Holds(cells, pos, DataCells(LitBytes(t)))
    ensures var r := Patched(env, nTop, t, k, FieldRecord(o, t, body, false)).(val := IntWord(pos));
            !r.ty.DArray? && Atom(cells, r) == Inst(o, env, k < nTop, t)
  {
  }

  lemma DataOf(o: Opts, env: Env, cells: seq<Cell>, t: Tok, pos: int)
    requires Holds(cells, pos, StringPiece(o, env, t))
    ensures Holds(cells, pos, DataCells(StringData(env, t)))
  {
    var data := DataCells(StringData(env, t));
    HoldsWithin(cells, pos, StringPiece(o, env, t), 0, data);
  }

  lemma CharsAll(env: Env, item: Item)
    requires ActualLen(env, item) < 0x10000
    ensures Chars(env, item) == AllChars(env, item)
  {
  }

  // A numstring whose length is what is written has not been narrowed.
  lemma NotNarrowed(env: Env, item: Item)
    requires item.ctype.IsNumStr() && LenOf(env, item) == |NumBytes(env, item)|
    ensures NumBytes(env, item) == NumEncoded(env, item)
  {
    if Wide(env, item) { SameProduct(ActualLen(env, item), env.longSize); }
  }

  lemma SameProduct(n: nat, size: nat)
    requires n * size == n * 4 && size != 4
    ensures n == 0
  {
    assert n * (size - 4) == n * size - n * 4;
  }

  // The fields of an input string's record.
  lemma ShapedString(o: Opts, env: Env, nTop: nat, t: Tok, k: nat, body: int)
    requires ValidTok(o, t) && RoleOf(o, t) == InString && Fits(InString, t) && Sendable(o, env, t)
    ensures var r := Patched(env, nTop, t, k, FieldRecord(o, t, body, false));
            && r.len == |StringData(env, t)|
            && r.ty == (if t.kind.StringTok? || t.formal.value.ctype.IsNumStr() then DString else DName)
            && r.exec == (t.kind.NameTok? && t.formal.value.ctype.IsChar())
  {
  }

  lemma ReadsString(o: Opts, env: Env, cells: seq<Cell>, nTop: nat, t: Tok, k: nat, body: int, pos: int)
    requires ValidTok(o, t) && RoleOf(o, t) == InString && Fits(InString, t) && Sendable(o, env, t)
    requires Holds(cells, pos, StringPiece(o, env, t))
    ensures var r := Patched(env, nTop, t, k, FieldRecord(o, t, body, false)).(val := IntWord(pos));
            !r.ty.DArray? && Atom(cells, r) == Inst(o, env, k < nTop, t)
  {
    DataOf(o, env, cells, t, pos);
    ShapedString(o, env, nTop, t, k, body);
    if t.formal.value.ctype.IsNumStr() { NotNarrowed(env, t.formal.value); } else { CharsAll(env, t.formal.value); }
  }

  lemma ReadsArray(o: Opts, env: Env, cells: seq<Cell>, nTop: nat, t: Tok, k: nat, body: int, at: nat, pos: nat)
    requires ValidTok(o, t) && RoleOf(o, t) == InArray && Sendable(o, env, t)
    requires at + BINOBJ_SIZE <= pos && Holds(cells, pos, ArrayPiece(env, t))
    requires RecAt(cells, at) == Some(Patched(env, nTop, t, k, FieldRecord(o, t, body, false)).(val := IntWord(pos)))
    ensures Read(cells, at) == Inst(o, env, k < nTop, t)
  {
    var item := t.formal.value;
    var objs := FormalObj(env, item).elems;
    var elems := Elements(env, item);
    forall i | 0 <= i < |objs|
      ensures Read(cells, pos + BINOBJ_SIZE * i) == objs[i]
    {
      RecReads(cells, pos, elems, i);
      assert elems[i] == Element(env, item, i);
      assert objs[i] == Scalar(item.ctype, ItemAt(env, item, i));
    }
    ReadManyIs(cells, pos, objs);
  }

  // ----- reading the whole stream

  lemma {:induction false} StartsFrom(n: nat, ws: seq<Work>)
    requires forall w | w in ws :: w.parent.Some?
    ensures forall k | k in Starts(n, ws) :: Starts(n, ws)[k] >= n
    decreases WorkWeight(Bodies(ws))
  {
    if ws != [] {
      WorkShrinks(ws, n);
      PushWorkPending(n, ws[0].toks);
      StartsFrom(n + |ws[0].toks|, PushWork(n, ws[0].toks) + ws[1..]);
    }
  }

  // A nested body stands behind the record that refers to it, and behind the wrap's own body.
  lemma PieceBehind(o: Opts, root: seq<Tok>, p: Plan, k: nat)
    requires Listed(o, root, p) && k < |p.toks| && p.toks[k].Nested()
    ensures Placed(p.toks, p.body, k) && p.body[k] / BINOBJ_SIZE >= |root|
  {
    assert !Pending([], k);
    PushWorkPending(0, root);
    StartsFrom(|root|, PushWork(0, root));
    assert k in RootStarts(root);
  }

  /** What a call has to work with: settled records, the characters of the literals, lengths that fit. */
  ghost predicate Sent(o: Opts, root: seq<Tok>, p: Plan, env: Env, recs: seq<ORec>, chars: seq<int>) {
    && Listed(o, root, p) && ValidToks(o, p.toks) && Sized(p, recs, chars)
    && chars == Bytes(Shared(p.toks, p.literals).placed)
    && Settled(o, p, env, |root|, recs)
    && (forall k | 0 <= k < |p.toks| && RoleOf(o, p.toks[k]) == Plain && !p.toks[k].Nested() ::
          p.body[k] == BodyInit(o, p.toks[k]))
    && OneNotation(Literals(p))
    && forall k | 0 <= k < |p.toks| :: Sendable(o, env, p.toks[k])
  }

  lemma AtRecord(o: Opts, root: seq<Tok>, p: Plan, env: Env, recs: seq<ORec>, chars: seq<int>, k: nat)
    requires Sent(o, root, p, env, recs, chars) && k < |p.toks|
    ensures BINOBJ_SIZE * (k + 1) <= |Stream(o, p, env, recs, chars)|
    ensures RecAt(Stream(o, p, env, recs, chars), BINOBJ_SIZE * k) == Some(recs[k])
  {
    hide Listed, Settled, ValidToks, OneNotation, Sendable, Stream, RecAt;
    RecordsAt(o, p, env, recs, chars);
    RecReads(Stream(o, p, env, recs, chars), 0, recs, k);
  }

  // What is known of one token and its record.
  lemma TokenFacts(o: Opts, root: seq<Tok>, p: Plan, env: Env, recs: seq<ORec>, chars: seq<int>, k: nat)
    requires Sent(o, root, p, env, recs, chars) && k < |p.toks|
    ensures Sized(p, recs, chars) && |p.body| == |p.wellKnown| == |p.toks|
    ensures ValidTok(o, p.toks[k]) && Sendable(o, env, p.toks[k]) && p.wellKnown[k] == SysName(o, p.toks[k])
    ensures recs[k] == Shaped(o, p, env, |root|, k).(val := recs[k].val)
    ensures RoleOf(o, p.toks[k]) == Plain ==> recs[k] == Shaped(o, p, env, |root|, k)
    ensures RoleOf(o, p.toks[k]) == Plain && !p.toks[k].Nested() ==> p.body[k] == BodyInit(o, p.toks[k])
    ensures RoleOf(o, p.toks[k]) == UserName ==> recs[k].val == IntWord(env.code(p.toks[k].text))
  {
    hide Layout, Traced, OneNotation, Shaped, BodyInit, RoleOf, ValidTok, Sendable, Stored, Valued;
  }

  lemma TokenPlain(o: Opts, root: seq<Tok>, p: Plan, env: Env, recs: seq<ORec>, chars: seq<int>, k: nat)
    requires Sent(o, root, p, env, recs, chars) && k < |p.toks|
    requires (RoleOf(o, p.toks[k]) == Plain && !p.toks[k].Nested()) || RoleOf(o, p.toks[k]) == UserName
    ensures Read(Stream(o, p, env, recs, chars), BINOBJ_SIZE * k) == Inst(o, env, k < |root|, p.toks[k])
  {
    hide Sent, Stream, RecAt, Patched, FieldRecord, Inst, BodyInit, RoleOf, ValidTok, Sendable, Atom;
    TokenFacts(o, root, p, env, recs, chars, k);
    AtRecord(o, root, p, env, recs, chars, k);
    if RoleOf(o, p.toks[k]) == UserName {
      UserNameRole(o, p.toks[k]);
      ReadsUserName(o, env, Stream(o, p, env, recs, chars), |root|, p.toks[k], k, p.body[k]);
    } else {
      ReadsPlain(o, env, Stream(o, p, env, recs, chars), |root|, p.toks[k], k, p.body[k], p.wellKnown[k]);
    }
  }

  // Tokens with these roles are no system names.
  lemma UserNameRole(o: Opts, t: Tok)
    requires RoleOf(o, t) != Plain
    ensures !SysName(o, t)
  {
  }

  // Where the piece of token k is.

  lemma LiteralPlace(o: Opts, root: seq<Tok>, p: Plan, env: Env, recs: seq<ORec>, chars: seq<int>, k: nat) returns (pos: int)
    requires Sent(o, root, p, env, recs, chars) && k < |p.toks| && RoleOf(o, p.toks[k]) == Lit
    ensures Holds(Stream(o, p, env, recs, chars), pos, DataCells(LitBytes(p.toks[k])))
    ensures recs[k].val == IntWord(pos)
  {
    hide Layout, Traced, ValidToks, Stream, Bytes, Share, LitBytes, Sendable, OneNotation, RoleOf, Picks, DataCells, Holds,
         Shaped, ArrayPos, StringPos, LitPos;
    PicksComplete(o, Lit, p.toks, k);
    var i :| 0 <= i < |p.literals| && p.literals[i] == k;
    LiteralAt(o, p, env, recs, chars, i);
    pos := LitPositions(o, p, env)[i];
    assert recs[p.literals[i]].val == IntWord(pos) && Literals(p)[i] == p.toks[k];
  }

  lemma StringPlace(o: Opts, root: seq<Tok>, p: Plan, env: Env, recs: seq<ORec>, chars: seq<int>, k: nat) returns (pos: int)
    requires Sent(o, root, p, env, recs, chars) && k < |p.toks| && RoleOf(o, p.toks[k]) == InString
    ensures Holds(Stream(o, p, env, recs, chars), pos, StringPiece(o, env, p.toks[k]))
    ensures recs[k].val == IntWord(pos) && Fits(InString, p.toks[k])
  {
    hide Layout, Traced, Stream, Sendable, OneNotation, Picks, Holds, StringPiece, StringPos;
    PicksComplete(o, InString, p.toks, k);
    var i :| 0 <= i < |p.strings| && p.strings[i] == k;
    StringAt(o, p, env, recs, chars, i);
    pos := StringPositions(o, p, env)[i];
    assert recs[p.strings[i]].val == IntWord(pos) && Strings(p)[i] == p.toks[k];
    assert ValidTok(o, p.toks[k]);
  }

  lemma ArrayPlace(o: Opts, root: seq<Tok>, p: Plan, env: Env, recs: seq<ORec>, chars: seq<int>, k: nat) returns (pos: nat)
    requires Sent(o, root, p, env, recs, chars) && k < |p.toks| && RoleOf(o, p.toks[k]) == InArray
    ensures Holds(Stream(o, p, env, recs, chars), pos, ArrayPiece(env, p.toks[k]))
    ensures recs[k].val == IntWord(pos) && pos >= BINOBJ_SIZE * (k + 1)
  {
    hide Layout, Traced, ValidToks, Stream, Sendable, OneNotation, RoleOf, Picks, Holds, ArrayPiece;
    PicksComplete(o, InArray, p.toks, k);
    var i :| 0 <= i < |p.arrays| && p.arrays[i] == k;
    ArrayAt(o, p, env, recs, chars, i);
    pos := ArrayPositions(p, env)[i];
    assert recs[p.arrays[i]].val == IntWord(pos) && Arrays(p)[i] == p.toks[k];
  }

  lemma TokenLiteral(o: Opts, root: seq<Tok>, p: Plan, env: Env, recs: seq<ORec>, chars: seq<int>, k: nat)
    requires Sent(o, root, p, env, recs, chars) && k < |p.toks| && RoleOf(o, p.toks[k]) == Lit
    ensures Read(Stream(o, p, env, recs, chars), BINOBJ_SIZE * k) == Inst(o, env, k < |root|, p.toks[k])
  {
    hide Sent, Stream, RecAt, Patched, FieldRecord, Inst, BodyInit, RoleOf, ValidTok, Sendable, Atom, Holds, LitBytes;
    TokenFacts(o, root, p, env, recs, chars, k);
    AtRecord(o, root, p, env, recs, chars, k);
    var pos := LiteralPlace(o, root, p, env, recs, chars, k);
    UserNameRole(o, p.toks[k]);
    ReadsLiteral(o, env, Stream(o, p, env, recs, chars), |root|, p.toks[k], k, p.body[k], pos);
  }

  lemma TokenString(o: Opts, root: seq<Tok>, p: Plan, env: Env, recs: seq<ORec>, chars: seq<int>, k: nat)
    requires Sent(o, root, p, env, recs, chars) && k < |p.toks| && RoleOf(o, p.toks[k]) == InString
    ensures Read(Stream(o, p, env, recs, chars), BINOBJ_SIZE * k) == Inst(o, env, k < |root|, p.toks[k])
  {
    hide Sent, Stream, RecAt, Patched, FieldRecord, Inst, BodyInit, RoleOf, ValidTok, Sendable, Atom, Holds, StringPiece, Fits;
    TokenFacts(o, root, p, env, recs, chars, k);
    AtRecord(o, root, p, env, recs, chars, k);
    var pos := StringPlace(o, root, p, env, recs, chars, k);
    UserNameRole(o, p.toks[k]);
    ReadsString(o, env, Stream(o, p, env, recs, chars), |root|, p.toks[k], k, p.body[k], pos);
  }

  lemma TokenArray(o: Opts, root: seq<Tok>, p: Plan, env: Env, recs: seq<ORec>, chars: seq<int>, k: nat)
    requires Sent(o, root, p, env, recs, chars) && k < |p.toks| && RoleOf(o, p.toks[k]) == InArray
    ensures Read(Stream(o, p, env, recs, chars), BINOBJ_SIZE * k) == Inst(o, env, k < |root|, p.toks[k])
  {
    hide Sent, Stream, RecAt, Patched, FieldRecord, Inst, BodyInit, RoleOf, ValidTok, Sendable, Atom, Holds, ArrayPiece, Read;
    TokenFacts(o, root, p, env, recs, chars, k);
    AtRecord(o, root, p, env, recs, chars, k);
    var pos := ArrayPlace(o, root, p, env, recs, chars, k);
    UserNameRole(o, p.toks[k]);
    ReadsArray(o, env, Stream(o, p, env, recs, chars), |root|, p.toks[k], k, p.body[k], BINOBJ_SIZE * k, pos);
  }

  lemma {:induction false} TokenReads(o: Opts, root: seq<Tok>, p: Plan, env: Env, recs: seq<ORec>, chars: seq<int>, k: nat)
    requires Sent(o, root, p, env, recs, chars) && k < |p.toks|
    ensures Read(Stream(o, p, env, recs, chars), BINOBJ_SIZE * k) == Inst(o, env, k < |root|, p.toks[k])
    decreases |p.toks| - k
  {
    hide Sent, Stream, RecAt, Patched, FieldRecord, Inst, BodyInit, RoleOf, ValidTok, Sendable, Atom, Read, Shaped;
    TokenFacts(o, root, p, env, recs, chars, k);
    match RoleOf(o, p.toks[k]) {
      case UserName => TokenPlain(o, root, p, env, recs, chars, k);
      case Lit => TokenLiteral(o, root, p, env, recs, chars, k);
      case InString => TokenString(o, root, p, env, recs, chars, k);
      case InArray => TokenArray(o, root, p, env, recs, chars, k);
      case Plain =>
        if !p.toks[k].Nested() {
          TokenPlain(o, root, p, env, recs, chars, k);
        } else {
          NestedRecord(o, root, p, env, recs, chars, k);
          var s, kids := p.body[k] / BINOBJ_SIZE, p.toks[k].kids;
          forall j | s <= j < s + |kids|
            ensures Read(Stream(o, p, env, recs, chars), BINOBJ_SIZE * j) == Inst(o, env, false, p.toks[j])
          {
            TokenReads(o, root, p, env, recs, chars, j);
          }
          NestedReads(o, env, Stream(o, p, env, recs, chars), |root|, p.toks, p.body, k);
        }
    }
  }

  lemma NestedRecord(o: Opts, root: seq<Tok>, p: Plan, env: Env, recs: seq<ORec>, chars: seq<int>, k: nat)
    requires Sent(o, root, p, env, recs, chars) && k < |p.toks| && p.toks[k].Nested()
    ensures Placed(p.toks, p.body, k) && p.body[k] / BINOBJ_SIZE >= |root|
    ensures ValidTok(o, p.toks[k]) && |p.toks[k].kids| < 0x10000
    ensures BINOBJ_SIZE * |p.toks| <= |Stream(o, p, env, recs, chars)|
    ensures RecAt(Stream(o, p, env, recs, chars), BINOBJ_SIZE * k)
            == Some(Patched(env, |root|, p.toks[k], k, FieldRecord(o, p.toks[k], p.body[k], false)))
  {
    hide Stream, RecAt, Patched, BodyInit, Atom, Read, Layout, Traced, ValidToks, OneNotation, Stored, Valued;
    PieceBehind(o, root, p, k);
    TokenFacts(o, root, p, env, recs, chars, k);
    AtRecord(o, root, p, env, recs, chars, k);
    AtRecord(o, root, p, env, recs, chars, |p.toks| - 1);
  }

  lemma NestedReads(o: Opts, env: Env, cells: seq<Cell>, nTop: nat, toks: seq<Tok>, body: seq<int>, k: nat)
    requires k < |toks| == |body| && toks[k].Nested() && Placed(toks, body, k)
    requires ValidTok(o, toks[k]) && |toks[k].kids| < 0x10000 && BINOBJ_SIZE * |toks| <= |cells|
    requires RecAt(cells, BINOBJ_SIZE * k) == Some(Patched(env, nTop, toks[k], k, FieldRecord(o, toks[k], body[k], false)))
    requires forall j | body[k] / BINOBJ_SIZE <= j < body[k] / BINOBJ_SIZE + |toks[k].kids| ::
               Read(cells, BINOBJ_SIZE * j) == Inst(o, env, false, toks[j])
    ensures Read(cells, BINOBJ_SIZE * k) == Inst(o, env, k < nTop, toks[k])
  {
    hide RecAt, FieldRecord, Patched, Inst, Read;
    PieceReads(cells, o, env, toks, body[k] / BINOBJ_SIZE, toks[k].kids);
    ReadsNested(o, env, cells, nTop, toks[k], k, body[k]);
  }

  lemma ReadsNested(o: Opts, env: Env, cells: seq<Cell>, nTop: nat, t: Tok, k: nat, body: int)
    requires t.Nested() && ValidTok(o, t) && |t.kids| < 0x10000 && BINOBJ_SIZE * k < body <= |cells|
    requires RecAt(cells, BINOBJ_SIZE * k) == Some(Patched(env, nTop, t, k, FieldRecord(o, t, body, false)))
    requires ReadMany(cells, body, |t.kids|) == Insts(o, env, false, t.kids)
    ensures Read(cells, BINOBJ_SIZE * k) == Inst(o, env, k < nTop, t)
  {
  }

  // A piece of the token table reads as the body it holds.
  lemma PieceReads(cells: seq<Cell>, o: Opts, env: Env, toks: seq<Tok>, s: nat, kids: seq<Tok>)
    requires s + |kids| <= |toks| && toks[s..s + |kids|] == kids && BINOBJ_SIZE * |toks| <= |cells|
    requires forall j | s <= j < s + |kids| :: Read(cells, BINOBJ_SIZE * j) == Inst(o, env, false, toks[j])
    ensures ReadMany(cells, BINOBJ_SIZE * s, |kids|) == Insts(o, env, false, kids)
  {
    var objs := Insts(o, env, false, kids);
    forall i | 0 <= i < |objs|
      ensures Read(cells, BINOBJ_SIZE * s + BINOBJ_SIZE * i) == objs[i]
    {
      assert toks[s + i] == kids[i];
      assert Read(cells, BINOBJ_SIZE * (s + i)) == Inst(o, env, false, toks[s + i]);
      assert BINOBJ_SIZE * (s + i) == BINOBJ_SIZE * s + BINOBJ_SIZE * i;
    }
    ReadManyIs(cells, BINOBJ_SIZE * s, objs);
  }

  // ----- parameters and constants

  // A constant in the body of the kind that a value of C type ty is sent as.
  predicate ConstantOf(ty: CType, c: Tok) {
    && c.formal.None?
    && match c.kind
       case IntTok => ty in {IntT, UIntT, LongT, ULongT, ShortT, UShortT, UserObjectT}
       case FloatTok => ty in {FloatT, DoubleT}
       case BoolTok => ty == BooleanT
       case _ => false
  }

  function ConstantValue(c: Tok): Word { if c.kind.FloatTok? then RealWord(c.text) else IntWord(c.num) }

  /** A scalar parameter, or an element reference in the wrap's own body, is sent as the constant of that type and value
      written in its place. */
  lemma ScalarAsConstant(o: Opts, env: Env, nTop: nat, t: Tok, k: nat, c: Tok)
    requires t.formal.Some? && ConstantOf(t.formal.value.ctype, c)
    requires (t.kind.NameTok? && t.formal.value.sub.None? && env.scalar(t.formal.value.name) == ConstantValue(c))
             || (t.kind.SubscriptedTok? && k < nTop && env.element(t.formal.value.name, t.index) == ConstantValue(c))
    ensures Patched(env, nTop, t, k, FieldRecord(o, t, 0, false)) == FieldRecord(o, c, 0, false)
    ensures Inst(o, env, k < nTop, t) == Inst(o, env, k < nTop, c)
  {
  }

  /** So is each element of an array parameter. */
  lemma ElementAsConstant(o: Opts, env: Env, item: Item, i: nat, c: Tok)
    requires ConstantOf(item.ctype, c) && ItemAt(env, item, i) == ConstantValue(c)
    ensures Element(env, item, i) == FieldRecord(o, c, 0, false)
    ensures item.sub.Some? && i < ActualLen(env, item) ==> FormalObj(env, item).elems[i] == Inst(o, env, true, c)
  {
  }

  // ----- what does not survive

  /** A name that is spelled out reads back as itself unless it is empty, which reads as a user name index, or as long
      as the mark of a system name or longer. */
  lemma SpelledWhen(cells: seq<Cell>, exec: bool, pos: nat, data: seq<Cell>)
    requires Holds(cells, pos, data)
    ensures Atom(cells, ORec(exec, DName, U16(|data|), IntWord(pos))) == Spelled(exec, data) <==> 0 < |data| < 65535
  {
    var n := U16(|data|);
    if n < |data| { assert |cells[pos..pos + n]| == n; }
  }

  /** A string reads back as itself exactly when its length fits. */
  lemma StringWhen(cells: seq<Cell>, exec: bool, pos: nat, data: seq<Cell>)
    requires Holds(cells, pos, data)
    ensures Atom(cells, ORec(exec, DString, U16(|data|), IntWord(pos))) == Str(exec, data) <==> |data| < 0x10000
  {
    var n := U16(|data|);
    if n < |data| { assert |cells[pos..pos + n]| == n; }
  }

  // Every element reference in t, at any depth, is to a zero.
  predicate ZeroRefs(env: Env, t: Tok)
    decreases t
  {
    && (t.kind.SubscriptedTok? && t.formal.Some? ==> env.element(t.formal.value.name, t.index) == IntWord(0))
    && (t.Nested() ==> AllZeroRefs(env, t.kids))
  }

  predicate AllZeroRefs(env: Env, ts: seq<Tok>)
    decreases ts
  {
    forall i | 0 <= i < |ts| :: ZeroRefs(env, ts[i])
  }

  // Those below the wrap's own body are.
  predicate ZeroBelow(env: Env, root: seq<Tok>) {
    forall i | 0 <= i < |root| && root[i].Nested() :: AllZeroRefs(env, root[i].kids)
  }

  lemma {:induction false} SentAsMeant(o: Opts, env: Env, t: Tok)
    requires ValidTok(o, t)
    ensures Inst(o, env, false, t) == Meant(o, env, t) <==> ZeroRefs(env, t)
    decreases t
  {
    if t.kind.SubscriptedTok? {
    } else if t.Nested() {
      AllSentAsMeant(o, env, t.kids);
    }
  }

  lemma {:induction false} AllSentAsMeant(o: Opts, env: Env, ts: seq<Tok>)
    requires ValidToks(o, ts)
    ensures Insts(o, env, false, ts) == Meanings(o, env, ts) <==> AllZeroRefs(env, ts)
    decreases ts
  {
    hide Inst, Meant, ValidTok, ZeroRefs;
    var a, b := Insts(o, env, false, ts), Meanings(o, env, ts);
    forall i | 0 <= i < |ts|
      ensures a[i] == b[i] <==> ZeroRefs(env, ts[i])
    {
      SentAsMeant(o, env, ts[i]);
    }
  }

  // A token of a wrap's own body is sent as it is meant unless it is an array that is not.
  lemma {:induction false} TopAsMeant(o: Opts, env: Env, t: Tok)
    requires ValidTok(o, t)
    ensures Inst(o, env, true, t) == Meant(o, env, t) <==> (t.Nested() ==> AllZeroRefs(env, t.kids))
  {
    if t.Nested() { AllSentAsMeant(o, env, t.kids); }
  }

  /** A wrap's body is sent as it is meant exactly when every element reference below it is to a zero. */
  lemma NestingMatters(o: Opts, env: Env, root: seq<Tok>)
    requires ValidToks(o, root)
    ensures Insts(o, env, true, root) == Meanings(o, env, root) <==> ZeroBelow(env, root)
  {
    hide Inst, Meant, ValidTok, AllZeroRefs;
    var a, b := Insts(o, env, true, root), Meanings(o, env, root);
    assert |a| == |b| == |root|;
    forall i | 0 <= i < |root|
      ensures a[i] == b[i] <==> (root[i].Nested() ==> AllZeroRefs(env, root[i].kids))
    {
      TopAsMeant(o, env, root[i]);
    }
  }
}
