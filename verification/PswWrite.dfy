/** What a wrap call writes to its context: header, records, input arrays, input strings, literals; and where each
    piece ends up. */
module PswWrite {
  import opened Options
  import opened PswTypes
  import opened PswString
  import opened PswLayout
  import opened PswCompiler
  import opened PswStatics
  import opened PswStream

  /** A byte of the stream: part of a header field, part of a record, a data byte, or an unset byte of the pad buffer. */
  datatype Cell = FieldByte(field: nat, part: nat) | RecByte(rec: ORec, part: nat) | Byte(value: int) | Pad

  // DPS_LO_IEEE; other machines have another one, and another order of the bytes in a field.
  const DEF_TOKENTYPE := 129

  // The bytes of an unsigned field.
  function FieldCells(n: nat, width: nat): (r: seq<Cell>)
    ensures |r| == width
  {
    seq(width, i requires 0 <= i < width => FieldByte(n, i))
  }

  /** The header of _dpsQ. In the long one a zero stands where the short one has its count. */
  function HeadCells(large: bool, count: nat, nBytes: nat): seq<Cell> {
    if large then
      [Byte(DEF_TOKENTYPE), Byte(0)] + FieldCells(count % 0x1_0000, 2) + FieldCells(nBytes % 0x1_0000_0000, 4)
    else [Byte(DEF_TOKENTYPE), Byte(count % 0x100)] + FieldCells(nBytes % 0x1_0000, 2)
  }

  function RecCells(recs: seq<ORec>): (r: seq<Cell>)
    ensures |r| == BINOBJ_SIZE * |recs|
  {
    seq(BINOBJ_SIZE * |recs|, i requires 0 <= i < BINOBJ_SIZE * |recs| => RecByte(recs[i / BINOBJ_SIZE], i % BINOBJ_SIZE))
  }

  function DataCells(bytes: seq<int>): (r: seq<Cell>)
    ensures |r| == |bytes|
  {
    seq(|bytes|, i requires 0 <= i < |bytes| => Byte(bytes[i]))
  }

  // ----- the pieces

  // DPSDefinedType, as far as an array parameter may have it.
  datatype DefinedType =
    | TBoolean | TChar | TUChar | TFloat | TDouble | TShort | TUShort | TInt | TUInt | TLong | TULong

  // CTypeToResultType
  function ResultType(c: CType): DefinedType {
    match c
    case BooleanT => TBoolean
    case UserObjectT | IntT | NumStrT => TInt
    case LongT | LongNumStrT => TLong
    case ShortT | ShortNumStrT => TShort
    case UIntT => TUInt
    case ULongT => TULong
    case UShortT => TUShort
    case FloatT | FloatNumStrT => TFloat
    case DoubleT => TDouble
    case CharT => TChar
    case UCharT => TUChar
  }

  // What an array parameter is written as.
  function Elements(env: Env, item: Item): (r: seq<ORec>)
    ensures |r| == ActualLen(env, item)
  {
    seq(ActualLen(env, item), i requires 0 <= i < ActualLen(env, item) => Element(env, item, i))
  }

  // What the switch of writeTypedObjectArray takes the array to consist of.
  function Pointee(ty: DefinedType): CObject {
    match ty
    case TChar => CChar
    case TUChar => CUChar
    case TBoolean | TInt => CInt
    case TFloat => CFloat
    case TDouble => CDouble
    case TShort => CShort
    case TUShort => CUShort
    case TUInt => CUInt
    case TLong => CLong
    case TULong => CULong
  }

  // The object it copies the element at byte `at` into.
  function Copied(env: Env, name: string, ty: DefinedType, at: nat): ORec {
    var ty' := if ty.TBoolean? then DBool else if ty.TFloat? || ty.TDouble? then DReal else DInt;
    ORec(false, ty', 0, env.load(name, Pointee(ty), at))
  }

  function Element(env: Env, item: Item, i: nat): ORec {
    var ty := ResultType(item.ctype);
    Copied(env, item.name, ty, i * CSize(env, Pointee(ty)))
  }

  const DPSMAX_SEQ := 10

  // writeTypedObjectArray: ten elements at a time.
  method WriteTypedObjectArray(env: Env, item: Item) returns (out: seq<Cell>)
    ensures out == RecCells(Elements(env, item))
  {
    hide Copied, RecCells, ResultType, Pointee, CSize;
    ghost var all := Elements(env, item);
    var n, ty := ActualLen(env, item), ResultType(item.ctype);
    var size := CSize(env, Pointee(ty));
    var length, next, array_ := n, 0, 0;
    out := [];
    NoRecCells();
    while length > 0
      invariant next <= n == next + length && array_ == next * size && out == RecCells(all[..next])
    {
      var chunk := [];
      var i := 0;
      ghost var from := next;
      while i < DPSMAX_SEQ && i < length
        invariant i <= length <= n && next == from + i && next + length == n + i && chunk == all[from..next]
        invariant array_ == next * size
      {
        assert all[from..next] + [all[next]] == all[from..next + 1];
        assert all[next] == Element(env, item, next);
        chunk := chunk + [Copied(env, item.name, ty, array_)];
        NextProduct(next, size);
        i, next, array_ := i + 1, next + 1, array_ + size;
      }
      RecCellsMore(all, from, next);
      out := out + RecCells(chunk);
      length := length - i;
    }
    assert all[..n] == all;
  }

  lemma NextProduct(n: nat, size: nat)
    ensures (n + 1) * size == n * size + size
  {
  }

  lemma NoRecCells()
    ensures RecCells([]) == []
  {
  }

  lemma RecCellsMore(all: seq<ORec>, i: nat, j: nat)
    requires i <= j <= |all|
    ensures RecCells(all[..i]) + RecCells(all[i..j]) == RecCells(all[..j])
  {
    assert all[..i] + all[i..j] == all[..j];
    RecCellsConcat(all[..i], all[i..j]);
  }

  lemma RecCellsConcat(a: seq<ORec>, b: seq<ORec>)
    ensures RecCells(a + b) == RecCells(a) + RecCells(b)
  {
    var l, r := RecCells(a + b), RecCells(a) + RecCells(b);
    assert |l| == |r|;
    forall i | 0 <= i < |l|
      ensures l[i] == r[i]
    {
      if i >= BINOBJ_SIZE * |a| { assert i / BINOBJ_SIZE - |a| == (i - BINOBJ_SIZE * |a|) / BINOBJ_SIZE; }
    }
  }

  // The number of characters WriteObjSeq passes on; that of an unsubscripted string is its record's length field.
  function CharCount(env: Env, item: Item): nat {
    if item.sub.Some? then ActualLen(env, item) else U16(env.strlen(item.name))
  }

  function Chars(env: Env, item: Item): (r: seq<int>)
    ensures |r| == CharCount(env, item)
  {
    seq(CharCount(env, item), i requires 0 <= i < CharCount(env, item) => env.charAt(item.name, i))
  }

  // innerProcWriteNumstring puts a long down as four bytes.
  function NumWidth(c: CType): nat { if c.ShortNumStrT? then 2 else 4 }

  // A numstring as it is meant: the header and the numbers.
  function NumEncoded(env: Env, item: Item): (r: seq<int>)
    ensures |r| == NUMSTR_HEADER_SIZE + ActualLen(env, item) * NumWidth(item.ctype)
  {
    var n := NUMSTR_HEADER_SIZE + ActualLen(env, item) * NumWidth(item.ctype);
    seq(n, i requires 0 <= i < n => env.numByte(item.name, i))
  }

  const NBUFSIZE := 10

  // Longs that do not have four bytes are narrowed, NBUFSIZE at a time.
  predicate Wide(env: Env, item: Item) { item.ctype.LongNumStrT? && env.longSize != 4 }

  // What innerProcWriteNumstring writes. The pointer to the numbers never moves, so the first ten are narrowed again and
  // again. For a number of longs that is no multiple of ten this is what is written before the count passes below zero.
  function NumBytes(env: Env, item: Item): (r: seq<int>)
    ensures |r| == NUMSTR_HEADER_SIZE + ActualLen(env, item) * NumWidth(item.ctype)
  {
    if Wide(env, item) then
      var n := NUMSTR_HEADER_SIZE + ActualLen(env, item) * NumWidth(item.ctype);
      seq(n, i requires 0 <= i < n =>
        env.numByte(item.name, if i < NUMSTR_HEADER_SIZE then i
                               else NUMSTR_HEADER_SIZE + (i - NUMSTR_HEADER_SIZE) % (4 * NBUFSIZE)))
    else NumEncoded(env, item)
  }

  /** The client library stops behind the numbers. */
  predicate Ends(env: Env, item: Item) { Wide(env, item) ==> ActualLen(env, item) % NBUFSIZE == 0 }

  predicate Stops(env: Env, ts: seq<Tok>) { forall t | t in ts && t.formal.Some? :: Ends(env, t.formal.value) }

  // The unsigned count after k rounds.
  function SizeAfter(n: nat, k: nat): int { (n - NBUFSIZE * k) % 0x1_0000_0000 }

  /** The count reaches zero without passing below it exactly for a multiple of ten; an odd one never reaches zero, and
      any other takes more than 2^32 / 10 rounds. */
  lemma LongRounds(n: nat)
    requires n < 0x1_0000_0000
    ensures (exists k: nat :: NBUFSIZE * k <= n && SizeAfter(n, k) == 0) <==> n % NBUFSIZE == 0
    ensures n % NBUFSIZE != 0 ==> forall k: nat | SizeAfter(n, k) == 0 :: n % 2 == 0 && NBUFSIZE * k > 0x1_0000_0000
  {
    if n % NBUFSIZE == 0 {
      assert SizeAfter(n, n / NBUFSIZE) == 0;
    } else {
      forall k: nat | SizeAfter(n, k) == 0
        ensures n % 2 == 0 && NBUFSIZE * k > 0x1_0000_0000
      {
        NoRound(n, k, (n - NBUFSIZE * k) / 0x1_0000_0000);
      }
    }
  }

  lemma NoRound(n: nat, k: nat, m: int)
    requires n < 0x1_0000_0000 && n % NBUFSIZE != 0 && n - NBUFSIZE * k == m * 0x1_0000_0000
    ensures n % 2 == 0 && NBUFSIZE * k > 0x1_0000_0000
  {
    assert n == 2 * (5 * k + m * 0x8000_0000);
    if m == 0 { TenTimes(n, k); }
  }

  lemma TenTimes(n: nat, k: nat)
    requires n == NBUFSIZE * k
    ensures n % NBUFSIZE == 0
  {
  }

  /** A numstring that is narrowed is written as it is meant exactly when everything behind the tenth number repeats the
      first ten. */
  lemma LongRepeats(env: Env, item: Item)
    requires Wide(env, item)
    ensures NumBytes(env, item) == NumEncoded(env, item) <==>
              forall i | NUMSTR_HEADER_SIZE + 4 * NBUFSIZE <= i < |NumEncoded(env, item)| ::
                NumEncoded(env, item)[i] == NumEncoded(env, item)[i - 4 * NBUFSIZE]
  {
    var a, b := NumBytes(env, item), NumEncoded(env, item);
    if a == b {
      forall i | NUMSTR_HEADER_SIZE + 4 * NBUFSIZE <= i < |b|
        ensures b[i] == b[i - 4 * NBUFSIZE]
      {
        TensApart(i - NUMSTR_HEADER_SIZE);
        assert a[i] == a[i - 4 * NBUFSIZE];
      }
    } else if forall i | NUMSTR_HEADER_SIZE + 4 * NBUFSIZE <= i < |b| :: b[i] == b[i - 4 * NBUFSIZE] {
      forall i | 0 <= i < |b|
        ensures a[i] == b[i]
      {
        Repeated(env, item, i);
      }
    }
  }

  lemma TensApart(j: int)
    ensures (j - 4 * NBUFSIZE) % (4 * NBUFSIZE) == j % (4 * NBUFSIZE)
  {
  }

  lemma {:induction false} Repeated(env: Env, item: Item, i: nat)
    requires Wide(env, item) && i < |NumEncoded(env, item)|
    requires forall j | NUMSTR_HEADER_SIZE + 4 * NBUFSIZE <= j < |NumEncoded(env, item)| ::
               NumEncoded(env, item)[j] == NumEncoded(env, item)[j - 4 * NBUFSIZE]
    ensures NumBytes(env, item)[i] == NumEncoded(env, item)[i]
    decreases i
  {
    if i >= NUMSTR_HEADER_SIZE + 4 * NBUFSIZE {
      Repeated(env, item, i - 4 * NBUFSIZE);
      TensApart(i - NUMSTR_HEADER_SIZE);
    }
  }

  // The loop for long numbers. Not ended when the count passes below zero, which an unsigned one does not show.
  method WriteLongs(env: Env, item: Item) returns (ended: bool, out: seq<int>)
    requires Wide(env, item)
    ensures ended <==> Ends(env, item)
    ensures ended ==> out == NumBytes(env, item)
  {
    hide NumBytes, Wide, ActualLen;
    ghost var bytes := NumBytes(env, item);
    var n := ActualLen(env, item);
    assert Ends(env, item) <==> n % NBUFSIZE == 0;
    var size := n;
    HeaderFirst(env, item);
    out := seq(NUMSTR_HEADER_SIZE, i requires 0 <= i < NUMSTR_HEADER_SIZE => env.numByte(item.name, i));
    while size > 0
      invariant 0 <= size <= n && (n - size) % NBUFSIZE == 0
      invariant |out| == NUMSTR_HEADER_SIZE + 4 * (n - size) && out == bytes[..|out|]
    {
      var count := 4 * if size < NBUFSIZE then size else NBUFSIZE;
      var chunk := seq(count, i requires 0 <= i < count => env.numByte(item.name, NUMSTR_HEADER_SIZE + i));
      NextRound(env, item, n - size, chunk);
      Further(bytes, out, chunk);
      Rounds(n, size);
      out := out + chunk;
      if size < NBUFSIZE { return false, out; }
      size := size - NBUFSIZE;
    }
    ended := true;
    assert bytes[..|out|] == bytes;
  }

  lemma Further(bytes: seq<int>, out: seq<int>, chunk: seq<int>)
    requires |out| + |chunk| <= |bytes| && out == bytes[..|out|] && chunk == bytes[|out|..|out| + |chunk|]
    ensures out + chunk == bytes[..|out| + |chunk|]
  {
  }

  lemma Rounds(n: nat, size: nat)
    requires 0 < size <= n && (n - size) % NBUFSIZE == 0
    ensures size < NBUFSIZE ==> n % NBUFSIZE != 0
    ensures size >= NBUFSIZE ==> (n - (size - NBUFSIZE)) % NBUFSIZE == 0
  {
  }

  lemma HeaderFirst(env: Env, item: Item)
    requires Wide(env, item)
    ensures |NumBytes(env, item)| == NUMSTR_HEADER_SIZE + 4 * ActualLen(env, item)
    ensures forall i | 0 <= i < NUMSTR_HEADER_SIZE :: NumBytes(env, item)[i] == env.numByte(item.name, i)
  {
  }

  // After d numbers, a multiple of ten, the first ones are written again.
  lemma NextRound(env: Env, item: Item, d: nat, chunk: seq<int>)
    requires Wide(env, item) && d % NBUFSIZE == 0 && |chunk| <= 4 * NBUFSIZE && 4 * d + |chunk| <= 4 * ActualLen(env, item)
    requires forall i | 0 <= i < |chunk| :: chunk[i] == env.numByte(item.name, NUMSTR_HEADER_SIZE + i)
    ensures NUMSTR_HEADER_SIZE + 4 * d + |chunk| <= |NumBytes(env, item)|
    ensures NumBytes(env, item)[NUMSTR_HEADER_SIZE + 4 * d..NUMSTR_HEADER_SIZE + 4 * d + |chunk|] == chunk
  {
    HeaderFirst(env, item);
    hide NumBytes, Wide, ActualLen;
    forall i | 0 <= i < |chunk|
      ensures NumBytes(env, item)[NUMSTR_HEADER_SIZE + 4 * d + i] == chunk[i]
    {
      RoundByte(env, item, d, i);
    }
  }

  lemma RoundByte(env: Env, item: Item, d: nat, i: nat)
    requires Wide(env, item) && d % NBUFSIZE == 0 && i < 4 * NBUFSIZE && 4 * d + i < 4 * ActualLen(env, item)
    ensures NUMSTR_HEADER_SIZE + 4 * d + i < |NumBytes(env, item)|
    ensures NumBytes(env, item)[NUMSTR_HEADER_SIZE + 4 * d + i] == env.numByte(item.name, NUMSTR_HEADER_SIZE + i)
  {
    InRound(4 * d, i);
  }

  lemma InRound(j: nat, i: nat)
    requires j % 4 == 0 && (j / 4) % NBUFSIZE == 0 && i < 4 * NBUFSIZE
    ensures (j + i) % (4 * NBUFSIZE) == i
  {
  }

  // ~(n + WORD_ALIGN) & WORD_ALIGN
  function PadCount(n: nat): (r: nat)
    ensures n + r == RoundUp(n)
  {
    3 - (n + 3) % 4
  }

  function Pads(n: nat): (r: seq<Cell>)
    ensures |r| == n
  {
    seq(n, _ => Pad)
  }

  function ArrayPiece(env: Env, t: Tok): seq<Cell> {
    if t.formal.None? then [] else RecCells(Elements(env, t.formal.value))
  }

  // The bytes of an input string proper.
  function StringData(env: Env, t: Tok): seq<int> {
    if t.formal.None? then []
    else if t.formal.value.ctype.IsNumStr() then NumBytes(env, t.formal.value) else Chars(env, t.formal.value)
  }

  function StringPiece(o: Opts, env: Env, t: Tok): seq<Cell> {
    var data := StringData(env, t);
    DataCells(data)
    + if o.pad && t.formal.Some? && !t.formal.value.ctype.IsNumStr() then Pads(PadCount(|data|)) else []
  }

  function ArrayCells(env: Env, ts: seq<Tok>): seq<Cell> {
    if ts == [] then [] else ArrayCells(env, ts[..|ts| - 1]) + ArrayPiece(env, ts[|ts| - 1])
  }

  function StringCells(o: Opts, env: Env, ts: seq<Tok>): seq<Cell> {
    if ts == [] then [] else StringCells(o, env, ts[..|ts| - 1]) + StringPiece(o, env, ts[|ts| - 1])
  }

  // ----- WriteObjSeq

  method WriteStringPiece(o: Opts, env: Env, t: Tok, length: nat) returns (ended: bool, out: seq<Cell>)
    requires Fits(InString, t)
    requires t.formal.value.sub.None? ==> length == U16(env.strlen(t.formal.value.name))
    ensures ended <==> Ends(env, t.formal.value)
    ensures ended ==> out == StringPiece(o, env, t)
  {
    var item := t.formal.value;
    ended := true;
    if item.ctype.LongNumStrT? && env.longSize != 4 {
      var bytes;
      ended, bytes := WriteLongs(env, item);
      out := DataCells(bytes);
    } else if item.ctype.IsNumStr() {
      out := DataCells(NumBytes(env, item));
    } else {
      out := DataCells(Chars(env, item));
      if item.sub.None? {
        if o.pad { out := out + Pads(PadCount(length)); }
      } else if item.sub.value.Constant? {
        var val := PadCount(item.sub.value.val);
        if o.pad && val != 0 { out := out + Pads(val); }
      } else if o.pad {
        out := out + Pads(PadCount(env.intParam(item.sub.value.name)));
      }
    }
  }

  // The struct as _dpsF holds it after its header, then everything the wrap writes separately.
  function Struct(p: Plan, recs: seq<ORec>, chars: seq<int>): seq<Cell> {
    RecCells(recs) + if p.twoStatics then [] else DataCells(chars)
  }

  function Stream(o: Opts, p: Plan, env: Env, recs: seq<ORec>, chars: seq<int>): seq<Cell>
    requires InRange(p.arrays, |p.toks|) && InRange(p.strings, |p.toks|)
  {
    Struct(p, recs, chars) + ArrayCells(env, At(p.toks, p.arrays)) + StringCells(o, env, At(p.toks, p.strings))
    + if p.twoStatics then DataCells(chars) else []
  }

  method WriteArrays(p: Plan, env: Env) returns (out: seq<Cell>)
    requires Ready(p)
    ensures out == ArrayCells(env, At(p.toks, p.arrays))
  {
    hide RecCells, Elements;
    ghost var ts := At(p.toks, p.arrays);
    out := [];
    for i := 0 to |p.arrays|
      invariant out == ArrayCells(env, ts[..i])
    {
      assert ts[..i + 1][..i] == ts[..i];
      assert p.toks[p.arrays[i]] == ts[i] && ts[i] in ts;
      var piece := WriteTypedObjectArray(env, p.toks[p.arrays[i]].formal.value);
      out := out + piece;
    }
    assert ts[..|ts|] == ts;
  }

  method WriteStrings(o: Opts, p: Plan, env: Env, recs: seq<ORec>) returns (ended: bool, out: seq<Cell>)
    requires Ready(p) && |recs| == |p.toks| && LengthsSet(p, env, recs)
    ensures ended <==> Stops(env, At(p.toks, p.strings))
    ensures ended ==> out == StringCells(o, env, At(p.toks, p.strings))
  {
    hide RoleOf, StringPiece, Ends;
    ghost var ts := At(p.toks, p.strings);
    ended, out := true, [];
    for i := 0 to |p.strings|
      invariant out == StringCells(o, env, ts[..i]) && ended && Stops(env, ts[..i])
    {
      assert ts[..i + 1][..i] == ts[..i];
      var t := p.toks[p.strings[i]];
      assert t == ts[i] && ts[i] in ts;
      var piece;
      ended, piece := WriteStringPiece(o, env, t, recs[p.strings[i]].len);
      out := out + piece;
      if !ended { return; }
      assert ts[..i + 1] == ts[..i] + [t];
    }
    assert ts[..|ts|] == ts;
  }

  /** The binary object sequence. Not ended when the client library does not stop at the end of a long numstring. */
  method WriteObjSeq(o: Opts, p: Plan, env: Env, head: seq<Cell>, recs: seq<ORec>, chars: seq<int>)
    returns (ended: bool, out: seq<Cell>)
    requires Ready(p) && |recs| == |p.toks| && LengthsSet(p, env, recs)
    ensures ended <==> Stops(env, At(p.toks, p.strings))
    ensures ended ==> out == head + Stream(o, p, env, recs, chars)
  {
    var arrays := WriteArrays(p, env);
    var strings;
    ended, strings := WriteStrings(o, p, env, recs);
    var data := Struct(p, recs, chars) + arrays + strings;
    if ended && p.twoStatics { data := data + DataCells(chars); }
    out := head + data;
  }

  // ----- where the pieces are

  function Written(o: Opts, env: Env, ts: seq<Tok>): nat { |StringCells(o, env, ts)| }

  // FixupOffsets reserves for t exactly what WriteObjSeq writes.
  predicate Exact(o: Opts, env: Env, t: Tok) {
    (t.formal.Some? ==> Ends(env, t.formal.value)) && FixSize(o, env, t) == |StringPiece(o, env, t)|
  }

  lemma LongSlack(n: nat, size: nat)
    requires size >= 4
    ensures n * 4 <= n * size
    ensures n * size == n * 4 <==> n == 0 || size == 4
  {
    assert n * size == n * 4 + n * (size - 4);
  }

  lemma PadSlack(n: nat)
    ensures RoundUp(n * 4 + NUMSTR_HEADER_SIZE) == n * 4 + NUMSTR_HEADER_SIZE
    ensures RoundUp(n * 2 + NUMSTR_HEADER_SIZE) == n * 2 + NUMSTR_HEADER_SIZE <==> n % 2 == 0
  {
  }

  /** When that is so: a long numstring on a machine with long longs, or a padded numstring of an odd number of
      shorts, is not written as reserved. What is written in full never exceeds it. */
  lemma ExactWhen(o: Opts, env: Env, t: Tok)
    requires Fits(InString, t) && env.longSize >= 4
    ensures Ends(env, t.formal.value) ==> |StringPiece(o, env, t)| <= FixSize(o, env, t)
    ensures Exact(o, env, t) <==>
              var item := t.formal.value;
              var n := ActualLen(env, item);
              && (item.ctype.LongNumStrT? ==> n == 0 || env.longSize == 4)
              && (item.ctype.ShortNumStrT? && o.pad ==> n % 2 == 0)
  {
    hide ActualLen, DataCells, RoundUp;
    var item := t.formal.value;
    if item.ctype.LongNumStrT? { LongSlack(ActualLen(env, item), env.longSize); }
    if item.ctype.IsNumStr() && o.pad { PadSlack(ActualLen(env, item)); }
  }

  // x stands in s at pos.
  predicate Holds<T(==)>(s: seq<T>, pos: int, x: seq<T>) {
    0 <= pos && pos + |x| <= |s| && s[pos..pos + |x|] == x
  }

  lemma HoldsLeft<T>(a: seq<T>, b: seq<T>, pos: int, x: seq<T>)
    requires Holds(a, pos, x)
    ensures Holds(a + b, pos, x)
  {
    assert (a + b)[pos..pos + |x|] == a[pos..pos + |x|];
  }

  lemma HoldsRight<T>(a: seq<T>, b: seq<T>, pos: int, x: seq<T>)
    requires Holds(b, pos, x)
    ensures Holds(a + b, |a| + pos, x)
  {
    assert (a + b)[|a| + pos..|a| + pos + |x|] == b[pos..pos + |x|];
  }

  lemma {:induction false} ArrayPieceAt(env: Env, ts: seq<Tok>, i: nat)
    requires i < |ts|
    ensures Holds(ArrayCells(env, ts), ArraySizes(env, ts[..i]), ArrayPiece(env, ts[i]))
  {
    hide ArrayPiece, ArraySize, Holds;
    var rest, last := ts[..|ts| - 1], ts[|ts| - 1];
    ArrayCellsSize(env, rest);
    if i == |ts| - 1 {
      HoldsRight(ArrayCells(env, rest), ArrayPiece(env, last), 0, ArrayPiece(env, last));
    } else {
      ArrayPieceAt(env, rest, i);
      assert rest[..i] == ts[..i];
      HoldsLeft(ArrayCells(env, rest), ArrayPiece(env, last), ArraySizes(env, ts[..i]), ArrayPiece(env, ts[i]));
    }
  }

  lemma {:induction false} ArrayCellsSize(env: Env, ts: seq<Tok>)
    ensures |ArrayCells(env, ts)| == ArraySizes(env, ts)
  {
    if ts != [] { ArrayCellsSize(env, ts[..|ts| - 1]); }
  }

  lemma {:induction false} StringPieceAt(o: Opts, env: Env, ts: seq<Tok>, i: nat)
    requires i < |ts|
    ensures Holds(StringCells(o, env, ts), Written(o, env, ts[..i]), StringPiece(o, env, ts[i]))
  {
    var rest, last := ts[..|ts| - 1], ts[|ts| - 1];
    if i == |ts| - 1 {
      HoldsRight(StringCells(o, env, rest), StringPiece(o, env, last), 0, StringPiece(o, env, last));
    } else {
      StringPieceAt(o, env, rest, i);
      assert rest[..i] == ts[..i];
      HoldsLeft(StringCells(o, env, rest), StringPiece(o, env, last), Written(o, env, ts[..i]), StringPiece(o, env, ts[i]));
    }
  }

  // As much is reserved as is written exactly when each string is.
  lemma {:induction false} ReservedAll(o: Opts, env: Env, ts: seq<Tok>)
    requires env.longSize >= 4 && forall t | t in ts :: Fits(InString, t)
    ensures Stops(env, ts) ==> Written(o, env, ts) <= FixSizes(o, env, ts)
    ensures Stops(env, ts) && Written(o, env, ts) == FixSizes(o, env, ts) <==> forall t | t in ts :: Exact(o, env, t)
  {
    hide Exact, Ends, StringPiece, FixSize;
    if ts != [] {
      var rest, last := ts[..|ts| - 1], ts[|ts| - 1];
      assert ts == rest + [last];
      ReservedAll(o, env, rest);
      assert last in ts;
      ExactWhen(o, env, last);
      ExactEnds(o, env, last);
    }
  }

  lemma ExactEnds(o: Opts, env: Env, t: Tok)
    requires Fits(InString, t)
    ensures Exact(o, env, t) <==> Ends(env, t.formal.value) && FixSize(o, env, t) == |StringPiece(o, env, t)|
  {
  }

  // Five longs of eight bytes: 44 bytes are reserved, and writing them does not end.
  lemma FiveLongs(o: Opts, env: Env)
    requires env.longSize == 8
    ensures var t := Tok(NameTok, "ns", 0, "", Some(Item("ns", LongNumStrT, false, Some(Constant(5)))), []);
            Fits(InString, t) && FixSize(o, env, t) == 44 && !Stops(env, [t])
  {
    var t := Tok(NameTok, "ns", 0, "", Some(Item("ns", LongNumStrT, false, Some(Constant(5)))), []);
    assert t in [t];
  }

  // ----- literals

  /** No literal is spelled like one of the other notation. */
  predicate OneNotation(lits: seq<Tok>) {
    forall i, j | 0 <= i < |lits| && 0 <= j < |lits| && lits[i].text == lits[j].text :: LitBytes(lits[i]) == LitBytes(lits[j])
  }

  // The first literal spelled x, or |lits|.
  function First(lits: seq<Tok>, x: string): (i: nat)
    ensures i <= |lits| && (i < |lits| ==> lits[i].text == x)
  {
    if lits == [] then 0
    else
      var i := First(lits[..|lits| - 1], x);
      if i < |lits| - 1 || lits[i].text == x then i else |lits|
  }

  /** The literal whose bytes literal i is given: the first one of its spelling, if the dictionary has that; else itself. */
  function Server(lits: seq<Tok>, i: nat): (j: nat)
    requires i < |lits|
    ensures j <= i && lits[j].text == lits[i].text
  {
    var x, before := lits[i].text, lits[..i];
    if x in Share(before).dict && First(before, x) < i then First(before, x) else i
  }

  lemma FirstMore(lits: seq<Tok>, t: Tok, x: string)
    ensures First(lits + [t], x) == if First(lits, x) < |lits| then First(lits, x)
                                    else if t.text == x then |lits| else |lits| + 1
  {
    assert (lits + [t])[..|lits|] == lits;
  }

  // The dictionary knows where the first literal of each spelling has its bytes; it knows all spellings until it is full.
  ghost predicate DictServes(lits: seq<Tok>, bytes: seq<int>, s: Sharing) {
    && (forall x {:trigger s.dict[x]} | x in s.dict ::
          First(lits, x) < |lits| && Holds(bytes, s.dict[x], LitBytes(lits[First(lits, x)])))
    && (s.count <= MAXSTRINGS ==> forall i | 0 <= i < |lits| :: lits[i].text in s.dict)
  }

  ghost predicate LocsServe(lits: seq<Tok>, bytes: seq<int>, locs: seq<nat>) {
    |locs| == |lits|
    && forall i {:trigger locs[i]} | 0 <= i < |lits| :: Holds(bytes, locs[i], LitBytes(lits[Server(lits, i)]))
  }

  lemma ServerMore(lits: seq<Tok>, t: Tok, i: nat)
    requires i < |lits|
    ensures Server(lits + [t], i) == Server(lits, i) && (lits + [t])[Server(lits, i)] == lits[Server(lits, i)]
  {
    assert (lits + [t])[..i] == lits[..i];
  }

  lemma LocsMore(lits: seq<Tok>, t: Tok, bytes: seq<int>, more: seq<int>, locs: seq<nat>, loc: nat)
    requires LocsServe(lits, bytes, locs)
    requires Holds(bytes + more, loc, LitBytes((lits + [t])[Server(lits + [t], |lits|)]))
    ensures LocsServe(lits + [t], bytes + more, locs + [loc])
  {
    hide LitBytes, Holds, Server;
    forall i | 0 <= i < |lits| + 1
      ensures Holds(bytes + more, (locs + [loc])[i], LitBytes((lits + [t])[Server(lits + [t], i)]))
    {
      if i < |lits| {
        ServerMore(lits, t, i);
        HoldsLeft(bytes, more, locs[i], LitBytes(lits[Server(lits, i)]));
      }
    }
  }

  lemma DictMore(lits: seq<Tok>, t: Tok, bytes: seq<int>, more: seq<int>, s: Sharing, x: string)
    requires DictServes(lits, bytes, s) && x in s.dict
    ensures First(lits + [t], x) < |lits| && Holds(bytes + more, s.dict[x], LitBytes((lits + [t])[First(lits + [t], x)]))
  {
    hide LitBytes, Holds, First;
    FirstMore(lits, t, x);
    HoldsLeft(bytes, more, s.dict[x], LitBytes(lits[First(lits, x)]));
  }

  ghost predicate Serving(lits: seq<Tok>, s: Sharing) {
    |Bytes(s.placed)| == s.total && DictServes(lits, Bytes(s.placed), s) && LocsServe(lits, Bytes(s.placed), s.locs)
  }

  lemma ServeShared(lits: seq<Tok>, t: Tok)
    requires Serving(lits, Share(lits)) && t.text in Share(lits).dict
    ensures Serving(lits + [t], ShareStep(Share(lits), t))
  {
    hide LitBytes, Holds, First, Share, Bytes;
    var s := Share(lits);
    var bytes := Bytes(s.placed);
    assert bytes + [] == bytes && (lits + [t])[..|lits|] == lits;
    forall x | x in s.dict
      ensures First(lits + [t], x) < |lits| + 1 && Holds(bytes, s.dict[x], LitBytes((lits + [t])[First(lits + [t], x)]))
    {
      DictMore(lits, t, bytes, [], s, x);
    }
    assert Server(lits + [t], |lits|) == First(lits, t.text);
    LocsMore(lits, t, bytes, [], s.locs, s.dict[t.text]);
  }

  lemma DictNew(lits: seq<Tok>, t: Tok, bytes: seq<int>, s: Sharing)
    requires DictServes(lits, bytes, s) && |bytes| == s.total && t.text !in s.dict
    ensures DictServes(lits + [t], bytes + LitBytes(t), ShareStep(s, t))
  {
    hide LitBytes, Holds, First;
    var s', more := ShareStep(s, t), LitBytes(t);
    forall x | x in s'.dict
      ensures First(lits + [t], x) < |lits| + 1
              && Holds(bytes + more, s'.dict[x], LitBytes((lits + [t])[First(lits + [t], x)]))
    {
      if x in s.dict {
        DictMore(lits, t, bytes, more, s, x);
      } else {
        FirstMore(lits, t, x);
        AllHolds(more);
        HoldsRight(bytes, more, 0, more);
      }
    }
  }

  lemma ServerNew(lits: seq<Tok>, t: Tok)
    requires t.text !in Share(lits).dict
    ensures Server(lits + [t], |lits|) == |lits|
  {
    hide Share;
    assert (lits + [t])[..|lits|] == lits;
  }

  lemma ServeNew(lits: seq<Tok>, t: Tok)
    requires Serving(lits, Share(lits)) && t.text !in Share(lits).dict
    ensures Serving(lits + [t], ShareStep(Share(lits), t))
  {
    hide LitBytes, Holds, Share, Server, DictServes, LocsServe;
    var s, more := Share(lits), LitBytes(t);
    var bytes := Bytes(s.placed);
    assert (s.placed + [t])[..|s.placed|] == s.placed;
    DictNew(lits, t, bytes, s);
    ServerNew(lits, t);
    AllHolds(more);
    HoldsRight(bytes, more, 0, more);
    LocsMore(lits, t, bytes, more, s.locs, s.total);
  }

  lemma AllHolds(x: seq<int>)
    ensures Holds(x, 0, x)
  {
  }

  lemma {:induction false} SharingServes(lits: seq<Tok>)
    ensures Serving(lits, Share(lits))
  {
    hide Serving, ShareStep;
    if lits == [] {
      NothingServed();
    } else {
      var rest, t := lits[..|lits| - 1], lits[|lits| - 1];
      SharingServes(rest);
      assert lits == rest + [t];
      if t.text in Share(rest).dict { ServeShared(rest, t); } else { ServeNew(rest, t); }
    }
  }

  lemma NothingServed()
    ensures Serving([], Share([]))
  {
  }

  // ----- how much is shared

  function Spellings(lits: seq<Tok>): set<string> { set t | t in lits :: t.text }

  function Times(ts: seq<Tok>, x: string): nat {
    if ts == [] then 0 else Times(ts[..|ts| - 1], x) + if ts[|ts| - 1].text == x then 1 else 0
  }

  // x is among the first 257 different spellings.
  predicate Early(lits: seq<Tok>, x: string) { x in Spellings(lits) && |Spellings(lits[..First(lits, x)])| < 257 }

  // The dictionary has those.
  ghost predicate Knows(lits: seq<Tok>, s: Sharing) {
    && s.count == |s.dict.Keys| <= 257 && s.dict.Keys <= Spellings(lits)
    && (s.count < 257 ==> s.dict.Keys == Spellings(lits))
    && forall x :: x in s.dict <==> Early(lits, x)
  }

  lemma FirstIn(lits: seq<Tok>, x: string)
    ensures First(lits, x) < |lits| <==> x in Spellings(lits)
  {
    if lits != [] {
      var rest, last := lits[..|lits| - 1], lits[|lits| - 1];
      assert lits == rest + [last];
      FirstIn(rest, x);
    }
  }

  lemma EarlyMore(lits: seq<Tok>, t: Tok, x: string)
    ensures Spellings(lits + [t]) == Spellings(lits) + {t.text}
    ensures x in Spellings(lits) ==> (Early(lits + [t], x) <==> Early(lits, x))
    ensures x !in Spellings(lits) ==> (Early(lits + [t], x) <==> x == t.text && |Spellings(lits)| < 257)
  {
    FirstMore(lits, t, x);
    FirstIn(lits, x);
    assert (lits + [t])[..First(lits, x)] == lits[..First(lits, x)];
    assert (lits + [t])[..|lits|] == lits;
  }

  lemma KnowsMore(lits: seq<Tok>, t: Tok, s: Sharing)
    requires Knows(lits, s)
    ensures Knows(lits + [t], ShareStep(s, t))
  {
    hide Early, Spellings;
    var s' := ShareStep(s, t);
    EarlyMore(lits, t, t.text);
    if s.count >= 257 { Larger(s.dict.Keys, Spellings(lits)); }
    forall x
      ensures x in s'.dict <==> Early(lits + [t], x)
    {
      EarlyMore(lits, t, x);
    }
    if t.text !in s.dict && s.count < 257 { assert s'.dict.Keys == s.dict.Keys + {t.text}; }
  }

  lemma Larger<T>(a: set<T>, b: set<T>)
    requires a <= b
    ensures |a| <= |b|
  {
    assert b == a + (b - a);
  }

  lemma {:induction false} SharingKnows(lits: seq<Tok>)
    ensures Knows(lits, Share(lits))
  {
    if lits != [] {
      var rest, t := lits[..|lits| - 1], lits[|lits| - 1];
      assert lits == rest + [t];
      SharingKnows(rest);
      KnowsMore(rest, t, Share(rest));
    } else {
      assert Share(lits).dict.Keys == {};
    }
  }

  /** How often the literals of one spelling are laid out: once if it is among the first 257, else every time. */
  lemma {:induction false} PlacedTimes(lits: seq<Tok>, x: string)
    ensures Times(Share(lits).placed, x) ==
              if x !in Spellings(lits) then 0
              else if |Spellings(lits[..First(lits, x)])| < 257 then 1
              else Times(lits, x)
  {
    if lits != [] {
      var rest, t := lits[..|lits| - 1], lits[|lits| - 1];
      assert lits == rest + [t];
      PlacedTimes(rest, x);
      SharingKnows(rest);
      hide Share, First, Spellings, Times;
      PlacedMore(rest, t, Share(rest), x);
      assert Share(lits) == ShareStep(Share(rest), t) by { LastShared(lits); }
    }
  }

  lemma LastShared(lits: seq<Tok>)
    requires lits != []
    ensures Share(lits) == ShareStep(Share(lits[..|lits| - 1]), lits[|lits| - 1])
  {
  }

  function TimesPlaced(lits: seq<Tok>, x: string): nat {
    if x !in Spellings(lits) then 0 else if Early(lits, x) then 1 else Times(lits, x)
  }

  lemma PlacedMore(lits: seq<Tok>, t: Tok, s: Sharing, x: string)
    requires Knows(lits, s) && Times(s.placed, x) == TimesPlaced(lits, x)
    ensures Times(ShareStep(s, t).placed, x) == TimesPlaced(lits + [t], x)
  {
    hide Spellings, Early, Times, Knows;
    EarlyMore(lits, t, x);
    TimesNone(lits, x);
    TimesMore(lits, t, x);
    TimesMore(s.placed, t, x);
    EarlyKnown(lits, s, x);
  }

  lemma TimesMore(ts: seq<Tok>, t: Tok, x: string)
    ensures Times(ts + [t], x) == Times(ts, x) + if t.text == x then 1 else 0
  {
    assert (ts + [t])[..|ts|] == ts;
  }

  lemma EarlyKnown(lits: seq<Tok>, s: Sharing, x: string)
    requires Knows(lits, s)
    ensures x in s.dict <==> Early(lits, x)
    ensures Early(lits, x) ==> x in Spellings(lits)
    ensures x !in s.dict && x in Spellings(lits) ==> s.count > MAXSTRINGS
    ensures s.count > MAXSTRINGS ==> |Spellings(lits)| >= 257
    ensures s.count <= MAXSTRINGS ==> |Spellings(lits)| < 257
  {
    if s.count >= 257 { Larger(s.dict.Keys, Spellings(lits)); }
  }

  lemma TimesNone(ts: seq<Tok>, x: string)
    ensures Times(ts, x) == 0 <==> x !in Spellings(ts)
  {
    if ts != [] {
      var rest, last := ts[..|ts| - 1], ts[|ts| - 1];
      assert ts == rest + [last];
      TimesNone(rest, x);
    }
  }

  // Literal i finds its own bytes where it was told to look.
  ghost predicate Found(lits: seq<Tok>, i: nat)
    requires i < |lits|
  {
    Holds(Bytes(Share(lits).placed), Share(lits).locs[i], LitBytes(lits[i]))
  }

  /** Sharing loses nothing: each literal finds its own bytes, however many there are. */
  lemma SharedBytes(lits: seq<Tok>, i: nat)
    requires OneNotation(lits) && i < |lits|
    ensures |Bytes(Share(lits).placed)| == Share(lits).total && Found(lits, i)
    ensures Holds(Bytes(Share(lits).placed), Share(lits).locs[i], LitBytes(lits[i]))
  {
    hide LitBytes, Holds, Server;
    SharingServes(lits);
    assert LitBytes(lits[Server(lits, i)]) == LitBytes(lits[i]);
  }

  // As a string, hex digits stand for themselves.
  lemma {:induction false} DigitsAsString(text: string)
    requires AllHex(text)
    ensures WellEscaped(text) && |StringBytes(text)| == |text|
    ensures forall i | 0 <= i < |text| :: StringBytes(text)[i] == text[i] as int
  {
    if text != [] {
      DigitsAsString(text[1..]);
      assert StringBytes(text) == [text[0] as int] + StringBytes(text[1..]);
    }
  }

  // The text "33", repeated: as a hex string it stands for its own first half.
  predicate Threes(text: string) { |text| % 2 == 0 && forall i | 0 <= i < |text| :: text[i] == '3' }

  // Byte i stands for two digits, which are those of the code of text[i].
  lemma OneByte(text: string, i: nat)
    requires AllHex(text) && 2 * i < |text| && HexBytes(text)[i] == text[i] as int
    ensures 2 * i + 1 < |text| && (text[i] == '3' ==> text[2 * i] == text[2 * i + 1] == '3')
    ensures i == 0 ==> text[0] == '3'
  {
    assert HexDigit(text[i]) && HexDigit(text[2 * i]);
    if 2 * i + 1 < |text| {
      assert HexDigit(text[2 * i + 1]) && text[2 * i..2 * i + 2] == [text[2 * i], text[2 * i + 1]];
    }
  }

  lemma {:induction false} ThreesSoFar(text: string, k: nat)
    requires AllHex(text) && 2 * k <= |text| && forall i | 0 <= i < |HexBytes(text)| :: HexBytes(text)[i] == text[i] as int
    ensures forall i | 0 <= i < 2 * k :: text[i] == '3'
    decreases k
  {
    if k > 0 {
      ThreesSoFar(text, k - 1);
      if k > 1 { OneByte(text, k - 1); } else { OneByte(text, 0); }
      forall i | 0 <= i < 2 * k
        ensures text[i] == '3'
      {
        if i >= 2 * (k - 1) { assert i == 2 * (k - 1) || i == 2 * (k - 1) + 1; }
      }
    }
  }

  lemma ThreesExactly(text: string)
    requires AllHex(text)
    ensures (forall i | 0 <= i < |HexBytes(text)| :: HexBytes(text)[i] == text[i] as int) <==> Threes(text)
  {
    if forall i | 0 <= i < |HexBytes(text)| :: HexBytes(text)[i] == text[i] as int {
      ThreesSoFar(text, |text| / 2);
      if |text| % 2 == 1 { OneByte(text, |text| / 2); }
    }
    if Threes(text) {
      forall i | 0 <= i < |HexBytes(text)|
        ensures HexBytes(text)[i] == text[i] as int
      {
        assert text[2 * i..2 * i + 2] == ['3', '3'];
      }
    }
  }

  // What x has behind its first n elements stands in s where those would end.
  predicate Continued(s: seq<int>, pos: int, x: seq<int>, n: nat) { n <= |x| && Holds(s, pos + n, x[n..]) }

  /** Which literals find their own bytes, in any list: those served by one of their own notation; a hex string served by
      a string only if the text is a row of "33"; a string served by a hex string only if, besides, the bytes placed
      behind that one continue it. */
  lemma MixedNotations(lits: seq<Tok>, i: nat)
    requires i < |lits| && forall t | t in lits :: Fits(Lit, t)
    ensures var own, server := lits[i], lits[Server(lits, i)];
            Found(lits, i) <==>
              if own.kind.HexTok? == server.kind.HexTok? then true
              else if own.kind.HexTok? then Threes(own.text)
              else Threes(own.text)
                   && Continued(Bytes(Share(lits).placed), Share(lits).locs[i], LitBytes(own), |LitBytes(server)|)
  {
    hide Share, Bytes, Server, Threes;
    var own, server := lits[i], lits[Server(lits, i)];
    SharingServes(lits);
    assert own in lits && server in lits;
    if own.kind.HexTok? != server.kind.HexTok? {
      DigitsAsString(own.text);
      ThreesPrefix(own.text);
      HexLengths(own.text);
      if own.kind.HexTok? {
        HoldsPrefix(Bytes(Share(lits).placed), Share(lits).locs[i], StringBytes(own.text), HexBytes(own.text));
      } else {
        HoldsLonger(Bytes(Share(lits).placed), Share(lits).locs[i], HexBytes(own.text), StringBytes(own.text));
      }
    }
  }

  lemma ThreesPrefix(text: string)
    requires AllHex(text) && WellEscaped(text) && |StringBytes(text)| == |text|
    requires forall i | 0 <= i < |text| :: StringBytes(text)[i] == text[i] as int
    ensures |HexBytes(text)| <= |text| && (StringBytes(text)[..|HexBytes(text)|] == HexBytes(text) <==> Threes(text))
  {
    hide HexConst, StringBytes, WellEscaped, Threes;
    HexLengths(text);
    ThreesExactly(text);
    var all, hex := StringBytes(text), HexBytes(text);
    if all[..|hex|] == hex {
      forall i | 0 <= i < |hex|
        ensures hex[i] == text[i] as int
      {
        assert all[..|hex|][i] == all[i];
      }
    }
  }

  // What is found where something at least as long is known to be.
  lemma HoldsPrefix(s: seq<int>, pos: int, x: seq<int>, y: seq<int>)
    requires Holds(s, pos, x) && |y| <= |x|
    ensures Holds(s, pos, y) <==> x[..|y|] == y
  {
    assert s[pos..pos + |y|] == x[..|y|];
  }

  lemma HoldsLonger(s: seq<int>, pos: int, x: seq<int>, y: seq<int>)
    requires Holds(s, pos, x) && |x| <= |y|
    ensures Holds(s, pos, y) <==> y[..|x|] == x && Continued(s, pos, y, |x|)
  {
    if Holds(s, pos, y) {
      assert s[pos..pos + |y|][..|x|] == s[pos..pos + |x|];
      assert s[pos..pos + |y|][|x|..] == s[pos + |x|..pos + |y|];
    }
    if y[..|x|] == x && Holds(s, pos + |x|, y[|x|..]) {
      assert s[pos..pos + |y|] == s[pos..pos + |x|] + s[pos + |x|..pos + |y|];
      assert y == y[..|x|] + y[|x|..];
    }
  }

  lemma HexLengths(text: string)
    requires AllHex(text)
    ensures |HexBytes(text)| == (|text| + 1) / 2 <= |text|
    ensures |text| == 1 ==> HexBytes(text)[0] < 16 && text[0] as int >= 48
  {
    if |text| == 1 { assert HexDigit(text[0]) && text[0..1] == text; }
  }
}
