/** What the layout passes of psw.c compute, as functions of the token tree: the order in which the work list
    visits tokens, the lists it builds, the sharing of literal strings, and the sizes of the pieces. */
module PswLayout {
  import opened PswTypes
  import opened PswString

  // ----- the order of the work list

  function Weight(t: Tok): nat
    decreases t
  {
    1 + Weights(t.kids)
  }

  function Weights(ts: seq<Tok>): nat
    decreases ts
  {
    if ts == [] then 0 else Weight(ts[0]) + Weights(ts[1..])
  }

  function WorkWeight(ws: seq<seq<Tok>>): nat {
    if ws == [] then 0 else 1 + Weights(ws[0]) + WorkWeight(ws[1..])
  }

  // The nested bodies of b as they end up on the list: last one first.
  function Push(b: seq<Tok>): seq<seq<Tok>> {
    if b == [] then []
    else (if b[|b| - 1].Nested() then [b[|b| - 1].kids] else []) + Push(b[..|b| - 1])
  }

  lemma WorkWeightConcat(a: seq<seq<Tok>>, b: seq<seq<Tok>>)
    ensures WorkWeight(a + b) == WorkWeight(a) + WorkWeight(b)
  {
    if a == [] {
      assert a + b == b;
    } else {
      assert (a + b)[1..] == a[1..] + b;
    }
  }

  lemma WeightsSnoc(ts: seq<Tok>)
    requires ts != []
    ensures Weights(ts) == Weights(ts[..|ts| - 1]) + Weight(ts[|ts| - 1])
  {
    if |ts| > 1 {
      WeightsSnoc(ts[1..]);
      assert ts[1..][..|ts| - 2] == ts[..|ts| - 1][1..];
    }
  }

  lemma PushWeight(b: seq<Tok>)
    ensures WorkWeight(Push(b)) <= Weights(b)
  {
    if b != [] {
      var t := b[|b| - 1];
      PushWeight(b[..|b| - 1]);
      WeightsSnoc(b);
      WorkWeightConcat(if t.Nested() then [t.kids] else [], Push(b[..|b| - 1]));
      assert t.Nested() ==> WorkWeight([t.kids]) == 1 + Weights(t.kids);
    }
  }

  // The tokens in the order in which the work list ws hands them out.
  function Flat(ws: seq<seq<Tok>>): seq<Tok>
    decreases WorkWeight(ws)
  {
    if ws == [] then []
    else
      PushWeight(ws[0]);
      WorkWeightConcat(Push(ws[0]), ws[1..]);
      ws[0] + Flat(Push(ws[0]) + ws[1..])
  }

  // One round of the work list: c is handed out, its nested bodies go in front of the rest.
  lemma FlatStep(all: seq<Tok>, done: seq<Tok>, ws: seq<seq<Tok>>)
    requires ws != [] && all == done + Flat(ws)
    ensures all == (done + ws[0]) + Flat(Push(ws[0]) + ws[1..])
    ensures WorkWeight(Push(ws[0]) + ws[1..]) < WorkWeight(ws)
  {
    hide Push, Weights;
    PushWeight(ws[0]);
    WorkWeightConcat(Push(ws[0]), ws[1..]);
    assert (done + ws[0]) + Flat(Push(ws[0]) + ws[1..]) == done + (ws[0] + Flat(Push(ws[0]) + ws[1..]));
  }

  lemma PushSnoc(c: seq<Tok>, i: nat)
    requires i < |c|
    ensures Push(c[..i + 1]) == (if c[i].Nested() then [c[i].kids] else []) + Push(c[..i])
  {
    assert c[..i + 1][..i] == c[..i];
  }

  lemma PushNone(c: seq<Tok>)
    ensures Push(c[..0]) == []
  {
  }

  // ----- what becomes of each token

  datatype Role = Plain | InArray | InString | Lit | UserName

  function LitBytes(t: Tok): seq<int> {
    if t.kind.HexTok? then (if AllHex(t.text) then HexBytes(t.text) else [])
    else if WellEscaped(t.text) then StringBytes(t.text) else []
  }

  function RoleOf(o: Opts, t: Tok): Role {
    match t.kind
    case StringTok | HexTok => if t.formal.Some? then InString else if LitBytes(t) == [] then Plain else Lit
    case NameTok =>
      if t.formal.None? then NameRole(o, t)
      else if t.formal.value.ctype.IsChar() || t.formal.value.ctype.IsNumStr() then InString
      else if t.formal.value.sub.Some? then InArray else Plain
    case LitNameTok => if t.formal.Some? then InString else NameRole(o, t)
    case _ => Plain
  }

  function NameRole(o: Opts, t: Tok): Role {
    if t.text in o.sysNames then Plain else if o.noUserNames then Lit else UserName
  }

  // The token makes the wrap's static data writable as it is visited.
  predicate MakesWritable(t: Tok) {
    match t.kind
    case StringTok | HexTok => t.formal.Some? && !t.formal.value.ConstSub()
    case NameTok => t.formal.Some? && !t.formal.value.ConstSub()
    case LitNameTok => t.formal.Some?
    case SubscriptedTok => true
    case _ => false
  }

  predicate AnyWritable(ts: seq<Tok>) {
    ts != [] && (MakesWritable(ts[|ts| - 1]) || AnyWritable(ts[..|ts| - 1]))
  }

  // Indices of the tokens in a role, newest first, as ConsToken leaves them.
  function Picks(o: Opts, role: Role, ts: seq<Tok>): seq<nat> {
    if ts == [] then []
    else (if RoleOf(o, ts[|ts| - 1]) == role then [|ts| - 1] else []) + Picks(o, role, ts[..|ts| - 1])
  }

  function PickToks(o: Opts, role: Role, ts: seq<Tok>): seq<Tok> {
    if ts == [] then []
    else (if RoleOf(o, ts[|ts| - 1]) == role then [ts[|ts| - 1]] else []) + PickToks(o, role, ts[..|ts| - 1])
  }

  predicate InRange(idx: seq<nat>, n: nat) { forall i | 0 <= i < |idx| :: idx[i] < n }

  predicate Distinct(idx: seq<nat>) { forall i, j | 0 <= i < j < |idx| :: idx[i] != idx[j] }

  function At(ts: seq<Tok>, idx: seq<nat>): seq<Tok>
    requires InRange(idx, |ts|)
  {
    seq(|idx|, i requires 0 <= i < |idx| => ts[idx[i]])
  }

  lemma PicksRange(o: Opts, role: Role, ts: seq<Tok>)
    ensures InRange(Picks(o, role, ts), |ts|)
    ensures forall i | 0 <= i < |Picks(o, role, ts)| :: RoleOf(o, ts[Picks(o, role, ts)[i]]) == role
  {
    if ts != [] {
      PicksRange(o, role, ts[..|ts| - 1]);
    }
  }

  lemma PicksDescend(o: Opts, role: Role, ts: seq<Tok>)
    ensures forall i, j | 0 <= i < j < |Picks(o, role, ts)| :: Picks(o, role, ts)[i] > Picks(o, role, ts)[j]
  {
    if ts != [] {
      PicksDescend(o, role, ts[..|ts| - 1]);
      PicksRange(o, role, ts[..|ts| - 1]);
    }
  }

  lemma PicksDistinct(o: Opts, role: Role, ts: seq<Tok>)
    ensures Distinct(Picks(o, role, ts))
  {
    PicksDescend(o, role, ts);
  }

  lemma PicksComplete(o: Opts, role: Role, ts: seq<Tok>, k: nat)
    requires k < |ts| && RoleOf(o, ts[k]) == role
    ensures k in Picks(o, role, ts)
  {
    if k < |ts| - 1 {
      PicksComplete(o, role, ts[..|ts| - 1], k);
    }
  }

  lemma {:induction false} PickToksAt(o: Opts, role: Role, ts: seq<Tok>)
    ensures InRange(Picks(o, role, ts), |ts|)
    ensures At(ts, Picks(o, role, ts)) == PickToks(o, role, ts)
  {
    PicksRange(o, role, ts);
    if ts != [] {
      var rest := ts[..|ts| - 1];
      PickToksAt(o, role, rest);
      assert At(ts, Picks(o, role, rest)) == At(rest, Picks(o, role, rest));
    }
  }

  lemma PickSnoc(o: Opts, ts: seq<Tok>, c: seq<Tok>, i: nat)
    requires i < |c|
    ensures forall r: Role :: PickToks(o, r, ts + c[..i + 1])
                              == (if RoleOf(o, c[i]) == r then [c[i]] else []) + PickToks(o, r, ts + c[..i])
    ensures forall r: Role :: Picks(o, r, ts + c[..i + 1])
                              == (if RoleOf(o, c[i]) == r then [|ts| + i] else []) + Picks(o, r, ts + c[..i])
  {
    assert (ts + c[..i + 1])[..|ts| + i] == ts + c[..i];
  }

  // ----- compile-time sizes

  function ConstArray(t: Tok): nat {
    if t.formal.Some? && t.formal.value.ConstSub() then t.formal.value.sub.value.val * BINOBJ_SIZE else 0
  }

  function ConstString(o: Opts, t: Tok): nat {
    if t.formal.None? || !t.formal.value.ConstSub() then 0
    else if t.formal.value.ctype.IsNumStr() then NUMSTR_HEADER_SIZE
    else if o.pad then RoundUp(t.formal.value.sub.value.val)
    else t.formal.value.sub.value.val
  }

  function ConstArrays(ts: seq<Tok>): nat {
    if ts == [] then 0 else ConstArrays(ts[..|ts| - 1]) + ConstArray(ts[|ts| - 1])
  }

  function ConstStrings(o: Opts, ts: seq<Tok>): nat {
    if ts == [] then 0 else ConstStrings(o, ts[..|ts| - 1]) + ConstString(o, ts[|ts| - 1])
  }

  // ----- shared literals

  /** State of the sharing loop: the dictionary, how many strings it was given, the bytes used so far, the offset
      given to each literal, and the literals that were laid out. */
  datatype Sharing = Sharing(dict: map<string, nat>, count: nat, total: nat, locs: seq<nat>, placed: seq<Tok>)

  function ShareStep(s: Sharing, t: Tok): Sharing {
    if t.text in s.dict then s.(locs := s.locs + [s.dict[t.text]])
    else
      var full := s.count > MAXSTRINGS;
      Sharing(if full then s.dict else s.dict[t.text := s.total], if full then s.count else s.count + 1,
              s.total + |LitBytes(t)|, s.locs + [s.total], s.placed + [t])
  }

  function Share(lits: seq<Tok>): (s: Sharing)
    ensures |s.locs| == |lits|
  {
    if lits == [] then Sharing(map[], 0, 0, [], [])
    else ShareStep(Share(lits[..|lits| - 1]), lits[|lits| - 1])
  }

  function Bytes(ts: seq<Tok>): seq<int> {
    if ts == [] then [] else Bytes(ts[..|ts| - 1]) + LitBytes(ts[|ts| - 1])
  }

  // A numstring of constant length makes the data writable when its address is assigned.
  predicate AnyConstNumStr(ts: seq<Tok>) {
    ts != [] && ((ts[|ts| - 1].formal.Some? && ts[|ts| - 1].formal.value.ConstSub() && ts[|ts| - 1].formal.value.ctype.IsNumStr())
                 || AnyConstNumStr(ts[..|ts| - 1]))
  }

  /** The address after the last piece, as both CheckSize and BuildTypesAndAssignAddresses count it. */
  function TotalSize(o: Opts, body: seq<Tok>): nat {
    var ts := Flat([body]);
    BINOBJ_SIZE * |ts| + ConstArrays(PickToks(o, InArray, ts)) + Share(PickToks(o, Lit, ts)).total
    + ConstStrings(o, PickToks(o, InString, ts))
  }

  // ----- what the front end guarantees of a token

  predicate ValidTok(o: Opts, t: Tok)
    decreases t
  {
    && (t.formal.Some? ==> t.formal.value.Valid())
    && (!t.Nested() ==> t.kids == [])
    && (match t.kind
        case StringTok => if t.formal.Some? then t.formal.value.ctype.IsChar() else WellEscaped(t.text)
        case HexTok => t.formal.None? && AllHex(t.text)
        case LitNameTok => if t.formal.Some? then t.formal.value.ctype.IsChar() else o.noUserNames ==> WellEscaped(t.text)
        case NameTok => t.formal.None? && o.noUserNames ==> WellEscaped(t.text)
        case SubscriptedTok =>
          t.formal.Some? && t.formal.value.sub.Some? && !t.formal.value.ctype.IsChar() && !t.formal.value.ctype.IsNumStr()
        case _ => t.formal.None?)
    && ValidToks(o, t.kids)
  }

  predicate ValidToks(o: Opts, ts: seq<Tok>)
    decreases ts
  {
    forall i | 0 <= i < |ts| :: ValidTok(o, ts[i])
  }

  lemma {:induction false} PushValid(o: Opts, b: seq<Tok>)
    requires ValidToks(o, b)
    ensures forall w | w in Push(b) :: ValidToks(o, w)
  {
    if b != [] {
      PushValid(o, b[..|b| - 1]);
      assert ValidTok(o, b[|b| - 1]);
    }
  }

  lemma {:induction false} FlatValid(o: Opts, ws: seq<seq<Tok>>)
    requires forall w | w in ws :: ValidToks(o, w)
    ensures ValidToks(o, Flat(ws))
    decreases WorkWeight(ws)
  {
    if ws != [] {
      PushWeight(ws[0]);
      WorkWeightConcat(Push(ws[0]), ws[1..]);
      PushValid(o, ws[0]);
      FlatValid(o, Push(ws[0]) + ws[1..]);
    }
  }

  predicate Measurable(t: Tok) { if t.kind.HexTok? then AllHex(t.text) else WellEscaped(t.text) }

  // What each list may count on.
  predicate Fits(role: Role, t: Tok) {
    match role
    case InArray => t.kind.NameTok? && t.formal.Some? && t.formal.value.sub.Some?
    case InString => t.formal.Some? && t.formal.value.Valid() && (t.formal.value.ctype.IsChar() || t.formal.value.ctype.IsNumStr())
    case Lit => t.formal.None? && Measurable(t)
    case _ => true
  }

  lemma PickFits(o: Opts, role: Role, ts: seq<Tok>)
    requires ValidToks(o, ts)
    ensures forall t | t in PickToks(o, role, ts) :: Fits(role, t)
  {
    if ts != [] {
      assert ValidTok(o, ts[|ts| - 1]);
      PickFits(o, role, ts[..|ts| - 1]);
    }
  }
}
