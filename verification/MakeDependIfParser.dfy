/** makedepend's ifparser.c: a recursive-descent parser that evaluates #if expressions as it reads them. */
module MakeDependIfParser {
  import opened MakeDependShifts

  // ----- characters and tokens

  predicate Space(c: char) { c == ' ' || '\t' <= c <= '\r' }

  predicate Digit(c: char) { '0' <= c <= '9' }

  predicate Letter(c: char) { 'a' <= c <= 'z' || 'A' <= c <= 'Z' }

  predicate VarStart(c: char) { Letter(c) || c == '_' }

  predicate VarChar(c: char) { VarStart(c) || Digit(c) }

  // *cp and cp[1], with the terminating NUL.
  function Ch(s: string, i: nat): char { if i < |s| then s[i] else '\0' }

  function Drop(s: string, n: nat): (r: string)
    ensures |r| <= |s|
  {
    if n <= |s| then s[n..] else []
  }

  function Skip(s: string): (r: string)
    ensures |r| <= |s| && !Space(Ch(r, 0))
  {
    if s != [] && Space(s[0]) then Skip(s[1..]) else s
  }

  method SkipSpace(text: string, cp: nat) returns (cp': nat)
    requires cp <= |text|
    ensures cp <= cp' <= |text| && text[cp'..] == Skip(text[cp..])
  {
    cp' := cp;
    while cp' < |text| && Space(text[cp'])
      invariant cp <= cp' <= |text| && Skip(text[cp'..]) == Skip(text[cp..])
    {
      cp' := cp' + 1;
    }
  }

  // The longest run of variable characters.
  function Word(s: string): (w: string)
    ensures |w| <= |s| && w == s[..|w|] && !VarChar(Ch(s, |w|))
    ensures forall i | 0 <= i < |w| :: VarChar(w[i])
  {
    if s != [] && VarChar(s[0]) then [s[0]] + Word(s[1..]) else []
  }

  lemma {:induction false} WordIs(w: string, rest: string)
    requires (forall i | 0 <= i < |w| :: VarChar(w[i])) && !VarChar(Ch(rest, 0))
    ensures Word(w + rest) == w
  {
    hide VarChar;
    if w == [] {
      assert w + rest == rest;
    } else {
      WordIs(w[1..], rest);
      assert (w + rest)[1..] == w[1..] + rest;
    }
  }

  // The loop of parse_variable.
  method VariableEnd(text: string, cp: nat) returns (end: nat)
    requires cp < |text| && VarStart(text[cp])
    ensures cp < end <= |text| && text[cp..end] == Word(text[cp..])
  {
    end := cp + 1;
    while end < |text| && VarChar(text[end])
      invariant cp < end <= |text| && forall i | cp <= i < end :: VarChar(text[i])
    {
      end := end + 1;
    }
    assert text[cp..] == text[cp..end] + text[end..];
    WordIs(text[cp..end], text[end..]);
  }

  function DigitValue(c: char): int {
    if Digit(c) then c as int - '0' as int
    else if 'a' <= c <= 'z' then c as int - 'a' as int + 10
    else if 'A' <= c <= 'Z' then c as int - 'A' as int + 10
    else 99
  }

  datatype Read = Read(val: int, rest: string)

  function Digits(base: int, acc: int, s: string): (r: Read)
    ensures |r.rest| <= |s|
    decreases |s|
  {
    if s != [] && DigitValue(s[0]) < base then Digits(base, base * acc + DigitValue(s[0]), s[1..]) else Read(acc, s)
  }

  // strtol with base 0, on text that starts with a digit.
  function StrToL(s: string): (r: Read)
    ensures |r.rest| <= |s|
  {
    if Ch(s, 0) == '0' && (Ch(s, 1) == 'x' || Ch(s, 1) == 'X') && DigitValue(Ch(s, 2)) < 16 then Digits(16, 0, Drop(s, 2))
    else if Ch(s, 0) == '0' then Digits(8, 0, s)
    else Digits(10, 0, s)
  }

  predicate Qualifier(c: char) { c == 'U' || c == 'u' || c == 'L' || c == 'l' }

  function SkipQualifiers(s: string): (r: string)
    ensures |r| <= |s|
  {
    if s != [] && Qualifier(s[0]) then SkipQualifiers(s[1..]) else s
  }

  method SkipTrailing(text: string, cp: nat) returns (cp': nat)
    requires cp <= |text|
    ensures cp <= cp' <= |text| && text[cp'..] == SkipQualifiers(text[cp..])
  {
    cp' := cp;
    while cp' < |text| && Qualifier(text[cp'])
      invariant cp <= cp' <= |text| && SkipQualifiers(text[cp'..]) == SkipQualifiers(text[cp..])
    {
      cp' := cp' + 1;
    }
  }

  // ----- expressions

  datatype Op =
    | Mul | Div | Mod | Add | Sub | Shl | Shr | Lt | Gt | Le | Ge | Eq | Ne | BAnd | BXor | BOr | LAnd | LOr

  /** What the parser calls out to, and C arithmetic on longs. */
  datatype Env = Env(
    variable: string -> int,
    defined: string -> int,
    arith: (Op, int, int) -> int,
    compl: int -> int,
    escape: string -> int)        // a numeric escape, from what follows its backslash

  function Truth(b: bool): int { if b then 1 else 0 }

  function Apply(env: Env, op: Op, a: int, b: int): int {
    match op
    case Lt => Truth(a < b)
    case Gt => Truth(a > b)
    case Le => Truth(a <= b)
    case Ge => Truth(a >= b)
    case Eq => Truth(a == b)
    case Ne => Truth(a != b)
    case LAnd => Truth(a != 0 && b != 0)
    case LOr => Truth(a != 0 || b != 0)
    case _ => env.arith(op, a, b)
  }

  // ----- the parser; the levels are parse_value, parse_product, ... , parse_lor, parse_cond

  const VALUE := 0
  const LOR := 10
  const COND := 11

  /** The text left, and the value stored; on an error there is no text, but a value may have been stored. */
  datatype Res = Fail(val: int) | Ok(rest: string, val: int)

  datatype Found = Nothing | Bad | Operator(op: Op, len: nat)

  // The switch at each level: what *cp and cp[1] mean there.
  function OpAt(level: int, c: char, d: char): (f: Found)
    ensures f.Operator? ==> 1 <= f.len <= 2
  {
    match level
    case 1 => if c == '*' then Operator(Mul, 1) else if c == '/' then Operator(Div, 1)
              else if c == '%' then Operator(Mod, 1) else Nothing
    case 2 => if c == '+' then Operator(Add, 1) else if c == '-' then Operator(Sub, 1) else Nothing
    case 3 => if c == '<' && d == '<' then Operator(Shl, 2) else if c == '>' && d == '>' then Operator(Shr, 2) else Nothing
    case 4 => if c == '<' then if d == '=' then Operator(Le, 2) else Operator(Lt, 1)
              else if c == '>' then if d == '=' then Operator(Ge, 2) else Operator(Gt, 1) else Nothing
    case 5 => if c == '=' then Operator(Eq, if d == '=' then 2 else 1)
              else if c == '!' && d == '=' then Operator(Ne, 2) else Nothing
    case 6 => if c == '&' && d != '&' then Operator(BAnd, 1) else Nothing
    case 7 => if c == '^' then Operator(BXor, 1) else Nothing
    case 8 => if c == '|' && d != '|' then Operator(BOr, 1) else Nothing
    case 9 => if c == '&' then if d == '&' then Operator(LAnd, 2) else Bad else Nothing
    case 10 => if c == '|' then if d == '|' then Operator(LOr, 2) else Bad else Nothing
    case _ => Nothing
  }

  function Negated(env: Env, c: char, v: int): int {
    if c == '!' then Truth(v == 0) else if c == '-' then -v else env.compl(v)
  }

  function ParseValue(env: Env, s0: string): (r: Res)
    ensures r.Ok? ==> |r.rest| <= |s0|
    decreases |s0|, 0
  {
    var s := Skip(s0);
    if s == [] then Ok(s, 0)
    else match s[0]
      case '(' =>
        (match ParseIfExpression(env, s[1..])
         case Fail(v) => Fail(v)
         case Ok(rest, v) => var t := Skip(rest); if Ch(t, 0) == ')' then Ok(t[1..], v) else Fail(v))
      case '!' | '-' | '~' =>
        (match ParseValue(env, s[1..])
         case Fail(v) => Fail(v)
         case Ok(rest, v) => Ok(rest, Negated(env, s[0], v)))
      case '#' => ParseAssertion(s[1..])
      case '\'' =>
        var t := ToQuote(s[1..]);
        if t == [] then Fail(0) else Ok(t[1..], CharacterValue(env, s[1..]))
      case _ =>
        if IsDefined(s) then ParseDefined(env, Drop(s, 7))
        else if Digit(s[0]) then
          var n := StrToL(s);
          Ok(SkipQualifiers(n.rest), n.val)
        else if VarStart(s[0]) then Ok(s[|Word(s)|..], env.variable(Word(s)))
        else Fail(0)
  }

  // strncmp (cp, "defined", 7) == 0 && !isalnum (cp[7])
  predicate IsDefined(s: string) {
    |s| >= 7 && s[..7] == "defined" && !Letter(Ch(s, 7)) && !Digit(Ch(s, 7))
  }

  function ParseDefined(env: Env, s0: string): (r: Res)
    ensures r.Ok? ==> |r.rest| <= |s0|
  {
    var s := Skip(s0);
    var paren := Ch(s, 0) == '(';
    var v := Skip(if paren then s[1..] else s);
    if !VarStart(Ch(v, 0)) then Fail(0)
    else
      var t := Skip(v[|Word(v)|..]);
      if !paren then Ok(t, env.defined(Word(v)))
      else if Ch(t, 0) == ')' then Ok(t[1..], env.defined(Word(v)))
      else Fail(0)
  }

  // # variable ( variable-list )
  function ParseAssertion(s0: string): (r: Res)
    ensures r.Ok? ==> |r.rest| <= |s0|
  {
    var s := Skip(s0);
    if !VarStart(Ch(s, 0)) then Fail(0)
    else
      var t := Skip(s[|Word(s)|..]);
      if Ch(t, 0) == '(' then ParseList(t[1..]) else Fail(0)
  }

  function ParseList(s0: string): (r: Res)
    ensures r.Ok? ==> |r.rest| <= |s0|
    decreases |s0|
  {
    var s := Skip(s0);
    if !VarStart(Ch(s, 0)) then Fail(0)
    else
      var t := Skip(s[|Word(s)|..]);
      if t == [] then Fail(0) else if t[0] == ')' then Ok(t[1..], 1) else ParseList(t[1..])
  }

  function ToQuote(s: string): (r: string)
    ensures |r| <= |s|
  {
    if s == [] || s[0] == '\'' then s else ToQuote(s[1..])
  }

  // The value of a character constant, from behind its first quote.
  function CharacterValue(env: Env, s: string): int {
    var t := Skip(s);
    if Ch(t, 0) == '\\' then EscapeValue(env, Drop(t, 1)) else Ch(t, 0) as int
  }

  // The switch over what follows a backslash.
  function EscapeValue(env: Env, s: string): int {
    match Ch(s, 0)
    case 'n' => 10
    case 't' => 9
    case 'v' => 11
    case 'b' => 8
    case 'r' => 13
    case 'f' => 12
    case 'a' => 7
    case '\\' => '\\' as int
    case '?' => '?' as int
    case '\'' => '\'' as int
    case '"' => '"' as int
    case _ => env.escape(s)
  }

  // parse_product to parse_lor: the next level down, and after an operator the same level again.
  function ParseBinary(env: Env, level: nat, s: string): (r: Res)
    requires level <= LOR
    ensures r.Ok? ==> |r.rest| <= |s|
    decreases |s|, level + 1
  {
    if level == VALUE then ParseValue(env, s)
    else match ParseBinary(env, level - 1, s)
      case Fail(v) => Fail(v)
      case Ok(rest, left) =>
        var t := Skip(rest);
        match OpAt(level, Ch(t, 0), Ch(t, 1))
        case Nothing => Ok(t, left)
        case Bad => Fail(left)
        case Operator(op, len) =>
          match ParseBinary(env, level, Drop(t, len))
          case Fail(_) => Fail(left)
          case Ok(after, right) => Ok(after, Apply(env, op, left, right))
  }

  function ParseIfExpression(env: Env, s: string): (r: Res)
    ensures r.Ok? ==> |r.rest| <= |s|
    decreases |s|, COND + 1
  {
    match ParseBinary(env, LOR, s)
    case Fail(v) => Fail(v)
    case Ok(rest, v) =>
      var t := Skip(rest);
      if Ch(t, 0) != '?' then Ok(t, v)
      else match ParseIfExpression(env, t[1..])
        case Fail(_) => Fail(v)
        case Ok(rest1, trueval) =>
          var u := Skip(rest1);
          if Ch(u, 0) != ':' then Fail(v)
          else match ParseIfExpression(env, u[1..])
            case Fail(_) => Fail(v)
            case Ok(rest2, falseval) => Ok(rest2, if v != 0 then trueval else falseval)
  }

  // ----- the procedures, which move a cursor over the text

  // A procedure has stored val and returned the position end, or NULL if not ok.
  predicate Lands(text: string, r: Res, ok: bool, end: nat, val: int) {
    val == r.val && (ok <==> r.Ok?) && (ok ==> end <= |text| && text[end..] == r.rest)
  }

  lemma From(text: string, i: nat, j: nat)
    requires i + j <= |text|
    ensures text[i..][j..] == text[i + j..] && Ch(text[i..], j) == Ch(text, i + j)
  {
  }

  lemma {:induction false} DigitsSuffix(base: int, acc: int, s: string)
    ensures var r := Digits(base, acc, s).rest; r == s[|s| - |r|..]
    decreases |s|
  {
    if s != [] && DigitValue(s[0]) < base { DigitsSuffix(base, base * acc + DigitValue(s[0]), s[1..]); }
  }

  // strtol stops somewhere in the text.
  lemma StrToLSuffix(s: string)
    ensures var r := StrToL(s).rest; r == s[|s| - |r|..]
  {
    DigitsSuffix(16, 0, Drop(s, 2));
    DigitsSuffix(8, 0, s);
    DigitsSuffix(10, 0, s);
  }

  // parse_number, at a digit.
  method ParseNumberAt(text: string, cp: nat) returns (end: nat, val: int)
    requires cp < |text|
    ensures var n := StrToL(text[cp..]); val == n.val && end <= |text| && text[end..] == SkipQualifiers(n.rest)
  {
    var n := StrToL(text[cp..]);
    StrToLSuffix(text[cp..]);
    From(text, cp, |text| - cp - |n.rest|);
    end := SkipTrailing(text, |text| - |n.rest|);
    val := n.val;
  }

  // parse_variable; the name is text[start..end].
  method ParseVariableAt(text: string, cp: nat) returns (ok: bool, start: nat, end: nat)
    requires cp <= |text|
    ensures cp <= start <= |text| && text[start..] == Skip(text[cp..])
    ensures ok <==> VarStart(Ch(text[start..], 0))
    ensures ok ==> start < end <= |text| && text[start..end] == Word(text[start..])
                   && text[start..][|Word(text[start..])|..] == text[end..]
  {
    hide Skip, Word;
    start := SkipSpace(text, cp);
    end := cp;
    ok := VarStart(Ch(text, start));
    if ok {
      end := VariableEnd(text, start);
      From(text, start, end - start);
    }
  }

  // The loop of parse_character.
  method FindQuote(text: string, cp: nat) returns (end: nat)
    requires cp <= |text|
    ensures cp <= end <= |text| && text[end..] == ToQuote(text[cp..])
  {
    end := cp;
    while end < |text| && text[end] != '\''
      invariant cp <= end <= |text| && ToQuote(text[end..]) == ToQuote(text[cp..])
    {
      end := end + 1;
    }
  }

  lemma QuoteSkip(s: string)
    ensures ToQuote(Skip(s)) == ToQuote(s)
  {
  }

  method ParseCharacterAt(env: Env, text: string, cp: nat) returns (end: nat, val: int)
    requires cp <= |text|
    ensures cp <= end <= |text| && text[end..] == ToQuote(text[cp..]) && val == CharacterValue(env, text[cp..])
  {
    hide Skip, ToQuote, EscapeValue;
    var i := SkipSpace(text, cp);
    QuoteSkip(text[cp..]);
    if Ch(text, i) == '\\' {
      assert Drop(text[i..], 1) == text[i + 1..];
      val := EscapeValue(env, text[i + 1..]);
    } else {
      val := Ch(text, i) as int;
    }
    end := FindQuote(text, i);
  }

  lemma ListSteps(s0: string)
    ensures ParseList(s0) ==
              var s := Skip(s0);
              if !VarStart(Ch(s, 0)) then Fail(0)
              else
                var t := Skip(s[|Word(s)|..]);
                if t == [] then Fail(0) else if t[0] == ')' then Ok(t[1..], 1) else ParseList(t[1..])
  {
  }

  method ParseAssertionAt(text: string, cp: nat) returns (ok: bool, end: nat, val: int)
    requires cp <= |text|
    ensures Lands(text, ParseAssertion(text[cp..]), ok, end, val)
  {
    hide Skip, Word, ParseList;
    var start, i;
    ok, start, i := ParseVariableAt(text, cp);
    end, val := cp, 0;
    if !ok { return; }
    i := SkipSpace(text, i);
    if Ch(text, i) != '(' { return false, cp, 0; }
    assert text[i..][1..] == text[i + 1..];
    while true
      invariant i < |text|
      invariant ParseAssertion(text[cp..]) == ParseList(text[i + 1..])
      decreases |text| - i
    {
      ListSteps(text[i + 1..]);
      var found, j, e := ParseVariableAt(text, i + 1);
      if !found { return false, cp, 0; }
      i := SkipSpace(text, e);
      if i == |text| { return false, cp, 0; }
      assert text[i..][1..] == text[i + 1..];
      if text[i] == ')' { return true, i + 1, 1; }
    }
  }

  // The test of a definition, behind the word.
  method ParseDefinedAt(env: Env, text: string, cp: nat) returns (ok: bool, end: nat, val: int)
    requires cp <= |text|
    ensures Lands(text, ParseDefined(env, text[cp..]), ok, end, val)
  {
    hide Skip, Word;
    var i := SkipSpace(text, cp);
    var paren := Ch(text, i) == '(';
    if paren { assert text[i..][1..] == text[i + 1..]; }
    var start, e;
    ok, start, e := ParseVariableAt(text, if paren then i + 1 else i);
    end, val := cp, 0;
    if !ok { return; }
    i := SkipSpace(text, e);
    if i < |text| { assert text[i..][1..] == text[i + 1..]; }
    if paren && Ch(text, i) != ')' { return false, cp, 0; }
    end, val := if paren then i + 1 else i, env.defined(text[start..e]);
  }

  method ParseValueAt(env: Env, text: string, cp: nat) returns (ok: bool, end: nat, val: int)
    requires cp <= |text|
    ensures Lands(text, ParseValue(env, text[cp..]), ok, end, val)
    decreases |text| - cp, 0
  {
    hide ParseIfExpression, ParseBinary, ParseDefined, ParseAssertion, StrToL, Skip, Word, ToQuote, CharacterValue;
    var i := SkipSpace(text, cp);
    SkipTwice(text[cp..]);
    if i == |text| { return true, i, 0; }
    ghost var s := text[i..];
    var c := text[i];
    assert s[0] == c && s[1..] == text[i + 1..];
    assert ParseValue(env, text[cp..]) == ParseValue(env, s);
    if c == '(' {
      ok, end, val := ParseIfExpressionAt(env, text, i + 1);
      if ok {
        i := SkipSpace(text, end);
        if Ch(text, i) == ')' {
          assert text[i..][1..] == text[i + 1..];
          end := i + 1;
        } else {
          ok := false;
        }
      }
    } else if c == '!' || c == '-' || c == '~' {
      ok, end, val := ParseValueAt(env, text, i + 1);
      if ok { val := Negated(env, c, val); }
    } else if c == '#' {
      ok, end, val := ParseAssertionAt(text, i + 1);
    } else if c == '\'' {
      end, val := ParseCharacterAt(env, text, i + 1);
      ok := end < |text|;
      if ok {
        assert text[end..][1..] == text[end + 1..];
        end := end + 1;
      } else {
        val := 0;
      }
    } else {
      ok, end, val := ParseWordAt(env, text, i);
    }
  }

  // What is left of parse_value: words and numbers.
  method ParseWordAt(env: Env, text: string, i: nat) returns (ok: bool, end: nat, val: int)
    requires i < |text| && !Space(text[i]) && text[i] !in "(!-~#'"
    ensures Lands(text, ParseValue(env, text[i..]), ok, end, val)
  {
    hide ParseDefined, StrToL, Word;
    ghost var s := text[i..];
    if IsDefined(text[i..]) {
      From(text, i, 7);
      ok, end, val := ParseDefinedAt(env, text, i + 7);
    } else if Digit(text[i]) {
      end, val := ParseNumberAt(text, i);
      ok := true;
    } else if VarStart(text[i]) {
      end := VariableEnd(text, i);
      From(text, i, end - i);
      ok, val := true, env.variable(text[i..end]);
    } else {
      ok, end, val := false, i, 0;
    }
  }

  lemma OpInText(level: nat, text: string, i: nat)
    requires i <= |text|
    ensures Ch(text, i) == Ch(text[i..], 0) && Ch(text, i + 1) == Ch(text[i..], 1)
    ensures var f := OpAt(level, Ch(text, i), Ch(text, i + 1)); f.Operator? ==> i + f.len <= |text|
  {
  }

  method ParseBinaryAt(env: Env, level: nat, text: string, cp: nat) returns (ok: bool, end: nat, val: int)
    requires level <= LOR && cp <= |text|
    ensures Lands(text, ParseBinary(env, level, text[cp..]), ok, end, val)
    decreases |text| - cp, level + 1
  {
    hide ParseValue, Skip, Apply, OpAt;
    if level == VALUE {
      ok, end, val := ParseValueAt(env, text, cp);
      return;
    }
    ok, end, val := ParseBinaryAt(env, level - 1, text, cp);
    if !ok { return; }
    var i := SkipSpace(text, end);
    OpInText(level, text, i);
    match OpAt(level, Ch(text, i), Ch(text, i + 1)) {
      case Nothing => end := i;
      case Bad => ok := false;
      case Operator(op, len) =>
        From(text, i, len);
        var okr, endr, right := ParseBinaryAt(env, level, text, i + len);
        if okr { end, val := endr, Apply(env, op, val, right); } else { ok := false; }
    }
  }

  /** The procedures together compute what the functions say, to which the round trip below applies. */
  method ParseIfExpressionAt(env: Env, text: string, cp: nat) returns (ok: bool, end: nat, val: int)
    requires cp <= |text|
    ensures Lands(text, ParseIfExpression(env, text[cp..]), ok, end, val)
    decreases |text| - cp, COND + 1
  {
    hide ParseBinary, Skip;
    ok, end, val := ParseBinaryAt(env, LOR, text, cp);
    if !ok { return; }
    end := SkipSpace(text, end);
    if Ch(text, end) != '?' { return; }
    ok := false;
    assert text[end..][1..] == text[end + 1..];
    var okt, endt, trueval := ParseIfExpressionAt(env, text, end + 1);
    if !okt { return; }
    var i := SkipSpace(text, endt);
    if Ch(text, i) != ':' { return; }
    assert text[i..][1..] == text[i + 1..];
    var okf, endf, falseval := ParseIfExpressionAt(env, text, i + 1);
    if !okf { return; }
    ok, end, val := true, endf, if val != 0 then trueval else falseval;
  }

  // ----- expressions and their text

  datatype Notation = Decimal | Octal | Hex(upper: bool)

  /** A number has a notation and a suffix; the test of a definition may go without parentheses. */
  datatype Expr =
    | Num(n: nat, notation: Notation, suffix: string) | Var(name: string) | Defined(name: string, bare: bool)
    | Assertion(name: string, answers: seq<string>) | Character(ch: char) | Escaped(ch: char)
    | Not(e: Expr) | Neg(e: Expr) | Compl(e: Expr)
    | Bin(op: Op, l: Expr, r: Expr) | Cond(c: Expr, t: Expr, f: Expr)
    | Paren(e: Expr)

  function LevelOf(op: Op): (l: nat)
    ensures 1 <= l <= LOR
  {
    match op
    case Mul | Div | Mod => 1
    case Add | Sub => 2
    case Shl | Shr => 3
    case Lt | Gt | Le | Ge => 4
    case Eq | Ne => 5
    case BAnd => 6
    case BXor => 7
    case BOr => 8
    case LAnd => 9
    case LOr => 10
  }

  function OpText(op: Op): (t: string)
    ensures 1 <= |t| <= 2
  {
    match op
    case Mul => "*" case Div => "/" case Mod => "%" case Add => "+" case Sub => "-"
    case Shl => "<<" case Shr => ">>" case Lt => "<" case Gt => ">" case Le => "<=" case Ge => ">="
    case Eq => "==" case Ne => "!=" case BAnd => "&" case BXor => "^" case BOr => "|" case LAnd => "&&" case LOr => "||"
  }

  function Level(e: Expr): nat {
    match e
    case Bin(op, _, _) => LevelOf(op)
    case Cond(_, _, _) => COND
    case _ => VALUE
  }

  // A C identifier.
  predicate Name(w: string) {
    && w != [] && !('0' <= w[0] <= '9')
    && forall i | 0 <= i < |w| :: 'a' <= w[i] <= 'z' || 'A' <= w[i] <= 'Z' || w[i] == '_' || '0' <= w[i] <= '9'
  }

  predicate Suffix(t: string) { forall i | 0 <= i < |t| :: t[i] in "UuLl" }

  // White space in C.
  predicate Blank(gap: string) { forall i | 0 <= i < |gap| :: gap[i] in " \t\n\r\U{000B}\U{000C}" }

  predicate WellFormed(e: Expr) {
    match e
    case Num(_, _, t) => Suffix(t)
    case Var(w) => Name(w) && !IsDefined(w)
    case Defined(w, _) => Name(w)
    case Assertion(w, ws) => Name(w) && ws != [] && forall i | 0 <= i < |ws| :: Name(ws[i])
    case Character(c) => '!' <= c <= '~' && c != '\'' && c != '\\'
    case Escaped(c) => c in "abfnrtv\\?\""
    case Not(x) => WellFormed(x)
    case Neg(x) => WellFormed(x)
    case Compl(x) => WellFormed(x)
    case Paren(x) => WellFormed(x)
    case Bin(_, l, r) => WellFormed(l) && WellFormed(r)
    case Cond(c, t, f) => WellFormed(c) && WellFormed(t) && WellFormed(f)
  }

  // What C means by \c.
  function Code(c: char): int {
    if c in "abtnvfr" then 7 + (if c == 'a' then 0 else if c == 'b' then 1 else if c == 't' then 2 else if c == 'n' then 3
                                else if c == 'v' then 4 else if c == 'f' then 5 else 6)
    else c as int
  }

  function Eval(env: Env, e: Expr): int {
    match e
    case Num(n, _, _) => n
    case Var(w) => env.variable(w)
    case Defined(w, _) => env.defined(w)
    case Assertion(_, _) => 1
    case Character(c) => c as int
    case Escaped(c) => Code(c)
    case Not(x) => Truth(Eval(env, x) == 0)
    case Neg(x) => -Eval(env, x)
    case Compl(x) => env.compl(Eval(env, x))
    case Paren(x) => Eval(env, x)
    case Bin(op, l, r) => Apply(env, op, Eval(env, l), Eval(env, r))
    case Cond(c, t, f) => if Eval(env, c) != 0 then Eval(env, t) else Eval(env, f)
  }

  // n in the notation with the given digits.
  function Numeral(digits: string, n: nat): (d: string)
    requires |digits| >= 2
    ensures d != []
  {
    if n < |digits| then [digits[n]]
    else
      Quotient(n, |digits|);
      Numeral(digits, n / |digits|) + [digits[n % |digits|]]
  }

  lemma Quotient(n: nat, base: nat)
    requires 2 <= base <= n
    ensures 0 < n / base < n && base * (n / base) + n % base == n
  {
  }

  function NumText(n: nat, notation: Notation): (t: string)
    ensures t != []
  {
    match notation
    case Decimal => Numeral("0123456789", n)
    case Octal => "0" + Numeral("01234567", n)
    case Hex(upper) => if upper then "0X" + Numeral("0123456789ABCDEF", n) else "0x" + Numeral("0123456789abcdef", n)
  }

  function ListText(gap: string, ws: seq<string>): string {
    if ws == [] then "" else gap + ws[0] + gap + (if |ws| == 1 then ")" else ",") + ListText(gap, ws[1..])
  }

  /** The text of e where an expression of the given level may stand: operators are taken to bind to the right, and
      there are no more parentheses than that makes necessary. `gap` is white space in front of every token. */
  function Print(gap: string, level: nat, e: Expr): string
    decreases e, if Level(e) > level then 1 else 0
  {
    if Level(e) > level then gap + "(" + Print(gap, COND, e) + gap + ")"
    else match e
      case Num(n, notation, suffix) => gap + NumText(n, notation) + suffix
      case Var(w) => gap + w
      case Defined(w, bare) =>
        if bare then gap + "defined" + gap + " " + w else gap + "defined" + gap + "(" + gap + w + gap + ")"
      case Assertion(w, ws) => gap + "#" + gap + w + gap + "(" + ListText(gap, ws)
      case Character(c) => gap + "'" + [c] + "'"
      case Escaped(c) => gap + "'" + ['\\', c] + "'"
      case Not(x) => gap + "!" + Print(gap, VALUE, x)
      case Neg(x) => gap + "-" + Print(gap, VALUE, x)
      case Compl(x) => gap + "~" + Print(gap, VALUE, x)
      case Paren(x) => gap + "(" + Print(gap, COND, x) + gap + ")"
      case Bin(op, l, r) =>
        Print(gap, LevelOf(op) - 1, l) + gap + OpText(op) + Print(gap, LevelOf(op), r)
      case Cond(c, t, f) => Print(gap, LOR, c) + gap + "?" + Print(gap, COND, t) + gap + ":" + Print(gap, COND, f)
  }

  // ----- the round trip

  lemma Blanks(c: char)
    requires c in " \t\n\r\U{000B}\U{000C}"
    ensures Space(c)
  {
  }

  lemma {:induction false} SkipGap(gap: string, s: string)
    requires Blank(gap)
    ensures Skip(gap + s) == Skip(s)
  {
    if gap == [] {
      assert gap + s == s;
    } else {
      Blanks(gap[0]);
      SkipGap(gap[1..], s);
      assert (gap + s)[1..] == gap[1..] + s;
    }
  }

  lemma SkipTwice(s: string)
    ensures Skip(Skip(s)) == Skip(s)
  {
  }

  // No switch up to `level` has anything to do with text that starts with t.
  predicate Quiet(level: nat, t: string) {
    && (forall k | 1 <= k <= LOR && k <= level :: OpAt(k, Ch(t, 0), Ch(t, 1)) == Nothing)
    && (level >= COND ==> Ch(t, 0) != '?')
  }

  /** What may follow an expression read at `level`: no part of a word, no operator that binds at least as tightly. */
  predicate Stop(level: nat, s: string) { !VarChar(Ch(s, 0)) && Quiet(level, Skip(s)) }

  predicate Starts(c: char) { Space(c) || c == '(' || c == '!' || c == '-' || c == '~' || c == '#' || c == '\'' || VarChar(c) }

  lemma NumTextStarts(n: nat, notation: Notation)
    ensures Digit(NumText(n, notation)[0])
  {
    if notation.Decimal? { FirstDigit(n); }
  }

  lemma FirstDigit(n: nat)
    ensures Digit(Numeral("0123456789", n)[0])
    decreases n
  {
    if n >= 10 { FirstDigit(n / 10); }
  }

  lemma {:induction false} PrintStarts(gap: string, level: nat, e: Expr)
    requires Blank(gap) && WellFormed(e)
    ensures Print(gap, level, e) != [] && Starts(Print(gap, level, e)[0])
    decreases e
  {
    if Level(e) <= level {
      match e
      case Bin(op, l, _) => PrintStarts(gap, LevelOf(op) - 1, l);
      case Cond(c, _, _) => PrintStarts(gap, LOR, c);
      case Num(n, notation, _) => NumTextStarts(n, notation);
      case _ =>
    }
  }

  // An operator is seen at its own level and by no tighter one.
  lemma OpSeen(op: Op, more: string)
    requires more != [] && Starts(more[0])
    ensures Quiet(LevelOf(op) - 1, OpText(op) + more)
    ensures OpAt(LevelOf(op), Ch(OpText(op) + more, 0), Ch(OpText(op) + more, 1)) == Operator(op, |OpText(op)|)
    ensures Drop(OpText(op) + more, |OpText(op)|) == more
    ensures !Space(OpText(op)[0]) && !VarChar(OpText(op)[0])
  {
    var t := OpText(op) + more;
    assert Ch(t, 0) == OpText(op)[0];
    assert Ch(t, 1) == if |OpText(op)| == 2 then OpText(op)[1] else more[0];
  }

  function Parse(env: Env, level: nat, s: string): Res {
    if level >= COND then ParseIfExpression(env, s) else ParseBinary(env, level, s)
  }

  // From a level at which the text has been read up to `rest`, up to one at which nothing more is read.
  lemma {:induction false} Climb(env: Env, low: nat, level: nat, s: string, rest: string, v: int)
    requires low <= level <= COND && Quiet(level, Skip(rest))
    requires Parse(env, low, s) == Ok(rest, v) || Parse(env, low, s) == Ok(Skip(rest), v)
    ensures low < level ==> Parse(env, level, s) == Ok(Skip(rest), v)
    decreases level
  {
    SkipTwice(rest);
    if low < level - 1 {
      Climb(env, low, level - 1, s, rest, v);
    }
  }

  // What reading e at `level` in front of `rest` comes to.
  predicate ReadsAs(env: Env, gap: string, level: nat, e: Expr, rest: string) {
    Parse(env, level, Print(gap, level, e) + rest) == Ok(After(level, e, rest), Eval(env, e))
  }

  // What is left: parse_value alone does not skip white space behind it, but for a name without parentheses.
  function After(level: nat, e: Expr, rest: string): string { if level == VALUE && !Bare(e) then rest else Skip(rest) }

  predicate Bare(e: Expr) {
    match e
    case Defined(_, bare) => bare
    case Not(x) => Bare(x)
    case Neg(x) => Bare(x)
    case Compl(x) => Bare(x)
    case _ => false
  }

  lemma QuietDown(level: nat, low: nat, t: string)
    requires Quiet(level, t) && low <= level
    ensures Quiet(low, t)
  {
  }

  // An expression that needs no parentheses reads at its own level, and so at any level above.
  lemma FromOwnLevel(env: Env, gap: string, level: nat, e: Expr, rest: string)
    requires Level(e) <= level <= COND && Stop(level, rest) && ReadsAs(env, gap, Level(e), e, rest)
    ensures ReadsAs(env, gap, level, e, rest)
  {
    hide ParseBinary, ParseIfExpression, ParseValue, Eval, Quiet;
    assert Print(gap, level, e) == Print(gap, Level(e), e);
    Climb(env, Level(e), level, Print(gap, level, e) + rest, rest, Eval(env, e));
  }

  // A number is read up to the first character that is no digit of its base.
  lemma {:induction false} DigitsRead(base: int, acc: int, d: string, rest: string)
    requires (forall i | 0 <= i < |d| :: DigitValue(d[i]) < base) && base <= DigitValue(Ch(rest, 0)) && base <= 16
    ensures Digits(base, acc, d + rest) == Read(Digits(base, acc, d).val, rest)
    decreases |d|
  {
    hide DigitValue;
    if d == [] {
      assert d + rest == rest;
    } else {
      assert (d + rest)[1..] == d[1..] + rest;
      DigitsRead(base, base * acc + DigitValue(d[0]), d[1..], rest);
    }
  }

  lemma {:induction false} DigitsSnoc(base: int, acc: int, d: string, c: char)
    requires (forall i | 0 <= i < |d| :: DigitValue(d[i]) < base) && DigitValue(c) < base
    ensures Digits(base, acc, d + [c]).val == base * Digits(base, acc, d).val + DigitValue(c)
    decreases |d|
  {
    hide DigitValue;
    if d == [] {
      assert d + [c] == [c] && [c][1..] == [];
    } else {
      assert (d + [c])[1..] == d[1..] + [c];
      DigitsSnoc(base, base * acc + DigitValue(d[0]), d[1..], c);
    }
  }

  predicate DigitsOf(digits: string) { 2 <= |digits| <= 16 && forall i | 0 <= i < |digits| :: DigitValue(digits[i]) == i }

  lemma {:induction false} NumeralRead(digits: string, n: nat)
    requires DigitsOf(digits)
    ensures var d := Numeral(digits, n);
            && Digits(|digits|, 0, d).val == n && (forall i | 0 <= i < |d| :: DigitValue(d[i]) < |digits|)
            && (n > 0 ==> DigitValue(d[0]) > 0) && (n == 0 ==> d == [digits[0]])
    decreases n
  {
    hide DigitValue;
    if n < |digits| {
      assert [digits[n]][1..] == [];
      assert Digits(|digits|, |digits| * 0 + n, []).val == n;
    } else {
      Quotient(n, |digits|);
      NumeralRead(digits, n / |digits|);
      DigitsSnoc(|digits|, 0, Numeral(digits, n / |digits|), digits[n % |digits|]);
    }
  }

  // No digit of any base, no x, nothing of a suffix.
  predicate Behind(tail: string) { 16 <= DigitValue(Ch(tail, 0)) && Ch(tail, 0) != 'x' && Ch(tail, 0) != 'X' }

  lemma {:induction false} SuffixSkipped(suffix: string, rest: string)
    requires Suffix(suffix) && !VarChar(Ch(rest, 0))
    ensures Behind(suffix + rest) && SkipQualifiers(suffix + rest) == rest
  {
    if suffix == [] {
      assert suffix + rest == rest;
    } else {
      assert suffix[0] in "UuLl";
      assert (suffix + rest)[1..] == suffix[1..] + rest;
      SuffixSkipped(suffix[1..], rest);
    }
  }

  // strtol gives back a number in any notation.
  lemma NumberRead(n: nat, notation: Notation, tail: string)
    requires Behind(tail)
    ensures StrToL(NumText(n, notation) + tail) == Read(n, tail)
  {
    hide Numeral, StrToL;
    match notation {
      case Decimal => DecimalRead(n, tail);
      case Octal => OctalRead(n, tail);
      case Hex(upper) =>
        if upper { HexRead(n, "0X", "0123456789ABCDEF", tail); } else { HexRead(n, "0x", "0123456789abcdef", tail); }
    }
  }

  lemma OctalRead(n: nat, tail: string)
    requires Behind(tail)
    ensures StrToL(NumText(n, Octal) + tail) == Read(n, tail)
  {
    var m := Numeral("01234567", n);
    NumeralRead("01234567", n);
    hide Numeral;
    var s := m + tail;
    assert NumText(n, Octal) + tail == "0" + s && ("0" + s)[1..] == s && s[0] == m[0];
    OctalDigits(s);
    DigitsRead(8, 0, m, tail);
  }

  lemma OctalDigits(s: string)
    requires s != [] && DigitValue(s[0]) < 8
    ensures StrToL("0" + s) == Digits(8, 0, s)
  {
    assert ("0" + s)[1..] == s && Ch("0" + s, 1) == s[0];
  }

  lemma HexRead(n: nat, x: string, digits: string, tail: string)
    requires Behind(tail) && (x == "0x" || x == "0X") && DigitsOf(digits) && |digits| == 16
    ensures StrToL(x + Numeral(digits, n) + tail) == Read(n, tail)
  {
    var m := Numeral(digits, n);
    NumeralRead(digits, n);
    hide Numeral, DigitValue, StrToL, Digits;
    var s := m + tail;
    Behindmost(x, m, tail);
    assert s[0] == m[0];
    HexDigits(x, s);
    DigitsRead(16, 0, m, tail);
  }

  lemma HexDigits(x: string, s: string)
    requires (x == "0x" || x == "0X") && s != [] && DigitValue(s[0]) < 16
    ensures StrToL(x + s) == Digits(16, 0, s)
  {
    hide DigitValue, Digits;
    assert Drop(x + s, 2) == s && Ch(x + s, 2) == s[0] && Ch(x + s, 0) == x[0] && Ch(x + s, 1) == x[1];
  }

  lemma DecimalRead(n: nat, tail: string)
    requires Behind(tail)
    ensures StrToL(Numeral("0123456789", n) + tail) == Read(n, tail)
  {
    var m := Numeral("0123456789", n);
    NumeralRead("0123456789", n);
    var s := m + tail;
    assert s[0] == m[0];
    if n == 0 {
      assert s[1..] == tail && Ch(s, 1) == Ch(tail, 0);
      assert Digits(8, 0, s) == Digits(8, 0, tail) == Read(0, tail);
    } else {
      DigitsRead(10, 0, m, tail);
    }
  }

  // White space in front makes no difference to parse_value.
  lemma ValueSkips(env: Env, gap: string, s: string)
    requires Blank(gap)
    ensures ParseValue(env, gap + s) == ParseValue(env, Skip(s))
    ensures ParseBinary(env, VALUE, gap + s) == ParseValue(env, gap + s)
  {
    SkipGap(gap, s);
    SkipTwice(s);
  }

  // Text that starts with a word.
  lemma WordValue(env: Env, s: string)
    requires s != [] && VarChar(s[0]) && !IsDefined(s)
    ensures Skip(s) == s
    ensures ParseValue(env, s) == if Digit(s[0]) then Ok(SkipQualifiers(StrToL(s).rest), StrToL(s).val)
                                  else Ok(s[|Word(s)|..], env.variable(Word(s)))
  {
  }

  lemma NoWord(s: string)
    requires s != [] && s[0] != 'd'
    ensures !IsDefined(s)
  {
    assert |s| >= 7 ==> s[..7][0] == s[0] && "defined"[0] == 'd';
  }

  lemma NumReads(env: Env, gap: string, e: Expr, rest: string)
    requires Blank(gap) && !VarChar(Ch(rest, 0)) && e.Num? && WellFormed(e)
    ensures ReadsAs(env, gap, VALUE, e, rest)
  {
    hide ParseValue, StrToL, NumText, Skip, IsDefined, SkipQualifiers, Suffix, DigitValue;
    var d := NumText(e.n, e.notation);
    var s := d + (e.suffix + rest);
    NumTextStarts(e.n, e.notation);
    assert s[0] == d[0];
    SuffixSkipped(e.suffix, rest);
    NumberRead(e.n, e.notation, e.suffix + rest);
    NoWord(s);
    WordValue(env, s);
    ValueSkips(env, gap, s);
    assert Print(gap, VALUE, e) + rest == gap + s;
  }

  lemma VarReads(env: Env, gap: string, w: string, rest: string)
    requires Blank(gap) && !VarChar(Ch(rest, 0)) && Name(w) && !IsDefined(w)
    ensures ReadsAs(env, gap, VALUE, Var(w), rest)
  {
    hide ParseValue, StrToL, Skip, Word;
    var s := w + rest;
    assert s[0] == w[0];
    WordIs(w, rest);
    NotDefined(w, rest);
    WordValue(env, s);
    ValueSkips(env, gap, s);
    assert s[|w|..] == rest;
    assert Print(gap, VALUE, Var(w)) + rest == gap + s;
  }

  lemma NotDefined(w: string, rest: string)
    requires Name(w) && !IsDefined(w) && !VarChar(Ch(rest, 0))
    ensures !IsDefined(w + rest)
  {
    var s := w + rest;
    assert Ch(s, |w|) == Ch(rest, 0);
    if |w| >= 7 {
      assert w[..7] == s[..7];
      if |w| > 7 { assert s[7] == w[7]; }
    } else if |s| >= 7 {
      assert s[..7][|w|] == s[|w|];
    }
  }

  // parse_value from behind the word "defined".
  lemma ParenName(env: Env, gap: string, w: string, rest: string)
    requires Blank(gap) && Name(w)
    ensures ParseDefined(env, gap + ("(" + (gap + (w + (gap + (")" + rest)))))) == Ok(rest, env.defined(w))
  {
    var close := gap + (")" + rest);
    var inner := w + close;
    var open := "(" + (gap + inner);
    SkipGap(gap, open);
    assert open[1..] == gap + inner;
    SkipGap(gap, inner);
    assert inner[0] == w[0];
    assert Ch(close, 0) == if gap == [] then ')' else gap[0];
    WordIs(w, close);
    assert inner[|w|..] == close;
    SkipGap(gap, ")" + rest);
    assert (")" + rest)[1..] == rest;
  }

  lemma DefinedWord(env: Env, tail: string)
    requires tail != [] && !VarChar(tail[0])
    ensures Skip("defined" + tail) == "defined" + tail
    ensures ParseValue(env, "defined" + tail) == ParseDefined(env, tail)
  {
    var s := "defined" + tail;
    assert s[..7] == "defined" && Drop(s, 7) == tail && Ch(s, 7) == tail[0] && s[0] == 'd';
  }

  // The same without parentheses.
  lemma BareName(env: Env, gap: string, w: string, rest: string)
    requires Blank(gap) && Name(w) && !VarChar(Ch(rest, 0))
    ensures ParseDefined(env, gap + (" " + (w + rest))) == Ok(Skip(rest), env.defined(w))
  {
    var s := w + rest;
    SkipGap(gap, " " + s);
    SkipGap(" ", s);
    assert s[0] == w[0];
    WordIs(w, rest);
    assert s[|w|..] == rest;
  }

  lemma BareReads(env: Env, gap: string, w: string, rest: string)
    requires Blank(gap) && Name(w) && !VarChar(Ch(rest, 0))
    ensures ReadsAs(env, gap, VALUE, Defined(w, true), rest)
  {
    hide ParseValue, ParseDefined, Skip;
    var tail := gap + (" " + (w + rest));
    assert tail[0] == if gap == [] then ' ' else gap[0];
    BareName(env, gap, w, rest);
    DefinedWord(env, tail);
    ValueSkips(env, gap, "defined" + tail);
    assert Print(gap, VALUE, Defined(w, true)) + rest == gap + ("defined" + tail);
  }

  lemma DefinedReads(env: Env, gap: string, w: string, rest: string)
    requires Blank(gap) && Name(w)
    ensures ReadsAs(env, gap, VALUE, Defined(w, false), rest)
  {
    hide ParseValue, ParseDefined, Skip, Print, Name;
    var tail := gap + ("(" + (gap + (w + (gap + (")" + rest)))));
    assert tail[0] == if gap == [] then '(' else gap[0];
    ParenName(env, gap, w, rest);
    DefinedWord(env, tail);
    ValueSkips(env, gap, "defined" + tail);
    DefinedText(gap, w, rest);
  }

  lemma DefinedText(gap: string, w: string, rest: string)
    ensures Print(gap, VALUE, Defined(w, false)) + rest
            == gap + ("defined" + (gap + ("(" + (gap + (w + (gap + (")" + rest)))))))
  {
    Regroup(gap + "defined" + gap + "(" + gap, w, gap, ")", rest);
    Regroup(gap, "defined", gap, "(", gap + (w + (gap + (")" + rest))));
    Behindmost(gap + "defined" + gap + "(", gap, w + (gap + (")" + rest)));
  }

  // The list behind an assertion's name.
  lemma {:induction false} ListReads(gap: string, ws: seq<string>, rest: string)
    requires Blank(gap) && ws != [] && forall i | 0 <= i < |ws| :: Name(ws[i])
    ensures ParseList(ListText(gap, ws) + rest) == Ok(rest, 1)
    decreases |ws|
  {
    hide Skip, Word, Name, ListText, ParseList;
    var w := ws[0];
    var after := ListText(gap, ws[1..]) + rest;
    var mark := if |ws| == 1 then ")" else ",";
    ListCons(gap, ws, rest);
    NameBehind(gap, w, mark + after);
    ListSteps(gap + (w + (gap + (mark + after))));
    assert (mark + after)[1..] == after;
    if |ws| > 1 { ListReads(gap, ws[1..], rest); }
  }

  lemma ListCons(gap: string, ws: seq<string>, rest: string)
    requires ws != []
    ensures ListText(gap, ws) + rest
            == gap + (ws[0] + (gap + ((if |ws| == 1 then ")" else ",") + (ListText(gap, ws[1..]) + rest))))
    ensures |ws| == 1 ==> ListText(gap, ws[1..]) + rest == rest
  {
    var mark := if |ws| == 1 then ")" else ",";
    var t := ListText(gap, ws[1..]);
    assert ListText(gap, ws) == gap + ws[0] + gap + mark + t;
    assert |ws| == 1 ==> t == "" && t + rest == rest;
    hide ListText;
    Regroup(gap, ws[0], gap, mark, t + rest);
    Behindmost(gap + ws[0] + gap + mark, t, rest);
  }

  lemma Behindmost(a: string, b: string, c: string)
    ensures a + b + c == a + (b + c)
  {
  }

  // A name between white space, in front of a mark.
  lemma NameBehind(gap: string, w: string, t: string)
    requires Blank(gap) && Name(w) && t != [] && !Space(t[0]) && !VarChar(t[0])
    ensures var s := w + (gap + t);
            Skip(gap + s) == s && VarStart(Ch(s, 0)) && Word(s) == w && Skip(s[|w|..]) == t
  {
    var s := w + (gap + t);
    SkipGap(gap, s);
    SkipGap(gap, t);
    assert s[0] == w[0];
    assert Ch(gap + t, 0) == if gap == [] then t[0] else gap[0];
    WordIs(w, gap + t);
    assert s[|w|..] == gap + t;
  }

  lemma AssertionReads(env: Env, gap: string, e: Expr, rest: string)
    requires Blank(gap) && e.Assertion? && WellFormed(e)
    ensures ReadsAs(env, gap, VALUE, e, rest)
  {
    hide Skip, Word, Name, ParseList, ListText, ParseValue, Print;
    var list := ListText(gap, e.answers) + rest;
    var s := gap + (e.name + (gap + ("(" + list)));
    NameBehind(gap, e.name, "(" + list);
    assert ("(" + list)[1..] == list;
    ListReads(gap, e.answers, rest);
    assert ParseAssertion(s) == Ok(rest, 1);
    AssertionValue(env, s);
    ValueSkips(env, gap, "#" + s);
    AssertionText(gap, e, rest);
  }

  lemma AssertionText(gap: string, e: Expr, rest: string)
    requires e.Assertion?
    ensures Print(gap, VALUE, e) + rest == gap + ("#" + (gap + (e.name + (gap + ("(" + (ListText(gap, e.answers) + rest))))))
  {
    hide ListText;
    var list := ListText(gap, e.answers);
    Regroup(gap + "#" + gap + e.name, gap, "(", list, rest);
    Regroup(gap, "#", gap, e.name, gap + ("(" + (list + rest)));
    assert Print(gap, VALUE, e) == gap + "#" + gap + e.name + gap + "(" + list;
  }

  lemma AssertionValue(env: Env, s: string)
    ensures Skip("#" + s) == "#" + s && ParseValue(env, "#" + s) == ParseAssertion(s)
  {
    assert ("#" + s)[1..] == s;
  }

  lemma CharacterReads(env: Env, gap: string, e: Expr, rest: string)
    requires Blank(gap) && (e.Character? || e.Escaped?) && WellFormed(e)
    ensures ReadsAs(env, gap, VALUE, e, rest)
  {
    hide ParseValue, Print;
    var inner := if e.Character? then [e.ch] else ['\\', e.ch];
    var s := inner + ("'" + rest);
    CharacterInside(env, e, rest);
    QuoteValue(env, s);
    assert ("'" + rest)[1..] == rest;
    ValueSkips(env, gap, "'" + s);
    CharacterText(gap, e, inner, rest);
  }

  lemma CharacterText(gap: string, e: Expr, inner: string, rest: string)
    requires (e.Character? && inner == [e.ch]) || (e.Escaped? && inner == ['\\', e.ch])
    ensures Print(gap, VALUE, e) + rest == gap + ("'" + (inner + ("'" + rest)))
  {
    Regroup(gap, "'", inner, "'", rest);
  }

  // What stands between the quotes.
  lemma CharacterInside(env: Env, e: Expr, rest: string)
    requires (e.Character? || e.Escaped?) && WellFormed(e)
    ensures var s := (if e.Character? then [e.ch] else ['\\', e.ch]) + ("'" + rest);
            ToQuote(s) == "'" + rest && CharacterValue(env, s) == Eval(env, e)
  {
    var inner := if e.Character? then [e.ch] else ['\\', e.ch];
    var s := inner + ("'" + rest);
    assert s[0] == inner[0] && Skip(s) == s;
    if e.Character? {
      assert s[1..] == "'" + rest;
    } else {
      assert e.ch != '\'';
      assert s[1..] == [e.ch] + ("'" + rest) && s[1..][0] == e.ch && s[1..][1..] == "'" + rest;
      assert ("'" + rest)[0] == '\'' && ToQuote(s[1..]) == ToQuote("'" + rest) == "'" + rest;
      assert ToQuote(s) == ToQuote(s[1..]);
      assert Drop(s, 1) == s[1..];
      Codes(env, e.ch, s[1..]);
    }
  }

  lemma Codes(env: Env, c: char, s: string)
    requires c in "abfnrtv\\?\"" && s != [] && s[0] == c
    ensures EscapeValue(env, s) == Code(c) && c != '\''
  {
  }

  lemma QuoteValue(env: Env, s: string)
    ensures Skip("'" + s) == "'" + s
    ensures ParseValue(env, "'" + s) == if ToQuote(s) == [] then Fail(0) else Ok(ToQuote(s)[1..], CharacterValue(env, s))
  {
    assert ("'" + s)[1..] == s;
  }

  lemma UnaryReads(env: Env, gap: string, e: Expr, rest: string)
    requires Blank(gap)
    requires match e case Not(x) => ReadsAs(env, gap, VALUE, x, rest) case Neg(x) => ReadsAs(env, gap, VALUE, x, rest)
             case Compl(x) => ReadsAs(env, gap, VALUE, x, rest) case _ => false
    ensures ReadsAs(env, gap, VALUE, e, rest)
  {
    hide Print, ParseBinary, Eval, ParseValue, ParseIfExpression, Skip, Negated;
    var c := if e.Not? then '!' else if e.Neg? then '-' else '~';
    var t := Print(gap, VALUE, e.e) + rest;
    UnaryText(env, gap, e, c);
    assert Print(gap, VALUE, e) + rest == gap + ([c] + t);
    ValueSkips(env, gap, [c] + t);
    UnaryValue(env, c, t);
    ValueLevel(env, t);
  }

  lemma UnaryValue(env: Env, c: char, t: string)
    requires c == '!' || c == '-' || c == '~'
    ensures ParseValue(env, t).Ok? ==>
              ParseValue(env, Skip([c] + t)) == Ok(ParseValue(env, t).rest, Negated(env, c, ParseValue(env, t).val))
  {
    hide Negated, ParseIfExpression, ParseDefined, ParseAssertion, StrToL, Word, ToQuote;
    assert Skip([c] + t) == [c] + t && ([c] + t)[1..] == t;
  }

  lemma ValueLevel(env: Env, s: string)
    ensures ParseBinary(env, VALUE, s) == ParseValue(env, s)
  {
  }

  lemma UnaryText(env: Env, gap: string, e: Expr, c: char)
    requires (e.Not? && c == '!') || (e.Neg? && c == '-') || (e.Compl? && c == '~')
    ensures Print(gap, VALUE, e) == gap + [c] + Print(gap, VALUE, e.e)
    ensures Eval(env, e) == Negated(env, c, Eval(env, e.e))
  {
  }

  // Text that starts with a blank or a mark in front of which an expression may end.
  lemma StopGap(gap: string, mark: string, level: nat)
    requires Blank(gap) && mark != [] && !Space(mark[0]) && !VarChar(mark[0]) && Quiet(level, mark)
    ensures Stop(level, gap + mark) && Skip(gap + mark) == mark
  {
    SkipGap(gap, mark);
    assert gap == [] ==> gap + mark == mark;
  }

  lemma Regroup(a: string, g: string, q: string, b: string, rest: string)
    ensures a + g + q + b + rest == a + (g + (q + (b + rest)))
  {
  }

  lemma CondText(gap: string, c: Expr, t: Expr, f: Expr, rest: string)
    ensures Print(gap, COND, Cond(c, t, f)) + rest
            == Print(gap, LOR, c) + (gap + ("?" + (Print(gap, COND, t) + (gap + (":" + (Print(gap, COND, f) + rest))))))
  {
    var a, b, z := Print(gap, LOR, c), Print(gap, COND, t), Print(gap, COND, f);
    Regroup(a + gap + "?" + b, gap, ":", z, rest);
    Regroup(a, gap, "?", b, gap + (":" + (z + rest)));
  }

  lemma BinText(gap: string, op: Op, l: Expr, r: Expr, rest: string)
    ensures Print(gap, LevelOf(op), Bin(op, l, r)) + rest
            == Print(gap, LevelOf(op) - 1, l) + (gap + (OpText(op) + (Print(gap, LevelOf(op), r) + rest)))
  {
    Regroup(Print(gap, LevelOf(op) - 1, l), gap, OpText(op), Print(gap, LevelOf(op), r), rest);
  }

  lemma ParenText(gap: string, e: Expr, rest: string)
    ensures Print(gap, VALUE, Paren(e)) + rest == gap + ("(" + (Print(gap, COND, e) + (gap + (")" + rest))))
    ensures Level(e) > VALUE ==> Print(gap, VALUE, e) == Print(gap, VALUE, Paren(e))
  {
    Regroup(gap, "(", Print(gap, COND, e), gap + ")", rest);
    assert gap + ")" + rest == gap + (")" + rest);
    assert gap + "(" + Print(gap, COND, e) + (gap + ")") == gap + "(" + Print(gap, COND, e) + gap + ")";
  }

  lemma ParenSame(env: Env, e: Expr)
    ensures Eval(env, Paren(e)) == Eval(env, e)
  {
  }

  lemma ParenReads(env: Env, gap: string, e: Expr, rest: string)
    requires Blank(gap) && ReadsAs(env, gap, COND, e, gap + (")" + rest))
    ensures ReadsAs(env, gap, VALUE, Paren(e), rest)
    ensures Level(e) > VALUE ==> ReadsAs(env, gap, VALUE, e, rest)
  {
    ParenSame(env, e);
    hide ParseIfExpression, ParseValue, Print, Eval, Quiet, OpAt, Skip;
    var inner := Print(gap, COND, e) + (gap + (")" + rest));
    var s := "(" + inner;
    assert Quiet(COND, ")" + rest) by { CloseQuiet(rest); }
    StopGap(gap, ")" + rest, COND);
    assert s[1..] == inner && (")" + rest)[1..] == rest;
    ValueSkips(env, gap, s);
    SkipTwice(gap + (")" + rest));
    ParenValue(env, s);
    ParenText(gap, e, rest);
  }

  lemma CloseQuiet(rest: string)
    ensures Quiet(COND, ")" + rest) && Quiet(COND, ":" + rest)
  {
  }

  lemma ParenValue(env: Env, s: string)
    requires s != [] && s[0] == '('
    ensures Skip(s) == s
    ensures ParseValue(env, s)
            == match ParseIfExpression(env, s[1..])
               case Fail(v) => Fail(v)
               case Ok(rest, v) => if Ch(Skip(rest), 0) == ')' then Ok(Skip(rest)[1..], v) else Fail(v)
  {
  }

  // An operator and both its operands.
  lemma BinaryStep(env: Env, level: nat, s: string, left: Res, t: string, op: Op, len: nat, right: Res)
    requires 1 <= level <= LOR && ParseBinary(env, level - 1, s) == left && left.Ok? && Skip(left.rest) == t
    requires OpAt(level, Ch(t, 0), Ch(t, 1)) == Operator(op, len) && 1 <= len <= |t|
    requires ParseBinary(env, level, Drop(t, len)) == right && right.Ok?
    ensures ParseBinary(env, level, s) == Ok(right.rest, Apply(env, op, left.val, right.val))
  {
    hide Apply, Skip;
  }

  lemma BinReads(env: Env, gap: string, op: Op, l: Expr, r: Expr, rest: string)
    requires Blank(gap) && WellFormed(r)
    requires ReadsAs(env, gap, LevelOf(op) - 1, l, gap + (OpText(op) + (Print(gap, LevelOf(op), r) + rest)))
    requires ReadsAs(env, gap, LevelOf(op), r, rest)
    ensures ReadsAs(env, gap, LevelOf(op), Bin(op, l, r), rest)
  {
    hide OpAt, OpText, Apply, Skip, Starts, Quiet, Print, ParseBinary, ParseIfExpression, ParseValue;
    var k := LevelOf(op);
    var right := Print(gap, k, r) + rest;
    var after := gap + (OpText(op) + right);
    PrintStarts(gap, k, r);
    assert right[0] == Print(gap, k, r)[0];
    OpSeen(op, right);
    assert (OpText(op) + right)[0] == OpText(op)[0];
    StopGap(gap, OpText(op) + right, k - 1);
    SkipTwice(after);
    BinText(gap, op, l, r, rest);
    BinaryStep(env, k, Print(gap, k - 1, l) + after, ParseBinary(env, k - 1, Print(gap, k - 1, l) + after),
               OpText(op) + right, op, |OpText(op)|, ParseBinary(env, k, right));
  }

  // A condition and both its branches.
  lemma CondStep(env: Env, s: string, c: Res, second: string, t: Res, third: string, f: Res)
    requires ParseBinary(env, LOR, s) == c && c.Ok? && Skip(c.rest) == "?" + second
    requires ParseIfExpression(env, second) == t && t.Ok? && Skip(t.rest) == ":" + third
    requires ParseIfExpression(env, third) == f && f.Ok?
    ensures ParseIfExpression(env, s) == Ok(f.rest, if c.val != 0 then t.val else f.val)
  {
    hide ParseBinary, Skip;
    assert ("?" + second)[1..] == second && (":" + third)[1..] == third;
  }

  lemma CondReads(env: Env, gap: string, c: Expr, t: Expr, f: Expr, rest: string)
    requires Blank(gap)
    requires var third := Print(gap, COND, f) + rest; var second := Print(gap, COND, t) + (gap + (":" + third));
             && ReadsAs(env, gap, LOR, c, gap + ("?" + second))
             && ReadsAs(env, gap, COND, t, gap + (":" + third))
             && ReadsAs(env, gap, COND, f, rest)
    ensures ReadsAs(env, gap, COND, Cond(c, t, f), rest)
  {
    hide OpAt, Quiet, Print, ParseBinary, ParseIfExpression, Skip;
    var third := Print(gap, COND, f) + rest;
    var second := Print(gap, COND, t) + (gap + (":" + third));
    var s := Print(gap, LOR, c) + (gap + ("?" + second));
    QuestionQuiet(second);
    CloseQuiet(third);
    StopGap(gap, "?" + second, LOR);
    StopGap(gap, ":" + third, COND);
    SkipTwice(gap + ("?" + second));
    SkipTwice(gap + (":" + third));
    CondText(gap, c, t, f, rest);
    CondStep(env, s, ParseBinary(env, LOR, s), second, ParseIfExpression(env, second), third, ParseIfExpression(env, third));
  }

  lemma QuestionQuiet(s: string)
    ensures Quiet(LOR, "?" + s)
  {
  }

  // An expression without parentheses around it, at its own level.
  lemma {:induction false} OwnLevel(env: Env, gap: string, e: Expr, rest: string)
    requires Blank(gap) && WellFormed(e) && Stop(Level(e), rest)
    ensures ReadsAs(env, gap, Level(e), e, rest)
    decreases e, 0
  {
    hide ReadsAs, Quiet, OpAt, Skip;
    match e {
      case Num(_, _, _) => NumReads(env, gap, e, rest);
      case Var(w) => VarReads(env, gap, w, rest);
      case Defined(w, bare) => if bare { BareReads(env, gap, w, rest); } else { DefinedReads(env, gap, w, rest); }
      case Assertion(_, _) => AssertionReads(env, gap, e, rest);
      case Character(_) => CharacterReads(env, gap, e, rest);
      case Escaped(_) => CharacterReads(env, gap, e, rest);
      case Not(x) =>
        ReadsBack(env, gap, VALUE, x, rest);
        UnaryReads(env, gap, e, rest);
      case Neg(x) =>
        ReadsBack(env, gap, VALUE, x, rest);
        UnaryReads(env, gap, e, rest);
      case Compl(x) =>
        ReadsBack(env, gap, VALUE, x, rest);
        UnaryReads(env, gap, e, rest);
      case Paren(x) =>
        CloseQuiet(rest);
        StopGap(gap, ")" + rest, COND);
        ReadsBack(env, gap, COND, x, gap + (")" + rest));
        ParenReads(env, gap, x, rest);
      case Bin(op, l, r) =>
        var right := Print(gap, LevelOf(op), r) + rest;
        PrintStarts(gap, LevelOf(op), r);
        assert right[0] == Print(gap, LevelOf(op), r)[0];
        OpSeen(op, right);
        assert (OpText(op) + right)[0] == OpText(op)[0];
        StopGap(gap, OpText(op) + right, LevelOf(op) - 1);
        ReadsBack(env, gap, LevelOf(op) - 1, l, gap + (OpText(op) + right));
        ReadsBack(env, gap, LevelOf(op), r, rest);
        BinReads(env, gap, op, l, r, rest);
      case Cond(c, t, f) =>
        var third := Print(gap, COND, f) + rest;
        var second := Print(gap, COND, t) + (gap + (":" + third));
        QuestionQuiet(second);
        CloseQuiet(third);
        StopGap(gap, "?" + second, LOR);
        StopGap(gap, ":" + third, COND);
        ReadsBack(env, gap, LOR, c, gap + ("?" + second));
        ReadsBack(env, gap, COND, t, gap + (":" + third));
        ReadsBack(env, gap, COND, f, rest);
        CondReads(env, gap, c, t, f, rest);
    }
  }

  /** Reading at any level what is printed for that level gives the value of the expression and stops at its end. */
  lemma {:induction false} ReadsBack(env: Env, gap: string, level: nat, e: Expr, rest: string)
    requires Blank(gap) && WellFormed(e) && level <= COND && Stop(level, rest)
    ensures ReadsAs(env, gap, level, e, rest)
    decreases e, if Level(e) > level then 2 else 1
  {
    hide Quiet, OpAt, Skip, ParseBinary, ParseIfExpression, Eval;
    if Level(e) > level {
      CloseQuiet(rest);
      StopGap(gap, ")" + rest, COND);
      ReadsBack(env, gap, COND, e, gap + (")" + rest));
      ParenReads(env, gap, e, rest);
      assert Print(gap, level, e) == Print(gap, VALUE, e);
      Climb(env, VALUE, level, Print(gap, level, e) + rest, rest, Eval(env, e));
    } else {
      QuietDown(level, Level(e), Skip(rest));
      OwnLevel(env, gap, e, rest);
      FromOwnLevel(env, gap, level, e, rest);
    }
  }

  /** The whole text of an expression: all of it is read, and the value is that of the expression. */
  lemma ParseRoundTrip(env: Env, gap: string, e: Expr, blanks: string)
    requires Blank(gap) && Blank(blanks) && WellFormed(e)
    ensures ParseIfExpression(env, Print(gap, COND, e) + blanks) == Ok("", Eval(env, e))
  {
    SkipGap(blanks, "");
    assert blanks + "" == blanks;
    assert Stop(COND, blanks);
    ReadsBack(env, gap, COND, e, blanks);
  }

  // What an expression's whole text is read as.
  function Value(env: Env, gap: string, e: Expr): Res { ParseIfExpression(env, Print(gap, COND, e)) }

  predicate IsTruth(r: Res) { r == Ok("", 0) || r == Ok("", 1) }

  lemma Valued(env: Env, gap: string, e: Expr)
    requires Blank(gap) && WellFormed(e)
    ensures Value(env, gap, e) == Ok("", Eval(env, e))
  {
    ParseRoundTrip(env, gap, e, "");
    assert Print(gap, COND, e) + "" == Print(gap, COND, e);
  }

  /** The text of l && r is read with the value of that of l ? !!r : 0, of l || r with that of l ? 1 : !!r, and of !l with
      that of l ? 0 : 1; all are 0 or 1. */
  lemma LogicReads(env: Env, gap: string, l: Expr, r: Expr)
    requires Blank(gap) && WellFormed(l) && WellFormed(r)
    ensures var zero, one, truth := Num(0, Decimal, ""), Num(1, Decimal, ""), Not(Not(r));
            && Value(env, gap, Bin(LAnd, l, r)) == Value(env, gap, Cond(l, truth, zero))
            && Value(env, gap, Bin(LOr, l, r)) == Value(env, gap, Cond(l, one, truth))
            && Value(env, gap, Not(l)) == Value(env, gap, Cond(l, zero, one))
    ensures IsTruth(Value(env, gap, Bin(LAnd, l, r))) && IsTruth(Value(env, gap, Bin(LOr, l, r)))
    ensures IsTruth(Value(env, gap, Not(l)))
  {
    LogicEval(env, l, r);
    hide Value, Blank, Eval, WellFormed;
    var zero, one, truth := Num(0, Decimal, ""), Num(1, Decimal, ""), Not(Not(r));
    Valued(env, gap, Bin(LAnd, l, r));
    Valued(env, gap, Bin(LOr, l, r));
    Valued(env, gap, Not(l));
    Valued(env, gap, Cond(l, truth, zero));
    Valued(env, gap, Cond(l, one, truth));
    Valued(env, gap, Cond(l, zero, one));
  }

  lemma LogicEval(env: Env, l: Expr, r: Expr)
    requires WellFormed(l) && WellFormed(r)
    ensures var zero, one, truth := Num(0, Decimal, ""), Num(1, Decimal, ""), Not(Not(r));
            && Eval(env, Bin(LAnd, l, r)) == Eval(env, Cond(l, truth, zero))
            && Eval(env, Bin(LOr, l, r)) == Eval(env, Cond(l, one, truth))
            && Eval(env, Not(l)) == Eval(env, Cond(l, zero, one))
            && Eval(env, Bin(LAnd, l, r)) in {0, 1} && Eval(env, Bin(LOr, l, r)) in {0, 1} && Eval(env, Not(l)) in {0, 1}
            && WellFormed(Bin(LAnd, l, r)) && WellFormed(Cond(l, truth, zero))
            && WellFormed(Bin(LOr, l, r)) && WellFormed(Cond(l, one, truth))
            && WellFormed(Not(l)) && WellFormed(Cond(l, zero, one))
  {
    assert Eval(env, Not(r)) == if Eval(env, r) == 0 then 1 else 0;
    assert Eval(env, Not(Not(r))) == if Eval(env, r) == 0 then 0 else 1;
  }

  /** A comparison of two operands is read as 1 when it holds of their values, and as 0 when not. */
  lemma ComparisonReads(env: Env, gap: string, op: Op, l: Expr, r: Expr)
    requires Blank(gap) && WellFormed(l) && WellFormed(r) && op in {Lt, Gt, Le, Ge, Eq, Ne}
    ensures var v, w := Value(env, gap, l), Value(env, gap, r);
            v.Ok? && w.Ok? && Value(env, gap, Bin(op, l, r)) == Ok("", if Compares(op, v.val, w.val) then 1 else 0)
  {
    hide Value;
    Valued(env, gap, l);
    Valued(env, gap, r);
    Valued(env, gap, Bin(op, l, r));
    ComparesOne(env, op, Eval(env, l), Eval(env, r));
  }

  /** An expression can only start with a letter, a digit, an underscore, a parenthesis, a sign, a # or a quote. */
  lemma Rejected(env: Env, gap: string, c: char, s: string)
    requires Blank(gap) && !Blank([c]) && !Name("_" + [c]) && c !in "(!-~#'"
    ensures ParseIfExpression(env, gap + [c] + s) == Fail(0)
  {
    hide ParseIfExpression, ParseBinary;
    assert gap + [c] + s == gap + ([c] + s);
    NoStart(c);
    assert Skip([c] + s) == [c] + s && ([c] + s)[0] == c;
    ValueSkips(env, gap, [c] + s);
    Unreadable(env, [c] + s);
    Fails(env, LOR, gap + [c] + s);
  }

  lemma NoStart(c: char)
    requires !Blank([c]) && !Name("_" + [c])
    ensures !Space(c) && !VarChar(c)
  {
    assert [c][0] == c && ("_" + [c])[1] == c && ("_" + [c])[0] == '_';
  }

  lemma Unreadable(env: Env, s: string)
    requires s != [] && !Space(s[0]) && !VarChar(s[0]) && s[0] !in "(!-~#'"
    ensures ParseValue(env, s) == Fail(0)
  {
    assert "(!-~#'" == ['(', '!', '-', '~', '#', '\''];
    NoWord(s);
  }

  // ----- where the text does not mean what C takes it to mean

  /** The text of e as C has it: operators bind to the left, so a right operand of the same level needs parentheses. */
  function CText(gap: string, level: nat, e: Expr): string
    decreases e, if Level(e) > level then 1 else 0
  {
    if Level(e) > level then gap + "(" + CText(gap, COND, e) + gap + ")"
    else match e
      case Not(x) => gap + "!" + CText(gap, VALUE, x)
      case Neg(x) => gap + "-" + CText(gap, VALUE, x)
      case Compl(x) => gap + "~" + CText(gap, VALUE, x)
      case Paren(x) => gap + "(" + CText(gap, COND, x) + gap + ")"
      case Bin(op, l, r) => CText(gap, LevelOf(op), l) + gap + OpText(op) + CText(gap, LevelOf(op) - 1, r)
      case Cond(c, t, f) => CText(gap, LOR, c) + gap + "?" + CText(gap, COND, t) + gap + ":" + CText(gap, COND, f)
      case _ => Print(gap, VALUE, e)
  }

  /** The tree that the parser makes of that text: the operands of operators of one level in a row are grouped from the
      right, unless there are parentheses. */
  function Grouped(level: nat, e: Expr): (g: Expr)
    ensures Level(g) == (if Level(e) > level then VALUE else Level(e)) && (g.Bin? ==> Row(g, LevelOf(g.op)))
    decreases e, if Level(e) > level then 1 else 0
  {
    if Level(e) > level then Paren(Grouped(COND, e))
    else match e
      case Not(x) => Not(Grouped(VALUE, x))
      case Neg(x) => Neg(Grouped(VALUE, x))
      case Compl(x) => Compl(Grouped(VALUE, x))
      case Paren(x) => Paren(Grouped(COND, x))
      case Bin(op, l, r) => Attached(Grouped(LevelOf(op), l), op, Grouped(LevelOf(op) - 1, r))
      case Cond(c, t, f) => Cond(Grouped(LOR, c), Grouped(COND, t), Grouped(COND, f))
      case _ => e
  }

  // Operators of level k in a row, with no looser operand at its right end.
  predicate Row(e: Expr, k: nat) { e.Bin? && LevelOf(e.op) == k ==> Level(e.r) <= k && Row(e.r, k) }

  // One more operator and operand behind a row of the same level.
  function Attached(l: Expr, op: Op, r: Expr): (g: Expr)
    ensures Level(g) == LevelOf(op) && g.Bin?
    ensures Row(l, LevelOf(op)) && Level(r) < LevelOf(op) ==> Row(g, LevelOf(op))
  {
    if l.Bin? && LevelOf(l.op) == LevelOf(op) then Bin(l.op, l.l, Attached(l.r, op, r)) else Bin(op, l, r)
  }

  lemma PrintBin(gap: string, op: Op, l: Expr, r: Expr)
    ensures Print(gap, LevelOf(op), Bin(op, l, r))
            == Print(gap, LevelOf(op) - 1, l) + gap + OpText(op) + Print(gap, LevelOf(op), r)
  {
  }

  // Without parentheses the level makes no difference.
  lemma PrintLoose(gap: string, low: nat, level: nat, e: Expr)
    requires Level(e) <= low <= level
    ensures Print(gap, level, e) == Print(gap, low, e)
  {
  }

  lemma {:induction false} AttachedText(gap: string, l: Expr, op: Op, r: Expr)
    requires Level(l) <= LevelOf(op) && Row(l, LevelOf(op)) && Level(r) < LevelOf(op)
    ensures Print(gap, LevelOf(op), Attached(l, op, r))
            == Print(gap, LevelOf(op), l) + gap + OpText(op) + Print(gap, LevelOf(op) - 1, r)
    decreases l
  {
    hide OpText, Print;
    var k := LevelOf(op);
    PrintLoose(gap, k - 1, k, r);
    if l.Bin? && LevelOf(l.op) == k {
      AttachedText(gap, l.r, op, r);
      PrintBin(gap, l.op, l.l, Attached(l.r, op, r));
      PrintBin(gap, l.op, l.l, l.r);
      var a, b, c := Print(gap, k - 1, l.l), Print(gap, k, l.r), Print(gap, k - 1, r);
      assert a + gap + OpText(l.op) + (b + gap + OpText(op) + c) == a + gap + OpText(l.op) + b + gap + OpText(op) + c;
    } else {
      PrintBin(gap, op, l, r);
      PrintLoose(gap, k - 1, k, l);
    }
  }

  /** The text of e in C is the text of the tree that is grouped from the right. */
  lemma {:induction false} GroupedText(gap: string, level: nat, e: Expr)
    ensures Print(gap, level, Grouped(level, e)) == CText(gap, level, e)
    decreases e, if Level(e) > level then 1 else 0
  {
    if Level(e) > level {
      GroupedText(gap, COND, e);
    } else {
      match e
      case Not(x) => GroupedText(gap, VALUE, x);
      case Neg(x) => GroupedText(gap, VALUE, x);
      case Compl(x) => GroupedText(gap, VALUE, x);
      case Paren(x) => GroupedText(gap, COND, x);
      case Bin(op, l, r) =>
        var k := LevelOf(op);
        GroupedText(gap, k, l);
        GroupedText(gap, k - 1, r);
        GroupedBinText(gap, level, op, l, r);
      case Cond(c, t, f) =>
        GroupedText(gap, LOR, c);
        GroupedText(gap, COND, t);
        GroupedText(gap, COND, f);
      case _ =>
    }
  }

  lemma GroupedBinText(gap: string, level: nat, op: Op, l: Expr, r: Expr)
    requires LevelOf(op) <= level
    requires Print(gap, LevelOf(op), Grouped(LevelOf(op), l)) == CText(gap, LevelOf(op), l)
    requires Print(gap, LevelOf(op) - 1, Grouped(LevelOf(op) - 1, r)) == CText(gap, LevelOf(op) - 1, r)
    ensures Print(gap, level, Grouped(level, Bin(op, l, r))) == CText(gap, level, Bin(op, l, r))
  {
    hide OpText, Print, Attached;
    var k, e := LevelOf(op), Bin(op, l, r);
    AttachedText(gap, Grouped(k, l), op, Grouped(k - 1, r));
    PrintLoose(gap, k, level, Grouped(level, e));
    assert CText(gap, level, e) == CText(gap, k, l) + gap + OpText(op) + CText(gap, k - 1, r);
  }

  lemma {:induction false} GroupedFormed(level: nat, e: Expr)
    requires WellFormed(e)
    ensures WellFormed(Grouped(level, e))
    decreases e, if Level(e) > level then 1 else 0
  {
    if Level(e) > level {
      GroupedFormed(COND, e);
    } else {
      match e
      case Not(x) => GroupedFormed(VALUE, x);
      case Neg(x) => GroupedFormed(VALUE, x);
      case Compl(x) => GroupedFormed(VALUE, x);
      case Paren(x) => GroupedFormed(COND, x);
      case Bin(op, l, r) =>
        GroupedFormed(LevelOf(op), l);
        GroupedFormed(LevelOf(op) - 1, r);
        AttachedFormed(Grouped(LevelOf(op), l), op, Grouped(LevelOf(op) - 1, r));
      case Cond(c, t, f) =>
        GroupedFormed(LOR, c);
        GroupedFormed(COND, t);
        GroupedFormed(COND, f);
      case _ =>
    }
  }

  lemma {:induction false} AttachedFormed(l: Expr, op: Op, r: Expr)
    requires WellFormed(l) && WellFormed(r)
    ensures WellFormed(Attached(l, op, r))
    decreases l
  {
    if l.Bin? && LevelOf(l.op) == LevelOf(op) { AttachedFormed(l.r, op, r); }
  }

  /** Every expression, written as C has it, is read to its end, but operators of one level are grouped from the right. */
  lemma RightToLeft(env: Env, gap: string, e: Expr, blanks: string)
    requires Blank(gap) && Blank(blanks) && WellFormed(e)
    ensures ParseIfExpression(env, CText(gap, COND, e) + blanks) == Ok("", Eval(env, Grouped(COND, e)))
  {
    GroupedText(gap, COND, e);
    GroupedFormed(COND, e);
    ParseRoundTrip(env, gap, Grouped(COND, e), blanks);
  }

  // Sums, products and shifts as on unbounded integers; bit operators associate.
  ghost predicate Exact(env: Env) {
    && (forall x, y :: env.arith(Add, x, y) == x + y)
    && (forall x, y :: env.arith(Sub, x, y) == x - y)
    && (forall x, y :: env.arith(Mul, x, y) == x * y)
    && (forall x, y | y >= 0 :: env.arith(Shl, x, y) == Left(x, y) && env.arith(Shr, x, y) == Right(x, y))
    && (forall op, x, y, z | op in {BAnd, BXor, BOr} ::
          env.arith(op, x, env.arith(op, y, z)) == env.arith(op, env.arith(op, x, y), z))
  }

  // When it makes no difference how x op1 y op2 z is grouped. Quotients and remainders, and shifts by a negative count,
  // are the machine's.
  ghost predicate Associates(env: Env, op1: Op, op2: Op, x: int, y: int, z: int)
    requires LevelOf(op1) == LevelOf(op2)
  {
    if LevelOf(op1) == 2 then op1 == Add || z == 0
    else if LevelOf(op1) >= 6 || (op1 == Mul && op2 == Mul) then true
    else if LevelOf(op1) in {4, 5} then
      (if Compares(op2, y, z) then Compares(op1, x, 1) else Compares(op1, x, 0))
      <==> (if Compares(op1, x, y) then Compares(op2, 1, z) else Compares(op2, 0, z))
    else if LevelOf(op1) == 3 && y >= 0 && z >= 0 then ShiftsAssociate(op1 == Shl, op2 == Shl, x, y, z)
    else env.arith(op1, x, env.arith(op2, y, z)) == env.arith(op2, env.arith(op1, x, y), z)
  }

  predicate Compares(op: Op, a: int, b: int) {
    match op
    case Lt => a < b
    case Gt => a > b
    case Le => a <= b
    case Ge => a >= b
    case Eq => a == b
    case _ => a != b
  }

  lemma Regrouped(env: Env, op1: Op, op2: Op, x: int, y: int, z: int)
    requires Exact(env) && LevelOf(op1) == LevelOf(op2)
    ensures Apply(env, op1, x, Apply(env, op2, y, z)) == Apply(env, op2, Apply(env, op1, x, y), z)
            <==> Associates(env, op1, op2, x, y, z)
  {
    hide Compares, ShiftsAssociate, Left, Right;
    if op1 == Mul && op2 == Mul {
      Products(x, y, z);
    } else if LevelOf(op1) in {4, 5} {
      Compared(env, op1, op2, x, y, z);
    } else if LevelOf(op1) == 3 && y >= 0 && z >= 0 {
      ShiftsRegrouped(op1 == Shl, op2 == Shl, x, y, z);
    }
  }

  lemma Products(x: int, y: int, z: int)
    ensures x * (y * z) == (x * y) * z
  {
  }

  lemma Compared(env: Env, op1: Op, op2: Op, x: int, y: int, z: int)
    requires LevelOf(op1) in {4, 5} && LevelOf(op2) in {4, 5}
    ensures Apply(env, op1, x, Apply(env, op2, y, z)) == Truth(Compares(op1, x, Truth(Compares(op2, y, z))))
    ensures Apply(env, op2, Apply(env, op1, x, y), z) == Truth(Compares(op2, Truth(Compares(op1, x, y)), z))
  {
    hide Truth;
    ComparesOne(env, op1, x, Truth(Compares(op2, y, z)));
    ComparesOne(env, op2, y, z);
    ComparesOne(env, op2, Truth(Compares(op1, x, y)), z);
    ComparesOne(env, op1, x, y);
  }

  lemma ComparesOne(env: Env, op: Op, x: int, y: int)
    requires LevelOf(op) in {4, 5}
    ensures Apply(env, op, x, y) == Truth(Compares(op, x, y))
  {
  }

  /** Two operators of one level in a row, on operands that are read as C reads them, have the value they have in C
      exactly when their operands associate: a difference or sum behind a sum, or of 0; logical operators, bits and
      products always; comparisons and shifts under a condition on the three values. */
  lemma TwoInARow(env: Env, gap: string, op1: Op, op2: Op, a: Expr, b: Expr, c: Expr)
    requires Blank(gap) && WellFormed(a) && WellFormed(b) && WellFormed(c) && Exact(env)
    requires LevelOf(op1) == LevelOf(op2) && Level(a) != LevelOf(op1)
    requires Eval(env, Grouped(LevelOf(op1), a)) == Eval(env, a)
    requires Eval(env, Grouped(LevelOf(op1) - 1, b)) == Eval(env, b)
    requires Eval(env, Grouped(LevelOf(op1) - 1, c)) == Eval(env, c)
    ensures var e := Bin(op2, Bin(op1, a, b), c);
            ParseIfExpression(env, CText(gap, COND, e)) == Ok("", Eval(env, e))
            <==> Associates(env, op1, op2, Eval(env, a), Eval(env, b), Eval(env, c))
  {
    hide CText, ParseIfExpression, Associates, Apply, WellFormed, Exact;
    var k := LevelOf(op1);
    var e := Bin(op2, Bin(op1, a, b), c);
    var ga, gb, gc := Grouped(k, a), Grouped(k - 1, b), Grouped(k - 1, c);
    FormedRow(op1, op2, a, b, c);
    RightToLeft(env, gap, e, "");
    assert CText(gap, COND, e) + "" == CText(gap, COND, e);
    assert Attached(ga, op1, gb) == Bin(op1, ga, gb);
    assert Attached(Bin(op1, ga, gb), op2, gc) == Bin(op1, ga, Attached(gb, op2, gc)) == Bin(op1, ga, Bin(op2, gb, gc));
    assert Grouped(k, Bin(op1, a, b)) == Bin(op1, ga, gb);
    assert Grouped(COND, e) == Bin(op1, ga, Bin(op2, gb, gc));
    Regrouped(env, op1, op2, Eval(env, a), Eval(env, b), Eval(env, c));
  }

  lemma FormedRow(op1: Op, op2: Op, a: Expr, b: Expr, c: Expr)
    requires WellFormed(a) && WellFormed(b) && WellFormed(c)
    ensures WellFormed(Bin(op2, Bin(op1, a, b), c))
  {
  }

  /** A name is taken for a variable exactly when it is neither "defined" nor starts with "defined_": the first is an
      error, and the second is a test of the rest of the name. */
  lemma NamesRead(env: Env, w: string)
    requires Name(w)
    ensures ParseIfExpression(env, w) ==
              if !IsDefined(w) then Ok("", env.variable(w))
              else if w == "defined" then Fail(0)
              else Ok("", env.defined(w[7..]))
  {
    hide Skip, ParseIfExpression, ParseBinary, Quiet, OpAt;
    assert Skip("") == "" && Quiet(COND, "") by { NothingLeft(); }
    if IsDefined(w) {
      DefinedName(env, w);
      if w == "defined" {
        Fails(env, LOR, w);
      } else {
        AtValue(env, w);
        Climb(env, VALUE, COND, w, "", env.defined(w[7..]));
      }
    } else {
      ParseRoundTrip(env, "", Var(w), "");
      assert Print("", COND, Var(w)) + "" == w;
    }
  }

  /** A character between quotes is read to the end with its own value exactly when it is neither white space, which is
      skipped, so that the closing quote is taken for the character, nor a quote or a backslash. */
  lemma CharactersRead(env: Env, c: char)
    ensures ParseIfExpression(env, "'" + [c] + "'") == Ok("", c as int) <==> !Blank([c]) && c != '\'' && c != '\\'
    ensures Blank([c]) || c == '\'' || c == '\\' ==> ParseIfExpression(env, "'" + [c] + "'").val == 39
  {
    hide ParseIfExpression, ParseBinary, ParseValue, Skip, Quiet, OpAt, CharacterValue, ToQuote;
    var s := "'" + ([c] + "'");
    assert "'" + [c] + "'" == s;
    QuoteValue(env, [c] + "'");
    BetweenQuotes(env, c);
    AtValue(env, s);
    if c == '\'' { LoneQuote(); } else { NothingLeft(); }
    var rest := if c == '\'' then "'" else "";
    Climb(env, VALUE, COND, s, rest, CharacterValue(env, [c] + "'"));
  }

  lemma LoneQuote()
    ensures Skip("'") == "'" && Quiet(COND, "'")
  {
  }

  lemma BetweenQuotes(env: Env, c: char)
    ensures var s := [c] + "'";
            && (ToQuote(s) == if c == '\'' then "''" else "'")
            && (CharacterValue(env, s) == if Blank([c]) || c == '\\' then 39 else c as int)
  {
    var s := [c] + "'";
    assert s[0] == c && s[1..] == "'" && "'"[0] == '\'';
    assert c == '\'' ==> s == "''";
    assert [c][0] == c;
    if Blank([c]) { Blanks(c); }
    assert Space(c) ==> Blank([c]) by { WhiteSpace(c); }
    if Space(c) { assert Skip(s) == "'"; } else { assert Skip(s) == s; }
  }

  lemma WhiteSpace(c: char)
    ensures Space(c) <==> c in " \t\n\r\U{000B}\U{000C}"
  {
  }

  lemma NothingLeft()
    ensures Skip("") == "" && Quiet(COND, "")
  {
  }

  lemma AtValue(env: Env, s: string)
    ensures Parse(env, VALUE, s) == ParseValue(env, s)
  {
  }

  lemma DefinedName(env: Env, w: string)
    requires Name(w) && IsDefined(w)
    ensures ParseValue(env, w) == if w == "defined" then Fail(0) else Ok("", env.defined(w[7..]))
  {
    var v := Drop(w, 7);
    assert w == "defined" + v;
    assert Skip(w) == w && w[0] == 'd';
    if v != [] {
      assert v[0] == w[7] && VarChar(w[7]);
      assert forall i | 0 <= i < |v| :: v[i] == w[7 + i];
      WordIs(v, "");
      assert v + "" == v && v[|v|..] == "";
    }
  }

  // What parse_value rejects, every level rejects.
  lemma {:induction false} Fails(env: Env, level: nat, s: string)
    requires level <= LOR && ParseValue(env, s) == Fail(0)
    ensures ParseBinary(env, level, s) == Fail(0)
    ensures level == LOR ==> ParseIfExpression(env, s) == Fail(0)
  {
    if level > 0 { Fails(env, level - 1, s); }
  }
}
