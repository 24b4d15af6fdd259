/** pswstring.c: the length pswrap computes for a string literal, against the characters it emits. */
module PswString {

  predicate OctalDigit(c: char) { '0' <= c <= '7' }

  function Octal(a: char, b: char, c: char): int {
    64 * (a as int - '0' as int) + 8 * (b as int - '0' as int) + (c as int - '0' as int)
  }

  // Text in which every backslash starts either \\ or \ooo, as the lexer spells strings; a literal name may hold others.
  predicate WellEscaped(s: string) {
    if s == [] then true
    else if s[0] != '\\' then WellEscaped(s[1..])
    else if |s| < 2 then false
    else if s[1] == '\\' then WellEscaped(s[2..])
    else |s| >= 4 && OctalDigit(s[1]) && OctalDigit(s[2]) && OctalDigit(s[3]) && WellEscaped(s[4..])
  }

  // The bytes that escaped text denotes.
  function StringBytes(s: string): seq<int>
    requires WellEscaped(s)
  {
    if s == [] then []
    else if s[0] != '\\' then [s[0] as int] + StringBytes(s[1..])
    else if s[1] == '\\' then ['\\' as int] + StringBytes(s[2..])
    else [Octal(s[1], s[2], s[3])] + StringBytes(s[4..])
  }

  /** Text in which every backslash is followed by another one or by three more characters of any kind. */
  predicate Bounded(s: string) {
    if s == [] then true
    else if s[0] != '\\' then Bounded(s[1..])
    else if |s| >= 2 && s[1] == '\\' then Bounded(s[2..])
    else |s| >= 4 && Bounded(s[4..])
  }

  // The characters and escapes that the text is taken to consist of.
  function Units(s: string): seq<string>
    requires Bounded(s)
  {
    if s == [] then []
    else if s[0] != '\\' then [s[..1]] + Units(s[1..])
    else if s[1] == '\\' then [s[..2]] + Units(s[2..])
    else [s[..4]] + Units(s[4..])
  }

  lemma {:induction false} EscapedUnits(s: string)
    requires WellEscaped(s)
    ensures Bounded(s) && |Units(s)| == |StringBytes(s)|
    decreases |s|
  {
    if s != [] { EscapedUnits(if s[0] != '\\' then s[1..] else if s[1] == '\\' then s[2..] else s[4..]); }
  }

  /** The loop stays inside the text, its NUL included, exactly when every backslash is followed by another one or by
      three more characters; a name like a\b makes it step over the end. */
  method PSWStringLength(s: string) returns (inside: bool, len: nat)
    ensures inside <==> Bounded(s)
    ensures inside ==> len == |Units(s)|
    ensures WellEscaped(s) ==> inside && len == |StringBytes(s)|
  {
    var c := 0;
    len := 0;
    while c < |s|
      invariant c > |s| ==> !Bounded(s)
      invariant c <= |s| ==> (Bounded(s[c..]) <==> Bounded(s))
      invariant c <= |s| && Bounded(s) ==> len + |Units(s[c..])| == |Units(s)|
    {
      ghost var at := s[c..];
      c := c + 1;
      if s[c - 1] == '\\' {
        c := c + 1;
        // s[|s|] is the NUL
        if c > |s| || s[c - 1] != '\\' {
          c := c + 2;
          if c <= |s| { assert s[c..] == at[4..]; }
        } else {
          assert s[c..] == at[2..];
        }
      } else {
        assert s[c..] == at[1..];
      }
      len := len + 1;
    }
    inside := c == |s|;
    if WellEscaped(s) { EscapedUnits(s); }
  }

  // w is what may stand between the quotes of a C character constant.
  predicate IsCharConst(w: string) {
    match |w|
    case 1 => w[0] != '\\' && w[0] != '\''
    case 2 => w[0] == '\\' && w[1] in "\\'\"bft"
    case 4 => w[0] == '\\' && forall i | 1 <= i < 4 :: OctalDigit(w[i])
    case _ => false
  }

  function CharConst(w: string): int
    requires IsCharConst(w)
  {
    if |w| == 1 then w[0] as int
    else if |w| == 4 then Octal(w[1], w[2], w[3])
    else if w[1] == 'b' then 8
    else if w[1] == 'f' then 12
    else if w[1] == 't' then 9
    else w[1] as int
  }

  predicate Denotes(w: string, v: int) { IsCharConst(w) && CharConst(w) == v }

  // The switch over an unescaped byte.
  function PlainConst(b: char): (w: string)
    requires b != '\\'
    ensures Denotes(w, b as int)
  {
    if b == '\'' then "\\'"
    else if b == '\"' then "\\\""
    else if b == 8 as char then "\\b"
    else if b == 12 as char then "\\f"
    else if b == '\n' then "\\012"
    else if b == '\r' then "\\015"
    else if b == '\t' then "\\t"
    else [b]
  }

  // What stands between the quotes for a unit of the text.
  function Spelled(w: string): string
    requires w != []
  {
    if w[0] == '\\' then w else PlainConst(w[0])
  }

  // One round of the emitting loop.
  method EmitUnit(s: string, c: nat) returns (w: string, c': nat)
    requires c < |s| && Bounded(s[c..])
    ensures c < c' <= |s| && Bounded(s[c'..])
    ensures Units(s[c..]) == [s[c..c']] + Units(s[c'..]) && w == Spelled(s[c..c'])
  {
    ghost var at := s[c..];
    if s[c] == '\\' {
      assert at[1] == s[c + 1];
      c' := if s[c + 1] == '\\' then c + 2 else c + 4;
      w := s[c..c'];
    } else {
      c' := c + 1;
      w := PlainConst(s[c]);
    }
    assert s[c'..] == at[c' - c..] && s[c..c'] == at[..c' - c];
  }

  predicate AllConst(us: seq<string>) { forall i | 0 <= i < |us| :: us[i] != [] && IsCharConst(Spelled(us[i])) }

  predicate AllDenote(us: seq<string>, bytes: seq<int>) {
    |us| == |bytes| && forall i | 0 <= i < |us| :: us[i] != [] && Denotes(Spelled(us[i]), bytes[i])
  }

  lemma ConstFirst(u: string, us: seq<string>, b: int, bytes: seq<int>)
    requires u != []
    ensures AllConst([u] + us) <==> IsCharConst(Spelled(u)) && AllConst(us)
    ensures AllDenote([u] + us, [b] + bytes) <==> Denotes(Spelled(u), b) && AllDenote(us, bytes)
  {
    hide IsCharConst, Spelled, Denotes;
    var all, every := [u] + us, [b] + bytes;
    assert all[0] == u && every[0] == b;
    if AllConst(all) {
      forall i | 0 <= i < |us|
        ensures us[i] != [] && IsCharConst(Spelled(us[i]))
      {
        assert all[i + 1] == us[i];
      }
    }
    if AllDenote(all, every) {
      forall i | 0 <= i < |us|
        ensures us[i] != [] && Denotes(Spelled(us[i]), bytes[i])
      {
        assert all[i + 1] == us[i] && every[i + 1] == bytes[i];
      }
    }
  }

  // A unit is emitted as a character constant unless it is an escape that is not octal.
  lemma {:induction false} UnitsSpelled(s: string)
    requires Bounded(s)
    ensures forall i | 0 <= i < |Units(s)| :: Units(s)[i] != []
    ensures WellEscaped(s) <==> AllConst(Units(s))
    ensures WellEscaped(s) ==> AllDenote(Units(s), StringBytes(s))
    decreases |s|
  {
    hide IsCharConst, Spelled, Denotes, AllConst, AllDenote, WellEscaped, StringBytes;
    if s == [] {
      NoUnits();
    } else {
      var n := if s[0] != '\\' then 1 else if s[1] == '\\' then 2 else 4;
      UnitsSpelled(s[n..]);
      FirstSpelled(s);
      assert Units(s) == [s[..n]] + Units(s[n..]);
      if WellEscaped(s) {
        ConstFirst(s[..n], Units(s[n..]), StringBytes(s)[0], StringBytes(s[n..]));
      } else {
        ConstFirst(s[..n], Units(s[n..]), 0, []);
      }
    }
  }

  lemma NoUnits()
    ensures WellEscaped([]) && AllConst(Units([])) && AllDenote(Units([]), StringBytes([]))
  {
  }

  lemma FirstSpelled(s: string)
    requires Bounded(s) && s != []
    ensures var n := if s[0] != '\\' then 1 else if s[1] == '\\' then 2 else 4;
            && (WellEscaped(s) <==> IsCharConst(Spelled(s[..n])) && WellEscaped(s[n..]))
            && (WellEscaped(s) ==> StringBytes(s) == [StringBytes(s)[0]] + StringBytes(s[n..])
                                   && Denotes(Spelled(s[..n]), StringBytes(s)[0]))
  {
  }

  /** Emits one constant per unit, as many as the length says. They all are C character constants exactly when every
      escape is \\ or octal, and then each denotes its byte. */
  method PSWOutputStringChars(s: string) returns (out: seq<string>)
    requires Bounded(s)
    ensures |out| == |Units(s)|
    ensures (forall i | 0 <= i < |out| :: IsCharConst(out[i])) <==> WellEscaped(s)
    ensures WellEscaped(s) ==>
              |out| == |StringBytes(s)| && forall i | 0 <= i < |out| :: Denotes(out[i], StringBytes(s)[i])
  {
    hide IsCharConst, CharConst, WellEscaped, StringBytes;
    var c := 0;
    out := [];
    ghost var units := Units(s);
    assert s[0..] == s;
    UnitsSpelled(s);
    while c < |s|
      invariant c <= |s| && Bounded(s[c..])
      invariant |out| <= |units| && units[|out|..] == Units(s[c..])
      invariant forall i {:trigger out[i]} | 0 <= i < |out| :: out[i] == Spelled(units[i])
    {
      var w, c' := EmitUnit(s, c);
      assert units[|out|] == units[|out|..][0] && units[|out| + 1..] == units[|out|..][1..];
      out := out + [w];
      c := c';
    }
    assert s[c..] == [] && |units[|out|..]| == 0;
    assert forall i | 0 <= i < |units| :: out[i] == Spelled(units[i]);
  }

  predicate HexDigit(c: char) { '0' <= c <= '9' || 'a' <= c <= 'f' || 'A' <= c <= 'F' }

  function HexVal(c: char): int
    requires HexDigit(c)
  {
    if c <= '9' then c as int - '0' as int
    else if c <= 'F' then c as int - 'A' as int + 10
    else c as int - 'a' as int + 10
  }

  predicate AllHex(s: string) { forall i | 0 <= i < |s| :: HexDigit(s[i]) }

  // The value of the C constant 0x<w>, w of one or two digits.
  function HexConst(w: string): int
    requires 1 <= |w| <= 2 && AllHex(w)
  {
    if |w| == 1 then HexVal(w[0]) else 16 * HexVal(w[0]) + HexVal(w[1])
  }

  // Byte i of the array that pswrap initialises from hex digits: a trailing odd digit stands for itself.
  function HexBytes(s: string): seq<int>
    requires AllHex(s)
  {
    seq((|s| + 1) / 2, i requires 0 <= i < (|s| + 1) / 2 =>
      if 2 * i + 1 < |s| then HexConst(s[2 * i..2 * i + 2]) else HexConst(s[2 * i..2 * i + 1]))
  }

  function PSWHexStringLength(s: string): nat { (|s| + 1) / 2 }

  method PSWOutputHexStringChars(s: string) returns (out: seq<string>)
    requires AllHex(s)
    ensures |out| == PSWHexStringLength(s) == |HexBytes(s)|
    ensures forall i | 0 <= i < |out| :: 1 <= |out[i]| <= 2 && AllHex(out[i]) && HexConst(out[i]) == HexBytes(s)[i]
  {
    var c := 0;
    out := [];
    while c < |s|
      invariant c <= |s| && |out| == (c + 1) / 2 && (c % 2 == 1 ==> c == |s|)
      invariant forall i | 0 <= i < |out| :: 1 <= |out[i]| <= 2 && AllHex(out[i]) && HexConst(out[i]) == HexBytes(s)[i]
    {
      var tmp := [s[c]];
      c := c + 1;
      if c < |s| {
        tmp := tmp + [s[c]];
        c := c + 1;
        assert tmp == s[c - 2..c];
      } else {
        assert tmp == s[c - 1..c];
      }
      out := out + [tmp];
    }
  }

  // ----- every sequence of bytes has a spelling

  predicate AllBytes(bytes: seq<int>) { forall i | 0 <= i < |bytes| :: 0 <= bytes[i] < 256 }

  function HexText(digits: string, bytes: seq<int>): (t: string)
    requires |digits| == 16 && AllBytes(bytes)
    ensures |t| == 2 * |bytes|
  {
    seq(2 * |bytes|, i requires 0 <= i < 2 * |bytes| => digits[if i % 2 == 0 then bytes[i / 2] / 16 else bytes[i / 2] % 16])
  }

  /** Any bytes can be written in hex, in capitals or not, and come back. */
  lemma HexSpelled(bytes: seq<int>, capital: bool)
    requires AllBytes(bytes)
    ensures var t := HexText(if capital then "0123456789ABCDEF" else "0123456789abcdef", bytes);
            AllHex(t) && HexBytes(t) == bytes && PSWHexStringLength(t) == |bytes|
  {
    hide HexDigit, HexVal, HexConst;
    var digits := if capital then "0123456789ABCDEF" else "0123456789abcdef";
    var t := HexText(digits, bytes);
    forall i | 0 <= i < 16
      ensures HexDigit(digits[i]) && HexVal(digits[i]) == i
    {
      DigitSpelled(i, capital);
    }
    assert AllHex(t);
    forall i | 0 <= i < |bytes|
      ensures HexBytes(t)[i] == bytes[i]
    {
      HexPair(digits, bytes, i);
      assert HexBytes(t)[i] == HexConst(t[2 * i..2 * i + 2]);
    }
  }

  lemma HexPair(digits: string, bytes: seq<int>, i: nat)
    requires |digits| == 16 && (forall k | 0 <= k < 16 :: HexDigit(digits[k]) && HexVal(digits[k]) == k)
    requires AllBytes(bytes) && i < |bytes|
    ensures var w := HexText(digits, bytes)[2 * i..2 * i + 2]; AllHex(w) && HexConst(w) == bytes[i]
  {
    hide HexDigit, HexVal;
    var t := HexText(digits, bytes);
    var w := t[2 * i..2 * i + 2];
    assert w == [digits[bytes[i] / 16], digits[bytes[i] % 16]];
  }

  lemma DigitSpelled(i: nat, capital: bool)
    requires i < 16
    ensures var c := (if capital then "0123456789ABCDEF" else "0123456789abcdef")[i]; HexDigit(c) && HexVal(c) == i
  {
  }

  function OctalText(bytes: seq<int>): string
    requires AllBytes(bytes)
  {
    if bytes == [] then []
    else ['\\', "01234567"[bytes[0] / 64], "01234567"[bytes[0] / 8 % 8], "01234567"[bytes[0] % 8]] + OctalText(bytes[1..])
  }

  /** Any bytes can be written in octal escapes and come back. */
  lemma {:induction false} OctalSpelled(bytes: seq<int>)
    requires AllBytes(bytes)
    ensures WellEscaped(OctalText(bytes)) && StringBytes(OctalText(bytes)) == bytes
  {
    if bytes != [] {
      OctalSpelled(bytes[1..]);
      var t := OctalText(bytes);
      assert t[4..] == OctalText(bytes[1..]);
      OctalDigits(bytes[0]);
    }
  }

  lemma OctalDigits(b: int)
    requires 0 <= b < 256
    ensures var digits := "01234567";
            var a, m, z := digits[b / 64], digits[b / 8 % 8], digits[b % 8];
            OctalDigit(a) && OctalDigit(m) && OctalDigit(z) && Octal(a, m, z) == b
  {
    assert b == 64 * (b / 64) + 8 * (b / 8 % 8) + b % 8;
    OctalSpelledDigit(b / 64);
    OctalSpelledDigit(b / 8 % 8);
    OctalSpelledDigit(b % 8);
  }

  lemma OctalSpelledDigit(i: nat)
    requires i < 8
    ensures OctalDigit("01234567"[i]) && "01234567"[i] as int - '0' as int == i
  {
  }

  /** Text without a backslash stands for its own characters. */
  lemma {:induction false} PlainSpelled(s: string)
    requires '\\' !in s
    ensures WellEscaped(s) && |StringBytes(s)| == |s| && forall i | 0 <= i < |s| :: StringBytes(s)[i] == s[i] as int
  {
    if s != [] { PlainSpelled(s[1..]); }
  }

  /** What counts as a digit. */
  lemma DigitsAre(c: char)
    ensures OctalDigit(c) <==> c in "01234567"
    ensures HexDigit(c) <==> c in "0123456789abcdefABCDEF"
  {
  }
}
