/** The vocabulary of pswrap: tokens of a wrap body, formal parameters, compiler options. */
module PswTypes {
  import opened Options

  datatype Kind =
    | StringTok | HexTok | NameTok | LitNameTok | ArrayTok | ProcTok
    | SubscriptedTok | FloatTok | IntTok | BoolTok

  datatype CType =
    | BooleanT | FloatT | DoubleT | CharT | UCharT | IntT | UIntT | LongT | ShortT | ULongT | UShortT
    | UserObjectT | NumStrT | FloatNumStrT | LongNumStrT | ShortNumStrT
  {
    predicate IsChar() { CharT? || UCharT? }

    predicate IsNumStr() { NumStrT? || FloatNumStrT? || LongNumStrT? || ShortNumStrT? }

    predicate IsPadNumStr() { NumStrT? || ShortNumStrT? }
  }

  datatype Subscript = Constant(val: nat) | Named(name: string)

  /** A formal input parameter. */
  datatype Item = Item(name: string, ctype: CType, starred: bool, sub: Option<Subscript>) {
    predicate ConstSub() { sub.Some? && sub.value.Constant? }

    // What PSWHeader lets through: a char parameter is starred or subscripted, a numstring is subscripted.
    predicate Valid() {
      && (starred ==> sub.None?)
      && (ctype.IsChar() ==> starred || sub.Some?)
      && (ctype.IsNumStr() ==> sub.Some?)
    }
  }

  /** A token: `text` is the C string it carries, `num` an integer payload, `index` the subscript of
      an element reference, `kids` the nested body of an array or a procedure. */
  datatype Tok = Tok(kind: Kind, text: string, num: int, index: string, formal: Option<Item>, kids: seq<Tok>) {
    predicate Nested() { kind.ArrayTok? || kind.ProcTok? }
  }

  /** Command line flags and the table of system names. */
  datatype Opts = Opts(noUserNames: bool, pad: bool, sysNames: map<string, nat>)

  const BINOBJ_SIZE := 8
  const NUMSTR_HEADER_SIZE := 4
  const HEADER_SIZE := 4
  const LONG_HEADER_SIZE := 8
  const MAXSTRINGS := 256

  // (v + WORD_ALIGN) & ~WORD_ALIGN
  function RoundUp(v: nat): (r: nat)
    ensures v <= r < v + 4 && r % 4 == 0
  {
    (v + 3) / 4 * 4
  }
}
