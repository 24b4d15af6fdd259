# Proofs about the build tools, the X-TrueType blitter and Xthreads

Dafny models of the parts of the tree that are algorithms rather than plumbing, and proofs of what they promise:

* **pswrap** turns the body of a wrap into a binary object sequence. `PswFlatten` opens the arrays that must be executed;
  `PswCompiler` lays the token tree out as a flat table of 8-byte records by a last-in first-out list of bodies, and
  checks its size; `PswStatics` walks the tree again to emit the records; `PswNames`, `PswStream` and `PswWrite` are the
  straight-line C that pswrap emits (name table, parameter values, `FixupOffsets`, `WriteObjSeq`), each by its effect.
  `PswOffsets`, `PswSettled` and `PswRoundTrip` prove that these passes agree, against an independent reader of the
  stream that follows the client library's `WriteSeqAsAscii`; `PswBody` puts the passes together. The main result is
  `PswBody.CompileAndCall`: from a wrap's source body to bytes and back to the flattened body with its parameters.
  `PswDict` (chained hashing, atoms) and `PswString` (escaped literals) carry it.
* **makedepend**: `MakeDependConditionals` (`find_includes` and `gobble` against recursive readings of conditional
  groups, with tests that have effects), `MakeDependIfParser` with `MakeDependShifts` (the expression parser against a
  printer and an evaluator), `MakeDependSymTab` (the sorted table in its growing array), `MakeDependSharing` (any run of
  definitions, merges and removals over any number of tables that share symbols), `MakeDependDefs` (searching
  definitions in the order of the lists, over a possibly cyclic include graph, while tables are merged),
  `MakeDependPaths` (`remove_dotdot`), `MakeDependIncludes` (include lists and the two depth-first walks).
* **X-TrueType**: `XttBlit` with `XttBits`, the shift accumulator of `blit_stream` against OR of single bits.
* **Xthreads.h on WIN32**: `XthreadsCondition`, the condition variable as interleaved steps of any number of threads.
* **makestrs**: `MakeStrs`, offsets in a header against the array that another pass writes.

Where the C changes things in place, so does the model: classes for the dictionary, the compiler's state, the symbol
table, the scanner and the include nodes, arrays for the path components, the bitmap and the table of symbols. Each
such method is proved against a function or a predicate, and the lemmas are about that.

## What the proofs turned up

The model follows the code. In these places the code does not do what its comments or its other half promise; each
has a lemma about it, mostly one that says exactly when it does.

* Binary operators of one level group to the right, as the grammar in the header of `ifparser.c` has it but C does not:
  `1-1-1` is 1 (`RightToLeft`, `TwoInARow`; for shifts `ShiftsRegrouped`). `defined_x` is read as `defined(_x)` (`NamesRead`).
* White space after an opening quote is skipped, so `' '` is 39, and `'\''` ends at its own second quote (`CharactersRead`).
* `gobble` tests the `#elif` lines that it passes, even after a group has been taken, and a test may merge symbol tables.
  A conditional can so change the value of a symbol without reading anything (`PlainExactly`, `PlainWhenQuiet`,
  `IncludeMissed`).
* `remove_dotdot` asks `issymbolic` about the bare component instead of the path up to it. Paths keep their meaning
  exactly when that answer is right wherever a path from the same start gets to the component (`SamePlaceExactly`);
  and a relative path whose components close like brackets becomes the empty string (`EmptyWhen`, `SamePlaceUnless`).
* `merge2defines` shares symbols between tables, so a `#define` in a file that is still being read changes the finished
  file that has been merged into it, and with it what later sources see (`DefineThrough`, `DefineAfterMerge`; over whole
  runs `MakeDependSharing.PerformAll`).
* pswrap shares the bytes of literals by spelling, so `<41>` and `(41)` get the same bytes; whether the second finds its
  own there all the same depends on the spelling, and on the literals behind the first (`MixedNotations`). With `-n`
  a literal name with a lone backslash near its end makes `PSWStringLength` step over the end of the name.
* pswrap ends without emitting the wrap when the wrap's own body has an element of a `userobject` array, which the
  front end accepts; inside a nested body it is not looked at, and sent as zero (`ElementAborts`, `CompileAndCall`).
* Where `long` is wider than 4 bytes `innerProcWriteNumstring` narrows the numbers ten at a time. It starts each time with
  the first (`LongRepeats`), and its unsigned count ends at zero only for a multiple of ten; otherwise it passes below
  zero and runs on, for an odd count without end (`WriteLongs`, `LongRounds`, `FiveLongs`).
* `FixupOffsets` reserves more than the client library writes for a padded numstring of an odd number of shorts, and
  for a long numstring where `long` is wider than 4 bytes and writing ends at all (`ExactWhen`); everything behind it
  in the stream is then recorded at the wrong place, and the byte count is wrong (`PatchedString`, `PatchedTotal`,
  `ByteCount`).
* When no offsets are patched, literals are laid out before constant input strings and written after them
  (`ConstantStringOffset`, `ConstantLiteralOffset`, `MisplacedString`).
* An array that stays an array may hold a char parameter as an executable name, which is then not executed
  (`ArrayStays`, `MeaningExactly`); an element reference `\x[i]` inside a nested body is sent as zero (`NestingMatters`).
* A parameter that is `unsigned char *` does not make the header long, though it can bring as many characters as `char *`
  (`LengthCut`).
* An empty string as a name parameter is read as a user name index (`SpelledWhen`).
* The emitted name table compares the first name with a buffer that nobody has set (`NameTableRoundTrip`).
* The test that ends `blit_stream`'s loop early is off for images that start above the map (`StaysInside`).
* Early-release Intel ABI headers lead nowhere for a third table or a later one, and the second array does not compile
  if more than one of its tables has entries (`IntelBC`).
* makestrs writes a quote, a backslash or a line end between quotes as it is (`Default`, `Intel`).

## Model

| member | source | states |
|---|---|---|
| `PswFlatten.CheckAllLiterals` | xc/config/pswrap/psw.c:1271-1299 | whether every element of a body, and of the arrays in it, may be stored unexecuted |
| `PswFlatten.FlattenSomeArrays` | xc/config/pswrap/psw.c:1302-1356 | the walk over a list that grows under it ends, whatever is spliced in, and yields the recursive flattening, of which FlattenedClean, FlattenedValid and FlattenMeaning speak |
| `PswFlatten.FlattenedClean` | xc/config/pswrap/psw.c:1302-1356 | no array at any depth, procedures included, is left that holds an element which must be executed |
| `PswFlatten.StaysArray` | xc/config/pswrap/psw.c:1271-1356 | an array stays one exactly when no path through arrays leads from it to a name that is no formal |
| `PswFlatten.FlattenedValid` | xc/config/pswrap/psw.c:1302-1356 | flattening keeps what the later passes require of tokens |
| `PswFlatten.FlattenMeaning` | xc/config/pswrap/psw.c:1302-1356 | on a stack machine with mark and collect, for every behaviour of the operators and every stack, the flattened body leaves what the source body leaves, failures included, if no array that stays holds a char parameter as an executable name; procedures are pushed, and the lemma holds for their bodies too |
| `PswFlatten.ArrayStays` | xc/config/pswrap/psw.c:1276-1278 | an array means the same after flattening, for all operators and stacks, exactly when no array that stays in it, itself included, holds a char parameter as an executable name |
| `PswFlatten.MeaningExactly` | xc/config/pswrap/psw.c:1271-1356 | the same for every body: the condition of FlattenMeaning is exact |
| `PswCompiler.WrapCompiler.CheckSize` | xc/config/pswrap/psw.c:438-582 | 1 exactly when the address behind the last piece of the wrap does not fit 16 bits |
| `PswBody.SameSize` | xc/config/pswrap/psw.c:584-784 | the total that BuildTypesAndAssignAddresses counts is the one CheckSize compares, for all nestings, sharing patterns and constant subscripts |
| `PswOffsets.CountedSize` | xc/config/pswrap/psw.c:438-582 | the size that both compile-time passes count is that of the bytes of any call, less what the call brings in input arrays and strings without constant subscript |
| `PswBody.ShortHeaderFits` | xc/config/pswrap/psw.c:1824-1842 | with the short header the top-level count fits a byte and all compile-time addresses fit 16 bits |
| `PswCompiler.LayoutStep` | xc/config/pswrap/psw.c:608-702 | taking a body off the work list, giving its tokens their indices and pushing its own bodies keeps the layout: each body taken up stands in one piece at its recorded address, behind its owner |
| `PswCompiler.WrapCompiler.BuildTypesAndAssignAddresses` | xc/config/pswrap/psw.c:584-784 | token k has address 8k; each nested body is contiguous at its recorded address behind its owner; every token is on exactly the lists it belongs to, in order; each array, literal and constant string has its address; totals and flags agree with them (`Listed`, `Ready`, `Addressed`, `Counted`) |
| `PswCompiler.WalkLiterals` | xc/config/pswrap/psw.c:728-753 | the offsets of the literals, shared through the dictionary until it is full, and the bytes and fields they take |
| `PswWrite.SharedBytes` | xc/config/pswrap/psw.c:728-753 | sharing loses nothing: each literal finds its own bytes at its offset, with any number of strings, if no spelling is used in two notations |
| `PswWrite.PlacedTimes` | xc/config/pswrap/psw.c:728-753 | sharing saves what it can: of the literals of one spelling one is laid out if the spelling is among the first 257, all of them if not |
| `PswWrite.MixedNotations` | xc/config/pswrap/psw.c:732-746 | in any list of literals: one served by another of its own notation finds its bytes; a hex string served by a string exactly when the text is a row of `33`; a string served by a hex string exactly when, besides, the bytes placed behind that one continue it |
| `PswString.PSWStringLength` | xc/config/pswrap/pswstring.c:47-59 | the loop stays inside the text exactly when each backslash is followed by another or by three more characters; for octal escapes the length is that of the bytes denoted |
| `PswString.PSWOutputStringChars` | xc/config/pswrap/pswstring.c:61-110 | as many constants as the length says; all are C character constants exactly when every escape is octal or a doubled backslash, and then each denotes its byte |
| `PswString.OctalSpelled` | xc/config/pswrap/pswstring.c:61-110 | any bytes, written in octal escapes, are what the emitted constants stand for |
| `PswString.PlainSpelled` | xc/config/pswrap/pswstring.c:61-110 | text without a backslash stands for its own characters |
| `PswString.PSWOutputHexStringChars` | xc/config/pswrap/pswstring.c:112-136 | one constant per byte of a hex string, as many as its computed length, an odd last digit included |
| `PswString.HexSpelled` | xc/config/pswrap/pswstring.c:112-136 | any bytes, written in hex digits of either case, are what the emitted constants stand for |
| `PswStatics.ReplayStep` | xc/config/pswrap/psw.c:1006-1060 | the second walk over the bodies takes up exactly the records not yet emitted, in the order of the first |
| `PswStatics.ConstructStatics` | xc/config/pswrap/psw.c:989-1092 | emitted record k is that of the token with index k, at every depth; the characters emitted are those of the literals as laid out, cut-off included; the count of emitted records is the one made by the earlier pass; ScalarAsConstant and TokenReads say what the records are |
| `PswRoundTrip.ScalarAsConstant` | xc/config/pswrap/psw.c:222-242 | for every C type: a scalar parameter, or an element reference in the wrap's own body, is sent as the integer, real or boolean constant of its value would be, whether the record or the object read back is looked at |
| `PswRoundTrip.ElementAsConstant` | xc/config/pswrap/psw.c:245-283 | the same for each element of an input array: the type named for the client library makes it read the elements where, and as what, they are declared, and write that constant |
| `PswNames.ConsNameToken` | xc/config/pswrap/psw.c:148-161 | one insertion, behind the first equal name or at the end, of the list of which NameListGrouped speaks |
| `PswNames.NameListGrouped` | xc/config/pswrap/psw.c:148-161 | for every sequence of names, equal names stand next to each other |
| `PswNames.EachNameOnce` | xc/config/pswrap/psw.c:1187-1195 | each distinct user name is spelled out at most once in the emitted table |
| `PswNames.NameTableRoundTrip` | xc/lib/dps/dpsclient.c:2265-2331 | reading a null entry as the name before it gives back the names, exactly unless the unset comparison buffer happens to hold the first name |
| `PswStream.ScanParamsAndEmitValues` | xc/config/pswrap/psw.c:1469-1651 | ends pswrap exactly on an element of a userobject array in the wrap's own body; else scanning by parameter and by nesting reaches every record that stands for a parameter, at any depth, and leaves it as if patched once; element references are reached in the wrap's own body only |
| `PswBody.ElementAborts` | xc/config/pswrap/psw.c:1563-1590 | such a body: `userobject u[2]` and `\u[1]` pass the front end and end pswrap; in a procedure the same reference does not |
| `PswStream.AcquireNames` | xc/config/pswrap/psw.c:1165-1235 | each user name record gets the index of its name |
| `PswSettled.NamesFilled` | xc/config/pswrap/psw.c:1654-1663 | the index stored into a record is that of the record's own name, for every order of the table |
| `PswStream.FixupOffsets` | xc/config/pswrap/psw.c:1359-1466 | the offsets stored are prefix sums of the sizes reserved, array by array, string by string, literal by literal; PatchedString and PatchedTotal compare them with the positions in the stream |
| `PswWrite.WriteObjSeq` | xc/config/pswrap/psw.c:1665-1743 | ends exactly when every long numstring that is narrowed has a multiple of ten numbers; the bytes written are then, in this order, the header, records and constant characters, input arrays, input strings with their padding, separate characters; HeadReads, ArrayAt, StringAt and LiteralAt say where each piece is found |
| `PswWrite.WriteTypedObjectArray` | xc/lib/dps/dpsclient.c:791-957 | the loop that converts ten elements at a time, moving a pointer over the array, ends and has written one record for each element, in order |
| `PswWrite.WriteLongs` | xc/lib/dps/dpsclient.c:755-765 | the loop that narrows longs ends exactly for a multiple of ten, having written four bytes for each number, those of the first ten over and over |
| `PswWrite.LongRounds` | xc/lib/dps/dpsclient.c:755-765 | the unsigned count reaches zero without passing below it exactly for a multiple of ten; an odd count never does, any other only after more than 2^32 / 10 rounds |
| `PswWrite.LongRepeats` | xc/lib/dps/dpsclient.c:755-765 | a narrowed numstring is written as it is meant exactly when everything behind the tenth number repeats the first ten |
| `PswWrite.ExactWhen` | xc/lib/dps/dpsclient.c:712-778 | an input string whose writing ends takes no more than FixupOffsets reserves, and as much exactly unless it is a long numstring with numbers where long is wider than 4 bytes, or a padded numstring of an odd number of shorts |
| `PswOffsets.ArrayAt` | xc/config/pswrap/psw.c:1674-1684 | where an input array stands in the stream |
| `PswOffsets.StringAt` | xc/config/pswrap/psw.c:1686-1735 | where an input string stands in the stream |
| `PswOffsets.LiteralAt` | xc/config/pswrap/psw.c:1737-1742 | where the bytes of a literal stand in the stream |
| `PswRoundTrip.HeadReads` | xc/lib/dps/dpsclient.c:1932-1960 | the client library finds behind either header the objects that were put there, as many as the count field keeps, and the length field keeps; a short one must not count a multiple of 256 |
| `PswOffsets.PatchedString` | xc/config/pswrap/psw.c:1372-1414 | all strings before it are written to their end, and the patched offset of an input string is its position, exactly when they are written as reserved |
| `PswOffsets.PatchedTotal` | xc/config/pswrap/psw.c:1416-1452 | writing the strings ends, and the patched offsets of literals and the byte count are right, exactly when every input string is written as reserved |
| `PswOffsets.ConstantStringOffset` | xc/config/pswrap/psw.c:755-776 | without patching, a constant input string is where its record says unless literals are laid out before it and written after it |
| `PswOffsets.ConstantLiteralOffset` | xc/config/pswrap/psw.c:728-753 | without patching, a literal is where its record says unless input strings are written before it |
| `PswBody.MisplacedString` | xc/config/pswrap/psw.c:728-776 | such a wrap: int arr[2], char str[3], body arr (abc) (str); the string is written at 40 and its record has 43, the literal the other way round |
| `PswSettled.FinalSettled` | xc/config/pswrap/psw.c:1859-1871 | when the offsets hold, every record of a call carries its type, its length, and the position of its piece |
| `PswBody.ByteCount` | xc/config/pswrap/psw.c:1867-1871 | writing ends and the byte count is the number of bytes written exactly when the data is constant or every input string is written as reserved |
| `PswRoundTrip.TokenReads` | xc/lib/dps/dpsclient.c:1223-1374 | record k of a stream reads back as what is sent for token k, nested bodies included |
| `PswBody.RoundTrip` | xc/lib/dps/dpsclient.c:1223-1374 | what a call of a wrap that is emitted writes reads back as the wrap's token tree with the parameters sent, and as the meaning with every element reference filled in exactly when those below the wrap's own body are to zeros |
| `PswRoundTrip.SpelledWhen` | xc/lib/dps/dpsclient.c:1303-1308 | a spelled-out name reads back as itself exactly when it is not empty and shorter than the mark of system names |
| `PswRoundTrip.StringWhen` | xc/lib/dps/dpsclient.c:1325-1360 | a string reads back as itself exactly when its length fits 16 bits |
| `PswRoundTrip.NestingMatters` | xc/config/pswrap/psw.c:1555-1593 | a body is sent as it is meant, at every depth, exactly when every element reference below the wrap's own body is to a zero |
| `PswBody.Compile` | xc/config/pswrap/psw.c:1805-1842 | nothing exactly for an empty body; else the compile-time passes in order leave records, lists and characters that belong together, and choose the header |
| `PswBody.CompileAndCall` | xc/config/pswrap/psw.c:1805-1892 | source body to bytes to token tree: nothing exactly for an empty body, no wrap exactly when the flattened body has an element of a userobject array, an error exactly when the unset buffer holds the first name, no end exactly on a long numstring that is narrowed and no multiple of ten; else the bytes, header and all, read back as the flattened body with its parameters, as it is meant exactly when nested element references are to zeros; the count read is that of the body exactly if it fits its field; the length read, if it fits, is that of the bytes exactly if every input string is written as reserved; with a char * parameter the length has 32 bits |
| `PswBody.LengthCut` | xc/config/pswrap/psw.c:1826-1836 | unsigned char * is not taken for char *: 65530 characters fit the length field of their record, but the length of the sequence does not fit the short header chosen |
| `PswDict.Dict.PSWDictLookup` | xc/config/pswrap/pswdict.c:119-125 | the value of a name in the finite map, or -1 |
| `PswDict.Dict.PSWDictEnter` | xc/config/pswrap/pswdict.c:127-145 | the finite map with the name's value replaced or added, and which of the two it was |
| `PswDict.Dict.PSWDictRemove` | xc/config/pswrap/pswdict.c:147-158 | the finite map without the name, and the value it had |
| `PswDict.PerformAll` | xc/config/pswrap/pswdict.c:78-158 | any run of operations answers, and leaves, what the finite map does |
| `PswDict.Interner.MakeAtom` | xc/config/pswrap/pswdict.c:160-176 | the atom of a string; atoms issued earlier stay |
| `PswDict.MakeAtoms` | xc/config/pswrap/pswdict.c:160-176 | over any run, atoms are equal exactly where the strings are |
| `MakeDependConditionals.Scanner.Gobble` | xc/config/makedepend/parse.c:37-86 | stops, returns and changes the state, for any stream of lines, malformed ones included, as the walk on the lines not yet read does, of which GobbleOne speaks |
| `MakeDependConditionals.Scanner.FindIncludes` | xc/config/makedepend/parse.c:505-628 | the same for find_includes, of which FindItems and ReadFile speak |
| `MakeDependConditionals.GobbleOne` | xc/config/makedepend/parse.c:37-86 | gobble, repeated as its callers do, consumes exactly the rest of one conditional; all it does to the state is what testing the #elif lines in it does |
| `MakeDependConditionals.IfdefIsIf` | xc/config/makedepend/parse.c:543-572 | #ifdef is #if of an expression that comes to whether the symbol is defined, #ifndef of one that comes to the contrary, in front of any lines, well nested or not, and in both readings |
| `MakeDependConditionals.IfElse` | xc/config/makedepend/parse.c:515-542 | of #if and #else the first group is read when the expression holds and the second when not |
| `MakeDependConditionals.GuardedFile` | xc/config/makedepend/parse.c:543-572 | a file between #ifndef H, #define H and #endif is read, definition first, while H is not defined, and passed once it is |
| `MakeDependConditionals.ReadOnce` | xc/config/makedepend/parse.c:543-572 | such a file, twice in a row, is read once, unless it undefines H |
| `MakeDependConditionals.FindItems` | xc/config/makedepend/parse.c:505-628 | on well-nested text find_includes has the effect of the recursive reading that also tests the #elif lines it passes, and goes on behind it |
| `MakeDependConditionals.ReadFile` | xc/config/makedepend/parse.c:505-628 | a whole well-nested file: the final state is that of that reading, and of the plain one (first group whose test holds, else #else) if no outermost conditional has a second or nested #elif |
| `MakeDependConditionals.PlainExactly` | xc/config/makedepend/parse.c:106-133 | the text is read as section 6.10.1 of ISO/IEC 9899:1999 has it, whatever its tests come to and do, exactly when no outermost conditional has more than one #elif in it, and that one is its own |
| `MakeDependConditionals.PlainWhenQuiet` | xc/config/makedepend/parse.c:243-258 | all text is so read exactly when no test does anything to the state |
| `MakeDependConditionals.IncludeMissed` | xc/config/makedepend/parse.c:243-258 | an input where it is not: a passed #elif merges an included table, a symbol gets another value, and an include is missed |
| `MakeDependIfParser.VariableEnd` | xc/config/makedepend/ifparser.c:79-90 | the longest run of variable characters |
| `MakeDependIfParser.ParseIfExpressionAt` | xc/config/makedepend/ifparser.c:141-498 | the procedures, which move a cursor over the text in loops and recursion, end and compute what the round trip is about |
| `MakeDependIfParser.ReadsBack` | xc/config/makedepend/ifparser.c:141-491 | for each of the 12 levels, every expression printed for that level is read with its value, up to the end of what was printed, whatever follows that is no operator of the level or a tighter one; numbers are decimal, octal or hexadecimal with any suffix of U and L, characters plain or escaped by a letter, definitions are tested with or without parentheses, and assertions have any list of answers |
| `MakeDependIfParser.ParseRoundTrip` | xc/config/makedepend/ifparser.c:469-498 | every expression, printed with as few parentheses as the grammar allows and any white space between tokens, is read to its last character and has its value, whatever arithmetic on long makes of its operands; both sides of an operator are always evaluated |
| `MakeDependIfParser.LogicReads` | xc/config/makedepend/ifparser.c:428-466 | the text of l && r is read with the value of l ? !!r : 0, of l || r with that of l ? 1 : !!r, of !l with that of l ? 0 : 1; all are 0 or 1 |
| `MakeDependIfParser.ComparisonReads` | xc/config/makedepend/ifparser.c:310-368 | the text of a comparison is read as 1 when it holds of the values its operands are read with, and as 0 when not |
| `MakeDependIfParser.Rejected` | xc/config/makedepend/ifparser.c:141-224 | text that starts, behind white space, with anything but a letter, digit, underscore, parenthesis, sign, # or quote is an error |
| `MakeDependIfParser.RightToLeft` | xc/config/makedepend/ifparser.c:233-466 | every expression, written with the parentheses C needs, is read to its end as the tree whose operators of one level are grouped from the right |
| `MakeDependIfParser.TwoInARow` | xc/config/makedepend/ifparser.c:233-466 | two operators of one level in a row have the value they have in C exactly when their operands associate: a sum or a difference behind a sum, or of 0; products, bits and logical operators always; comparisons under a condition on 0, 1 and the three values, shifts under that of ShiftsRegrouped |
| `MakeDependShifts.ShiftsRegrouped` | xc/config/makedepend/ifparser.c:283-306 | exactly when two shifts of any values by any counts may be grouped either way, for the four pairs of directions |
| `MakeDependIfParser.NamesRead` | xc/config/makedepend/ifparser.c:186-222 | for every name: it is read as a variable exactly when it is neither `defined` nor starts with `defined_`; the first is an error, the second a test of the rest of the name |
| `MakeDependIfParser.CharactersRead` | xc/config/makedepend/ifparser.c:112-139 | a character between quotes is read to the end with its own value exactly when it is no white space, no quote and no backslash |
| `MakeDependDefs.FDefined` | xc/config/makedepend/parse.c:234-265 | ends on any graph, cycles included; restores every DEFCHECKED flag; a symbol of the file itself is found there and nothing is changed; else the path taken to a hit is FirstPath, the first in list order at every level, computed from the tables and marks before the search, and whoever had the symbol keeps it with its value; a miss has looked into every reachable file not merged before; merging only adds entries that some included file had |
| `MakeDependDefs.SameFirst` | xc/config/makedepend/parse.c:246-257 | a fruitless search of one include, merges and all, makes no difference to the path found through a later one |
| `MakeDependDefs.FirstInList` | xc/config/makedepend/parse.c:248-257 | the path leads through the first include in the list, of those not merged, behind which there is one |
| `MakeDependDefs.FindFresh` | xc/config/makedepend/parse.c:234-265 | while nothing has been merged a symbol is found exactly if some reachable file defines it, cycles included |
| `MakeDependDefs.Undefine` | xc/config/makedepend/parse.c:492-503 | ends although each lookup may copy the symbol into more tables: unmerged edges, then tables that have it, decrease; the symbol is then undefined on the command line, in the file and in every file looked into; every other symbol is defined where it was, or further up by merging |
| `MakeDependDefs.IsDefined` | xc/config/makedepend/parse.c:267-281 | a symbol of the command line is found there, and tables and marks are left alone; any other as FDefined finds it from the file; the entry has the value it had before the call |
| `MakeDependSymTab.Table.Slookup` | xc/config/makedepend/parse.c:396-433 | the position of the symbol, or none if the table lacks it |
| `MakeDependSymTab.Table.Search` | xc/config/makedepend/parse.c:313-350 | below + 1 is the place of a new entry whenever the table is not empty |
| `MakeDependSymTab.Table.MakeSpace` | xc/config/makedepend/parse.c:302-314 | after it there is room for the rest of the block, so for the next entry |
| `MakeDependSymTab.Table.Define2` | xc/config/makedepend/parse.c:295-375 | the table as a finite map with the symbol set; names stay sorted and room is kept; of the symbols that were there only the one of that name is written to |
| `MakeDependSymTab.Table.Remove` | xc/config/makedepend/parse.c:499-501 | the table without the entry; names stay sorted and room is kept |
| `MakeDependSymTab.MergedContents` | xc/config/makedepend/parse.c:455-476 | the merged row is sorted and, as a map, the first overridden by the second |
| `MakeDependSymTab.Merge2Defines` | xc/config/makedepend/parse.c:435-490 | file1 becomes the merged map with capacity rounded up; file2 wins |
| `MakeDependSymTab.DefineThrough` | xc/config/makedepend/parse.c:352-358 | another table is changed by a definition through this one exactly if the two hold the same symbol of that name and the value differs |
| `MakeDependSymTab.DefineAfterMerge` | xc/config/makedepend/parse.c:352-358 | after a merge a definition through either table shows in the other, for every symbol file2 had: also back into the file that was merged |
| `MakeDependSharing.PerformAll` | xc/config/makedepend/parse.c:295-503 | after any run of definitions, merges and removals over any number of tables, each stands for what the run means for it, where a definition shows exactly in the tables that have the name in common with the one it is made through |
| `MakeDependSharing.JoinedExactly` | xc/config/makedepend/parse.c:435-490 | two tables hold the same symbol of a name exactly when the run has joined them there: by merges of a table that had it, and no removal or other merge since |
| `MakeDependSharing.JoinedAgree` | xc/config/makedepend/parse.c:352-358 | after every run tables that have a name in common agree about its value, and having it in common is symmetric and transitive |
| `MakeDependPaths.RemoveDotDot` | xc/config/makedepend/include.c:107-126 | the compaction in place ends and yields the cleaned components |
| `MakeDependPaths.NoPairLeft` | xc/config/makedepend/include.c:107-126 | no removable x/.. pair is left at any position |
| `MakeDependPaths.SamePlaceExactly` | xc/config/makedepend/include.c:51-126 | every path from a start of which something is left, or that is absolute, still leads to the same place exactly when the link test, made on the bare component, is right wherever a path from that start gets to the component |
| `MakeDependPaths.SamePlaceUnless` | xc/config/makedepend/include.c:107-144 | where that test is right, a path keeps its place exactly when it is absolute or something is left of it |
| `MakeDependPaths.EmptyWhen` | xc/config/makedepend/include.c:107-126 | nothing is left of a path exactly when its components close like brackets |
| `MakeDependIncludes.RecursivePrInclude` | xc/config/makedepend/pr.c:108-120 | prints exactly the files marked in the meantime, once each, but for the root, and marks everything they include |
| `MakeDependIncludes.PrintAll` | xc/config/makedepend/pr.c:108-120 | from clean marks every reachable file is printed exactly once and the root never, on any graph |
| `MakeDependIncludes.IncludedBy` | xc/config/makedepend/include.c:171-219 | the file is on the list once, at the end if new, with an unset merge mark |
| `MakeDependIncludes.AddInclude` | xc/config/makedepend/pr.c:36-71 | each file is scanned at most once, and everything the scanned files include is listed and scanned |
| `MakeDependIncludes.IncClean` | xc/config/makedepend/include.c:221-229 | no file of the list is marked |
| `XttBits.LoadBit` | xc/extras/X-TrueType/xttblit.c:206-209 | a byte loaded behind the bits held occupies the next eight |
| `XttBlit.BlitLine` | xc/extras/X-TrueType/xttblit.c:123-284 | one line: each bit of the map's row becomes itself OR the source bit on it, clipped left and right |
| `XttBlit.BlitStream` | xc/extras/X-TrueType/xttblit.c:36-289 | every round stays in the map exactly when StaysIn, which is read off the loop's own test, holds; then each bit of the map becomes itself OR the image bit on it; no access leaves a source row or the map |
| `XttBlit.StaysInside` | xc/extras/X-TrueType/xttblit.c:137-138 | the lines that the loop's own test lets through are in the map exactly when the image does not start above it or what is left is no higher than the map |
| `XttBlit.Edges` | xc/extras/X-TrueType/xttblit.c:306-310 | negative edges included, the left edge of the box, in 64ths, is rounded down to a column and the upper edge up to a row |
| `XttBlit.MissesBox` | xc/extras/X-TrueType/xttblit.c:317-322 | an image is turned away exactly when no point of its box, right and lower edge included, is in the map |
| `XttBlit.GetSBitBitmap` | xc/extras/X-TrueType/xttblit.c:293-336 | the rejected images, of which no set bit would have been in the map, the images with which the loop leaves the map, and otherwise the picture at the offsets of which Edges speaks |
| `XthreadsCondition.StepKeeps` | xc/include/Xthreads.h:139-164 | every step of every thread keeps the invariant and moves the queue as the operations promise |
| `XthreadsCondition.RunKeeps` | xc/include/Xthreads.h:139-164 | the invariant holds throughout every interleaving of any number of threads |
| `XthreadsCondition.NoLostWakeup` | xc/include/Xthreads.h:139-148 | semaphores are 0 or 1; one is up exactly for a thread taken off the list that has not resumed; a waiting thread with its semaphore down is on the list |
| `XthreadsCondition.WakeupStays` | xc/include/Xthreads.h:144-147 | a wakeup stays until its thread takes it; WakeupTaken says that it can |
| `XthreadsCondition.SignalNewest` | xc/include/Xthreads.h:149-155 | a signal raises the semaphore of the newest waiter and of nobody else |
| `XthreadsCondition.SignalTakes` | xc/include/Xthreads.h:152-153 | the signalled waiter, and only it, leaves the list |
| `XthreadsCondition.SignalInRun` | xc/include/Xthreads.h:149-156 | in every run, between entering and leaving the critical section a signal takes exactly the newest waiter off the list, or nobody if it is empty |
| `XthreadsCondition.BroadcastAll` | xc/include/Xthreads.h:157-163 | every waiter's semaphore is up when the list is cleared |
| `XthreadsCondition.BroadcastInRun` | xc/include/Xthreads.h:157-164 | in every run a broadcast takes all waiters off; then no thread waits with its semaphore down |
| `XthreadsCondition.QueueStable` | xc/include/Xthreads.h:139-164 | other threads leave the queue alone while one is in the critical section |
| `XthreadsCondition.WaitHoldsM` | xc/include/Xthreads.h:139-148 | in every run a thread in xcondition_wait holds m until it is on the list, is still to be signalled or has its wakeup when it lets go, and holds m again when it returns, as WakeupTaken says it can |
| `XthreadsCondition.Enabled` | xc/include/Xthreads.h:139-164 | at every statement a thread has a step exactly when nothing holds it up: the critical section is free at its entries, its wakeup has come at the semaphore, m is free when it is taken again |
| `XthreadsCondition.Stuck` | xc/include/Xthreads.h:139-164 | no thread has a step exactly when all of them wait and none has been signalled |
| `XthreadsCondition.WakeupTaken` | xc/include/Xthreads.h:139-148 | from every reachable state in which a waiter has been signalled, whatever the others are doing, some continuation brings it back from xcondition_wait with m |
| `XthreadsCondition.OwnerMoves` | xc/include/Xthreads.h:139-164 | the owner of the critical section can always take a step |
| `MakeStrs.DefaultIndexEntries` | xc/config/util/makestrs.c:595-607 | offsets that go on from table to table |
| `MakeStrs.IntelIndexEntries` | xc/config/util/makestrs.c:582-593 | offsets that start anew with each table |
| `MakeStrs.WriteSourceLine` | xc/config/util/makestrs.c:264-272 | the listing of one string with its terminator, with or without a last comma, of which ListingReads says that it is an initialiser exactly when no character is a quote, a backslash or a line end |
| `MakeStrs.Default` | xc/config/util/makestrs.c:366-382 | default ABI: the array is an initialiser exactly when every string can be quoted, and then reading it from each header offset up to the first NUL gives that entry's string |
| `MakeStrs.Intel` | xc/config/util/makestrs.c:276-292 | Intel ABI: the same for an array per table |
| `MakeStrs.IntelBC` | xc/config/util/makestrs.c:106-123 | early-release Intel ABI, any number of tables: every #define leads to its string exactly when all strings can be quoted and no table from the third on has an entry; the second array is an initialiser exactly when at most one of its tables has entries and they can be quoted |
| `MakeStrs.SecondReads` | xc/config/util/makestrs.c:294-319 | the second array alone: what it comes to, for any number of tables |

## Left out

- All input and output, processes and memory: files, `fork`, `stat`, `printf` formatting, failing `malloc`; what the operating system answers is a parameter.
- CompileAndCall: reading back is promised under `OffsetsHold` and `Presentable` (input strings written as reserved, no literals of constant data in the wrong order, lengths that fit their fields, no spelling in two notations, no empty name parameter), and for a count of objects that fits; outside them the code is wrong in the ways listed above. Of the header's count and length it is said exactly when they are right.
- FlattenMeaning: a char parameter as an executable name in an array that stays is excluded, because there the code changes the meaning (`MeaningExactly`); a procedure is compared by its text with all arrays written out, and what running it does is FlattenMeaning for its body; operators are a function of the token and the stack, so they do not define other operators or touch anything but the stack.
- ScanParamsAndEmitValues: the C that pswrap emits is modelled by its effect on the records, integer subscripts in the environment are not negative, and `long` has at least 4 bytes.
- WriteObjSeq: the payload of a numstring is what the environment gives, in the encoding of `innerProcWriteNumstring`; a call that runs on behind a long numstring is not followed; input arrays are 8 bytes to an element, as `DPSWriteTypedObjectArray` writes them.
- PSWOutputStringChars: text that PSWStringLength does not stay inside of is not modelled further. Strings come out of the lexer with octal escapes and doubled backslashes only; a literal name under `-n` may hold other backslashes, and CompileAndCall excludes it, because its bytes are whatever the C compiler makes of a constant of several characters.
- NameTableRoundTrip: names longer than 128 characters, which the client library rejects, are not singled out.
- pswrap's result tables (`AppendResultFlush`, result tag tables), the `defineps` header text, the shared-library and non-ANSI variants of the emitted C, and the lexer and grammar.
- PSWDictEnter: `DestroyPSWDict` and freeing are not modelled; a string is one without NUL, and characters above ASCII, whose sign the C leaves open, count as positive.
- FindItems: what a test comes to and does is a function of the expression and the state, as is what a directive does; `IncludeMissed` fills them in for two files. The `GUESS` line types, which need the `failOK` argument, are not produced. Cutting text into lines (`getnextline`, `deftype`) is not modelled.
- Gobble: what a stray `#else`, `#elif` or `#endif` outside any group does is an oracle; the walk is followed for such text, but only well-nested text has a meaning to compare with.
- ParseRoundTrip: variables named `defined` or beginning `defined_` are excluded (`NamesRead` says what becomes of them); variable and `defined` evaluation, and arithmetic on `long` with its overflow, zero divisors and shift counts, are functions in the environment; numbers and negation are unbounded; TwoInARow takes sums, differences, products and shifts as on unbounded integers and bits as associative, and leaves quotients, remainders and shifts by a negative count to the environment; numeric escapes in character constants are parsed, with their values from the environment, but not printed; characters above ASCII count as positive, and a constant without a closing quote, behind which the loop runs on, is an error.
- FDefined: a table is a map from symbol to value, so the sharing of symbol cells is left to `MakeDependSharing`; that a miss means no reachable file has the symbol is proved from the state without merges (`FindFresh`), as a hit leaves tables partly merged.
- MakeDependSharing.PerformAll: the tables are there from the start and empty, and a merge is asked for, not found by a search; `MakeDependDefs` has the search.
- Undefine: the removal is that of a map's key; the shift in the array is `MakeDependSymTab.Table.Remove`.
- RemoveDotDot: works on the components of the path; cutting the text at slashes and joining it again, and a trailing slash, are not modelled.
- AddInclude: which file a name refers to (`inc_path`) is given; warnings and the redirection of output are left out.
- GetSBitBitmap: what is in the map after the loop has left it is not said.
- BlitStream: for maps and images that flow down, images not inverted and padded to bytes; flow up, inverted images and `align` <= 0 are left out; the model ends where the loop would leave the map. The accumulator is its low 16 bits.
- WakeupTaken: that a waiter does return needs a scheduler and semaphores that are fair to it, of which the source says nothing; it is shown that it can.
- RunKeeps: one condition variable and a mutex that is not taken twice by its owner; a thread's node that moves between two condition variables is not modelled.
- DefaultIndexEntries: offsets without the width of `int`.
- IntelBC: table names are distinct, as one array each needs them to be; an initialiser without entries counts as one.
- makestrs's parsing of its input, escapes in strings, the array-per-string, SPARC and function ABIs (each offset is then an address the compiler works out), and the templates of the headers.
- imake, lndir, regex, XLFD and FreeType property code, header constants: nothing there that is an algorithm with a law of its own, or only calls into code not in this tree.
