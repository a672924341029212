# fex field extractor: a Dafny model

fex extracts fields from lines of text. Each command-line argument is an
extractor: a chain of selectors such as `1`, `:{1,-1}`, `.{?2:3}` or
` /regexp/`. A selector is a delimiter followed by a filter. The delimiter
is one character, optionally backslash-escaped, and a space when omitted.
The filter is one of:

- a field index or range;
- a brace group of ranges, where `{?...}` asks for non-greedy splitting;
- a regular expression between slashes.

Running a selector on a string does three things:

1. It splits the string at the delimiter. Greedy splitting collapses runs of
   delimiters and drops empty tokens. Non-greedy splitting keeps every piece.
2. It keeps the tokens the filter selects. Field 0 is the whole,
   untokenized string. Negative indices count from the end.
3. It joins the kept tokens with the same delimiter.

The selectors of an extractor run left to right. For each input line the
outputs of all extractors are written separated by spaces. The newline is
written only when something was written before it.

The model covers the core of `internal/fex/fex.go`:

- **`Compiler`** holds the compiler `CompileExtractor`. It scans the argument
  from its last character to its first, with the `find`/`findf` searches, the
  group, regex and number arms, delimiter decoding and the two in-place
  reversals. Each step is a function. The methods follow the source's loops
  and are proved to compute those functions.
- **`Ranges`** holds the range grammar and selection: `ParseFieldRange`,
  `FieldRange.Select`, `abs` and `isValid`.
- **`Filters`** holds the group filter and the regex filter: `ParseGroup`,
  `Group.Select`, `NewRegexpFilter` and `RegexpFilter.Select`.
- **`Extraction`** holds the tokenizers and the runners: `GreedySplit`,
  `NonGreedySplit`, `Selector.Extract`, `Extractor.Extract` and `processLine`.
- **`Text`** holds the parts of Go's `strings` and `strconv` packages these
  rely on, as functions with their own proved properties.
- **`CompilerProps`** proves properties of the compiler.
- **`Examples`** proves the worked examples from the program's usage text and
  its test table.

The regular-expression engine (RE2) is a parameter. A `RegexEngine` value
supplies a compile-error function and a match predicate, and every result
is stated for an arbitrary engine.

## Model

| member | source | states |
|---|---|---|
| Compiler.CompileExtractor | internal/fex/fex.go:167-334 | the backwards walk that appends a selector per step and reverses the list at the end returns exactly `Compile(arg)`: the selectors in left-to-right order, or the first error met scanning right to left |
| Compiler.Reverse | internal/fex/fex.go:328-331 | the swap loop over positions j and n-1-j leaves the reverse of its input |
| Compiler.Reversed | internal/fex/fex.go:261-265 | the reverse has the same length and holds element n-1-k at position k |
| Compiler.LastIndexOf | internal/fex/fex.go:191-198 | `find` returns -1 or a position left of the cursor holding the character |
| Compiler.LastIndexOfSkips | internal/fex/fex.go:191-198 | no occurrence of the character lies between the position `find` returns and the cursor |
| Compiler.LastIndexOfIs | internal/fex/fex.go:191-198 | conversely, an occurrence with none between it and the cursor is what `find` returns |
| Compiler.LastIndexWhere | internal/fex/fex.go:199-206 | `findf` returns -1 or a position left of the cursor whose character satisfies the predicate |
| Compiler.LastIndexWhereSkips | internal/fex/fex.go:199-206 | no character between the returned position and the cursor satisfies the predicate |
| Compiler.Find | internal/fex/fex.go:191-198 | the descending loop returns `LastIndexOf` |
| Compiler.FindIf | internal/fex/fex.go:199-206 | the descending loop returns `LastIndexWhere` |
| Compiler.Scan | internal/fex/fex.go:210-326 | a scan from a negative cursor finds nothing, and a successful scan finds at most one selector per character scanned |
| Compiler.Compile | internal/fex/fex.go:167-334 | the empty argument compiles to the empty extractor, and a compiled extractor has at most one selector per character |
| Compiler.GroupStage | internal/fex/fex.go:219-236 | on success the group arm yields a group filter and moves the cursor left of the `{`, strictly left of the `}`; with no `{` left of the `}` it fails with `UnmatchedBrace(i+1)` |
| Compiler.GroupBody | internal/fex/fex.go:224-236 | the stage is non-greedy exactly when the text between the braces starts with `?`; it succeeds exactly when that text without the `?` parses as a group, holds that group, and otherwise carries the group parser's error; the cursor is the one given |
| Compiler.ScanGroup | internal/fex/fex.go:219-236 | the `}` arm returns `UnmatchedBrace(i+1)` when no `{` precedes it, otherwise the group parsed from the text between the braces, non-greedy when it starts with `?` |
| Compiler.RegexScan | internal/fex/fex.go:239-259 | the slash loop ends with its cursor at or left of where it began |
| Compiler.RegexScanStop | internal/fex/fex.go:245-257 | an unescaped slash ends the loop left of it; a slash after an even run of backslashes ends it on the run |
| Compiler.RegexScanEscaped | internal/fex/fex.go:252-258 | a slash after an odd run of backslashes adds (run-1)/2 backslashes and the slash to the pattern, and the search resumes left of the run |
| Compiler.ScanChunks | internal/fex/fex.go:239-259 | the `for start != -1` loop with its two breaks computes `RegexScan` from the first `find('/')` |
| Compiler.RegexStage | internal/fex/fex.go:238-270 | on success the regex arm yields a greedy regex stage and leaves the cursor at or left of the closing slash; it fails only with the engine's error |
| Compiler.ScanRegex | internal/fex/fex.go:238-270 | the `/` arm joins the chunks after reversing them and compiles the result, failing with the engine's error |
| Compiler.NumberStart | internal/fex/fex.go:273-276 | the number text after `start` is an optional `-` followed by digits only, and the character at `start` is not a digit, nor a `-` when no sign was taken, so the run cannot be extended |
| Compiler.NumberStage | internal/fex/fex.go:272-284 | on success the digit arm yields a greedy stage holding one well-formed range and moves the cursor left of the number |
| Compiler.NumberBody | internal/fex/fex.go:277-284 | the stage succeeds exactly when `ParseFieldRange` accepts the number text; it is then greedy, holds that range and keeps the cursor given, and otherwise it carries the parser's error |
| Compiler.ScanNumber | internal/fex/fex.go:272-284 | the digit arm returns `NumberStage`: the run of digits and its sign parsed by `ParseFieldRange`, or its error |
| Compiler.FilterStage | internal/fex/fex.go:218-288 | the switch keeps the cursor at or left of i, and a character that starts no selector is the error `UnexpectedChar` |
| Compiler.Escape | internal/fex/fex.go:292-314 | each escape letter decodes to a control character other than itself, and every other character, the backslash included, decodes to itself |
| Compiler.EscapeTable | internal/fex/fex.go:292-314 | `\a`, `\b`, `\f`, `\n`, `\r`, `\t`, `\v` decode as in Go, `\z` to NUL, `\e` to ESC and `\\` to a backslash |
| Compiler.EscapeInjective | internal/fex/fex.go:292-314 | distinct escape letters decode to distinct delimiters |
| Compiler.ScanFilter | internal/fex/fex.go:218-288 | the switch method computes `FilterStage` |
| Compiler.Delimiter | internal/fex/fex.go:290-319 | after a backslash the delimiter is `Escape` of the character and the cursor moves two left; otherwise it is the character itself and the cursor moves one left; with nothing left it is a space |
| Compiler.ScanDelimiter | internal/fex/fex.go:290-319 | the escape switch and its two fall-backs compute `Delimiter` |
| Compiler.Step | internal/fex/fex.go:210-325 | each iteration that succeeds moves the cursor strictly left, which bounds the walk |
| Compiler.ScanSelector | internal/fex/fex.go:211-325 | one loop body computes `Step`: the filter stage, then the escaped, plain or default delimiter |
| Compiler.ScanStep | internal/fex/fex.go:210-326 | a successful step puts its selector after those found to its left |
| Compiler.ScanFails | internal/fex/fex.go:218-288 | a failing step fails the whole compilation, discarding what was found to its right |
| Compiler.ScanAdvance | internal/fex/fex.go:321-326 | appending a step's selector keeps the walk's invariant `Compile(arg) == Scan(i) ++ reverse(ex)` |
| CompilerProps.LastIndexOfPrefix | internal/fex/fex.go:191-198 | `find` reads nothing right of the cursor |
| CompilerProps.LastIndexWherePrefix | internal/fex/fex.go:199-206 | `findf` reads nothing right of the cursor |
| CompilerProps.RegexScanPrefix | internal/fex/fex.go:239-259 | the slash loop reads nothing right of the cursor |
| CompilerProps.GroupStagePrefix | internal/fex/fex.go:219-236 | the group arm reads nothing right of the cursor |
| CompilerProps.RegexStagePrefix | internal/fex/fex.go:238-270 | the regex arm reads nothing right of the cursor |
| CompilerProps.NumberStartPrefix | internal/fex/fex.go:273-276 | the start of the number depends only on the text left of the cursor |
| CompilerProps.NumberStagePrefix | internal/fex/fex.go:272-284 | the digit arm reads nothing right of the cursor |
| CompilerProps.FilterStagePrefix | internal/fex/fex.go:218-288 | the switch reads nothing right of the cursor |
| CompilerProps.DelimiterPrefix | internal/fex/fex.go:290-319 | the delimiter depends only on the characters at and before its position |
| CompilerProps.StepPrefix | internal/fex/fex.go:210-325 | one iteration reads nothing right of the cursor |
| CompilerProps.ScanPrefix | internal/fex/fex.go:210-326 | the selectors found up to cursor i depend only on the argument's first i+1 characters |
| CompilerProps.StepWellFormed | internal/fex/fex.go:218-325 | every selector a step yields has a one-character delimiter, is non-greedy only for a group, and holds only well-formed ranges |
| CompilerProps.ScanWellFormed | internal/fex/fex.go:210-326 | every selector of a successful scan is well-formed, and there are at most as many selectors as characters scanned |
| CompilerProps.CompileWellFormed | internal/fex/fex.go:167-334 | a compiled extractor has at most one selector per character of the argument, each of them well-formed |
| CompilerProps.UnmatchedBraceError | internal/fex/fex.go:219-223 | a `}` with no `{` to its left is reported with its 1-based position |
| CompilerProps.UnexpectedCharError | internal/fex/fex.go:286-287 | an argument ending in a character that starts no selector fails with that character |
| CompilerProps.ErrorLeftAborts | internal/fex/fex.go:210-288 | an error to the left of a successful step fails the whole compilation, so no partial extractor is returned |
| CompilerProps.CompileEmpty | internal/fex/fex.go:167-173 | the empty argument compiles to the empty extractor |
| Ranges.Resolve | internal/fex/fex.go:447-455 | `FieldRange.abs` resolves both ends with `abs`, and when the end falls below the start it is raised to the start |
| Ranges.Abs | internal/fex/fex.go:525-530 | a non-negative index is kept; a negative index -k becomes n+1-k, which lies in 1..n when k <= n |
| Ranges.IsValid | internal/fex/fex.go:457-461 | a range is valid exactly when 1 <= start <= end |
| Ranges.AbsRelative | internal/fex/fex.go:525-530 | -k names the k-th position from the end when k <= n, and a non-positive position when k > n |
| Ranges.ResolvedValid | internal/fex/fex.go:457-461 | a resolved range passes `isValid` exactly when its resolved start is positive |
| Ranges.Validate | internal/fex/fex.go:415-423 | a range passes exactly when it is well-formed; a backwards same-signed range is `StartAfterEnd`, otherwise a lone zero end is `ZeroMismatch` |
| Ranges.ParseFieldRange | internal/fex/fex.go:385-424 | every range the parser accepts is well-formed and fits in a Go `int` |
| Ranges.ParseSingle | internal/fex/fex.go:386-393 | a printed index parses to the one-field range k:k |
| Ranges.ParseBothEnds | internal/fex/fex.go:395-423 | `s:e` parses to whatever validation of (s, e) returns, range or error |
| Ranges.FormatRoundTrip | internal/fex/fex.go:385-424 | printing then parsing returns every well-formed range, so the accepted ranges are exactly the well-formed ones |
| Ranges.ParseOpenEnds | internal/fex/fex.go:401-412 | `:` is the zero range, `:e` starts at 1 and `s:` ends at -1, the last field |
| Ranges.RangeSelect | internal/fex/fex.go:426-445 | the zero range yields the untokenized string; any other range yields the contiguous block from its resolved start to its resolved end cut at the last field, or nothing when the start lies outside 1..n |
| Ranges.SelectIndex | internal/fex/fex.go:426-445 | index i selects the i-th field alone, and nothing past the last field |
| Ranges.SelectRelativeIndex | internal/fex/fex.go:426-455 | index -k selects the k-th field from the end, and nothing before the first field |
| Filters.NewRegexpFilter | internal/fex/fex.go:468-475 | compilation succeeds exactly when the engine reports no error; the engine's error is returned otherwise |
| Filters.FirstFailure | internal/fex/fex.go:363-369 | the position of the first member that fails to parse, with every member before it parsed |
| Filters.GroupOf | internal/fex/fex.go:360-371 | on success one range per comma-separated member, each the member parsed; otherwise a `CannotParse` error |
| Filters.Collect | internal/fex/fex.go:363-370 | a group is the members' ranges in order when all of them parse, and otherwise the first failure wrapped in `CannotParse` with that member's text |
| Filters.ParseGroup | internal/fex/fex.go:360-371 | the loop that fills the array returns `GroupOf(s)`: the comma-separated members parsed, or the first member's error |
| Filters.FailureAt | internal/fex/fex.go:364-367 | the first failing member decides the group's error |
| Filters.AllParsed | internal/fex/fex.go:363-370 | when every member parses the group is their ranges, in order |
| Filters.GroupWellFormed | internal/fex/fex.go:360-371 | every range of a parsed group is well-formed |
| Filters.EmptyGroupFails | internal/fex/fex.go:360-367 | an empty group body has one empty member, which fails as a syntax error |
| Filters.MemberSelections | internal/fex/fex.go:350-356 | one selection per group member, in group order |
| Filters.GroupSelected | internal/fex/fex.go:348-358 | every token a group selects is a field or the untokenized string |
| Filters.GroupSelectedIsFlatten | internal/fex/fex.go:348-358 | a group selects its members' selections concatenated in group order |
| Filters.GroupSelectedAppend | internal/fex/fex.go:348-358 | selecting with two groups in turn is selecting with their concatenation |
| Filters.GroupSelect | internal/fex/fex.go:348-358 | the append loop computes the group's selection |
| Filters.RegexSelectedSpec | internal/fex/fex.go:481-490 | the regex filter keeps the matching fields and only those, each as often as it occurs, as an order-preserving subsequence of the input: the result is determined |
| Filters.RegexSelected | internal/fex/fex.go:481-490 | the regex filter keeps at most as many fields as it is given, each of them matching |
| Filters.RegexSelectedOrder | internal/fex/fex.go:481-490 | the kept fields are a subsequence of the input, in input order |
| Filters.RegexSelectedCounts | internal/fex/fex.go:481-490 | a matching field is kept as often as it occurs in the input, and a field that does not match is never kept |
| Filters.RegexSelect | internal/fex/fex.go:481-490 | the append loop computes the regex selection |
| Filters.FilterSelect | internal/fex/fex.go:339-341 | `Filter.Select` dispatches on the kind of filter |
| Extraction.GreedySplit | internal/fex/fex.go:501-511 | every token is non-empty and contains no character of the delimiter |
| Extraction.NonGreedySplit | internal/fex/fex.go:515-517 | joining the pieces with the delimiter gives back the input |
| Extraction.SelectorExtract | internal/fex/fex.go:158-165 | one selector tokenizes, filters with the input as the zero value, and joins with its own delimiter |
| Extraction.Extract | internal/fex/fex.go:138-147 | the loop threads the string through every selector in order |
| Extraction.Run | internal/fex/fex.go:138-147 | no selectors return the input; otherwise the first selector runs first and the rest run on its output |
| Extraction.ZeroRangeIdentity | internal/fex/fex.go:427-429 | field 0 returns the input unchanged, whatever the delimiter and tokenizer |
| Extraction.EmptyExtractorIdentity | internal/fex/fex.go:138-147 | an extractor with no selectors returns its input |
| Extraction.RunAppend | internal/fex/fex.go:138-147 | running two extractors back to back is running their concatenation |
| Extraction.NonGreedyWholeRange | internal/fex/fex.go:513-517 | non-greedy splitting loses nothing: the range 1:-1 reproduces the input |
| Extraction.GreedyOnWords | internal/fex/fex.go:496-511 | on words joined by the delimiter, greedy splitting gives back exactly those words |
| Extraction.GreedyIndexSelectsWord | internal/fex/fex.go:426-511 | on such a line, index i selects the i-th word |
| Extraction.GreedyRelativeIndexSelectsWord | internal/fex/fex.go:426-511 | on such a line, index -k selects the k-th word from the end |
| Extraction.NonGreedyIndexSelectsPiece | internal/fex/fex.go:513-517 | on pieces joined by a one-character delimiter, index i selects the i-th piece even when pieces are empty |
| Extraction.OutOfRangeIsEmpty | internal/fex/fex.go:431-438 | an index beyond the tokens, in either direction, yields the empty string |
| Extraction.Outputs | internal/fex/fex.go:104-113 | one output per extractor, output k being extractor k run on the trimmed line |
| Extraction.LineOutput | internal/fex/fex.go:100-118 | what is written for a line is nothing or ends in a newline, and nothing is written when there are no extractors |
| Extraction.ProcessLine | internal/fex/fex.go:100-118 | the line loses its `\n` and then its `\r` terminator; the outputs are separated by single spaces; the newline follows only when something was written |
| Extraction.LineWritten | internal/fex/fex.go:109-116 | with two or more extractors a line is always written; with one, exactly when its output is non-empty |
| Text.JoinSplit | internal/fex/fex.go:515-517 | joining the pieces of `strings.Split` with the separator gives back the input |
| Text.SplitPiecesFree | internal/fex/fex.go:513-517 | no piece of a split contains the non-empty separator |
| Text.SplitJoin | internal/fex/fex.go:513-517 | splitting a join at a one-character separator that occurs in none of the pieces gives back the pieces |
| Text.FieldsKeepContent | internal/fex/fex.go:501-511 | greedy splitting keeps every non-delimiter character, in order |
| Text.FieldsJoin | internal/fex/fex.go:501-511 | greedy splitting of words joined by delimiter characters gives back the words |
| Text.FieldsOfWord | internal/fex/fex.go:501-511 | a non-empty word with no delimiter character is a single field |
| Text.FieldsAtDelim | internal/fex/fex.go:501-511 | every delimiter character separates fields: the fields of `s`, a delimiter and `t` are those of `s` then those of `t` |
| Text.IndexOfSpec | internal/fex/fex.go:386 | the colon search returns the first occurrence, or -1 when there is none |
| Text.TrimSuffix | internal/fex/fex.go:101-102 | the suffix is removed exactly when the string ends with it, and nothing else is removed |
| Text.Atoi | internal/fex/fex.go:388-411 | `strconv.Atoi` succeeds exactly on a signed decimal literal within the 64-bit range, with its value; it fails with a range error for a literal out of range or for a digit run past the unsigned 64-bit range whatever follows it, and with a syntax error otherwise |
| Text.AtoiItoa | internal/fex/fex.go:388-411 | every 64-bit integer printed in decimal parses back to itself |
| Text.AtoiOverflowFirst | internal/fex/fex.go:388-411 | digits past the unsigned 64-bit range make `strconv.Atoi` fail with a range error whatever non-digit text follows them |
| Examples.CompileDotted | internal/fex/usage.go:44-45 | `1.1` compiles to field 1 by space, then field 1 by `.` |
| Examples.CompileNegative | internal/fex/usage.go:31-32 | `--1` is the last field by `-`: the `-` next to the digits is the sign |
| Examples.CompileNonGreedyGroup | cmd/fex/fex_test.go:238-242 | `:{?4}` compiles to a non-greedy group on `:` |
| Examples.CompileBadRelativeRange | cmd/fex/fex_test.go:245-254 | `{-2:-3}` fails with "cannot parse -2:-3: start > end -2 > -3" |
| Examples.CompileBadAbsoluteRange | cmd/fex/fex_test.go:256-265 | `{1,3:1}` fails on its second member with "cannot parse 3:1: start > end 3 > 1" |
| Examples.CompileEmptyGroup | internal/fex/fex.go:360-367 | `{}` fails on its one empty member |
| Examples.CompileUnmatchedBrace | internal/fex/fex.go:219-223 | `a}` fails with an unmatched `}` at character 2 |
| Examples.CompileLoneSlash | internal/fex/fex.go:238-270 | `/` is an empty pattern delimited by `/` |
| Examples.CompileRegex | cmd/fex/fex_test.go:201-211 | ` /-/` compiles to the pattern `-` delimited by a space |
| Examples.CompileDigit | cmd/fex/fex_test.go:96-110 | a single digit k, such as the arguments `1` and `3`, compiles to field k by space |
| Examples.CompileImpossibleField | cmd/fex/fex_test.go:176-181 | `123456789` compiles to field 123456789 by space |
| Examples.CompileOutOfRange | cmd/fex/fex_test.go:190-198 | `{-5:100}` compiles to the group of the range -5:100 by space |
| Examples.CompileMultiFields | cmd/fex/fex_test.go:112-124 | `{1,2,-1}` compiles to the group of fields 1, 2 and -1 by space |
| Examples.CompileGreedyGroup | cmd/fex/fex_test.go:232-236 | `:{3}` compiles to a greedy group of field 3 on `:` |
| Examples.CompileTabDelimiter | internal/fex/fex.go:290-319 | `\t1` compiles to field 1 by a tab: the escape consumes two characters |
| Examples.CompileBackslashDelimiter | internal/fex/fex.go:290-319 | `\\1` compiles to field 1 by a backslash |
| Examples.CompileEscapedSlash | cmd/fex/fex_test.go:213-217 | ` /\w\// -1/1` compiles to the pattern `\w/` by space, then field -1 by space, then field 1 by `/` |
| Examples.CompileEscapedBackslash | cmd/fex/fex_test.go:219-223 | ` /\w\\/ -1\1` compiles to the pattern `\w\\` by space, then field -1 by space, then field 1 by a backslash |
| Examples.CompileBackslashDelim | cmd/fex/fex_test.go:225-229 | `\\/\//\-1/1` compiles to the pattern `/` by a backslash, then field -1 by a backslash, then field 1 by `/` |
| Examples.AtoiNinesThenLetter | internal/fex/fex.go:386-390 | twenty nines followed by `x` fail with a range error, not a syntax error |
| Examples.OutOfRange | cmd/fex/fex_test.go:190-198 | `{-5:100}` compiles, and on seven words yields words 3 to 7 |
| Examples.MultiFields | cmd/fex/fex_test.go:112-124 | `{1,2,-1}` compiles, and on ten words yields the first, the second and the last |
| Examples.GreedyGroup | cmd/fex/fex_test.go:232-236 | `:{3}` compiles, and on four words joined by runs of three delimiters yields the third word |
| Examples.NonGreedyGroup | cmd/fex/fex_test.go:238-242 | `:{?4}` compiles, and on the same line yields the second word, because the empty pieces count |
| Examples.RegexWords | cmd/fex/fex_test.go:201-211 | ` /-/` compiles, and keeps the matching words in order |
| Examples.Basic | cmd/fex/fex_test.go:96-110 | the arguments `1` and `3` compile, and on five words write the first and the third word, a space between them, and a newline |
| Examples.ImpossibleField | cmd/fex/fex_test.go:176-181 | `123456789` compiles, and on seven words writes nothing at all for the line |
| Examples.AfterLeadingDelim | internal/fex/fex.go:496-511 | a greedy first-field selector skips a leading delimiter |

## Left out

- Input and output are not modelled. This covers `Fex.Run` (reading lines,
  the help and version flags, exit statuses), `Usage`, `errorf` and
  `write`. `processLine` accumulates what it writes in a string, and
  `written` counts that string's characters.
- `cmd/fex/fex.go` (the `main` wrapper) is not part of this model.
- `internal/fex/usage.go` is not modelled. Only two of its examples are
  stated, as `Examples.CompileDotted` and `Examples.CompileNegative`.
- Strings are sequences of characters, one character per rune. The table of
  byte offsets that `CompileExtractor` builds to slice by rune is not
  modelled. Slicing by rune positions is what it achieves.
- The regular-expression engine (RE2) is a parameter: `compileError` and
  `matches`. Its syntax and matching rules are not modelled.
- `unicode.IsDigit` is modelled for ASCII digits only. A non-ASCII
  decimal digit such as `٣` is an ordinary character in the model. In fex
  it is a digit: it enters the digit arm when it is the last character of
  a selector, and the search for the start of a number runs past it
  elsewhere; either way `strconv.Atoi` then fails with a syntax error. The
  model reports an unexpected character in the first case, and in the
  second it takes the digit as a delimiter, so `٣1` compiles to field 1
  split on `٣`.
- Error messages are modelled as `Error` values that carry the same data
  (position, values, member text, engine message), not as formatted text.
- `Filter.Select` and the error checks after it in `Selector.Extract` and
  `Group.Select` never fire: no filter in the source returns an error. The
  model's selection is total and leaves these dead paths out.
- `strings.IndexByte(s, ':')` is modelled by the general substring search
  `Text.IndexOf` with the one-character pattern `":"`. The two coincide.
- The usage-text examples and test-table examples are stated over arbitrary
  words that meet the same conditions, not over the literal lines.
- Test cases `MultiSplit`, `OtherSplit`, `NumRange`, `ZeroRange`,
  `ZeroRangePreserved` and `ImpossibleRelativeField` are not stated as
  lemmas, and neither is the compilation of their arguments. The selections
  they exercise are covered for all inputs by `Ranges.RangeSelect`,
  `Extraction.GreedyIndexSelectsWord`, `Extraction.ZeroRangeIdentity` and
  `Extraction.OutOfRangeIsEmpty`.
- Extraction.GreedySplit: its own contract says only that every token is
  non-empty and free of delimiter characters. That the tokens are exactly
  the maximal delimiter-free runs is stated by `Text.FieldsOfWord` and
  `Text.FieldsAtDelim`, which together determine the split of every input.
- Compiler.RegexScan: its own ensures gives only the cursor bound that
  makes the walk terminate. What each round of the slash loop does is
  stated by `Compiler.RegexScanStop` and `Compiler.RegexScanEscaped`.
- Compiler.Step: its own ensures gives only the cursor bound. The function
  body is the definition of one iteration. What it yields is stated by
  `CompilerProps.StepWellFormed`, by the contracts of the arms
  (`Compiler.GroupStage`, `Compiler.GroupBody`, `Compiler.RegexStage`,
  `Compiler.NumberStart`, `Compiler.NumberBody`, `Compiler.FilterStage`)
  and by that of `Compiler.Delimiter`.
- Compiler.RegexStage: the pattern it assembles is given by its function
  body, from the rounds that `Compiler.RegexScanStop` and
  `Compiler.RegexScanEscaped` state; its ensures give the stage's shape,
  the cursor bound and the error kind.
- Compiler.GroupStage and Compiler.NumberStage: that they hand the text
  between the braces to `Compiler.GroupBody`, and the number text starting
  at `Compiler.NumberStart` to `Compiler.NumberBody`, is their function
  body; their own ensures give the stage's shape, the cursor bound and,
  for the group arm, the unmatched-brace error.
- Compiler.Scan and Compiler.Compile: their own ensures give the empty
  cases and the length bound. How a scan composes its steps is stated by
  `Compiler.ScanStep` and `Compiler.ScanFails`, and what the compiled
  selectors are like by `CompilerProps.CompileWellFormed` and
  `CompilerProps.ScanPrefix`.
