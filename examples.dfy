/** Concrete cases of the tool's behaviour (cmd/fex/fex_test.go), stated on
    the model: what some arguments compile to, and what some compiled
    extractors make of some lines. */
module Examples {
  import opened Results
  import opened Text
  import opened Ranges
  import opened Filters
  import opened Extraction
  import opened Compiler
  import opened CompilerProps

  // ---------------------------------------------------------------- helpers

  /** The last step of a scan. */
  lemma {:induction false} ScanOne(eng: RegexEngine, sr: string, i: int, sel: Selector, next: int)
    requires 0 <= i < |sr|
    requires Step(eng, sr, i) == Ok((sel, next)) && next < 0
    ensures Scan(eng, sr, i) == Ok([sel])
  {
    ScanStep(eng, sr, i, sel, next);
    assert Scan(eng, sr, next) == Ok([]);
    assert [] + [sel] == [sel];
  }

  /** Compile is the scan from the last character. */
  lemma {:induction false} CompileOfScan(eng: RegexEngine, sr: string, ops: seq<Selector>)
    requires |sr| > 0 && Scan(eng, sr, |sr| - 1) == Ok(ops)
    ensures Compile(eng, sr) == Ok(ops)
  {
  }

  /** A step in front of a scan that succeeded. */
  lemma {:induction false} ScanCons(eng: RegexEngine, sr: string, i: int, sel: Selector, next: int, rest: seq<Selector>)
    requires 0 <= i < |sr|
    requires Step(eng, sr, i) == Ok((sel, next)) && 0 <= next
    requires Scan(eng, sr, next) == Ok(rest)
    ensures Scan(eng, sr, i) == Ok(rest + [sel])
  {
    ScanStep(eng, sr, i, sel, next);
  }

  /** A digit step whose number starts after `start` and parses to `fr`. */
  lemma {:induction false} NumberStep(eng: RegexEngine, sr: string, i: int, start: int, fr: FieldRange)
    requires 0 <= i < |sr| && IsDigit(sr[i]) && start == NumberStart(sr, i)
    requires ParseFieldRange(sr[start + 1..i + 1]) == Ok(fr)
    ensures Step(eng, sr, i) == Ok((Selector(Delimiter(sr, start).0, Greedy, Range(fr)), Delimiter(sr, start).1))
  {
    DigitArm(eng, sr, i, start, fr);
    StageStep(eng, sr, i, Stage(Greedy, Range(fr), start));
  }

  /** The same when the character left of the number is an unescaped delimiter. */
  lemma {:induction false} PlainNumberStep(eng: RegexEngine, sr: string, i: int, start: int, fr: FieldRange)
    requires 1 <= start < i < |sr| && IsDigit(sr[i]) && start == NumberStart(sr, i) && sr[start - 1] != '\\'
    requires ParseFieldRange(sr[start + 1..i + 1]) == Ok(fr)
    ensures Step(eng, sr, i) == Ok((Selector([sr[start]], Greedy, Range(fr)), start - 1))
  {
    PlainDelimiter(sr, start);
    NumberStep(eng, sr, i, start, fr);
  }

  lemma {:induction false} PlainDelimiter(sr: string, p: int)
    requires 1 <= p < |sr| && sr[p - 1] != '\\'
    ensures Delimiter(sr, p) == ([sr[p]], p - 1)
  {
  }

  lemma {:induction false} DigitArm(eng: RegexEngine, sr: string, i: int, start: int, fr: FieldRange)
    requires 0 <= i < |sr| && IsDigit(sr[i]) && start == NumberStart(sr, i)
    requires ParseFieldRange(sr[start + 1..i + 1]) == Ok(fr)
    ensures FilterStage(eng, sr, i) == Ok(Stage(Greedy, Range(fr), start))
  {
    assert FilterStage(eng, sr, i) == NumberStage(sr, i);
  }

  /** A stage that succeeded is a step, with the delimiter left of its cursor. */
  lemma {:induction false} StageStep(eng: RegexEngine, sr: string, i: int, st: Stage)
    requires 0 <= i < |sr| && FilterStage(eng, sr, i) == Ok(st)
    ensures Step(eng, sr, i) == Ok((Selector(Delimiter(sr, st.cursor).0, st.tokenizer, st.filter), Delimiter(sr, st.cursor).1))
  {
  }

  /** A `/` step whose scan found `chunks` and stopped at `p`. */
  lemma {:induction false} RegexStep(eng: RegexEngine, sr: string, i: int, chunks: seq<string>, p: int, pattern: string)
    requires 0 <= i < |sr| && sr[i] == '/'
    requires RegexScan(sr, i, LastIndexOf(sr, i, '/'), []) == (chunks, p)
    requires pattern == Concat(Reversed(chunks)) && eng.compileError(pattern).None?
    ensures Step(eng, sr, i) == Ok((Selector(Delimiter(sr, p).0, Greedy, Regex(pattern)), Delimiter(sr, p).1))
  {
    SlashArm(eng, sr, i, chunks, p, pattern);
    StageStep(eng, sr, i, Stage(Greedy, Regex(pattern), p));
  }

  lemma {:induction false} SlashArm(eng: RegexEngine, sr: string, i: int, chunks: seq<string>, p: int, pattern: string)
    requires 0 <= i < |sr| && sr[i] == '/'
    requires RegexScan(sr, i, LastIndexOf(sr, i, '/'), []) == (chunks, p)
    requires pattern == Concat(Reversed(chunks)) && eng.compileError(pattern).None?
    ensures FilterStage(eng, sr, i) == Ok(Stage(Greedy, Regex(pattern), p))
  {
    assert FilterStage(eng, sr, i) == RegexStage(eng, sr, i);
  }

  lemma {:induction false} ParseIndex(k: int, text: string)
    requires MinInt <= k <= MaxInt && text == Itoa(k)
    ensures ParseFieldRange(text) == Ok(FieldRange(k, k))
  {
    ParseSingle(k);
  }

  /** A group body whose members all parse. */
  lemma {:induction false} GroupParsed(body: string, specs: seq<string>, g: seq<FieldRange>)
    requires Split(body, ",") == specs && |specs| == |g|
    requires forall k :: 0 <= k < |specs| ==> ParseFieldRange(specs[k]) == Ok(g[k])
    ensures GroupOf(body) == Ok(g)
  {
    AllParsed(specs, ParseEach(specs), g);
  }

  // ---------------------------------------------------------------- compiling

  /** "1.1": the rightmost selector takes the `.` to its left, the leftmost
      one the default space. */
  lemma {:induction false} CompileDotted(eng: RegexEngine)
    ensures Compile(eng, "1.1") == Ok([Selector(" ", Greedy, Range(FieldRange(1, 1))),
                                       Selector(".", Greedy, Range(FieldRange(1, 1)))])
  {
    var first, second := Selector(" ", Greedy, Range(FieldRange(1, 1))), Selector(".", Greedy, Range(FieldRange(1, 1)));
    DottedRight(eng, "1.1", second);
    DottedLeft(eng, "1.1", first);
    ScanOne(eng, "1.1", 0, first, -2);
    ScanCons(eng, "1.1", 2, second, 0, [first]);
    assert [first] + [second] == [first, second];
  }

  lemma {:induction false} DottedRight(eng: RegexEngine, sr: string, sel: Selector)
    requires sr == "1.1" && sel == Selector(".", Greedy, Range(FieldRange(1, 1)))
    ensures Step(eng, sr, 2) == Ok((sel, 0))
  {
    ParseIndex(1, "1");
    assert sr[2..3] == "1";
    assert LastIndexWhere(sr, 2, NotDigit) == 1;
    assert NumberStart(sr, 2) == 1;
    NumberStep(eng, sr, 2, 1, FieldRange(1, 1));
    assert Delimiter(sr, 1) == (".", 0);
  }

  lemma {:induction false} DottedLeft(eng: RegexEngine, sr: string, sel: Selector)
    requires sr == "1.1" && sel == Selector(" ", Greedy, Range(FieldRange(1, 1)))
    ensures Step(eng, sr, 0) == Ok((sel, -2))
  {
    ParseIndex(1, "1");
    assert sr[0..1] == "1";
    assert LastIndexWhere(sr, 0, NotDigit) == -1;
    assert NumberStart(sr, 0) == -1;
    NumberStep(eng, sr, 0, -1, FieldRange(1, 1));
  }

  /** "--1": the `-` next to the digits is their sign, the one before it
      the delimiter. */
  lemma {:induction false} CompileNegative(eng: RegexEngine)
    ensures Compile(eng, "--1") == Ok([Selector("-", Greedy, Range(FieldRange(-1, -1)))])
  {
    var sr := "--1";
    var sel := Selector("-", Greedy, Range(FieldRange(-1, -1)));
    ParseIndex(-1, "-1");
    assert sr[1..3] == "-1";
    assert LastIndexWhere(sr, 2, NotDigit) == 1;
    assert NumberStart(sr, 2) == 0;
    NumberStep(eng, sr, 2, 0, FieldRange(-1, -1));
    assert Step(eng, sr, 2) == Ok((sel, -1));
    ScanOne(eng, sr, 2, sel, -1);
  }

  /** "<c><k>" for a delimiter character c and a single digit k. */
  lemma {:induction false} CompileDelimitedIndex(eng: RegexEngine, c: char, k: nat)
    requires 1 <= k <= 9 && c != '-' && !IsDigit(c)
    ensures Compile(eng, [c, DigitChar(k)]) == Ok([Selector([c], Greedy, Range(FieldRange(k, k)))])
  {
    var sr := [c, DigitChar(k)];
    var sel := Selector([c], Greedy, Range(FieldRange(k, k)));
    assert Itoa(k) == [DigitChar(k)];
    ParseIndex(k, [DigitChar(k)]);
    assert sr[1..2] == [DigitChar(k)];
    assert LastIndexWhere(sr, 1, NotDigit) == 0;
    assert NumberStart(sr, 1) == 0;
    NumberStep(eng, sr, 1, 0, FieldRange(k, k));
    assert Delimiter(sr, 0) == ([c], -1);
    ScanOne(eng, sr, 1, sel, -1);
  }

  /** ":{?4}": a non-greedy group whose delimiter is the colon. */
  lemma {:induction false} CompileNonGreedyGroup(eng: RegexEngine)
    ensures Compile(eng, ":{?4}") == Ok([Selector(":", NonGreedy, Group([FieldRange(4, 4)]))])
  {
    var sr := ":{?4}";
    var sel := Selector(":", NonGreedy, Group([FieldRange(4, 4)]));
    assert Join(["4"], ",") == "4";
    SplitJoin(["4"], ",");
    assert Itoa(4) == "4";
    ParseIndex(4, "4");
    GroupParsed("4", ["4"], [FieldRange(4, 4)]);
    assert LastIndexOf(sr, 4, '{') == 1;
    assert sr[2..4] == "?4" && "?4"[1..] == "4";
    assert GroupStage(sr, 4) == Ok(Stage(NonGreedy, Group([FieldRange(4, 4)]), 0));
    assert Step(eng, sr, 4) == Ok((sel, -1));
    ScanOne(eng, sr, 4, sel, -1);
  }

  /** A group body that fails makes the whole argument "{body}" fail. */
  lemma {:induction false} CompileBadGroup(eng: RegexEngine, sr: string, e: Error)
    requires |sr| >= 2 && sr[0] == '{' && sr[|sr| - 1] == '}'
    requires '{' !in sr[1..|sr| - 1] && (|sr| == 2 || sr[1] != '?')
    requires GroupOf(sr[1..|sr| - 1]) == Err(e)
    ensures Compile(eng, sr) == Err(e)
  {
    GroupArmFails(sr, e);
    assert FilterStage(eng, sr, |sr| - 1) == Err(e);
  }

  lemma {:induction false} GroupArmFails(sr: string, e: Error)
    requires |sr| >= 2 && sr[0] == '{' && sr[|sr| - 1] == '}'
    requires '{' !in sr[1..|sr| - 1] && (|sr| == 2 || sr[1] != '?')
    requires GroupOf(sr[1..|sr| - 1]) == Err(e)
    ensures GroupStage(sr, |sr| - 1) == Err(e)
  {
    var i := |sr| - 1;
    BraceAt(sr, 0);
    var sub := sr[1..i];
    assert |sub| == 0 || sub[0] == sr[1];
    GroupBodyFails(sub, -1, e);
  }

  lemma {:induction false} GroupBodyFails(sub: string, cursor: int, e: Error)
    requires |sub| == 0 || sub[0] != '?'
    requires GroupOf(sub) == Err(e)
    ensures GroupBody(sub, cursor) == Err(e)
  {
  }

  /** Two comma-free members joined by a comma split back into themselves. */
  lemma {:induction false} SplitPair(x: string, y: string, body: string)
    requires ',' !in x && ',' !in y && body == x + "," + y
    ensures Split(body, ",") == [x, y]
  {
    JoinCons(x, [y], ",");
    assert [x] + [y] == [x, y];
    SplitJoin([x, y], ",");
  }

  /** A group whose member i is the first one that fails. */
  lemma {:induction false} GroupFails(body: string, specs: seq<string>, i: nat, e: Error)
    requires Split(body, ",") == specs && i < |specs|
    requires ParseFieldRange(specs[i]) == Err(e)
    requires forall k :: 0 <= k < i ==> ParseFieldRange(specs[k]).Ok?
    ensures GroupOf(body) == Err(CannotParse(specs[i], e))
  {
    FailureAt(specs, ParseEach(specs), i);
  }

  /** `s:e` with s after e, both printed in decimal, fails validation. */
  lemma {:induction false} BackwardsRange(s: int, e: int, spec: string)
    requires MinInt <= s <= MaxInt && MinInt <= e <= MaxInt
    requires spec == Itoa(s) + ":" + Itoa(e)
    requires SameSign(s, e) && s > e
    ensures ParseFieldRange(spec) == Err(StartAfterEnd(s, e))
  {
    ParseBothEnds(s, e);
  }

  lemma {:induction false} MinusTwoMinusThree(spec: string)
    requires spec == "-2:-3"
    ensures spec == Itoa(-2) + ":" + Itoa(-3)
  {
    assert Itoa(-2) == "-2" && Itoa(-3) == "-3";
  }

  lemma {:induction false} RelativeMemberFails(body: string)
    requires body == "-2:-3"
    ensures GroupOf(body) == Err(CannotParse(body, StartAfterEnd(-2, -3)))
  {
    MinusTwoMinusThree(body);
    BackwardsRange(-2, -3, body);
    SingleMember(body, ",");
    GroupFails(body, [body], 0, StartAfterEnd(-2, -3));
  }

  /** A body free of the separator character splits into itself. */
  lemma {:induction false} SingleMember(body: string, sep: string)
    requires |sep| == 1 && sep[0] !in body
    ensures Split(body, sep) == [body]
  {
    assert forall j :: 0 <= j < |body| ==> body[j] in body;
    CharFree(body, sep);
    IndexOfNone(body, sep);
  }

  /** "{-2:-3}": a relative range whose start lies after its end is
      rejected, naming the group member and both values. */
  lemma {:induction false} CompileBadRelativeRange(eng: RegexEngine, arg: string)
    requires arg == "{-2:-3}"
    ensures Compile(eng, arg) == Err(CannotParse("-2:-3", StartAfterEnd(-2, -3)))
  {
    var body := arg[1..6];
    assert |body| == 5 && body[0] == '-' && body[1] == '2' && body[2] == ':' && body[3] == '-' && body[4] == '3';
    assert body == "-2:-3";
    RelativeMemberFails(body);
    CompileBadGroup(eng, arg, CannotParse(body, StartAfterEnd(-2, -3)));
  }

  lemma {:induction false} ThreeOne(spec: string)
    requires spec == "3:1"
    ensures spec == Itoa(3) + ":" + Itoa(1)
  {
    assert Itoa(3) == "3" && Itoa(1) == "1";
  }

  lemma {:induction false} AbsoluteMemberFails(one: string, spec: string, body: string)
    requires one == "1" && spec == "3:1" && body == one + "," + spec
    ensures GroupOf(body) == Err(CannotParse(spec, StartAfterEnd(3, 1)))
  {
    ThreeOne(spec);
    BackwardsRange(3, 1, spec);
    ParseIndex(1, one);
    SplitPair(one, spec, body);
    GroupFails(body, [one, spec], 1, StartAfterEnd(3, 1));
  }

  /** "{1,3:1}": the second member fails, and the whole argument with it. */
  lemma {:induction false} CompileBadAbsoluteRange(eng: RegexEngine, arg: string)
    requires arg == "{1,3:1}"
    ensures Compile(eng, arg) == Err(CannotParse("3:1", StartAfterEnd(3, 1)))
  {
    BadAbsoluteShape(arg);
    AbsoluteMemberFails("1", "3:1", arg[1..|arg| - 1]);
    CompileBadGroup(eng, arg, CannotParse("3:1", StartAfterEnd(3, 1)));
  }

  lemma {:induction false} BadAbsoluteShape(arg: string)
    requires arg == "{1,3:1}"
    ensures |arg| >= 2 && arg[0] == '{' && arg[|arg| - 1] == '}' && arg[1] != '?'
    ensures arg[1..|arg| - 1] == "1" + "," + "3:1" && '{' !in arg[1..|arg| - 1]
  {
    assert arg[1..|arg| - 1] == "1,3:1";
  }

  /** "{}": an empty group has one empty member, which is not a number. */
  lemma {:induction false} CompileEmptyGroup(eng: RegexEngine)
    ensures Compile(eng, "{}") == Err(CannotParse("", SyntaxError("")))
  {
    EmptyGroupFails();
    assert "{}"[1..1] == "";
    CompileBadGroup(eng, "{}", CannotParse("", SyntaxError("")));
  }

  /** "a}": a closing brace with no opening one. */
  lemma {:induction false} CompileUnmatchedBrace(eng: RegexEngine)
    ensures Compile(eng, "a}") == Err(UnmatchedBrace(2))
  {
    UnmatchedBraceError(eng, "a}", 1);
  }

  /** "/": a slash with no partner is an empty pattern delimited by itself. */
  lemma {:induction false} CompileLoneSlash(eng: RegexEngine)
    requires eng.compileError("").None?
    ensures Compile(eng, "/") == Ok([Selector("/", Greedy, Regex(""))])
  {
    var sr := "/";
    var sel := Selector("/", Greedy, Regex(""));
    assert LastIndexOf(sr, 0, '/') == -1;
    assert RegexScan(sr, 0, -1, []) == ([], 0);
    assert Concat(Reversed([])) == "";
    assert Delimiter(sr, 0) == ("/", -1);
    RegexStep(eng, sr, 0, [], 0, "");
    ScanOne(eng, sr, 0, sel, -1);
  }

  /** " /-/": the pattern between the slashes, delimited by the space. */
  lemma {:induction false} CompileRegex(eng: RegexEngine)
    requires eng.compileError("-").None?
    ensures Compile(eng, " /-/") == Ok([Selector(" ", Greedy, Regex("-"))])
  {
    var sr := " /-/";
    var sel := Selector(" ", Greedy, Regex("-"));
    assert LastIndexOf(sr, 3, '/') == 1;
    assert sr[2..3] == "-";
    RegexScanStop(sr, 3, 1, [], ["-"], 0);
    assert Concat(Reversed(["-"])) == "-";
    assert Delimiter(sr, 0) == (" ", -1);
    RegexStep(eng, sr, 3, ["-"], 0, "-");
    ScanOne(eng, sr, 3, sel, -1);
  }

  // ---------------------------------------------------------------- compiling the test arguments

  /** A single digit k compiles to index k split on the default space. */
  lemma {:induction false} CompileDigit(eng: RegexEngine, k: nat)
    requires 1 <= k <= 9
    ensures Compile(eng, [DigitChar(k)]) == Ok([Selector(" ", Greedy, Range(FieldRange(k, k)))])
  {
    var sr := [DigitChar(k)];
    var sel := Selector(" ", Greedy, Range(FieldRange(k, k)));
    assert Itoa(k) == sr;
    ParseIndex(k, sr);
    assert sr[0..1] == sr;
    assert LastIndexWhere(sr, 0, NotDigit) == -1;
    assert NumberStart(sr, 0) == -1;
    NumberStep(eng, sr, 0, -1, FieldRange(k, k));
    assert Step(eng, sr, 0) == Ok((sel, -2));
    ScanOne(eng, sr, 0, sel, -2);
  }

  /** "123456789": a single index far past any line's tokens. */
  lemma {:induction false} CompileImpossibleField(eng: RegexEngine)
    ensures Compile(eng, "123456789") == Ok([Selector(" ", Greedy, Range(FieldRange(123456789, 123456789)))])
  {
    var sr := "123456789";
    var sel := Selector(" ", Greedy, Range(FieldRange(123456789, 123456789)));
    NineDigits(sr);
    ParseIndex(123456789, sr);
    assert sr[0..9] == sr;
    assert NumberStart(sr, 8) == -1;
    NumberStep(eng, sr, 8, -1, FieldRange(123456789, 123456789));
    assert Step(eng, sr, 8) == Ok((sel, -2));
    ScanOne(eng, sr, 8, sel, -2);
  }

  lemma {:induction false} NineDigits(sr: string)
    requires sr == "123456789"
    ensures Itoa(123456789) == sr
    ensures LastIndexWhere(sr, 8, NotDigit) == -1
  {
    PrintNine(sr);
    assert forall k :: 0 <= k < 8 ==> !NotDigit(sr[k]);
    LastIndexWhereIs(sr, 8, NotDigit, -1);
  }

  lemma {:induction false} PrintNine(sr: string)
    requires sr == "123456789"
    ensures Itoa(123456789) == sr
  {
    assert Digits(1) == "1";
    assert Digits(12) == "12";
    assert Digits(123) == "123";
    assert Digits(1234) == "1234";
    assert Digits(12345) == "12345";
    assert Digits(123456) == "123456";
    assert Digits(1234567) == "1234567";
    assert Digits(12345678) == "12345678";
  }

  /** Conversely to LastIndexWhereSkips: a satisfying position with none
      between it and the cursor is what `findf` returns. */
  lemma {:induction false} LastIndexWhereIs(sr: string, i: int, f: char -> bool, q: int)
    requires -1 <= q < i <= |sr|
    requires q >= 0 ==> f(sr[q])
    requires forall k :: q < k < i ==> !f(sr[k])
    ensures LastIndexWhere(sr, i, f) == q
    decreases i
  {
    if i - 1 > q {
      LastIndexWhereIs(sr, i - 1, f, q);
    }
  }

  /** `{body}` or `c{body}` is one greedy group step when the body has no
      `{`, no leading `?`, and its members all parse; the delimiter is the
      default space or `c`. */
  lemma {:induction false} BracedStep(eng: RegexEngine, sr: string, o: int, g: seq<FieldRange>, sel: Selector, next: int)
    requires 0 <= o <= 1 && |sr| >= o + 2 && next == o - 2
    requires FilterStage(eng, sr, |sr| - 1) == Ok(Stage(Greedy, Group(g), o - 1))
    requires sel == Selector(if o == 0 then " " else [sr[0]], Greedy, Group(g))
    ensures Step(eng, sr, |sr| - 1) == Ok((sel, next))
  {
    StageStep(eng, sr, |sr| - 1, Stage(Greedy, Group(g), o - 1));
    assert Delimiter(sr, o - 1) == (sel.delim, next);
  }

  /** The `}` arm on a group stage that succeeded. */
  lemma {:induction false} BraceArm(eng: RegexEngine, sr: string, i: int, st: Stage)
    requires 0 <= i < |sr| && sr[i] == '}' && GroupStage(sr, i) == Ok(st)
    ensures FilterStage(eng, sr, i) == Ok(st)
  {
  }

  /** `{body}` or `c{body}` with no other `{`, no leading `?` and members
      that all parse: a greedy group stage whose cursor is left of the `{`. */
  lemma {:induction false} BracedGroupStage(sr: string, o: int, g: seq<FieldRange>)
    requires 0 <= o <= 1 && |sr| >= o + 2 && sr[o] == '{' && sr[|sr| - 1] == '}'
    requires '{' !in sr[o + 1..|sr| - 1]
    requires |sr| == o + 2 || sr[o + 1] != '?'
    requires GroupOf(sr[o + 1..|sr| - 1]) == Ok(g)
    ensures GroupStage(sr, |sr| - 1) == Ok(Stage(Greedy, Group(g), o - 1))
  {
    BraceAt(sr, o);
    GroupBodyAt(sr, o, g);
  }

  lemma {:induction false} GroupBodyAt(sr: string, o: int, g: seq<FieldRange>)
    requires 0 <= o && |sr| >= o + 2 && LastIndexOf(sr, |sr| - 1, '{') == o
    requires |sr| == o + 2 || sr[o + 1] != '?'
    requires GroupOf(sr[o + 1..|sr| - 1]) == Ok(g)
    ensures GroupStage(sr, |sr| - 1) == Ok(Stage(Greedy, Group(g), o - 1))
  {
    var sub := sr[o + 1..|sr| - 1];
    GroupStageIs(sr, |sr| - 1, o);
    assert |sub| == 0 || sub[0] == sr[o + 1];
    GreedyBody(sub, o - 1, g);
  }

  lemma {:induction false} GroupStageIs(sr: string, i: int, start: int)
    requires 0 <= start < i < |sr| && LastIndexOf(sr, i, '{') == start
    ensures GroupStage(sr, i) == GroupBody(sr[start + 1..i], start - 1)
  {
  }

  /** The `{` found from a closing `}` is the only one before it. */
  lemma {:induction false} BraceAt(sr: string, o: int)
    requires 0 <= o && |sr| >= o + 2 && sr[o] == '{' && '{' !in sr[o + 1..|sr| - 1]
    ensures LastIndexOf(sr, |sr| - 1, '{') == o
  {
    NoBraceAfter(sr, o);
    LastIndexOfIs(sr, |sr| - 1, '{', o);
  }

  lemma {:induction false} GreedyBody(sub: string, cursor: int, g: seq<FieldRange>)
    requires (|sub| == 0 || sub[0] != '?') && GroupOf(sub) == Ok(g)
    ensures GroupBody(sub, cursor) == Ok(Stage(Greedy, Group(g), cursor))
  {
  }

  lemma {:induction false} NoBraceAfter(sr: string, o: int)
    requires 0 <= o && |sr| >= o + 2 && '{' !in sr[o + 1..|sr| - 1]
    ensures forall k :: o < k < |sr| - 1 ==> sr[k] != '{'
  {
    var i := |sr| - 1;
    assert forall k :: o < k < i ==> sr[k] == sr[o + 1..i][k - o - 1];
  }

  lemma {:induction false} MinusFiveToHundred(body: string)
    requires body == "-5:100"
    ensures GroupOf(body) == Ok([FieldRange(-5, 100)])
    ensures '{' !in body && body[0] != '?'
  {
    assert Itoa(-5) == "-5" && Itoa(100) == "100";
    assert body == Itoa(-5) + ":" + Itoa(100);
    ParseBothEnds(-5, 100);
    SingleMember(body, ",");
    GroupParsed(body, [body], [FieldRange(-5, 100)]);
  }

  /** "{-5:100}": one member, from the fifth token from the end to token 100. */
  lemma {:induction false} CompileOutOfRange(eng: RegexEngine, arg: string)
    requires arg == "{-5:100}"
    ensures Compile(eng, arg) == Ok([Selector(" ", Greedy, Group([FieldRange(-5, 100)]))])
  {
    var sel := Selector(" ", Greedy, Group([FieldRange(-5, 100)]));
    OutOfRangeStep(eng, arg, sel);
    ScanOne(eng, arg, |arg| - 1, sel, -2);
    CompileOfScan(eng, arg, [sel]);
  }

  lemma {:induction false} OutOfRangeStep(eng: RegexEngine, arg: string, sel: Selector)
    requires arg == "{-5:100}" && sel == Selector(" ", Greedy, Group([FieldRange(-5, 100)]))
    ensures Step(eng, arg, |arg| - 1) == Ok((sel, -2))
  {
    OutOfRangeShape(eng, arg);
    BracedStep(eng, arg, 0, [FieldRange(-5, 100)], sel, -2);
  }

  lemma {:induction false} OutOfRangeShape(eng: RegexEngine, arg: string)
    requires arg == "{-5:100}"
    ensures FilterStage(eng, arg, |arg| - 1) == Ok(Stage(Greedy, Group([FieldRange(-5, 100)]), -1))
  {
    OutOfRangeGroup(arg);
    BraceArm(eng, arg, |arg| - 1, Stage(Greedy, Group([FieldRange(-5, 100)]), -1));
  }

  lemma {:induction false} OutOfRangeGroup(arg: string)
    requires arg == "{-5:100}"
    ensures arg[|arg| - 1] == '}' && GroupStage(arg, |arg| - 1) == Ok(Stage(Greedy, Group([FieldRange(-5, 100)]), -1))
  {
    OutOfRangeBody(arg);
    BracedGroupStage(arg, 0, [FieldRange(-5, 100)]);
  }

  lemma {:induction false} OutOfRangeBody(arg: string)
    requires arg == "{-5:100}"
    ensures arg[0] == '{' && arg[|arg| - 1] == '}' && arg[1] != '?'
    ensures '{' !in arg[1..|arg| - 1] && GroupOf(arg[1..|arg| - 1]) == Ok([FieldRange(-5, 100)])
  {
    var body := arg[1..|arg| - 1];
    assert |body| == 6 && body[0] == '-' && body[1] == '5' && body[2] == ':';
    assert body[3] == '1' && body[4] == '0' && body[5] == '0';
    assert body == "-5:100";
    MinusFiveToHundred(body);
  }

  lemma {:induction false} OneTwoMinusOne(body: string)
    requires body == "1,2,-1"
    ensures GroupOf(body) == Ok([FieldRange(1, 1), FieldRange(2, 2), FieldRange(-1, -1)])
    ensures '{' !in body && body[0] != '?'
  {
    var a, b, c := "1", "2", "-1";
    OneTwoMinusOneSplit(body, [a, b, c]);
    OneTwoMinusOneParsed(a, b, c);
    GroupParsedThree(body, a, b, c, FieldRange(1, 1), FieldRange(2, 2), FieldRange(-1, -1));
  }

  lemma {:induction false} OneTwoMinusOneParsed(a: string, b: string, c: string)
    requires a == "1" && b == "2" && c == "-1"
    ensures ParseFieldRange(a) == Ok(FieldRange(1, 1))
    ensures ParseFieldRange(b) == Ok(FieldRange(2, 2))
    ensures ParseFieldRange(c) == Ok(FieldRange(-1, -1))
  {
    assert Itoa(1) == a && Itoa(2) == b && Itoa(-1) == c;
    ParseIndex(1, a);
    ParseIndex(2, b);
    ParseIndex(-1, c);
  }

  lemma {:induction false} GroupParsedThree(body: string, a: string, b: string, c: string, x: FieldRange, y: FieldRange, z: FieldRange)
    requires Split(body, ",") == [a, b, c]
    requires ParseFieldRange(a) == Ok(x) && ParseFieldRange(b) == Ok(y) && ParseFieldRange(c) == Ok(z)
    ensures GroupOf(body) == Ok([x, y, z])
  {
    GroupParsed(body, [a, b, c], [x, y, z]);
  }

  lemma {:induction false} OneTwoMinusOneSplit(body: string, ws: seq<string>)
    requires body == "1,2,-1" && ws == ["1", "2", "-1"]
    ensures Split(body, ",") == ws
  {
    assert ws[1..] == ["2", "-1"] && ws[1..][1..] == ["-1"];
    assert Join(["-1"], ",") == "-1";
    assert Join(["2", "-1"], ",") == "2,-1";
    assert Join(ws, ",") == body;
    SplitJoin(ws, ",");
  }

  /** "{1,2,-1}": three members, in order. */
  lemma {:induction false} CompileMultiFields(eng: RegexEngine, arg: string)
    requires arg == "{1,2,-1}"
    ensures Compile(eng, arg) == Ok([Selector(" ", Greedy, Group([FieldRange(1, 1), FieldRange(2, 2), FieldRange(-1, -1)]))])
  {
    var sel := Selector(" ", Greedy, Group([FieldRange(1, 1), FieldRange(2, 2), FieldRange(-1, -1)]));
    MultiFieldsStep(eng, arg, sel);
    ScanOne(eng, arg, |arg| - 1, sel, -2);
    CompileOfScan(eng, arg, [sel]);
  }

  lemma {:induction false} MultiFieldsStep(eng: RegexEngine, arg: string, sel: Selector)
    requires arg == "{1,2,-1}" && sel == Selector(" ", Greedy, Group([FieldRange(1, 1), FieldRange(2, 2), FieldRange(-1, -1)]))
    ensures Step(eng, arg, |arg| - 1) == Ok((sel, -2))
  {
    MultiFieldsShape(eng, arg);
    BracedStep(eng, arg, 0, [FieldRange(1, 1), FieldRange(2, 2), FieldRange(-1, -1)], sel, -2);
  }

  lemma {:induction false} MultiFieldsShape(eng: RegexEngine, arg: string)
    requires arg == "{1,2,-1}"
    ensures FilterStage(eng, arg, |arg| - 1) == Ok(Stage(Greedy, Group([FieldRange(1, 1), FieldRange(2, 2), FieldRange(-1, -1)]), -1))
  {
    MultiFieldsGroup(arg);
    BraceArm(eng, arg, |arg| - 1, Stage(Greedy, Group([FieldRange(1, 1), FieldRange(2, 2), FieldRange(-1, -1)]), -1));
  }

  lemma {:induction false} MultiFieldsGroup(arg: string)
    requires arg == "{1,2,-1}"
    ensures arg[|arg| - 1] == '}'
    ensures GroupStage(arg, |arg| - 1) == Ok(Stage(Greedy, Group([FieldRange(1, 1), FieldRange(2, 2), FieldRange(-1, -1)]), -1))
  {
    MultiFieldsBody(arg);
    BracedGroupStage(arg, 0, [FieldRange(1, 1), FieldRange(2, 2), FieldRange(-1, -1)]);
  }

  lemma {:induction false} MultiFieldsBody(arg: string)
    requires arg == "{1,2,-1}"
    ensures arg[0] == '{' && arg[|arg| - 1] == '}' && arg[1] != '?'
    ensures '{' !in arg[1..|arg| - 1]
    ensures GroupOf(arg[1..|arg| - 1]) == Ok([FieldRange(1, 1), FieldRange(2, 2), FieldRange(-1, -1)])
  {
    var body := arg[1..|arg| - 1];
    assert |body| == 6 && body[0] == '1' && body[1] == ',' && body[2] == '2';
    assert body[3] == ',' && body[4] == '-' && body[5] == '1';
    assert body == "1,2,-1";
    OneTwoMinusOne(body);
  }

  lemma {:induction false} ThreeMember(body: string)
    requires body == "3"
    ensures GroupOf(body) == Ok([FieldRange(3, 3)])
    ensures '{' !in body && body[0] != '?'
  {
    assert Itoa(3) == "3";
    ParseIndex(3, body);
    SingleMember(body, ",");
    GroupParsed(body, [body], [FieldRange(3, 3)]);
  }

  /** ":{3}": a greedy group on the colon. */
  lemma {:induction false} CompileGreedyGroup(eng: RegexEngine, arg: string)
    requires arg == ":{3}"
    ensures Compile(eng, arg) == Ok([Selector(":", Greedy, Group([FieldRange(3, 3)]))])
  {
    var sel := Selector(":", Greedy, Group([FieldRange(3, 3)]));
    GreedyGroupStep(eng, arg, sel);
    ScanOne(eng, arg, |arg| - 1, sel, -1);
    CompileOfScan(eng, arg, [sel]);
  }

  lemma {:induction false} GreedyGroupStep(eng: RegexEngine, arg: string, sel: Selector)
    requires arg == ":{3}" && sel == Selector(":", Greedy, Group([FieldRange(3, 3)]))
    ensures Step(eng, arg, |arg| - 1) == Ok((sel, -1))
  {
    GreedyGroupShape(eng, arg);
    BracedStep(eng, arg, 1, [FieldRange(3, 3)], sel, -1);
  }

  lemma {:induction false} GreedyGroupShape(eng: RegexEngine, arg: string)
    requires arg == ":{3}"
    ensures [arg[0]] == ":" && FilterStage(eng, arg, |arg| - 1) == Ok(Stage(Greedy, Group([FieldRange(3, 3)]), 0))
  {
    GreedyGroupOf(arg);
    BraceArm(eng, arg, |arg| - 1, Stage(Greedy, Group([FieldRange(3, 3)]), 0));
  }

  lemma {:induction false} GreedyGroupOf(arg: string)
    requires arg == ":{3}"
    ensures [arg[0]] == ":" && arg[|arg| - 1] == '}'
    ensures GroupStage(arg, |arg| - 1) == Ok(Stage(Greedy, Group([FieldRange(3, 3)]), 0))
  {
    GreedyGroupBody(arg);
    BracedGroupStage(arg, 1, [FieldRange(3, 3)]);
  }

  lemma {:induction false} GreedyGroupBody(arg: string)
    requires arg == ":{3}"
    ensures [arg[0]] == ":" && arg[1] == '{' && arg[|arg| - 1] == '}' && arg[2] != '?'
    ensures '{' !in arg[2..|arg| - 1] && GroupOf(arg[2..|arg| - 1]) == Ok([FieldRange(3, 3)])
  {
    var body := arg[2..3];
    assert body == "3";
    ThreeMember(body);
  }

  /** "\t1": an escaped delimiter takes two characters and decodes to a tab. */
  lemma {:induction false} CompileTabDelimiter(eng: RegexEngine)
    ensures Compile(eng, "\\t1") == Ok([Selector("\t", Greedy, Range(FieldRange(1, 1)))])
  {
    var sr := "\\t1";
    var sel := Selector("\t", Greedy, Range(FieldRange(1, 1)));
    ParseIndex(1, "1");
    assert sr[2..3] == "1";
    assert LastIndexWhere(sr, 2, NotDigit) == 1;
    assert NumberStart(sr, 2) == 1;
    NumberStep(eng, sr, 2, 1, FieldRange(1, 1));
    assert Delimiter(sr, 1) == ("\t", -1);
    assert Step(eng, sr, 2) == Ok((sel, -1));
    ScanOne(eng, sr, 2, sel, -1);
  }

  /** "\\1": an escaped backslash is a backslash delimiter. */
  lemma {:induction false} CompileBackslashDelimiter(eng: RegexEngine)
    ensures Compile(eng, "\\\\1") == Ok([Selector("\\", Greedy, Range(FieldRange(1, 1)))])
  {
    var sr := "\\\\1";
    var sel := Selector("\\", Greedy, Range(FieldRange(1, 1)));
    ParseIndex(1, "1");
    assert sr[2..3] == "1";
    assert LastIndexWhere(sr, 2, NotDigit) == 1;
    assert NumberStart(sr, 2) == 1;
    NumberStep(eng, sr, 2, 1, FieldRange(1, 1));
    assert Delimiter(sr, 1) == ("\\", -1);
    assert Step(eng, sr, 2) == Ok((sel, -1));
    ScanOne(eng, sr, 2, sel, -1);
  }

  /** 10 to the power n. */
  function Ten(n: nat): (t: nat)
    ensures t >= 1
  {
    if n == 0 then 1 else 10 * Ten(n - 1)
  }

  lemma {:induction false} TenAdd(a: nat, b: nat)
    ensures Ten(a + b) == Ten(a) * Ten(b)
    decreases a
  {
    if a > 0 {
      TenAdd(a - 1, b);
    }
  }

  /** A run of n nines has the value 10^n - 1. */
  lemma {:induction false} NinesValue(ds: string)
    requires forall k :: 0 <= k < |ds| ==> ds[k] == '9'
    ensures AllDigits(ds) && DecimalValue(ds) + 1 == Ten(|ds|)
    decreases |ds|
  {
    if |ds| > 0 {
      NinesValue(ds[..|ds| - 1]);
    }
  }

  /** Twenty nines and an `x`: the digit run already exceeds the unsigned
      64-bit accumulator, so the error is a range error, not a syntax
      error, although the text is not a number. */
  lemma {:induction false} AtoiNinesThenLetter(s: string)
    requires s == "99999999999999999999x"
    ensures Atoi(s) == Err(RangeError(s))
  {
    var ds := s[..20];
    NinesValue(ds);
    assert Ten(5) == 100000;
    TenAdd(5, 5);
    TenAdd(10, 10);
    assert s == ds + "x";
    AtoiOverflowFirst(ds, "x");
  }

  // ---------------------------------------------------------------- escaped slashes

  /** Two steps, right to left, that end the scan. */
  lemma {:induction false} ScanTwo(eng: RegexEngine, sr: string, i1: int, i2: int, next: int, s1: Selector, s2: Selector)
    requires 0 <= i1 < i2 < |sr| && next < 0
    requires Step(eng, sr, i2) == Ok((s2, i1))
    requires Step(eng, sr, i1) == Ok((s1, next))
    ensures Scan(eng, sr, i2) == Ok([s1, s2])
  {
    ScanOne(eng, sr, i1, s1, next);
    ScanCons(eng, sr, i2, s2, i1, [s1]);
    Two(s1, s2);
  }

  /** "1" at position i after a `/` or a `\`: index 1, delimited by that character. */
  lemma {:induction false} LastIndexStep(eng: RegexEngine, sr: string, i: int)
    requires 2 <= i < |sr| && sr[i] == '1' && IsDigit(sr[i - 2]) && !IsDigit(sr[i - 1]) && sr[i - 1] != '-'
    ensures Step(eng, sr, i) == Ok((Selector([sr[i - 1]], Greedy, Range(FieldRange(1, 1))), i - 2))
  {
    LastIndexNumber(sr, i);
    PlainNumberStep(eng, sr, i, i - 1, FieldRange(1, 1));
  }

  lemma {:induction false} LastIndexNumber(sr: string, i: int)
    requires 2 <= i < |sr| && sr[i] == '1' && !IsDigit(sr[i - 1]) && sr[i - 1] != '-'
    ensures NumberStart(sr, i) == i - 1 && ParseFieldRange(sr[i..i + 1]) == Ok(FieldRange(1, 1))
  {
    ParseIndex(1, "1");
    assert sr[i..i + 1] == "1";
    assert LastIndexWhere(sr, i, NotDigit) == i - 1;
  }

  /** "-1" ending at position i, after the character at i-3: index -1,
      delimited by that character. */
  lemma {:induction false} MinusOneStep(eng: RegexEngine, sr: string, i: int)
    requires 3 <= i < |sr| && sr[i - 1] == '-' && sr[i] == '1' && sr[i - 3] != '\\'
    ensures Step(eng, sr, i) == Ok((Selector([sr[i - 2]], Greedy, Range(FieldRange(-1, -1))), i - 3))
  {
    MinusOneNumber(sr, i);
    PlainNumberStep(eng, sr, i, i - 2, FieldRange(-1, -1));
  }

  lemma {:induction false} MinusOneNumber(sr: string, i: int)
    requires 3 <= i < |sr| && sr[i - 1] == '-' && sr[i] == '1'
    ensures NumberStart(sr, i) == i - 2 && ParseFieldRange(sr[i - 1..i + 1]) == Ok(FieldRange(-1, -1))
  {
    ParseIndex(-1, "-1");
    assert sr[i - 1..i + 1] == "-1";
    assert LastIndexWhere(sr, i, NotDigit) == i - 1;
  }

  /** The `/` arm at position 6 of ` /\w\// -1/1`: the escaped slash and
      `\w` are the chunks, and the cursor stops on the leading space. */
  lemma {:induction false} EscapedSlashPattern(sr: string)
    requires sr == " /\\w\\// -1/1"
    ensures RegexScan(sr, 6, LastIndexOf(sr, 6, '/'), []) == (["/", "\\w"], 0)
    ensures Concat(Reversed(["/", "\\w"])) == "\\w/" && Delimiter(sr, 0) == (" ", -1)
  {
    assert LastIndexOf(sr, 6, '/') == 5;
    assert LastIndexWhere(sr, 5, NotBackslash) == 3;
    assert sr[5..6] == "/";
    RegexScanEscaped(sr, 6, 5, [], [], 4, "/");
    assert [] + ["/"] == ["/"];
    assert LastIndexOf(sr, 4, '/') == 1;
    assert sr[2..4] == "\\w";
    RegexScanStop(sr, 4, 1, ["/"], ["/", "\\w"], 0);
  }

  /** ` /\w\// -1/1`: a slash after one backslash belongs to the pattern,
      which is `\w/`; the other two selectors are -1 on spaces and 1 on
      slashes. */
  lemma {:induction false} CompileEscapedSlash(eng: RegexEngine, arg: string)
    requires arg == " /\\w\\// -1/1" && eng.compileError("\\w/").None?
    ensures Compile(eng, arg) == Ok([Selector(" ", Greedy, Regex("\\w/")),
                                     Selector(" ", Greedy, Range(FieldRange(-1, -1))),
                                     Selector("/", Greedy, Range(FieldRange(1, 1)))])
  {
    LastIndexStep(eng, arg, 11);
    MinusOneStep(eng, arg, 9);
    EscapedSlashPattern(arg);
    RegexStep(eng, arg, 6, ["/", "\\w"], 0, "\\w/");
    var s1, s2, s3 := Selector(" ", Greedy, Regex("\\w/")), Selector(" ", Greedy, Range(FieldRange(-1, -1))),
      Selector("/", Greedy, Range(FieldRange(1, 1)));
    ScanTwo(eng, arg, 6, 9, -1, s1, s2);
    ScanCons(eng, arg, |arg| - 1, s3, 9, [s1, s2]);
    Three(s1, s2, s3);
    CompileOfScan(eng, arg, [s1, s2, s3]);
  }

  lemma {:induction false} EscapedBackslashPattern(sr: string)
    requires sr == " /\\w\\\\/ -1\\1"
    ensures RegexScan(sr, 6, LastIndexOf(sr, 6, '/'), []) == (["\\w\\\\"], 0)
    ensures Concat(Reversed(["\\w\\\\"])) == "\\w\\\\" && Delimiter(sr, 0) == (" ", -1)
  {
    assert LastIndexOf(sr, 6, '/') == 1;
    assert sr[2..6] == "\\w\\\\";
    RegexScanStop(sr, 6, 1, [], ["\\w\\\\"], 0);
  }

  /** ` /\w\\/ -1\1`: backslashes not followed by a slash stay in the
      pattern as written, and the last selector splits on a backslash. */
  lemma {:induction false} CompileEscapedBackslash(eng: RegexEngine, arg: string)
    requires arg == " /\\w\\\\/ -1\\1" && eng.compileError("\\w\\\\").None?
    ensures Compile(eng, arg) == Ok([Selector(" ", Greedy, Regex("\\w\\\\")),
                                     Selector(" ", Greedy, Range(FieldRange(-1, -1))),
                                     Selector("\\", Greedy, Range(FieldRange(1, 1)))])
  {
    LastIndexStep(eng, arg, 11);
    MinusOneStep(eng, arg, 9);
    EscapedBackslashPattern(arg);
    RegexStep(eng, arg, 6, ["\\w\\\\"], 0, "\\w\\\\");
    var s1, s2, s3 := Selector(" ", Greedy, Regex("\\w\\\\")), Selector(" ", Greedy, Range(FieldRange(-1, -1))),
      Selector("\\", Greedy, Range(FieldRange(1, 1)));
    ScanTwo(eng, arg, 6, 9, -1, s1, s2);
    ScanCons(eng, arg, |arg| - 1, s3, 9, [s1, s2]);
    Three(s1, s2, s3);
    CompileOfScan(eng, arg, [s1, s2, s3]);
  }

  lemma {:induction false} BackslashDelimPattern(sr: string)
    requires sr == "\\\\/\\//\\-1/1"
    ensures RegexScan(sr, 5, LastIndexOf(sr, 5, '/'), []) == (["/"], 0)
    ensures Concat(Reversed(["/"])) == "/" && Delimiter(sr, 0) == ("\\", -1)
  {
    assert LastIndexOf(sr, 5, '/') == 4;
    assert LastIndexWhere(sr, 4, NotBackslash) == 2;
    assert sr[4..5] == "/";
    RegexScanEscaped(sr, 5, 4, [], [], 3, "/");
    assert [] + ["/"] == ["/"];
    assert LastIndexOf(sr, 3, '/') == 2;
    assert LastIndexWhere(sr, 2, NotBackslash) == -1;
    RegexScanStop(sr, 3, 2, ["/"], ["/"], 0);
  }

  /** `\\/\//\-1/1`: the slash after one backslash is part of the pattern
      `/`, while the slash after two backslashes opens it, and the two
      backslashes before it are one escaped backslash delimiter. */
  lemma {:induction false} CompileBackslashDelim(eng: RegexEngine, arg: string)
    requires arg == "\\\\/\\//\\-1/1" && eng.compileError("/").None?
    ensures Compile(eng, arg) == Ok([Selector("\\", Greedy, Regex("/")),
                                     Selector("\\", Greedy, Range(FieldRange(-1, -1))),
                                     Selector("/", Greedy, Range(FieldRange(1, 1)))])
  {
    LastIndexStep(eng, arg, 10);
    MinusOneStep(eng, arg, 8);
    BackslashDelimPattern(arg);
    RegexStep(eng, arg, 5, ["/"], 0, "/");
    var s1, s2, s3 := Selector("\\", Greedy, Regex("/")), Selector("\\", Greedy, Range(FieldRange(-1, -1))),
      Selector("/", Greedy, Range(FieldRange(1, 1)));
    ScanTwo(eng, arg, 5, 8, -1, s1, s2);
    ScanCons(eng, arg, |arg| - 1, s3, 8, [s1, s2]);
    Three(s1, s2, s3);
    CompileOfScan(eng, arg, [s1, s2, s3]);
  }

  // ---------------------------------------------------------------- running

  lemma {:induction false} RunSingle(eng: RegexEngine, sel: Selector, s: string)
    ensures Run(eng, [sel], s) == Apply(eng, sel, s)
  {
    assert [sel][..0] == [];
  }

  /** The text written for a line read with its newline: the outputs on
      the line without it, joined by spaces, and a newline when that is
      not empty. */
  lemma {:induction false} LineOf(eng: RegexEngine, ops: seq<seq<Selector>>, text: string, outs: seq<string>)
    requires |text| > 0 && text[|text| - 1] != '\r'
    requires |outs| == |ops| && forall k :: 0 <= k < |ops| ==> Run(eng, ops[k], text) == outs[k]
    ensures LineOutput(eng, ops, text + "\n") == if Join(outs, " ") == "" then "" else Join(outs, " ") + "\n"
  {
    assert TrimSuffix(text + "\n", "\n") == text;
    assert TrimSuffix(text, "\r") == text;
    assert Outputs(eng, ops, text) == outs;
  }

  /** A greedy selector for the first token skips a leading delimiter. */
  lemma {:induction false} AfterLeadingDelim(eng: RegexEngine, delim: string, line: string, w: string)
    requires |delim| == 1 && line == delim + w
    requires |w| > 0 && delim[0] !in w
    ensures Run(eng, [Selector(delim, Greedy, Range(FieldRange(1, 1)))], line) == w
  {
    RunSingle(eng, Selector(delim, Greedy, Range(FieldRange(1, 1))), line);
    FieldsSkipDelims(delim, w, delim);
    assert Join([w], delim) == w;
    assert forall j :: 0 <= j < |w| ==> w[j] !in delim by {
      forall j | 0 <= j < |w| ensures w[j] !in delim {
        assert w[j] in w;
      }
    }
    FieldsJoin([w], delim, delim);
    SelectIndex(1, [w], line);
  }

  /** `{-5:100}` on seven words: the start counts back five from the end and
      the end is cut at the last word, giving words 3 to 7. */
  lemma {:induction false} OutOfRange(eng: RegexEngine, arg: string, ws: seq<string>)
    requires arg == "{-5:100}" && |ws| == 7 && Words(ws, " ")
    ensures Compile(eng, arg).Ok? && Run(eng, Compile(eng, arg).value, Join(ws, " ")) == Join(ws[2..], " ")
  {
    CompileOutOfRange(eng, arg);
    OutOfRangeLine(eng, Compile(eng, arg).value, ws);
  }

  lemma {:induction false} OutOfRangeLine(eng: RegexEngine, ops: seq<Selector>, ws: seq<string>)
    requires ops == [Selector(" ", Greedy, Group([FieldRange(-5, 100)]))] && |ws| == 7 && Words(ws, " ")
    ensures Run(eng, ops, Join(ws, " ")) == Join(ws[2..], " ")
  {
    var g := [FieldRange(-5, 100)];
    RunSingle(eng, Selector(" ", Greedy, Group(g)), Join(ws, " "));
    GreedyOnWords(eng, " ", ws, Group(g));
    GroupSelectedOne(FieldRange(-5, 100), ws, Join(ws, " "));
    LastFive(ws, Join(ws, " "));
  }

  lemma {:induction false} LastFive(ws: seq<string>, z: string)
    requires |ws| == 7
    ensures RangeSelect(FieldRange(-5, 100), ws, z) == ws[2..]
  {
    assert Resolve(FieldRange(-5, 100), 7) == FieldRange(3, 100);
  }

  /** `{1,2,-1}` on ten words: the first, the second and the last. */
  lemma {:induction false} MultiFields(eng: RegexEngine, arg: string, ws: seq<string>)
    requires arg == "{1,2,-1}" && |ws| == 10 && Words(ws, " ")
    ensures Compile(eng, arg).Ok? && Run(eng, Compile(eng, arg).value, Join(ws, " ")) == Join([ws[0], ws[1], ws[9]], " ")
  {
    CompileMultiFields(eng, arg);
    MultiFieldsLine(eng, Compile(eng, arg).value, ws);
  }

  lemma {:induction false} MultiFieldsLine(eng: RegexEngine, ops: seq<Selector>, ws: seq<string>)
    requires ops == [Selector(" ", Greedy, Group([FieldRange(1, 1), FieldRange(2, 2), FieldRange(-1, -1)]))]
    requires |ws| == 10 && Words(ws, " ")
    ensures Run(eng, ops, Join(ws, " ")) == Join([ws[0], ws[1], ws[9]], " ")
  {
    var g := [FieldRange(1, 1), FieldRange(2, 2), FieldRange(-1, -1)];
    var z := Join(ws, " ");
    RunSingle(eng, Selector(" ", Greedy, Group(g)), z);
    GreedyOnWords(eng, " ", ws, Group(g));
    MultiFieldsSelect(ws, z);
  }

  lemma {:induction false} Two<T>(a: T, b: T)
    ensures [a] + [b] == [a, b]
  { }

  lemma {:induction false} Three<T>(a: T, b: T, c: T)
    ensures [a] + [b] + [c] == [a, b, c]
    ensures [a, b] + [c] == [a, b, c]
  { }

  lemma {:induction false} GroupSelectedOne(r: FieldRange, ws: seq<string>, z: string)
    ensures GroupSelected([r], ws, z) == RangeSelect(r, ws, z)
  {
    assert [r][..0] == [];
  }

  lemma {:induction false} MultiFieldsSelect(ws: seq<string>, z: string)
    requires |ws| == 10
    ensures GroupSelected([FieldRange(1, 1), FieldRange(2, 2), FieldRange(-1, -1)], ws, z) == [ws[0], ws[1], ws[9]]
  {
    var a, b, c := FieldRange(1, 1), FieldRange(2, 2), FieldRange(-1, -1);
    GroupSelectedOne(a, ws, z);
    GroupSelectedOne(b, ws, z);
    GroupSelectedOne(c, ws, z);
    GroupSelectedAppend([a], [b], ws, z);
    GroupSelectedAppend([a] + [b], [c], ws, z);
    Three(a, b, c);
    SelectIndex(1, ws, z);
    SelectIndex(2, ws, z);
    SelectRelativeIndex(1, ws, z);
    Three(ws[0], ws[1], ws[9]);
  }

  /** `:{3}` on four words separated by ":::": greedy splitting collapses
      the runs of colons, so the third token is the third word. */
  lemma {:induction false} GreedyGroup(eng: RegexEngine, arg: string, ws: seq<string>)
    requires arg == ":{3}" && |ws| == 4 && Words(ws, ":")
    ensures Compile(eng, arg).Ok? && Run(eng, Compile(eng, arg).value, Join(ws, ":::")) == ws[2]
  {
    CompileGreedyGroup(eng, arg);
    GreedyGroupLine(eng, Compile(eng, arg).value, ws);
  }

  lemma {:induction false} GreedyGroupLine(eng: RegexEngine, ops: seq<Selector>, ws: seq<string>)
    requires ops == [Selector(":", Greedy, Group([FieldRange(3, 3)]))] && |ws| == 4 && Words(ws, ":")
    ensures Run(eng, ops, Join(ws, ":::")) == ws[2]
  {
    Colons();
    GreedyTriple(eng, ":", ws);
  }

  lemma {:induction false} Colons()
    ensures ":" + ":" + ":" == ":::"
  { }

  /** The same with any one-character delimiter d for the colon. */
  lemma {:induction false} GreedyTriple(eng: RegexEngine, d: string, ws: seq<string>)
    requires |d| == 1 && |ws| == 4 && Words(ws, d)
    ensures Run(eng, [Selector(d, Greedy, Group([FieldRange(3, 3)]))], Join(ws, d + d + d)) == ws[2]
  {
    var z := Join(ws, d + d + d);
    RunSingle(eng, Selector(d, Greedy, Group([FieldRange(3, 3)])), z);
    TripleFields(ws, d);
    GroupSelectedOne(FieldRange(3, 3), ws, z);
    SelectIndex(3, ws, z);
    assert Join([ws[2]], d) == ws[2];
  }

  lemma {:induction false} TripleFields(ws: seq<string>, d: string)
    requires |d| == 1 && Words(ws, d)
    ensures Fields(Join(ws, d + d + d), d) == ws
  {
    var sep := d + d + d;
    assert forall j :: 0 <= j < |sep| ==> sep[j] == d[0];
    FieldsJoin(ws, sep, d);
  }

  lemma {:induction false} JoinFour(ws: seq<string>, sep: string)
    requires |ws| == 4
    ensures Join(ws, sep) == ws[0] + sep + ws[1] + sep + ws[2] + sep + ws[3]
  {
    assert Join(ws[3..], sep) == ws[3];
    assert Join(ws[2..], sep) == ws[2] + sep + Join(ws[3..], sep);
    assert Join(ws[1..], sep) == ws[1] + sep + Join(ws[2..], sep);
  }

  lemma {:induction false} JoinEmptyFront(rest: seq<string>, d: string)
    requires |rest| > 0
    ensures Join([""] + rest, d) == d + Join(rest, d)
  {
    JoinCons("", rest, d);
  }

  /** A word followed by two empty pieces, joined by d, is the word and
      three d's. */
  lemma {:induction false} JoinTwoEmpties(w: string, rest: seq<string>, d: string)
    requires |rest| > 0
    ensures Join([w, "", ""] + rest, d) == w + (d + d + d) + Join(rest, d)
  {
    var j := Join(rest, d);
    JoinEmptyFront(rest, d);
    JoinEmptyFront([""] + rest, d);
    JoinCons(w, [""] + ([""] + rest), d);
    ConsTwoEmpties(w, rest);
    ThreeSeparators(w, d, j);
  }

  lemma {:induction false} ConsTwoEmpties(w: string, rest: seq<string>)
    ensures [w] + ([""] + ([""] + rest)) == [w, "", ""] + rest
  { }

  lemma {:induction false} ThreeSeparators(w: string, d: string, j: string)
    ensures w + d + (d + (d + j)) == w + (d + d + d) + j
  { }

  lemma {:induction false} PiecesFree(ws: seq<string>, pieces: seq<string>, d: string)
    requires |d| == 1 && Words(ws, d)
    requires forall k :: 0 <= k < |pieces| ==> pieces[k] == "" || pieces[k] in ws
    ensures forall k, j :: 0 <= k < |pieces| && 0 <= j < |pieces[k]| ==> pieces[k][j] != d[0]
  {
    assert d[0] in d;
  }

  /** The pieces a non-greedy split of the line finds: each run of three
      delimiters leaves two empty pieces between the words. */
  function Spaced(ws: seq<string>): seq<string>
    requires |ws| == 4
  {
    [ws[0], "", ""] + ([ws[1], "", ""] + ([ws[2], "", ""] + [ws[3]]))
  }

  lemma {:induction false} JoinSpaced(ws: seq<string>, d: string)
    requires |ws| == 4
    ensures Join(Spaced(ws), d) == Join(ws, d + d + d)
  {
    var tail := [ws[2], "", ""] + [ws[3]];
    var mid := [ws[1], "", ""] + tail;
    JoinFour(ws, d + d + d);
    JoinTwoEmpties(ws[2], [ws[3]], d);
    JoinTwoEmpties(ws[1], tail, d);
    JoinTwoEmpties(ws[0], mid, d);
    Regroup(ws[0], ws[1], ws[2], ws[3], d + d + d);
  }

  lemma {:induction false} Regroup(a: string, b: string, c: string, x: string, s: string)
    ensures a + s + b + s + c + s + x == a + s + (b + s + (c + s + x))
  { }

  lemma {:induction false} SpacedIndex(ws: seq<string>)
    requires |ws| == 4
    ensures |Spaced(ws)| == 10 && Spaced(ws)[3] == ws[1]
    ensures forall k :: 0 <= k < 10 ==> Spaced(ws)[k] == "" || Spaced(ws)[k] in ws
  { }

  /** `:{?4}` on the same line: non-greedy splitting keeps the empty tokens
      between adjacent colons, so the fourth token is the second word. */
  lemma {:induction false} NonGreedyGroup(eng: RegexEngine, arg: string, ws: seq<string>)
    requires arg == ":{?4}" && |ws| == 4 && Words(ws, ":")
    ensures Compile(eng, arg).Ok? && Run(eng, Compile(eng, arg).value, Join(ws, ":::")) == ws[1]
  {
    CompileNonGreedyGroup(eng);
    NonGreedyGroupLine(eng, Compile(eng, arg).value, ws);
  }

  lemma {:induction false} NonGreedyGroupLine(eng: RegexEngine, ops: seq<Selector>, ws: seq<string>)
    requires ops == [Selector(":", NonGreedy, Group([FieldRange(4, 4)]))] && |ws| == 4 && Words(ws, ":")
    ensures Run(eng, ops, Join(ws, ":::")) == ws[1]
  {
    Colons();
    NonGreedyTriple(eng, ":", ws);
  }

  /** The same with any one-character delimiter d for the colon. */
  lemma {:induction false} NonGreedyTriple(eng: RegexEngine, d: string, ws: seq<string>)
    requires |d| == 1 && |ws| == 4 && Words(ws, d)
    ensures Run(eng, [Selector(d, NonGreedy, Group([FieldRange(4, 4)]))], Join(ws, d + d + d)) == ws[1]
  {
    var line := Join(ws, d + d + d);
    var pieces := Spaced(ws);
    JoinSpaced(ws, d);
    SpacedIndex(ws);
    PiecesFree(ws, pieces, d);
    SplitJoin(pieces, d);
    RunSingle(eng, Selector(d, NonGreedy, Group([FieldRange(4, 4)])), line);
    GroupSelectedOne(FieldRange(4, 4), pieces, line);
    SelectIndex(4, pieces, line);
  }

  /** ` /-/` on four words of which the first and the last match: only
      those two are kept, in order. */
  lemma {:induction false} RegexWords(eng: RegexEngine, arg: string, ws: seq<string>)
    requires arg == " /-/" && eng.compileError("-").None? && |ws| == 4 && Words(ws, " ")
    requires eng.matches("-", ws[0]) && !eng.matches("-", ws[1])
    requires !eng.matches("-", ws[2]) && eng.matches("-", ws[3])
    ensures Compile(eng, arg).Ok? && Run(eng, Compile(eng, arg).value, Join(ws, " ")) == Join([ws[0], ws[3]], " ")
  {
    CompileRegex(eng);
    RegexWordsLine(eng, Compile(eng, arg).value, ws);
  }

  lemma {:induction false} RegexWordsLine(eng: RegexEngine, ops: seq<Selector>, ws: seq<string>)
    requires ops == [Selector(" ", Greedy, Regex("-"))] && |ws| == 4 && Words(ws, " ")
    requires eng.matches("-", ws[0]) && !eng.matches("-", ws[1])
    requires !eng.matches("-", ws[2]) && eng.matches("-", ws[3])
    ensures Run(eng, ops, Join(ws, " ")) == Join([ws[0], ws[3]], " ")
  {
    RunSingle(eng, Selector(" ", Greedy, Regex("-")), Join(ws, " "));
    GreedyOnWords(eng, " ", ws, Regex("-"));
    RegexWordsKept(eng, ws);
  }

  lemma {:induction false} RegexWordsKept(eng: RegexEngine, ws: seq<string>)
    requires |ws| == 4
    requires eng.matches("-", ws[0]) && !eng.matches("-", ws[1])
    requires !eng.matches("-", ws[2]) && eng.matches("-", ws[3])
    ensures RegexSelected(eng, "-", ws) == [ws[0], ws[3]]
  {
    assert ws[..1][..0] == [] && ws[..2][..1] == ws[..1] && ws[..3][..2] == ws[..2] && ws[..4] == ws;
    assert RegexSelected(eng, "-", ws[..1]) == [ws[0]];
    assert RegexSelected(eng, "-", ws[..2]) == [ws[0]];
    assert RegexSelected(eng, "-", ws[..3]) == [ws[0]];
    assert RegexSelected(eng, "-", ws) == [ws[0], ws[3]];
  }

  /** "1" and "3" as two extractors on a line of five words: the first and
      the third word, separated by a space, and a newline. */
  lemma {:induction false} Basic(eng: RegexEngine, a1: string, a3: string, ws: seq<string>)
    requires a1 == "1" && a3 == "3" && |ws| == 5 && Words(ws, " ") && ws[4][|ws[4]| - 1] != '\r'
    ensures Compile(eng, a1).Ok? && Compile(eng, a3).Ok?
    ensures LineOutput(eng, [Compile(eng, a1).value, Compile(eng, a3).value], Join(ws, " ") + "\n")
      == ws[0] + " " + ws[2] + "\n"
  {
    DigitArg(eng, a1, 1);
    DigitArg(eng, a3, 3);
    BasicLine(eng, ws);
  }

  lemma {:induction false} DigitArg(eng: RegexEngine, arg: string, k: nat)
    requires 1 <= k <= 9 && arg == [DigitChar(k)]
    ensures Compile(eng, arg) == Ok([Selector(" ", Greedy, Range(FieldRange(k, k)))])
  {
    CompileDigit(eng, k);
  }

  lemma {:induction false} BasicLine(eng: RegexEngine, ws: seq<string>)
    requires |ws| == 5 && Words(ws, " ") && ws[4][|ws[4]| - 1] != '\r'
    ensures LineOutput(eng, [[Selector(" ", Greedy, Range(FieldRange(1, 1)))],
                             [Selector(" ", Greedy, Range(FieldRange(3, 3)))]], Join(ws, " ") + "\n")
      == ws[0] + " " + ws[2] + "\n"
  {
    var text := Join(ws, " ");
    var ops := [[Selector(" ", Greedy, Range(FieldRange(1, 1)))], [Selector(" ", Greedy, Range(FieldRange(3, 3)))]];
    RunSingle(eng, ops[0][0], text);
    RunSingle(eng, ops[1][0], text);
    GreedyIndexSelectsWord(eng, " ", ws, 1);
    GreedyIndexSelectsWord(eng, " ", ws, 3);
    LastOfJoin(ws, " ");
    LineOf(eng, ops, text, [ws[0], ws[2]]);
  }

  lemma {:induction false} LastOfJoin(ws: seq<string>, sep: string)
    requires |ws| > 0 && |ws[|ws| - 1]| > 0
    ensures |Join(ws, sep)| > 0 && Join(ws, sep)[|Join(ws, sep)| - 1] == ws[|ws| - 1][|ws[|ws| - 1]| - 1]
    decreases |ws|
  {
    if |ws| > 1 {
      LastOfJoin(ws[1..], sep);
    }
  }

  /** "123456789" on seven words: nothing is selected, and since it is the
      only extractor no line is written at all. */
  lemma {:induction false} ImpossibleField(eng: RegexEngine, arg: string, ws: seq<string>)
    requires arg == "123456789" && |ws| == 7 && Words(ws, " ") && ws[6][|ws[6]| - 1] != '\r'
    ensures Compile(eng, arg).Ok? && LineOutput(eng, [Compile(eng, arg).value], Join(ws, " ") + "\n") == ""
  {
    CompileImpossibleField(eng);
    ImpossibleFieldLine(eng, Compile(eng, arg).value, ws);
  }

  lemma {:induction false} ImpossibleFieldLine(eng: RegexEngine, ops: seq<Selector>, ws: seq<string>)
    requires ops == [Selector(" ", Greedy, Range(FieldRange(123456789, 123456789)))]
    requires |ws| == 7 && Words(ws, " ") && ws[6][|ws[6]| - 1] != '\r'
    ensures LineOutput(eng, [ops], Join(ws, " ") + "\n") == ""
  {
    var text := Join(ws, " ");
    var sel := Selector(" ", Greedy, Range(FieldRange(123456789, 123456789)));
    RunSingle(eng, sel, text);
    GreedyOnWords(eng, " ", ws, Range(FieldRange(123456789, 123456789)));
    LastOfJoin(ws, " ");
    LineOf(eng, [[sel]], text, [""]);
  }
}
