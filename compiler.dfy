/** The extractor compiler (fex.go, CompileExtractor): a scan of the
    argument from its last character to its first. Each step reads one
    selector ending at the cursor (a `}` group, a `/` regular expression or
    a number), then the delimiter to its left, and moves the cursor past
    both. Functions state what each step yields; the methods follow the
    source's loops and are proved to compute the same. */
module Compiler {
  import opened Results
  import opened Text
  import opened Ranges
  import opened Filters
  import opened Extraction

  // ---------------------------------------------------------------- sequences

  function Reversed<T>(s: seq<T>): (r: seq<T>)
    ensures |r| == |s|
    ensures forall k :: 0 <= k < |s| ==> r[k] == s[|s| - 1 - k]
  {
    seq(|s|, k requires 0 <= k < |s| => s[|s| - 1 - k])
  }

  lemma {:induction false} ReversedSnoc<T>(s: seq<T>, x: T)
    ensures Reversed(s + [x]) == [x] + Reversed(s)
  {
  }

  /** The in-place swap loop the source runs on `chunks` and on the
      selector list: swap positions j and n-1-j for j from n/2-1 down to 0. */
  method Reverse<T>(s: seq<T>) returns (r: seq<T>)
    ensures r == Reversed(s)
  {
    r := s;
    var n := |r|;
    var j := n / 2 - 1;
    while j >= 0
      invariant -1 <= j <= n / 2 - 1
      invariant |r| == n
      invariant forall k :: 0 <= k <= j || n - 1 - j <= k < n ==> r[k] == s[k]
      invariant forall k :: j < k < n - 1 - j ==> r[k] == s[n - 1 - k]
    {
      var opp := n - 1 - j;
      r := r[j := r[opp]][opp := r[j]];
      j := j - 1;
    }
  }

  // ---------------------------------------------------------------- find / findf

  /** `find`: the last position before `i` holding `c`, or -1. */
  function LastIndexOf(sr: string, i: int, c: char): (q: int)
    requires 0 <= i <= |sr|
    ensures -1 <= q < i
    ensures q >= 0 ==> sr[q] == c
    decreases i
  {
    if i == 0 then -1 else if sr[i - 1] == c then i - 1 else LastIndexOf(sr, i - 1, c)
  }

  /** No `c` lies between the position found and the cursor. */
  lemma {:induction false} LastIndexOfSkips(sr: string, i: int, c: char)
    requires 0 <= i <= |sr|
    ensures forall k :: LastIndexOf(sr, i, c) < k < i ==> sr[k] != c
    decreases i
  {
    if i > 0 && sr[i - 1] != c {
      LastIndexOfSkips(sr, i - 1, c);
    }
  }

  /** Conversely, a `c` at q with none between q and the cursor is what
      `find` returns. */
  lemma {:induction false} LastIndexOfIs(sr: string, i: int, c: char, q: int)
    requires -1 <= q < i <= |sr|
    requires q >= 0 ==> sr[q] == c
    requires forall k :: q < k < i ==> sr[k] != c
    ensures LastIndexOf(sr, i, c) == q
    decreases i
  {
    if i - 1 > q {
      LastIndexOfIs(sr, i - 1, c, q);
    }
  }

  /** `findf`: the last position before `i` whose character satisfies `f`, or -1. */
  function LastIndexWhere(sr: string, i: int, f: char -> bool): (q: int)
    requires 0 <= i <= |sr|
    ensures -1 <= q < i
    ensures q >= 0 ==> f(sr[q])
    decreases i
  {
    if i == 0 then -1 else if f(sr[i - 1]) then i - 1 else LastIndexWhere(sr, i - 1, f)
  }

  /** No character satisfying `f` lies between the position found and the cursor. */
  lemma {:induction false} LastIndexWhereSkips(sr: string, i: int, f: char -> bool)
    requires 0 <= i <= |sr|
    ensures forall k :: LastIndexWhere(sr, i, f) < k < i ==> !f(sr[k])
    decreases i
  {
    if i > 0 && !f(sr[i - 1]) {
      LastIndexWhereSkips(sr, i - 1, f);
    }
  }

  method Find(sr: string, i: int, c: char) returns (q: int)
    requires 0 <= i <= |sr|
    ensures q == LastIndexOf(sr, i, c)
  {
    q := i - 1;
    while q >= 0
      invariant -1 <= q < i
      invariant LastIndexOf(sr, i, c) == LastIndexOf(sr, q + 1, c)
    {
      if sr[q] == c {
        return q;
      }
      q := q - 1;
    }
  }

  method FindIf(sr: string, i: int, f: char -> bool) returns (q: int)
    requires 0 <= i <= |sr|
    ensures q == LastIndexWhere(sr, i, f)
  {
    q := i - 1;
    while q >= 0
      invariant -1 <= q < i
      invariant LastIndexWhere(sr, i, f) == LastIndexWhere(sr, q + 1, f)
    {
      if f(sr[q]) {
        return q;
      }
      q := q - 1;
    }
  }

  predicate NotBackslash(c: char)
  {
    c != '\\'
  }

  predicate NotDigit(c: char)
  {
    !IsDigit(c)
  }

  // ---------------------------------------------------------------- one selector

  /** What the scan has found when a selector's filter is read: its
      tokenizer, its filter, and the cursor left of the selector text. */
  datatype Stage = Stage(tokenizer: Tokenizer, filter: Filter, cursor: int)

  /** The `}` case: the group body runs back to the nearest `{`; a leading
      `?` chooses non-greedy splitting. */
  function GroupStage(sr: string, i: int): (r: Result<Stage>)
    requires 0 <= i < |sr|
    ensures r.Ok? ==> -1 <= r.value.cursor < i && r.value.filter.Group?
    ensures LastIndexOf(sr, i, '{') == -1 ==> r == Err(UnmatchedBrace(i + 1))
  {
    var start := LastIndexOf(sr, i, '{');
    if start == -1 then Err(UnmatchedBrace(i + 1))
    else GroupBody(sr[start + 1..i], start - 1)
  }

  /** The text between the braces, with the cursor left of the `{`: a
      leading `?` asks for non-greedy splitting and the rest is the group. */
  function GroupBody(sub: string, cursor: int): (r: Result<Stage>)
    ensures r.Ok? ==> r.value.cursor == cursor
    ensures r.Ok? ==> (r.value.tokenizer == NonGreedy <==> |sub| > 0 && sub[0] == '?')
    ensures var body := if |sub| > 0 && sub[0] == '?' then sub[1..] else sub;
      && (r.Ok? <==> GroupOf(body).Ok?)
      && (r.Ok? ==> r.value.filter == Group(GroupOf(body).value))
      && (r.Err? ==> r.error == GroupOf(body).error)
  {
    var nonGreedy := |sub| > 0 && sub[0] == '?';
    match GroupOf(if nonGreedy then sub[1..] else sub)
    case Err(e) => Err(e)
    case Ok(g) => Ok(Stage(if nonGreedy then NonGreedy else Greedy, Group(g), cursor))
  }

  /** The loop of the `/` case, from the state (cursor `i`, candidate
      opening slash `start`, chunks found so far, rightmost first) to the
      chunks and the cursor it ends with. A slash preceded by an odd run of
      backslashes (not counting one at position 0) is escaped: the run's
      (count-1)/2 trailing backslashes and the slash join the pattern and
      the scan goes on. An even run ends the pattern with the cursor on the
      run's first backslash. */
  function RegexScan(sr: string, i: int, start: int, chunks: seq<string>): (res: (seq<string>, int))
    requires -1 <= start < i < |sr|
    ensures -1 <= res.1 <= i
    decreases start + 1
  {
    if start == -1 then (chunks, i)
    else
      var found := if start + 1 < i then chunks + [sr[start + 1..i]] else chunks;
      if !(start > 1 && sr[start - 1] == '\\') then (found, start - 1)
      else
        var i2 := LastIndexWhere(sr, start, NotBackslash) + 1;
        var escapes := start - i2;
        if escapes % 2 == 0 then (found, i2)
        else RegexScan(sr, i2, LastIndexOf(sr, i2, '/'), found + [sr[start - (escapes - 1) / 2..start + 1]])
  }

  /** A round of the `/` loop that ends it: the slash at `start` is not
      preceded by a backslash (the cursor moves left of it), or it is
      preceded by an even run of them (the cursor stops on the run). */
  lemma {:induction false} RegexScanStop(sr: string, i: int, start: int, chunks: seq<string>, found: seq<string>, i2: int)
    requires 0 <= start < i < |sr|
    requires found == if start + 1 < i then chunks + [sr[start + 1..i]] else chunks
    requires !(start > 1 && sr[start - 1] == '\\') ==> i2 == start - 1
    requires start > 1 && sr[start - 1] == '\\' ==>
      i2 == LastIndexWhere(sr, start, NotBackslash) + 1 && (start - i2) % 2 == 0
    ensures RegexScan(sr, i, start, chunks) == (found, i2)
  {
  }

  /** A round of the `/` loop past a slash preceded by an odd run of
      backslashes: half the rest of the run and the slash join the
      pattern and the search for an opening slash resumes left of the run. */
  lemma {:induction false} RegexScanEscaped(sr: string, i: int, start: int, chunks: seq<string>, found: seq<string>, i2: int, piece: string)
    requires 1 < start < i < |sr| && sr[start - 1] == '\\'
    requires found == if start + 1 < i then chunks + [sr[start + 1..i]] else chunks
    requires i2 == LastIndexWhere(sr, start, NotBackslash) + 1 && (start - i2) % 2 == 1
    requires piece == sr[start - (start - i2 - 1) / 2..start + 1]
    ensures RegexScan(sr, i, start, chunks) == RegexScan(sr, i2, LastIndexOf(sr, i2, '/'), found + [piece])
  {
    RegexScanUnfold(sr, i, start, chunks);
  }

  lemma {:induction false} RegexScanUnfold(sr: string, i: int, start: int, chunks: seq<string>)
    requires 1 < start < i < |sr| && sr[start - 1] == '\\'
    requires (start - (LastIndexWhere(sr, start, NotBackslash) + 1)) % 2 == 1
    ensures var i2 := LastIndexWhere(sr, start, NotBackslash) + 1;
      RegexScan(sr, i, start, chunks)
      == RegexScan(sr, i2, LastIndexOf(sr, i2, '/'),
                   (if start + 1 < i then chunks + [sr[start + 1..i]] else chunks) + [sr[start - (start - i2 - 1) / 2..start + 1]])
  {
  }

  /** The `/` case: the chunks, put back in left-to-right order and joined,
      form the pattern handed to the regular-expression engine. */
  function RegexStage(eng: RegexEngine, sr: string, i: int): (r: Result<Stage>)
    requires 0 <= i < |sr|
    ensures r.Ok? ==> -1 <= r.value.cursor <= i
    ensures r.Ok? ==> r.value.tokenizer == Greedy && r.value.filter.Regex?
    ensures r.Err? ==> r.error.RegexError?
  {
    var (chunks, p) := RegexScan(sr, i, LastIndexOf(sr, i, '/'), []);
    match NewRegexpFilter(eng, Concat(Reversed(chunks)))
    case Err(e) => Err(e)
    case Ok(f) => Ok(Stage(Greedy, f, p))
  }

  /** The digit case: the run of digits ending at `i`, with one `-` in
      front of it when there is one, read as a single range. */
  function NumberStage(sr: string, i: int): (r: Result<Stage>)
    requires 0 <= i < |sr|
    ensures r.Ok? ==> -1 <= r.value.cursor < i
    ensures r.Ok? ==> r.value.tokenizer == Greedy && r.value.filter.Range? && WellFormed(r.value.filter.range)
  {
    var start := NumberStart(sr, i);
    NumberBody(sr[start + 1..i + 1], start)
  }

  /** The cursor left of the number ending at `i`: left of the digit run
      before `i` and of one `-` in front of it. The run is maximal: what
      lies left of an unsigned run is neither a digit nor a `-`. */
  function NumberStart(sr: string, i: int): (start: int)
    requires 0 <= i < |sr|
    ensures -1 <= start < i
    ensures var signed := start + 1 < i && sr[start + 1] == '-';
      AllDigits(sr[if signed then start + 2 else start + 1..i])
    ensures start >= 0 && !(start + 1 < i && sr[start + 1] == '-') ==> !IsDigit(sr[start]) && sr[start] != '-'
  {
    NumberRun(sr, i);
    var q := LastIndexWhere(sr, i, NotDigit);
    if q > -1 && sr[q] == '-' then q - 1 else q
  }

  /** The digits found left of `i` form a run that no digit extends. */
  lemma {:induction false} NumberRun(sr: string, i: int)
    requires 0 <= i < |sr|
    ensures var q := LastIndexWhere(sr, i, NotDigit);
      && AllDigits(sr[q + 1..i])
      && (q >= 0 ==> !IsDigit(sr[q]))
  {
    LastIndexWhereSkips(sr, i, NotDigit);
    var q := LastIndexWhere(sr, i, NotDigit);
    var run := sr[q + 1..i];
    forall j | 0 <= j < |run|
      ensures IsDigit(run[j])
    {
      var k := q + 1 + j;
      assert q < k < i;
      assert !NotDigit(sr[k]);
      assert run[j] == sr[k];
    }
    if q >= 0 {
      assert NotDigit(sr[q]);
    }
  }

  /** The number text, with the cursor left of it: a greedy stage
      selecting the range the text parses to. */
  function NumberBody(text: string, cursor: int): (r: Result<Stage>)
    ensures r.Ok? ==> r.value.cursor == cursor && r.value.tokenizer == Greedy
    ensures r.Ok? <==> ParseFieldRange(text).Ok?
    ensures r.Ok? ==> r.value.filter == Range(ParseFieldRange(text).value) && WellFormed(r.value.filter.range)
    ensures r.Err? ==> r.error == ParseFieldRange(text).error
  {
    match ParseFieldRange(text)
    case Err(e) => Err(e)
    case Ok(fr) => Ok(Stage(Greedy, Range(fr), cursor))
  }

  /** The switch on the character at the cursor. */
  function FilterStage(eng: RegexEngine, sr: string, i: int): (r: Result<Stage>)
    requires 0 <= i < |sr|
    ensures r.Ok? ==> -1 <= r.value.cursor <= i
    ensures r.Err? && !(sr[i] == '}' || sr[i] == '/' || IsDigit(sr[i])) ==> r.error == UnexpectedChar(sr[i])
  {
    var c := sr[i];
    if c == '}' then GroupStage(sr, i)
    else if c == '/' then RegexStage(eng, sr, i)
    else if IsDigit(c) then NumberStage(sr, i)
    else Err(UnexpectedChar(c))
  }

  /** The letters that name a control character after a backslash. */
  const EscapeLetters: string := "abfnrtvze"

  /** The backslash escapes accepted for a delimiter: each escape letter
      names its own control character and every other character, the
      backslash included, stands for itself. */
  function Escape(c: char): (e: char)
    ensures c !in EscapeLetters ==> e == c
    ensures c in EscapeLetters ==> e < ' ' && e != c
  {
    match c
    case '\\' => '\\'
    case 'a' => '\U{7}'
    case 'b' => '\U{8}'
    case 'f' => '\U{C}'
    case 'n' => '\n'
    case 'r' => '\r'
    case 't' => '\t'
    case 'v' => '\U{B}'
    case 'z' => '\0'
    case 'e' => '\U{1B}'
    case _ => c
  }

  /** The decoding of each escape: Go's character escapes for bell,
      backspace, form feed, newline, carriage return, tab and vertical tab,
      `z` for NUL, `e` for ESC, and a backslash for itself. */
  lemma {:induction false} EscapeTable()
    ensures Escape('a') == '\U{7}' && Escape('b') == '\U{8}' && Escape('f') == '\U{C}'
    ensures Escape('n') == '\n' && Escape('r') == '\r' && Escape('t') == '\t' && Escape('v') == '\U{B}'
    ensures Escape('z') == '\0' && Escape('e') == '\U{1B}' && Escape('\\') == '\\'
  {
  }

  /** Distinct escape letters name distinct control characters, so a
      decoded delimiter determines the escape it came from. */
  lemma {:induction false} EscapeInjective(c: char, c': char)
    requires c in EscapeLetters && c' in EscapeLetters && c != c'
    ensures Escape(c) != Escape(c')
  {
  }

  /** The delimiter of a selector whose text starts right after `p`: the
      character at `p`, decoded and consuming two characters when a
      backslash precedes it, or a space when nothing is left. The second
      component is the cursor of the next selector. */
  function Delimiter(sr: string, p: int): (d: (string, int))
    requires -1 <= p < |sr|
    ensures |d.0| == 1
    ensures -2 <= d.1 < p || (p == -1 && d.1 == -2)
    ensures p > 0 && sr[p - 1] == '\\' ==> d == ([Escape(sr[p])], p - 2)
    ensures p >= 0 && !(p > 0 && sr[p - 1] == '\\') ==> d == ([sr[p]], p - 1)
    ensures p == -1 ==> d == (" ", -2)
  {
    if p > 0 && sr[p - 1] == '\\' then ([Escape(sr[p])], p - 2)
    else if p >= 0 then ([sr[p]], p - 1)
    else (" ", p - 1)
  }

  /** One iteration of the outer loop: a selector and the next cursor. */
  function Step(eng: RegexEngine, sr: string, i: int): (r: Result<(Selector, int)>)
    requires 0 <= i < |sr|
    ensures r.Ok? ==> -2 <= r.value.1 < i
  {
    match FilterStage(eng, sr, i)
    case Err(e) => Err(e)
    case Ok(st) =>
      var (delim, next) := Delimiter(sr, st.cursor);
      Ok((Selector(delim, st.tokenizer, st.filter), next))
  }

  /** `xs` with `tail` appended when it is a success. */
  function Prefixed(r: Result<seq<Selector>>, tail: seq<Selector>): Result<seq<Selector>>
  {
    match r
    case Err(e) => Err(e)
    case Ok(xs) => Ok(xs + tail)
  }

  lemma {:induction false} PrefixedEmpty(r: Result<seq<Selector>>)
    ensures Prefixed(r, []) == r
  {
    if r.Ok? {
      assert r.value + [] == r.value;
    }
  }

  /** The selectors of `sr[..i+1]`, in left-to-right order. The rightmost
      selector is read first, so when several are malformed the error is
      the rightmost one's. */
  function Scan(eng: RegexEngine, sr: string, i: int): (r: Result<seq<Selector>>)
    requires -2 <= i < |sr|
    ensures i < 0 ==> r == Ok([])
    ensures r.Ok? ==> |r.value| <= if i < 0 then 0 else i + 1
    decreases i + 2
  {
    if i < 0 then Ok([])
    else
      match Step(eng, sr, i)
      case Err(e) => Err(e)
      case Ok((sel, next)) => Prefixed(Scan(eng, sr, next), [sel])
  }

  /** What CompileExtractor computes. */
  function Compile(eng: RegexEngine, arg: string): (r: Result<seq<Selector>>)
    ensures arg == "" ==> r == Ok([])
    ensures r.Ok? ==> |r.value| <= |arg|
  {
    Scan(eng, arg, |arg| - 1)
  }

  // ---------------------------------------------------------------- the methods

  /** The loop of the `/` arm: the chunks of the pattern, rightmost
      first, and the cursor it stops at. */
  method ScanChunks(sr: string, i0: int) returns (chunks: seq<string>, i: int)
    requires 0 <= i0 < |sr|
    ensures (chunks, i) == RegexScan(sr, i0, LastIndexOf(sr, i0, '/'), [])
  {
    ghost var target := RegexScan(sr, i0, LastIndexOf(sr, i0, '/'), []);
    i := i0;
    chunks := [];
    var start := Find(sr, i, '/');
    while start != -1
      invariant -1 <= start < i <= i0
      invariant RegexScan(sr, i, start, chunks) == target
      decreases start + 1
    {
      ghost var s0, i1, c1 := start, i, chunks;
      var chunk := sr[start + 1..i];
      if chunk != "" {
        chunks := chunks + [chunk];
      }
      i := start;
      var escaped := start > 1 && sr[start - 1] == '\\';
      if !escaped {
        i := i - 1;
        RegexScanStop(sr, i1, s0, c1, chunks, i);
        break;
      }
      var q := FindIf(sr, i, NotBackslash);
      i := q + 1;
      var escapes := start - i;
      if escapes % 2 == 0 {
        RegexScanStop(sr, i1, s0, c1, chunks, i);
        break;
      }
      var piece := sr[start - (escapes - 1) / 2..start + 1];
      RegexScanEscaped(sr, i1, s0, c1, chunks, i, piece);
      chunks := chunks + [piece];
      start := Find(sr, i, '/');
    }
  }

  /** The `/` arm of the switch: the loop, then the in-place reversal of
      the chunks and their concatenation. */
  method ScanRegex(eng: RegexEngine, sr: string, i0: int) returns (r: Result<Stage>)
    requires 0 <= i0 < |sr|
    ensures r == RegexStage(eng, sr, i0)
  {
    var chunks, i := ScanChunks(sr, i0);
    chunks := Reverse(chunks);
    var rx := Join(chunks, "");
    JoinEmptyIsConcat(chunks);
    var f := NewRegexpFilter(eng, rx);
    if f.Err? {
      return Err(f.error);
    }
    return Ok(Stage(Greedy, f.value, i));
  }

  /** The `}` arm of the switch. */
  method ScanGroup(sr: string, i: int) returns (r: Result<Stage>)
    requires 0 <= i < |sr|
    ensures r == GroupStage(sr, i)
  {
    var tokenizer := Greedy;
    var start := Find(sr, i, '{');
    if start == -1 {
      return Err(UnmatchedBrace(i + 1));
    }
    var sub := sr[start + 1..i];
    assert GroupStage(sr, i) == GroupBody(sub, start - 1);
    if |sub| > 0 && sub[0] == '?' {
      tokenizer := NonGreedy;
      sub := sub[1..];
    }
    var group := ParseGroup(sub);
    if group.Err? {
      return Err(group.error);
    }
    return Ok(Stage(tokenizer, Group(group.value), start - 1));
  }

  /** The digit arm of the switch, up to the text of the number: the
      cursor moves left of the digit run and of one `-` before it. */
  method FindNumberStart(sr: string, i: int) returns (start: int)
    requires 0 <= i < |sr|
    ensures start == NumberStart(sr, i)
  {
    start := FindIf(sr, i, NotDigit);
    if start > -1 && sr[start] == '-' {
      start := start - 1;
    }
  }

  /** The digit arm of the switch. */
  method ScanNumber(sr: string, i: int) returns (r: Result<Stage>)
    requires 0 <= i < |sr|
    ensures r == NumberStage(sr, i)
  {
    var start := FindNumberStart(sr, i);
    var digits := sr[start + 1..i + 1];
    var fr := ParseFieldRange(digits);
    if fr.Err? {
      return Err(fr.error);
    }
    return Ok(Stage(Greedy, Range(fr.value), start));
  }

  /** The switch on the character at the cursor. */
  method ScanFilter(eng: RegexEngine, sr: string, i: int) returns (stage: Result<Stage>)
    requires 0 <= i < |sr|
    ensures stage == FilterStage(eng, sr, i)
  {
    var c := sr[i];
    if c == '}' {
      stage := ScanGroup(sr, i);
    } else if c == '/' {
      stage := ScanRegex(eng, sr, i);
    } else if IsDigit(c) {
      stage := ScanNumber(sr, i);
    } else {
      stage := Err(UnexpectedChar(c));
    }
  }

  /** The body of the outer loop: one selector, with its delimiter. */
  method ScanSelector(eng: RegexEngine, sr: string, i: int) returns (r: Result<(Selector, int)>)
    requires 0 <= i < |sr|
    ensures r == Step(eng, sr, i)
  {
    var stage := ScanFilter(eng, sr, i);
    if stage.Err? {
      return Err(stage.error);
    }
    var sep, next := ScanDelimiter(sr, stage.value.cursor);
    return Ok((Selector(sep, stage.value.tokenizer, stage.value.filter), next));
  }

  /** The delimiter read left of a selector, and the cursor after it. */
  method ScanDelimiter(sr: string, p0: int) returns (sep: string, next: int)
    requires -1 <= p0 < |sr|
    ensures (sep, next) == Delimiter(sr, p0)
  {
    var p := p0;
    sep := " ";
    if p > 0 && sr[p - 1] == '\\' {
      sep := [Escape(sr[p])];
      p := p - 1;
    } else if p >= 0 {
      sep := [sr[p]];
    }
    next := p - 1;
  }

  /** One successful step of the scan. */
  lemma {:induction false} ScanStep(eng: RegexEngine, sr: string, i: int, sel: Selector, next: int)
    requires 0 <= i < |sr|
    requires Step(eng, sr, i) == Ok((sel, next))
    ensures Scan(eng, sr, i) == Prefixed(Scan(eng, sr, next), [sel])
  {
  }

  /** A failing step fails the whole scan, whatever was found to its right. */
  lemma {:induction false} ScanFails(eng: RegexEngine, sr: string, i: int, e: Error, tail: seq<Selector>)
    requires 0 <= i < |sr|
    requires Step(eng, sr, i) == Err(e)
    ensures Prefixed(Scan(eng, sr, i), tail) == Err(e)
  {
  }

  lemma {:induction false} PrefixedTwice(r: Result<seq<Selector>>, a: seq<Selector>, b: seq<Selector>)
    ensures Prefixed(Prefixed(r, a), b) == Prefixed(r, a + b)
  {
    if r.Ok? {
      assert r.value + a + b == r.value + (a + b);
    }
  }

  /** A successful step moves its selector from the scan to the front of
      what was found to its right. */
  lemma {:induction false} ScanAdvance(eng: RegexEngine, sr: string, i: int, sel: Selector, next: int, ex: seq<Selector>)
    requires 0 <= i < |sr|
    requires Step(eng, sr, i) == Ok((sel, next))
    ensures Prefixed(Scan(eng, sr, i), Reversed(ex)) == Prefixed(Scan(eng, sr, next), Reversed(ex + [sel]))
  {
    ReversedSnoc(ex, sel);
    ScanStep(eng, sr, i, sel, next);
    PrefixedTwice(Scan(eng, sr, next), [sel], Reversed(ex));
  }

  /** CompileExtractor: walk the argument backwards, appending one selector
      per iteration, then reverse the list in place. */
  method CompileExtractor(eng: RegexEngine, arg: string) returns (r: Result<seq<Selector>>)
    ensures r == Compile(eng, arg)
  {
    var sr := arg;
    var ex: seq<Selector> := [];
    var i := |sr| - 1;
    assert Reversed(ex) == [];
    PrefixedEmpty(Scan(eng, sr, i));
    while i >= 0
      invariant -2 <= i < |sr|
      invariant Compile(eng, arg) == Prefixed(Scan(eng, sr, i), Reversed(ex))
      decreases i + 2
    {
      var step := ScanSelector(eng, sr, i);
      if step.Err? {
        ScanFails(eng, sr, i, step.error, Reversed(ex));
        return Err(step.error);
      }
      var (sel, next) := step.value;
      ScanAdvance(eng, sr, i, sel, next, ex);
      ex := ex + [sel];
      i := next;
    }
    assert [] + Reversed(ex) == Reversed(ex);
    ex := Reverse(ex);
    return Ok(ex);
  }
}
