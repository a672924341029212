/** Properties of the extractor compiler: the selectors found left of the
    cursor depend on nothing to its right, every compiled selector is
    well-formed, and the two compile errors of the scan itself. */
module CompilerProps {
  import opened Results
  import opened Text
  import opened Ranges
  import opened Filters
  import opened Extraction
  import opened Compiler

  // ---------------------------------------------------------------- locality

  /** `find` only looks left of the cursor. */
  lemma {:induction false} LastIndexOfPrefix(a: string, t: string, i: int, c: char)
    requires 0 <= i <= |a|
    ensures LastIndexOf(a + t, i, c) == LastIndexOf(a, i, c)
    decreases i
  {
    if i > 0 {
      LastIndexOfPrefix(a, t, i - 1, c);
    }
  }

  /** `findf` only looks left of the cursor. */
  lemma {:induction false} LastIndexWherePrefix(a: string, t: string, i: int, f: char -> bool)
    requires 0 <= i <= |a|
    ensures LastIndexWhere(a + t, i, f) == LastIndexWhere(a, i, f)
    decreases i
  {
    if i > 0 {
      LastIndexWherePrefix(a, t, i - 1, f);
    }
  }

  lemma {:induction false} RegexScanPrefix(a: string, t: string, i: int, start: int, chunks: seq<string>)
    requires -1 <= start < i < |a|
    ensures RegexScan(a + t, i, start, chunks) == RegexScan(a, i, start, chunks)
    decreases start + 1
  {
    if start >= 0 {
      var sr := a + t;
      assert sr[start + 1..i] == a[start + 1..i];
      var found := if start + 1 < i then chunks + [a[start + 1..i]] else chunks;
      if start > 1 && a[start - 1] == '\\' {
        assert sr[start - 1] == '\\';
        LastIndexWherePrefix(a, t, start, NotBackslash);
        var i2 := LastIndexWhere(a, start, NotBackslash) + 1;
        var escapes := start - i2;
        if escapes % 2 == 1 {
          var piece := a[start - (escapes - 1) / 2..start + 1];
          assert sr[start - (escapes - 1) / 2..start + 1] == piece;
          LastIndexOfPrefix(a, t, i2, '/');
          RegexScanEscaped(sr, i, start, chunks, found, i2, piece);
          RegexScanEscaped(a, i, start, chunks, found, i2, piece);
          RegexScanPrefix(a, t, i2, LastIndexOf(a, i2, '/'), found + [piece]);
        } else {
          RegexScanStop(sr, i, start, chunks, found, i2);
          RegexScanStop(a, i, start, chunks, found, i2);
        }
      } else {
        assert !(start > 1 && sr[start - 1] == '\\');
        RegexScanStop(sr, i, start, chunks, found, start - 1);
        RegexScanStop(a, i, start, chunks, found, start - 1);
      }
    }
  }

  lemma {:induction false} SliceOfAppend<T>(a: seq<T>, t: seq<T>, lo: int, hi: int)
    requires 0 <= lo <= hi <= |a|
    ensures (a + t)[lo..hi] == a[lo..hi]
  { }

  lemma {:induction false} GroupStagePrefix(a: string, t: string, i: int)
    requires 0 <= i < |a|
    ensures GroupStage(a + t, i) == GroupStage(a, i)
  {
    LastIndexOfPrefix(a, t, i, '{');
    var start := LastIndexOf(a, i, '{');
    if start != -1 {
      SliceOfAppend(a, t, start + 1, i);
      var body := a[start + 1..i];
      assert GroupStage(a + t, i) == GroupBody((a + t)[start + 1..i], start - 1);
      assert GroupStage(a, i) == GroupBody(body, start - 1);
    }
  }

  lemma {:induction false} RegexStagePrefix(eng: RegexEngine, a: string, t: string, i: int)
    requires 0 <= i < |a|
    ensures RegexStage(eng, a + t, i) == RegexStage(eng, a, i)
  {
    LastIndexOfPrefix(a, t, i, '/');
    RegexScanPrefix(a, t, i, LastIndexOf(a, i, '/'), []);
  }

  lemma {:induction false} NumberStartPrefix(a: string, t: string, i: int)
    requires 0 <= i < |a|
    ensures NumberStart(a + t, i) == NumberStart(a, i)
  {
    LastIndexWherePrefix(a, t, i, NotDigit);
    var q := LastIndexWhere(a, i, NotDigit);
    if q > -1 {
      assert (a + t)[q] == a[q];
    }
  }

  lemma {:induction false} NumberStagePrefix(a: string, t: string, i: int)
    requires 0 <= i < |a|
    ensures NumberStage(a + t, i) == NumberStage(a, i)
  {
    NumberStartPrefix(a, t, i);
    var start := NumberStart(a, i);
    SliceOfAppend(a, t, start + 1, i + 1);
  }

  lemma {:induction false} FilterStagePrefix(eng: RegexEngine, a: string, t: string, i: int)
    requires 0 <= i < |a|
    ensures FilterStage(eng, a + t, i) == FilterStage(eng, a, i)
  {
    var c := a[i];
    assert (a + t)[i] == c;
    if c == '}' {
      GroupStagePrefix(a, t, i);
    } else if c == '/' {
      RegexStagePrefix(eng, a, t, i);
    } else if IsDigit(c) {
      NumberStagePrefix(a, t, i);
    }
  }

  lemma {:induction false} DelimiterPrefix(a: string, t: string, p: int)
    requires -1 <= p < |a|
    ensures Delimiter(a + t, p) == Delimiter(a, p)
  {
    if p > 0 {
      assert (a + t)[p - 1] == a[p - 1];
    }
    if p >= 0 {
      assert (a + t)[p] == a[p];
    }
  }

  lemma {:induction false} StepPrefix(eng: RegexEngine, a: string, t: string, i: int)
    requires 0 <= i < |a|
    ensures Step(eng, a + t, i) == Step(eng, a, i)
  {
    FilterStagePrefix(eng, a, t, i);
    var st := FilterStage(eng, a, i);
    if st.Ok? {
      DelimiterPrefix(a, t, st.value.cursor);
    }
  }

  /** The selectors the scan finds up to cursor `i` depend only on the
      argument's first i+1 characters. */
  lemma {:induction false} ScanPrefix(eng: RegexEngine, a: string, t: string, i: int)
    requires -2 <= i < |a|
    ensures Scan(eng, a + t, i) == Scan(eng, a, i)
    decreases i + 2
  {
    if i >= 0 {
      StepPrefix(eng, a, t, i);
      var step := Step(eng, a, i);
      if step.Ok? {
        ScanPrefix(eng, a, t, step.value.1);
      }
    }
  }

  // ---------------------------------------------------------------- shape of the result

  /** What every compiled selector satisfies: a one-character delimiter,
      non-greedy splitting only for a group, and well-formed ranges. */
  predicate SelectorWellFormed(sel: Selector)
  {
    && |sel.delim| == 1
    && (sel.tokenizer == NonGreedy ==> sel.filter.Group?)
    && (sel.filter.Range? ==> WellFormed(sel.filter.range))
    && (sel.filter.Group? ==> forall r :: r in sel.filter.ranges ==> WellFormed(r))
  }

  lemma {:induction false} StepWellFormed(eng: RegexEngine, sr: string, i: int)
    requires 0 <= i < |sr|
    ensures Step(eng, sr, i).Ok? ==> SelectorWellFormed(Step(eng, sr, i).value.0)
  {
    if sr[i] == '}' {
      var start := LastIndexOf(sr, i, '{');
      if start != -1 {
        var sub := sr[start + 1..i];
        var nonGreedy := |sub| > 0 && sub[0] == '?';
        var body := if nonGreedy then sub[1..] else sub;
        if GroupOf(body).Ok? {
          GroupWellFormed(body);
        }
      }
    }
  }

  /** Every selector of a successful compilation is well-formed, and there
      are at most as many selectors as characters in the argument. */
  lemma {:induction false} ScanWellFormed(eng: RegexEngine, sr: string, i: int)
    requires -2 <= i < |sr|
    ensures Scan(eng, sr, i).Ok? ==>
      |Scan(eng, sr, i).value| <= (if i < 0 then 0 else i + 1) &&
      forall sel :: sel in Scan(eng, sr, i).value ==> SelectorWellFormed(sel)
    decreases i + 2
  {
    if i >= 0 {
      StepWellFormed(eng, sr, i);
      var step := Step(eng, sr, i);
      if step.Ok? {
        ScanWellFormed(eng, sr, step.value.1);
      }
    }
  }

  lemma {:induction false} CompileWellFormed(eng: RegexEngine, arg: string)
    ensures Compile(eng, arg).Ok? ==>
      |Compile(eng, arg).value| <= |arg| &&
      forall sel :: sel in Compile(eng, arg).value ==> SelectorWellFormed(sel)
  {
    ScanWellFormed(eng, arg, |arg| - 1);
  }

  // ---------------------------------------------------------------- errors

  /** A `}` with no `{` anywhere to its left is reported with its 1-based
      position; at the end of the argument it is the compilation's error. */
  lemma {:induction false} UnmatchedBraceError(eng: RegexEngine, arg: string, i: nat)
    requires i < |arg| && arg[i] == '}'
    requires forall k :: 0 <= k < i ==> arg[k] != '{'
    ensures Scan(eng, arg, i) == Err(UnmatchedBrace(i + 1))
    ensures i == |arg| - 1 ==> Compile(eng, arg) == Err(UnmatchedBrace(i + 1))
  {
    assert LastIndexOf(arg, i, '{') == -1;
    assert Step(eng, arg, i) == Err(UnmatchedBrace(i + 1));
  }

  /** A character that starts no selector is reported as unexpected. */
  lemma {:induction false} UnexpectedCharError(eng: RegexEngine, arg: string)
    requires |arg| > 0
    requires !(arg[|arg| - 1] == '}' || arg[|arg| - 1] == '/' || IsDigit(arg[|arg| - 1]))
    ensures Compile(eng, arg) == Err(UnexpectedChar(arg[|arg| - 1]))
  {
  }

  /** A failure to the left of a successful step fails the compilation:
      no partial extractor is ever returned. */
  lemma {:induction false} ErrorLeftAborts(eng: RegexEngine, sr: string, i: int, e: Error)
    requires 0 <= i < |sr|
    requires Step(eng, sr, i).Ok?
    requires Scan(eng, sr, Step(eng, sr, i).value.1) == Err(e)
    ensures Scan(eng, sr, i) == Err(e)
  {
  }

  /** The empty argument compiles to no selectors. */
  lemma {:induction false} CompileEmpty(eng: RegexEngine)
    ensures Compile(eng, "") == Ok([])
  {
  }
}
