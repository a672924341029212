/** Running a compiled extractor on a line: the two tokenizers, one
    selector stage (tokenize, filter, rejoin), the fold over the stages of
    an extractor, and the text written for one input line (fex.go,
    Selector.Extract, Extractor.Extract, GreedySplit, NonGreedySplit,
    processLine). */
module Extraction {
  import opened Results
  import opened Text
  import opened Ranges
  import opened Filters

  /** The two split functions a selector can use. */
  datatype Tokenizer = Greedy | NonGreedy

  /** One stage of an extractor: it splits with `delim`, filters, and joins
      the kept tokens back with the same `delim`. */
  datatype Selector = Selector(delim: string, tokenizer: Tokenizer, filter: Filter)

  /** GreedySplit: split at every run of characters of `delim`, dropping
      empty tokens. */
  function GreedySplit(delim: string, s: string): (r: seq<string>)
    ensures forall t :: t in r ==> |t| > 0 && forall j :: 0 <= j < |t| ==> t[j] !in delim
  {
    Fields(s, delim)
  }

  /** NonGreedySplit: split at each occurrence of the whole `delim`,
      keeping empty tokens. */
  function NonGreedySplit(delim: string, s: string): (r: seq<string>)
    ensures Join(r, delim) == s
  {
    JoinSplit(s, delim);
    Split(s, delim)
  }

  function Tokenize(t: Tokenizer, delim: string, s: string): seq<string>
  {
    match t
    case Greedy => GreedySplit(delim, s)
    case NonGreedy => NonGreedySplit(delim, s)
  }

  /** What Selector.Extract computes for input `s`. */
  function Apply(eng: RegexEngine, sel: Selector, s: string): string
  {
    Join(FilterSelected(eng, sel.filter, Tokenize(sel.tokenizer, sel.delim, s), s), sel.delim)
  }

  /** Selector.Extract: tokenize, filter (the untokenized input is the zero
      value), and join with the selector's own delimiter. */
  method SelectorExtract(eng: RegexEngine, sel: Selector, s: string) returns (r: string)
    ensures r == Apply(eng, sel, s)
  {
    var fields := Tokenize(sel.tokenizer, sel.delim, s);
    fields := FilterSelect(eng, sel.filter, fields, s);
    r := Join(fields, sel.delim);
  }

  /** What Extractor.Extract computes: the stages applied first to last,
      each to the output of the one before. */
  function Run(eng: RegexEngine, ex: seq<Selector>, s: string): (r: string)
    ensures |ex| == 0 ==> r == s
    ensures |ex| > 0 ==> r == Run(eng, ex[1..], Apply(eng, ex[0], s))
    decreases |ex|
  {
    if |ex| == 0 then s
    else
      var init := ex[..|ex| - 1];
      assert |ex| > 1 ==> ex[1..][..|ex| - 2] == init[1..] && ex[1..][|ex| - 2] == ex[|ex| - 1];
      Apply(eng, ex[|ex| - 1], Run(eng, init, s))
  }

  /** Extractor.Extract: thread the string through every selector in turn. */
  method Extract(eng: RegexEngine, ex: seq<Selector>, s: string) returns (result: string)
    ensures result == Run(eng, ex, s)
  {
    result := s;
    for i := 0 to |ex|
      invariant result == Run(eng, ex[..i], s)
    {
      assert ex[..i + 1][..i] == ex[..i];
      result := SelectorExtract(eng, ex[i], result);
    }
    assert ex[..|ex|] == ex;
  }

  // ---------------------------------------------------------------- properties

  /** The zero range gives back its input, whatever the delimiter and tokenizer. */
  lemma {:induction false} ZeroRangeIdentity(eng: RegexEngine, delim: string, t: Tokenizer, s: string)
    ensures Apply(eng, Selector(delim, t, Range(FieldRange(0, 0))), s) == s
  {
  }

  /** An extractor with no selectors returns its input unchanged. */
  lemma {:induction false} EmptyExtractorIdentity(eng: RegexEngine, s: string)
    ensures Run(eng, [], s) == s
  {
  }

  /** Running two extractors back to back is running their concatenation:
      the stages apply strictly left to right. */
  lemma {:induction false} RunAppend(eng: RegexEngine, e1: seq<Selector>, e2: seq<Selector>, s: string)
    ensures Run(eng, e1 + e2, s) == Run(eng, e2, Run(eng, e1, s))
    decreases |e2|
  {
    if |e2| == 0 {
      assert e1 + e2 == e1;
    } else {
      var init := e2[..|e2| - 1];
      assert (e1 + e2)[..|e1 + e2| - 1] == e1 + init;
      assert (e1 + e2)[|e1 + e2| - 1] == e2[|e2| - 1];
      RunAppend(eng, e1, init, s);
    }
  }

  /** Non-greedy splitting keeps empty tokens: the range 1:-1 (every token)
      of a non-greedy stage reproduces its input exactly. */
  lemma {:induction false} NonGreedyWholeRange(eng: RegexEngine, delim: string, s: string)
    ensures Apply(eng, Selector(delim, NonGreedy, Range(FieldRange(1, -1))), s) == s
  {
    var fields := NonGreedySplit(delim, s);
    if |fields| == 0 {
      assert s == Join(fields, delim);
    } else {
      assert fields[0..|fields|] == fields;
    }
  }

  /** Non-empty words free of the characters of `delim`: what a greedy
      split at `delim` of their join gives back. */
  predicate Words(ws: seq<string>, delim: string)
  {
    forall k :: 0 <= k < |ws| ==> |ws[k]| > 0 && forall j :: 0 <= j < |ws[k]| ==> ws[k][j] !in delim
  }

  /** On a line made of words joined by the delimiter, a greedy stage
      filters exactly those words and joins what it keeps. */
  lemma {:induction false} GreedyOnWords(eng: RegexEngine, delim: string, ws: seq<string>, f: Filter)
    requires |delim| > 0 && Words(ws, delim)
    ensures Apply(eng, Selector(delim, Greedy, f), Join(ws, delim))
      == Join(FilterSelected(eng, f, ws, Join(ws, delim)), delim)
  {
    FieldsJoin(ws, delim, delim);
  }

  /** On a line made of non-empty words joined by a delimiter that occurs in
      none of them, a greedy stage with index i yields the i-th word. */
  lemma {:induction false} GreedyIndexSelectsWord(eng: RegexEngine, delim: string, ws: seq<string>, i: int)
    requires |delim| > 0 && Words(ws, delim)
    requires 1 <= i <= |ws|
    ensures Apply(eng, Selector(delim, Greedy, Range(FieldRange(i, i))), Join(ws, delim)) == ws[i - 1]
  {
    FieldsJoin(ws, delim, delim);
    SelectIndex(i, ws, Join(ws, delim));
  }

  /** The same, counting from the end with index -k. */
  lemma {:induction false} GreedyRelativeIndexSelectsWord(eng: RegexEngine, delim: string, ws: seq<string>, k: int)
    requires |delim| > 0 && Words(ws, delim)
    requires 1 <= k <= |ws|
    ensures Apply(eng, Selector(delim, Greedy, Range(FieldRange(-k, -k))), Join(ws, delim)) == ws[|ws| - k]
  {
    FieldsJoin(ws, delim, delim);
    SelectRelativeIndex(k, ws, Join(ws, delim));
  }

  /** On a line made of pieces (possibly empty) joined by a one-character
      delimiter that occurs in none of them, a non-greedy stage with index
      i yields the i-th piece. */
  lemma {:induction false} NonGreedyIndexSelectsPiece(eng: RegexEngine, delim: string, ws: seq<string>, i: int)
    requires |delim| == 1
    requires forall k, j :: 0 <= k < |ws| && 0 <= j < |ws[k]| ==> ws[k][j] != delim[0]
    requires 1 <= i <= |ws|
    ensures Apply(eng, Selector(delim, NonGreedy, Range(FieldRange(i, i))), Join(ws, delim)) == ws[i - 1]
  {
    SplitJoin(ws, delim);
    SelectIndex(i, ws, Join(ws, delim));
  }

  /** An index past the last token (or before the first) yields the empty string. */
  lemma {:induction false} OutOfRangeIsEmpty(eng: RegexEngine, delim: string, t: Tokenizer, i: int, s: string)
    requires i != 0
    requires i > |Tokenize(t, delim, s)| || i < -|Tokenize(t, delim, s)|
    ensures Apply(eng, Selector(delim, t, Range(FieldRange(i, i))), s) == ""
  {
  }

  // ---------------------------------------------------------------- one line

  /** The extracted strings of one line, one per extractor, in argument order. */
  function Outputs(eng: RegexEngine, ops: seq<seq<Selector>>, text: string): (outs: seq<string>)
    ensures |outs| == |ops|
    ensures forall k :: 0 <= k < |ops| ==> outs[k] == Run(eng, ops[k], text)
  {
    seq(|ops|, i requires 0 <= i < |ops| => Run(eng, ops[i], text))
  }

  /** The text processLine writes for one input line: the line without its
      "\n" and then "\r" terminator is run through every extractor, the
      results are separated by single spaces, and a newline follows only
      when something was written. */
  function LineOutput(eng: RegexEngine, ops: seq<seq<Selector>>, line: string): (r: string)
    ensures r != "" ==> |r| > 1 && r[|r| - 1] == '\n'
    ensures |ops| == 0 ==> r == ""
  {
    var text := TrimSuffix(TrimSuffix(line, "\n"), "\r");
    var joined := Join(Outputs(eng, ops, text), " ");
    if joined == "" then "" else joined + "\n"
  }

  /** processLine, with the writes to standard output accumulated in `out`
      and `written` counting what the writes reported. */
  method ProcessLine(eng: RegexEngine, line: string, ops: seq<seq<Selector>>) returns (out: string)
    ensures out == LineOutput(eng, ops, line)
  {
    var text := TrimSuffix(line, "\n");
    text := TrimSuffix(text, "\r");
    ghost var outs := Outputs(eng, ops, text);
    out := "";
    var written := 0;
    for i := 0 to |ops|
      invariant out == Join(outs[..i], " ")
      invariant written == |out|
    {
      var field := Extract(eng, ops[i], text);
      assert field == outs[i];
      TakeSnoc(outs, i);
      if i > 0 {
        out, written := out + " ", written + 1;
        JoinSnoc(outs[..i], field, " ");
      } else {
        assert outs[..1] == [field];
      }
      if field != "" {
        out, written := out + field, written + |field|;
      }
    }
    assert outs[..|ops|] == outs;
    if written > 0 {
      out := out + "\n";
    }
  }

  /** With two or more extractors a line is always written, since the
      separating space counts; with one, only when its output is non-empty. */
  lemma {:induction false} LineWritten(eng: RegexEngine, ops: seq<seq<Selector>>, line: string)
    ensures |ops| >= 2 ==> LineOutput(eng, ops, line) != ""
    ensures |ops| == 1 ==>
      (LineOutput(eng, ops, line) == "" <==> Run(eng, ops[0], TrimSuffix(TrimSuffix(line, "\n"), "\r")) == "")
  {
    var text := TrimSuffix(TrimSuffix(line, "\n"), "\r");
    var outs := Outputs(eng, ops, text);
    if |ops| >= 2 {
      assert outs == [outs[0]] + outs[1..];
      JoinCons(outs[0], outs[1..], " ");
      assert |Join(outs, " ")| >= 1;
    }
  }
}
