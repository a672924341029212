/** The pieces of Go's `strings` and `strconv` packages that the extractor
    relies on, stated over `seq<char>`: strings.Join, strings.Index,
    strings.Split, strings.FieldsFunc (with a delimiter set), strings.TrimSuffix,
    strconv.Atoi and strconv.Itoa. */
module Text {
  import opened Results

  /** Go's `int` is 64 bits wide on the platforms the tool targets. */
  const MinInt: int := -0x8000_0000_0000_0000
  const MaxInt: int := 0x7FFF_FFFF_FFFF_FFFF
  /** The largest value of the unsigned accumulator strconv parses into. */
  const MaxUint64: int := 0xFFFF_FFFF_FFFF_FFFF

  // ---------------------------------------------------------------- Join

  /** strings.Join: the elements with `sep` between each adjacent pair. */
  function Join(xs: seq<string>, sep: string): string
    decreases |xs|
  {
    if |xs| == 0 then ""
    else if |xs| == 1 then xs[0]
    else xs[0] + sep + Join(xs[1..], sep)
  }

  /** Concatenation of all elements (strings.Join with an empty separator). */
  function Concat(xs: seq<string>): string
    decreases |xs|
  {
    if |xs| == 0 then "" else xs[0] + Concat(xs[1..])
  }

  lemma {:induction false} JoinEmptyIsConcat(xs: seq<string>)
    ensures Join(xs, "") == Concat(xs)
    decreases |xs|
  {
    if |xs| > 1 {
      JoinEmptyIsConcat(xs[1..]);
    }
  }

  lemma {:induction false} ConcatAppend(xs: seq<string>, ys: seq<string>)
    ensures Concat(xs + ys) == Concat(xs) + Concat(ys)
    decreases |xs|
  {
    if |xs| > 0 {
      assert (xs + ys)[0] == xs[0];
      assert (xs + ys)[1..] == xs[1..] + ys;
      ConcatAppend(xs[1..], ys);
      calc {
        Concat(xs + ys);
        xs[0] + Concat(xs[1..] + ys);
        xs[0] + (Concat(xs[1..]) + Concat(ys));
        (xs[0] + Concat(xs[1..])) + Concat(ys);
      }
    } else {
      assert xs + ys == ys;
    }
  }

  lemma {:induction false} JoinCons(x: string, ys: seq<string>, sep: string)
    requires |ys| > 0
    ensures Join([x] + ys, sep) == x + sep + Join(ys, sep)
  {
    assert ([x] + ys)[1..] == ys;
  }

  /** Joining a non-empty list with one more element appended. */
  lemma {:induction false} JoinSnoc(xs: seq<string>, x: string, sep: string)
    requires |xs| > 0
    ensures Join(xs + [x], sep) == Join(xs, sep) + sep + x
    decreases |xs|
  {
    if |xs| > 1 {
      assert (xs + [x])[1..] == xs[1..] + [x];
      JoinSnoc(xs[1..], x, sep);
    }
  }

  // ---------------------------------------------------------------- Index

  /** `sub` occurs in `s` at position `j`. */
  predicate OccursAt(s: string, sub: string, j: int)
  {
    0 <= j && j + |sub| <= |s| && s[j..j + |sub|] == sub
  }

  lemma {:induction false} OccursAtTail(s: string, sub: string)
    requires |s| > 0
    ensures forall j :: 0 <= j && OccursAt(s[1..], sub, j) ==> OccursAt(s, sub, j + 1)
    ensures forall j :: 1 <= j && OccursAt(s, sub, j) ==> OccursAt(s[1..], sub, j - 1)
  {
    forall j | 0 <= j && OccursAt(s[1..], sub, j) ensures OccursAt(s, sub, j + 1) {
      assert s[1..][j..j + |sub|] == s[j + 1..j + 1 + |sub|];
    }
    forall j | 1 <= j && OccursAt(s, sub, j) ensures OccursAt(s[1..], sub, j - 1) {
      assert s[1..][j - 1..j - 1 + |sub|] == s[j..j + |sub|];
    }
  }

  /** strings.Index: the first position where `sub` occurs in `s`, or -1. */
  function IndexOf(s: string, sub: string): (k: int)
    ensures k == -1 || 0 <= k <= |s| - |sub|
  {
    IndexFrom(s, sub, 0)
  }

  /** The first occurrence at or after `i`. */
  function IndexFrom(s: string, sub: string, i: nat): (k: int)
    ensures k == -1 || i <= k <= |s| - |sub|
    decreases |s| - i
  {
    if i + |sub| > |s| then -1
    else if s[i..i + |sub|] == sub then i
    else IndexFrom(s, sub, i + 1)
  }

  lemma {:induction false} IndexFromSpec(s: string, sub: string, i: nat)
    ensures var k := IndexFrom(s, sub, i);
      && (k == -1 || OccursAt(s, sub, k))
      && forall j :: i <= j && (k == -1 || j < k) ==> !OccursAt(s, sub, j)
    decreases |s| - i
  {
    if i + |sub| <= |s| && s[i..i + |sub|] != sub {
      IndexFromSpec(s, sub, i + 1);
    }
  }

  /** IndexOf finds an occurrence, and no earlier one exists; -1 means
      there is none at all. */
  lemma {:induction false} IndexOfSpec(s: string, sub: string)
    ensures var k := IndexOf(s, sub);
      && (k == -1 || OccursAt(s, sub, k))
      && forall j :: 0 <= j && (k == -1 || j < k) ==> !OccursAt(s, sub, j)
  {
    IndexFromSpec(s, sub, 0);
  }

  /** With no occurrence at all, IndexOf returns -1. */
  lemma {:induction false} IndexOfNone(s: string, sub: string)
    requires Free(s, sub)
    ensures IndexOf(s, sub) == -1
  {
    IndexOfSpec(s, sub);
  }

  /** A one-character separator occurs only where its character does. */
  lemma {:induction false} CharFree(w: string, sep: string)
    requires |sep| == 1
    requires forall j :: 0 <= j < |w| ==> w[j] != sep[0]
    ensures Free(w, sep)
  {
    forall j ensures !OccursAt(w, sep, j) {
      if 0 <= j < |w| {
        assert w[j..j + 1][0] == w[j];
      }
    }
  }

  /** The first occurrence is what IndexOf returns. */
  lemma {:induction false} IndexOfIs(s: string, sub: string, k: int)
    requires OccursAt(s, sub, k)
    requires forall j :: 0 <= j < k ==> !OccursAt(s, sub, j)
    ensures IndexOf(s, sub) == k
  {
    IndexOfSpec(s, sub);
  }

  // ---------------------------------------------------------------- Split

  /** strings.Split with an empty separator: one element per character. */
  function Explode(s: string): (r: seq<string>)
    ensures |r| == |s|
    ensures forall i :: 0 <= i < |s| ==> r[i] == [s[i]]
  {
    seq(|s|, i requires 0 <= i < |s| => [s[i]])
  }

  /** strings.Split(s, sep): the pieces between successive non-overlapping
      occurrences of `sep`, scanning left to right; empty pieces are kept. */
  function Split(s: string, sep: string): (r: seq<string>)
    ensures |sep| > 0 ==> |r| > 0
    decreases |s|
  {
    if |sep| == 0 then Explode(s)
    else
      var k := IndexOf(s, sep);
      if k == -1 then [s] else [s[..k]] + Split(s[k + |sep|..], sep)
  }

  lemma {:induction false} JoinExplode(s: string)
    ensures Join(Explode(s), "") == s
    decreases |s|
  {
    if |s| > 1 {
      assert Explode(s)[1..] == Explode(s[1..]);
      JoinExplode(s[1..]);
    }
  }

  /** Around an occurrence of `sep` at `k`, `s` is the text before it, the
      separator and the text after it. */
  lemma {:induction false} SplitAround(s: string, sep: string, k: int)
    requires OccursAt(s, sep, k)
    ensures s == s[..k] + sep + s[k + |sep|..]
  {
    assert s == s[..k] + s[k..k + |sep|] + s[k + |sep|..];
  }

  /** Joining the pieces of a split with the same separator gives back the
      input: no character is lost or invented by Split. */
  lemma {:induction false} JoinSplit(s: string, sep: string)
    ensures Join(Split(s, sep), sep) == s
    decreases |s|
  {
    if |sep| == 0 {
      JoinExplode(s);
    } else {
      var k := IndexOf(s, sep);
      if k != -1 {
        var rest := s[k + |sep|..];
        JoinSplit(rest, sep);
        JoinCons(s[..k], Split(rest, sep), sep);
        IndexOfSpec(s, sep);
        SplitAround(s, sep, k);
      }
    }
  }

  /** `sub` occurs nowhere in `s`. */
  ghost predicate Free(s: string, sub: string)
  {
    forall j :: !OccursAt(s, sub, j)
  }

  /** No piece of a split contains the (non-empty) separator. */
  lemma {:induction false} SplitPiecesFree(s: string, sep: string)
    requires |sep| > 0
    ensures forall p :: p in Split(s, sep) ==> Free(p, sep)
    decreases |s|
  {
    var k := IndexOf(s, sep);
    if k != -1 {
      var rest := s[k + |sep|..];
      SplitPiecesFree(rest, sep);
      BeforeFirstFree(s, sep, k);
      SplitAtFirst(s, sep, k);
      FreeCons(s[..k], Split(rest, sep), sep);
    } else {
      SplitWhole(s, sep);
    }
  }

  lemma {:induction false} SplitAtFirst(s: string, sep: string, k: int)
    requires |sep| > 0 && k == IndexOf(s, sep) && k != -1
    ensures Split(s, sep) == [s[..k]] + Split(s[k + |sep|..], sep)
  {
    var before, after := s[..k], s[k + |sep|..];
    assert Split(s, sep) == [before] + Split(after, sep);
  }

  lemma {:induction false} SplitWhole(s: string, sep: string)
    requires |sep| > 0 && IndexOf(s, sep) == -1
    ensures Split(s, sep) == [s] && Free(s, sep)
  {
    IndexOfSpec(s, sep);
  }

  lemma {:induction false} FreeCons(x: string, xs: seq<string>, sep: string)
    requires Free(x, sep) && forall p :: p in xs ==> Free(p, sep)
    ensures forall p :: p in [x] + xs ==> Free(p, sep)
  { }

  /** The text before the first occurrence holds no occurrence. */
  lemma {:induction false} BeforeFirstFree(s: string, sep: string, k: int)
    requires |sep| > 0 && k == IndexOf(s, sep) && k != -1
    ensures Free(s[..k], sep)
  {
    IndexOfSpec(s, sep);
    forall j ensures !OccursAt(s[..k], sep, j) {
      if 0 <= j && j + |sep| <= k {
        assert s[..k][j..j + |sep|] == s[j..j + |sep|];
        assert !OccursAt(s, sep, j);
      }
    }
  }

  // ---------------------------------------------------------------- FieldsFunc

  /** Length of the longest prefix of `s` free of delimiter characters. */
  function RunLength(s: string, delims: string): (k: nat)
    ensures k <= |s|
    ensures forall j :: 0 <= j < k ==> s[j] !in delims
    ensures k < |s| ==> s[k] in delims
    decreases |s|
  {
    if |s| == 0 || s[0] in delims then 0 else 1 + RunLength(s[1..], delims)
  }

  /** strings.FieldsFunc(s, c in delims): the maximal runs of characters not
      in `delims`; runs of delimiters collapse and no empty field is produced. */
  function Fields(s: string, delims: string): (r: seq<string>)
    ensures forall t :: t in r ==> |t| > 0 && forall j :: 0 <= j < |t| ==> t[j] !in delims
    decreases |s|
  {
    if |s| == 0 then []
    else if s[0] in delims then Fields(s[1..], delims)
    else
      var k := RunLength(s, delims);
      [s[..k]] + Fields(s[k..], delims)
  }

  /** `s` with every delimiter character removed. */
  function Strip(s: string, delims: string): string
    decreases |s|
  {
    if |s| == 0 then "" else (if s[0] in delims then "" else [s[0]]) + Strip(s[1..], delims)
  }

  lemma {:induction false} StripAppend(a: string, b: string, delims: string)
    ensures Strip(a + b, delims) == Strip(a, delims) + Strip(b, delims)
    decreases |a|
  {
    if |a| > 0 {
      assert (a + b)[0] == a[0];
      assert (a + b)[1..] == a[1..] + b;
      StripAppend(a[1..], b, delims);
      var h := if a[0] in delims then "" else [a[0]];
      calc {
        Strip(a + b, delims);
        h + Strip(a[1..] + b, delims);
        h + (Strip(a[1..], delims) + Strip(b, delims));
        (h + Strip(a[1..], delims)) + Strip(b, delims);
      }
    } else {
      assert a + b == b;
    }
  }

  lemma {:induction false} StripFree(a: string, delims: string)
    requires forall j :: 0 <= j < |a| ==> a[j] !in delims
    ensures Strip(a, delims) == a
    decreases |a|
  {
    if |a| > 0 {
      StripFree(a[1..], delims);
    }
  }

  /** The fields hold exactly the non-delimiter characters of `s`, in order. */
  lemma {:induction false} FieldsKeepContent(s: string, delims: string)
    ensures Concat(Fields(s, delims)) == Strip(s, delims)
    decreases |s|
  {
    if |s| > 0 {
      if s[0] in delims {
        FieldsKeepContent(s[1..], delims);
      } else {
        var k := RunLength(s, delims);
        FieldsKeepContent(s[k..], delims);
        assert s == s[..k] + s[k..];
        StripAppend(s[..k], s[k..], delims);
        StripFree(s[..k], delims);
      }
    }
  }

  /** A prefix made only of delimiter characters does not change the fields. */
  lemma {:induction false} FieldsSkipDelims(a: string, b: string, delims: string)
    requires forall j :: 0 <= j < |a| ==> a[j] in delims
    ensures Fields(a + b, delims) == Fields(b, delims)
    decreases |a|
  {
    if |a| > 0 {
      assert (a + b)[0] == a[0];
      assert (a + b)[1..] == a[1..] + b;
      FieldsSkipDelims(a[1..], b, delims);
    } else {
      assert a + b == b;
    }
  }

  /** A field followed by a delimiter character (or by nothing) is read as one token. */
  lemma {:induction false} FieldsOfToken(w: string, b: string, delims: string)
    requires |w| > 0 && forall j :: 0 <= j < |w| ==> w[j] !in delims
    requires |b| == 0 || b[0] in delims
    ensures Fields(w + b, delims) == [w] + Fields(b, delims)
  {
    var s := w + b;
    assert s[0] == w[0] && s[0] !in delims;
    assert forall j :: 0 <= j < |w| ==> s[j] == w[j] && s[j] !in delims;
    assert |b| > 0 ==> s[|w|] == b[0] && s[|w|] in delims;
    var k := RunLength(s, delims);
    assert k == |w|;
    assert s[..k] == w && s[k..] == b;
    assert Fields(s, delims) == [s[..k]] + Fields(s[k..], delims);
  }

  /** Greedy splitting undoes joining with a non-empty separator made of
      delimiter characters, provided every element is a non-empty run free
      of delimiter characters. */
  lemma {:induction false} FieldsJoin(ws: seq<string>, sep: string, delims: string)
    requires |sep| > 0 && forall j :: 0 <= j < |sep| ==> sep[j] in delims
    requires forall i :: 0 <= i < |ws| ==> |ws[i]| > 0
    requires forall i, j :: 0 <= i < |ws| && 0 <= j < |ws[i]| ==> ws[i][j] !in delims
    ensures Fields(Join(ws, sep), delims) == ws
    decreases |ws|
  {
    if |ws| == 1 {
      FieldsOfToken(ws[0], "", delims);
      assert ws[0] + "" == ws[0];
    } else if |ws| > 1 {
      var rest := Join(ws[1..], sep);
      FieldsJoin(ws[1..], sep, delims);
      FieldsSkipDelims(sep, rest, delims);
      FieldsOfToken(ws[0], sep + rest, delims);
      assert Join(ws, sep) == ws[0] + (sep + rest);
    }
  }

  /** A word with no delimiter character is a single field. */
  lemma {:induction false} FieldsOfWord(w: string, delims: string)
    requires |w| > 0 && forall j :: 0 <= j < |w| ==> w[j] !in delims
    ensures Fields(w, delims) == [w]
  {
    FieldsOfToken(w, "", delims);
    assert w + "" == w;
  }

  /** Every delimiter character separates fields: the fields of `s`, a
      delimiter and `t` are the fields of `s` followed by those of `t`.
      With FieldsOfWord and `Fields("") == []` this determines Fields on
      every input: the fields are exactly the maximal delimiter-free runs. */
  lemma {:induction false} FieldsAtDelim(s: string, d: char, t: string, delims: string)
    requires d in delims
    ensures Fields(s + [d] + t, delims) == Fields(s, delims) + Fields(t, delims)
    decreases |s|, 1
  {
    var x := s + [d] + t;
    if |s| == 0 {
      assert x[0] == d && x[1..] == t;
    } else if s[0] in delims {
      assert x[0] == s[0];
      assert x[1..] == s[1..] + [d] + t;
      FieldsAtDelim(s[1..], d, t, delims);
    } else {
      FieldsAtDelimAfterWord(s, d, t, delims);
    }
  }

  /** FieldsAtDelim when `s` starts with a field. */
  lemma {:induction false} FieldsAtDelimAfterWord(s: string, d: char, t: string, delims: string)
    requires d in delims && |s| > 0 && s[0] !in delims
    ensures Fields(s + [d] + t, delims) == Fields(s, delims) + Fields(t, delims)
    decreases |s|, 0
  {
    var k := RunLength(s, delims);
    var w, rest := s[..k], s[k..];
    var x, tail := s + [d] + t, rest + [d] + t;
    assert s == w + rest && x == w + tail;
    assert forall j :: 0 <= j < |w| ==> w[j] == s[j];
    FieldsOfToken(w, rest, delims);
    FieldsOfToken(w, tail, delims);
    var fw, ft := Fields(rest, delims), Fields(t, delims);
    if k < |s| {
      FieldsAtDelim(rest, d, t, delims);
      assert Fields(tail, delims) == fw + ft;
    } else {
      assert rest == [] && fw == [];
      assert tail == [d] + t && tail[1..] == t;
      assert Fields(tail, delims) == fw + ft;
    }
    assert Fields(x, delims) == [w] + (fw + ft);
    assert Fields(s, delims) == [w] + fw;
    ConcatAssoc([w], fw, ft);
  }

  lemma {:induction false} TakeSnoc<T>(s: seq<T>, i: int)
    requires 0 <= i < |s|
    ensures s[..i + 1] == s[..i] + [s[i]]
  {
  }

  lemma {:induction false} ConcatAssoc<T>(a: seq<T>, b: seq<T>, c: seq<T>)
    ensures a + (b + c) == a + b + c
  {
  }

  /** The first occurrence of a one-character separator after a piece free
      of it is right after that piece. */
  lemma {:induction false} IndexAfterPiece(w: string, sep: string, rest: string)
    requires |sep| == 1
    requires forall j :: 0 <= j < |w| ==> w[j] != sep[0]
    ensures IndexOf(w + sep + rest, sep) == |w|
  {
    var s := w + sep + rest;
    assert s[|w|..|w| + 1] == sep;
    assert OccursAt(s, sep, |w|);
    forall j | 0 <= j < |w| ensures !OccursAt(s, sep, j) {
      assert s[j] == w[j];
    }
    IndexOfIs(s, sep, |w|);
  }

  /** Splitting at a one-character separator undoes joining with it, when no
      piece contains that character: non-greedy splitting loses nothing,
      not even empty pieces. */
  lemma {:induction false} SplitJoin(ws: seq<string>, sep: string)
    requires |sep| == 1 && |ws| > 0
    requires forall i, j :: 0 <= i < |ws| && 0 <= j < |ws[i]| ==> ws[i][j] != sep[0]
    ensures Split(Join(ws, sep), sep) == ws
    decreases |ws|
  {
    if |ws| == 1 {
      CharFree(ws[0], sep);
      IndexOfNone(ws[0], sep);
    } else {
      var rest := Join(ws[1..], sep);
      assert Join(ws, sep) == ws[0] + sep + rest;
      SplitAfterPiece(ws[0], sep, rest);
      SplitJoin(ws[1..], sep);
      assert [ws[0]] + ws[1..] == ws;
    }
  }

  /** A piece free of the one-character separator is split off first. */
  lemma {:induction false} SplitAfterPiece(w: string, sep: string, rest: string)
    requires |sep| == 1
    requires forall j :: 0 <= j < |w| ==> w[j] != sep[0]
    ensures Split(w + sep + rest, sep) == [w] + Split(rest, sep)
  {
    var s := w + sep + rest;
    IndexAfterPiece(w, sep, rest);
    assert s[..|w|] == w;
    assert s[|w| + |sep|..] == rest;
    SplitAtFirst(s, sep, |w|);
  }

  // ---------------------------------------------------------------- TrimSuffix

  /** strings.TrimSuffix: `s` without `suffix`, when it ends with it. */
  function TrimSuffix(s: string, suffix: string): (r: string)
    ensures r + (if |r| < |s| then suffix else "") == s
    ensures |r| < |s| <==> |suffix| > 0 && |suffix| <= |s| && s[|s| - |suffix|..] == suffix
  {
    if |suffix| <= |s| && s[|s| - |suffix|..] == suffix then s[..|s| - |suffix|] else s
  }

  // ---------------------------------------------------------------- Atoi / Itoa

  /** ASCII decimal digit (the model's reading of unicode.IsDigit). */
  predicate IsDigit(c: char)
  {
    '0' <= c <= '9'
  }

  predicate AllDigits(s: string)
  {
    forall i :: 0 <= i < |s| ==> IsDigit(s[i])
  }

  function DigitValue(c: char): nat
    requires IsDigit(c)
  {
    (c as int) - ('0' as int)
  }

  function DigitChar(d: nat): (c: char)
    requires d < 10
    ensures IsDigit(c) && DigitValue(c) == d
  {
    (('0' as int) + d) as char
  }

  /** The value of a string of decimal digits, most significant first. */
  function DecimalValue(ds: string): nat
    requires AllDigits(ds)
    decreases |ds|
  {
    if |ds| == 0 then 0 else 10 * DecimalValue(ds[..|ds| - 1]) + DigitValue(ds[|ds| - 1])
  }

  /** `s` without its optional leading sign. */
  function Unsigned(s: string): (t: string)
    ensures |s| > 0 && (s[0] == '+' || s[0] == '-') ==> t == s[1..]
    ensures !(|s| > 0 && (s[0] == '+' || s[0] == '-')) ==> t == s
  {
    if |s| > 0 && (s[0] == '+' || s[0] == '-') then s[1..] else s
  }

  /** The longest prefix of `t` made of decimal digits. */
  function LeadingDigits(t: string): (p: string)
    ensures |p| <= |t| && p == t[..|p|] && AllDigits(p)
    ensures |p| < |t| ==> !IsDigit(t[|p|])
    decreases |t|
  {
    if |t| == 0 || !IsDigit(t[0]) then "" else [t[0]] + LeadingDigits(t[1..])
  }

  lemma {:induction false} LeadingDigitsAll(t: string)
    ensures AllDigits(t) ==> LeadingDigits(t) == t
  {
  }

  /** strconv parses the digits after the sign one at a time into an
      unsigned 64-bit accumulator and reports a range error as soon as it
      overflows, before it looks at any character after them. */
  predicate Overflows(s: string)
  {
    DecimalValue(LeadingDigits(Unsigned(s))) > MaxUint64
  }

  /** strconv.Atoi: an optional sign, then one or more decimal digits, whose
      value must fit a 64-bit signed integer. A run of digits too large for
      the unsigned accumulator is a range error even when a character that
      is not a digit follows it. */
  function Atoi(s: string): (r: Result<int>)
    ensures r.Ok? ==> MinInt <= r.value <= MaxInt
    ensures r.Ok? <==> IsDecimalLiteral(s) && MinInt <= LiteralValue(s) <= MaxInt
    ensures r.Ok? ==> r.value == LiteralValue(s)
    ensures r.Err? ==> r.error == (if IsDecimalLiteral(s) || Overflows(s) then RangeError(s) else SyntaxError(s))
  {
    var neg := |s| > 0 && s[0] == '-';
    var body := Unsigned(s);
    LeadingDigitsAll(body);
    if |body| == 0 then Err(SyntaxError(s))
    else if Overflows(s) then Err(RangeError(s))
    else if !AllDigits(body) then Err(SyntaxError(s))
    else
      var v: int := if neg then -(DecimalValue(body) as int) else DecimalValue(body);
      if v < MinInt || v > MaxInt then Err(RangeError(s)) else Ok(v)
  }

  lemma {:induction false} LeadingDigitsAppend(ds: string, rest: string)
    requires AllDigits(ds) && (|rest| == 0 || !IsDigit(rest[0]))
    ensures LeadingDigits(ds + rest) == ds
    decreases |ds|
  {
    if |ds| > 0 {
      assert (ds + rest)[0] == ds[0];
      assert (ds + rest)[1..] == ds[1..] + rest;
      LeadingDigitsAppend(ds[1..], rest);
    } else {
      assert ds + rest == rest;
    }
  }

  /** Digits whose value exceeds the unsigned 64-bit range make Atoi fail
      with a range error, whatever non-digit text follows them. */
  lemma {:induction false} AtoiOverflowFirst(ds: string, rest: string)
    requires AllDigits(ds) && DecimalValue(ds) > MaxUint64
    requires |rest| == 0 || !IsDigit(rest[0])
    ensures Atoi(ds + rest) == Err(RangeError(ds + rest))
  {
    var s := ds + rest;
    assert |ds| > 0;
    assert s[0] == ds[0] && IsDigit(s[0]);
    assert Unsigned(s) == s;
    LeadingDigitsAppend(ds, rest);
  }

  /** The text accepted by Atoi, stated as a grammar: [+-]?[0-9]+ */
  predicate IsDecimalLiteral(s: string)
  {
    (|s| > 0 && AllDigits(s)) || (|s| > 1 && (s[0] == '+' || s[0] == '-') && AllDigits(s[1..]))
  }

  function LiteralValue(s: string): int
    requires IsDecimalLiteral(s)
  {
    if AllDigits(s) then DecimalValue(s)
    else if s[0] == '-' then -(DecimalValue(s[1..]) as int) else DecimalValue(s[1..])
  }

  /** Decimal digits of a natural number, most significant first, no leading zero. */
  function Digits(n: nat): (ds: string)
    ensures |ds| > 0 && AllDigits(ds)
    decreases n
  {
    if n < 10 then [DigitChar(n)] else Digits(n / 10) + [DigitChar(n % 10)]
  }

  /** strconv.Itoa. */
  function Itoa(k: int): string
  {
    if k < 0 then "-" + Digits(-k) else Digits(k)
  }

  lemma {:induction false} DecimalDigits(n: nat)
    ensures DecimalValue(Digits(n)) == n
    decreases n
  {
    if n >= 10 {
      DecimalDigits(n / 10);
      var ds := Digits(n);
      assert ds[..|ds| - 1] == Digits(n / 10);
    }
  }

  /** Printing an integer and parsing it back gives the same integer. */
  lemma {:induction false} AtoiItoa(k: int)
    requires MinInt <= k <= MaxInt
    ensures Atoi(Itoa(k)) == Ok(k)
  {
    if k < 0 {
      AtoiNegative(-k);
    } else {
      DecimalDigits(k);
    }
  }

  lemma {:induction false} AtoiNegative(n: nat)
    requires 0 < n <= -MinInt
    ensures Atoi("-" + Digits(n)) == Ok(-(n as int))
  {
    DecimalDigits(n);
    var s := "-" + Digits(n);
    assert s[1..] == Digits(n);
    assert !AllDigits(s) by {
      assert !IsDigit(s[0]);
    }
  }

  /** Printed integers contain only digits and a leading minus sign. */
  lemma {:induction false} ItoaChars(k: int)
    ensures |Itoa(k)| > 0
    ensures forall j :: 0 <= j < |Itoa(k)| ==> IsDigit(Itoa(k)[j]) || (j == 0 && Itoa(k)[j] == '-')
  {
  }
}
