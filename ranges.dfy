/** Field ranges: the `start:end` grammar, its validity rule, resolution of
    relative (negative) indices against a token count, and selection of the
    tokens a range denotes (fex.go, FieldRange and its methods). */
module Ranges {
  import opened Results
  import opened Text

  /** An inclusive, 1-based range of tokens; negative ends count from the
      last token. FieldRange(0, 0) denotes the whole untokenized string. */
  datatype FieldRange = FieldRange(start: int, end: int)

  predicate IsZero(r: FieldRange)
  {
    r.start == 0 && r.end == 0
  }

  predicate SameSign(a: int, b: int)
  {
    (a < 0 && b < 0) || (a > 0 && b > 0)
  }

  /** The validity invariant of parsed ranges: either both ends are zero or
      neither is, and same-signed ends are ordered. Mixed signs are allowed. */
  predicate WellFormed(r: FieldRange)
  {
    (r.start == 0 <==> r.end == 0) && (SameSign(r.start, r.end) ==> r.start <= r.end)
  }

  predicate InIntRange(r: FieldRange)
  {
    MinInt <= r.start <= MaxInt && MinInt <= r.end <= MaxInt
  }

  // ---------------------------------------------------------------- resolution

  /** Package-level `abs`: a negative index counts from the end of a
      sequence of `length` elements; the result is not bounds-checked. */
  function Abs(rel: int, length: int): (a: int)
    ensures rel >= 0 ==> a == rel
    ensures rel < 0 ==> a - 1 == length + rel && a <= length
    ensures rel < 0 && -rel <= length ==> 1 <= a
  {
    if rel < 0 then length + 1 + rel else rel
  }

  /** FieldRange.abs: both ends resolved against `n` tokens, the end raised
      to the start when it fell below it. */
  function Resolve(r: FieldRange, n: int): (a: FieldRange)
    ensures a.start == Abs(r.start, n)
    ensures a.start <= a.end
    ensures a.end == Abs(r.end, n) || (a.end == a.start && Abs(r.end, n) < a.start)
  {
    var s := Abs(r.start, n);
    var e := Abs(r.end, n);
    FieldRange(s, if e < s then s else e)
  }

  /** FieldRange.isValid on a resolved range: a non-empty block of
      positive positions. */
  predicate IsValid(r: FieldRange): (b: bool)
    ensures b <==> 1 <= r.start <= r.end
  {
    r.start > 0 && r.end > 0 && r.start <= r.end
  }

  /** A relative index -k with 1 <= k <= n names the k-th token from the
      end; one reaching past the first token resolves to a non-positive
      position instead of failing. */
  lemma {:induction false} AbsRelative(k: int, n: int)
    requires 1 <= k
    ensures k <= n ==> 1 <= Abs(-k, n) <= n && Abs(-k, n) - 1 == n - k
    ensures k > n ==> Abs(-k, n) <= 0
  {
  }

  /** A resolved range is valid exactly when its start is positive. */
  lemma {:induction false} ResolvedValid(r: FieldRange, n: int)
    ensures IsValid(Resolve(r, n)) <==> Abs(r.start, n) > 0
  {
  }

  // ---------------------------------------------------------------- parsing

  /** The validation at the end of ParseFieldRange. */
  function Validate(f: FieldRange): (r: Result<FieldRange>)
    ensures r.Ok? <==> WellFormed(f)
    ensures r.Ok? ==> r.value == f
    ensures r.Err? ==> r.error == StartAfterEnd(f.start, f.end) || r.error == ZeroMismatch(f.start, f.end)
    ensures r.Err? && SameSign(f.start, f.end) ==> r.error == StartAfterEnd(f.start, f.end)
    ensures r.Err? && !SameSign(f.start, f.end) ==> r.error == ZeroMismatch(f.start, f.end)
  {
    if f.start > f.end && ((f.start < 0 && f.end < 0) || (f.start > 0 && f.end > 0)) then
      Err(StartAfterEnd(f.start, f.end))
    else if (f.start == 0 || f.end == 0) && f.start != f.end then
      Err(ZeroMismatch(f.start, f.end))
    else
      Ok(f)
  }

  /** ParseFieldRange: `k`, `:`, `s:`, `:e` or `s:e`, split at the first colon.
      Every range it accepts satisfies the validity invariant. */
  function ParseFieldRange(s: string): (r: Result<FieldRange>)
    ensures r.Ok? ==> WellFormed(r.value) && InIntRange(r.value)
  {
    var n := IndexOf(s, ":");
    if n == -1 then
      match Atoi(s)
      case Err(e) => Err(e)
      case Ok(i) => Ok(FieldRange(i, i))
    else
      var startText, endText := s[..n], s[n + 1..];
      if startText == "" && endText == "" then Ok(FieldRange(0, 0))
      else
        var start := if startText == "" then Ok(1) else Atoi(startText);
        if start.Err? then Err(start.error)
        else
          var end := if endText == "" then Ok(-1) else Atoi(endText);
          if end.Err? then Err(end.error)
          else Validate(FieldRange(start.value, end.value))
  }

  /** A printed form of a range, the inverse of ParseFieldRange. */
  function Format(r: FieldRange): string
  {
    Itoa(r.start) + ":" + Itoa(r.end)
  }

  lemma {:induction false} NoColonInItoa(k: int)
    ensures IndexOf(Itoa(k), ":") == -1
  {
    ItoaChars(k);
    var t := Itoa(k);
    assert forall j :: OccursAt(t, ":", j) ==> t[j] == ':';
    IndexOfSpec(t, ":");
  }

  lemma {:induction false} ColonAfterItoa(k: int, rest: string)
    ensures IndexOf(Itoa(k) + ":" + rest, ":") == |Itoa(k)|
  {
    ItoaChars(k);
    var t := Itoa(k);
    var s := t + ":" + rest;
    assert s[|t|..|t| + 1] == ":";
    assert OccursAt(s, ":", |t|);
    assert forall j :: 0 <= j < |t| ==> s[j] == t[j];
    assert forall j :: OccursAt(s, ":", j) ==> s[j] == ':';
    IndexOfIs(s, ":", |t|);
  }

  /** A single printed index parses to the range made of that index. */
  lemma {:induction false} ParseSingle(k: int)
    requires MinInt <= k <= MaxInt
    ensures ParseFieldRange(Itoa(k)) == Ok(FieldRange(k, k))
  {
    NoColonInItoa(k);
    AtoiItoa(k);
  }

  /** `s:e` with both ends printed parses to exactly what validation of
      {s, e} yields: the range itself when well-formed, otherwise the
      start-after-end or zero-mismatch error. */
  lemma {:induction false} ParseBothEnds(a: int, b: int)
    requires MinInt <= a <= MaxInt && MinInt <= b <= MaxInt
    ensures ParseFieldRange(Itoa(a) + ":" + Itoa(b)) == Validate(FieldRange(a, b))
  {
    var s := Itoa(a) + ":" + Itoa(b);
    ColonAfterItoa(a, Itoa(b));
    ItoaChars(a);
    assert s[..|Itoa(a)|] == Itoa(a);
    assert s[|Itoa(a)| + 1..] == Itoa(b);
    AtoiItoa(a);
    AtoiItoa(b);
  }

  /** Formatting then parsing returns every well-formed range unchanged,
      so together with the ensures of ParseFieldRange the accepted ranges
      are exactly the well-formed ones. */
  lemma {:induction false} FormatRoundTrip(r: FieldRange)
    requires WellFormed(r) && InIntRange(r)
    ensures ParseFieldRange(Format(r)) == Ok(r)
  {
    ParseBothEnds(r.start, r.end);
  }

  /** The open-ended forms: ":" is the zero range, ":e" starts at 1 and
      "s:" ends at the last token (-1). */
  lemma {:induction false} ParseOpenEnds(k: int)
    requires MinInt <= k <= MaxInt
    ensures ParseFieldRange(":") == Ok(FieldRange(0, 0))
    ensures ParseFieldRange(":" + Itoa(k)) == Validate(FieldRange(1, k))
    ensures ParseFieldRange(Itoa(k) + ":") == Validate(FieldRange(k, -1))
  {
    assert OccursAt(":", ":", 0);
    ParseOpenStart(k);
    ParseOpenEnd(k);
  }

  lemma {:induction false} ParseOpenStart(k: int)
    requires MinInt <= k <= MaxInt
    ensures ParseFieldRange(":" + Itoa(k)) == Validate(FieldRange(1, k))
  {
    var t := ":" + Itoa(k);
    assert OccursAt(t, ":", 0);
    assert t[..0] == "" && t[1..] == Itoa(k);
    ItoaChars(k);
    AtoiItoa(k);
  }

  lemma {:induction false} ParseOpenEnd(k: int)
    requires MinInt <= k <= MaxInt
    ensures ParseFieldRange(Itoa(k) + ":") == Validate(FieldRange(k, -1))
  {
    ItoaChars(k);
    AtoiItoa(k);
    ColonAfterItoa(k, "");
    var u := Itoa(k) + ":";
    assert u == Itoa(k) + ":" + "";
    assert u[..|Itoa(k)|] == Itoa(k) && u[|Itoa(k)| + 1..] == "";
  }

  // ---------------------------------------------------------------- selection

  /** FieldRange.Select: the zero range yields the untokenized string; any
      other range yields the contiguous block of tokens from its resolved
      start to its resolved end, cut at the last token, and nothing when
      the resolved start lies outside 1..n. Never an error. */
  function RangeSelect(r: FieldRange, fields: seq<string>, zero: string): (fs: seq<string>)
    ensures IsZero(r) ==> fs == [zero]
    ensures !IsZero(r) ==>
      var a := Resolve(r, |fields|);
      fs == if 1 <= a.start <= |fields| then fields[a.start - 1..Min(a.end, |fields|)] else []
    ensures !IsZero(r) ==> |fs| <= |fields|
  {
    if r.start == 0 && r.end == 0 then [zero]
    else
      var a := Resolve(r, |fields|);
      if !IsValid(a) then []
      else
        var start, end, n := a.start - 1, a.end, |fields|;
        if start > n then []
        else fields[start..if end > n then n else end]
  }

  function Min(a: int, b: int): int
  {
    if a < b then a else b
  }

  /** Index i (1 <= i <= n) selects the i-th token alone; an index past the
      last token selects nothing. */
  lemma {:induction false} SelectIndex(i: int, fields: seq<string>, zero: string)
    requires i >= 1
    ensures i <= |fields| ==> RangeSelect(FieldRange(i, i), fields, zero) == [fields[i - 1]]
    ensures i > |fields| ==> RangeSelect(FieldRange(i, i), fields, zero) == []
  {
  }

  /** Index -k (1 <= k <= n) selects the k-th token from the end; one
      reaching before the first token selects nothing. */
  lemma {:induction false} SelectRelativeIndex(k: int, fields: seq<string>, zero: string)
    requires k >= 1
    ensures k <= |fields| ==> RangeSelect(FieldRange(-k, -k), fields, zero) == [fields[|fields| - k]]
    ensures k > |fields| ==> RangeSelect(FieldRange(-k, -k), fields, zero) == []
  {
  }
}
