/** Filters: the three ways a selector picks tokens (a single range, a group
    of ranges, a regular expression), with the group parser (fex.go, Group,
    ParseGroup, RegexpFilter). */
module Filters {
  import opened Results
  import opened Text
  import opened Ranges

  /** The regular-expression engine the tool links against (Go's RE2), as
      two functions the model does not look inside: `compileError(p)` is
      the engine's message when `p` does not compile, and `matches(p, t)`
      says whether compiled pattern `p` matches somewhere in `t`. */
  datatype RegexEngine = RegexEngine(compileError: string -> Option<string>, matches: (string, string) -> bool)

  /** A compiled filter. A compiled regular expression is identified by its
      pattern text, which the engine compiles deterministically. */
  datatype Filter =
    | Range(range: FieldRange)
    | Group(ranges: seq<FieldRange>)
    | Regex(pattern: string)

  /** NewRegexpFilter: compile a pattern, reporting the engine's error. */
  function NewRegexpFilter(eng: RegexEngine, pattern: string): (r: Result<Filter>)
    ensures r.Ok? <==> eng.compileError(pattern).None?
    ensures r.Ok? ==> r.value == Regex(pattern)
    ensures r.Err? ==> r.error == RegexError(eng.compileError(pattern).value)
  {
    match eng.compileError(pattern)
    case Some(msg) => Err(RegexError(msg))
    case None => Ok(Regex(pattern))
  }

  // ---------------------------------------------------------------- ParseGroup

  /** The position of the first failed parse, or the number of members
      when they all parsed. */
  function FirstFailure(rs: seq<Result<FieldRange>>): (k: nat)
    ensures k <= |rs|
    ensures forall j :: 0 <= j < k ==> rs[j].Ok?
    ensures k < |rs| ==> rs[k].Err?
    decreases |rs|
  {
    if |rs| == 0 || rs[0].Err? then 0 else 1 + FirstFailure(rs[1..])
  }

  /** Gathering the parse results of the members of a group: one range per
      member, in order, or the error of the first member that failed,
      wrapped in "cannot parse" with that member's text. */
  function Collect(specs: seq<string>, rs: seq<Result<FieldRange>>): (r: Result<seq<FieldRange>>)
    requires |specs| == |rs|
    ensures r.Ok? <==> FirstFailure(rs) == |rs|
    ensures r.Ok? ==> |r.value| == |rs|
    ensures r.Ok? ==> forall k :: 0 <= k < |rs| ==> rs[k] == Ok(r.value[k])
    ensures r.Err? ==>
      var k := FirstFailure(rs);
      k < |rs| && r.error == CannotParse(specs[k], rs[k].error)
    decreases |rs|
  {
    if |rs| == 0 then Ok([])
    else
      match rs[0]
      case Err(e) => Err(CannotParse(specs[0], e))
      case Ok(fr) =>
        match Collect(specs[1..], rs[1..])
        case Err(e) => Err(e)
        case Ok(rest) => Ok([fr] + rest)
  }

  /** Each member parsed on its own. */
  function ParseEach(specs: seq<string>): (rs: seq<Result<FieldRange>>)
    ensures |rs| == |specs|
  {
    seq(|specs|, k requires 0 <= k < |specs| => ParseFieldRange(specs[k]))
  }

  /** What ParseGroup computes: the comma-separated members of `s`, parsed. */
  function GroupOf(s: string): (r: Result<seq<FieldRange>>)
    ensures r.Ok? ==> |r.value| == |Split(s, ",")|
    ensures r.Ok? ==> forall k :: 0 <= k < |r.value| ==> ParseFieldRange(Split(s, ",")[k]) == Ok(r.value[k])
    ensures r.Err? ==> r.error.CannotParse?
  {
    var specs := Split(s, ",");
    Collect(specs, ParseEach(specs))
  }

  /** ParseGroup: split at commas and fill the group member by member. */
  method ParseGroup(s: string) returns (r: Result<seq<FieldRange>>)
    ensures r == GroupOf(s)
  {
    var specs := Split(s, ",");
    ghost var rs := ParseEach(specs);
    var g := new FieldRange[|specs|];
    for i := 0 to |specs|
      invariant forall k :: 0 <= k < i ==> rs[k] == Ok(g[k])
    {
      var fr := ParseFieldRange(specs[i]);
      assert fr == rs[i];
      if fr.Err? {
        FailureAt(specs, rs, i);
        return Err(CannotParse(specs[i], fr.error));
      }
      g[i] := fr.value;
    }
    r := Ok(g[..]);
    AllParsed(specs, rs, g[..]);
  }

  lemma {:induction false} FailureAt(specs: seq<string>, rs: seq<Result<FieldRange>>, i: nat)
    requires |specs| == |rs|
    requires i < |rs| && rs[i].Err?
    requires forall k :: 0 <= k < i ==> rs[k].Ok?
    ensures Collect(specs, rs) == Err(CannotParse(specs[i], rs[i].error))
  {
    var k := FirstFailure(rs);
    assert k == i;
  }

  lemma {:induction false} AllParsed(specs: seq<string>, rs: seq<Result<FieldRange>>, g: seq<FieldRange>)
    requires |specs| == |rs| == |g|
    requires forall k :: 0 <= k < |rs| ==> rs[k] == Ok(g[k])
    ensures Collect(specs, rs) == Ok(g)
  {
    var k := FirstFailure(rs);
    assert k == |rs|;
    var r := Collect(specs, rs);
    assert forall j :: 0 <= j < |g| ==> r.value[j] == g[j];
    assert r.value == g;
  }

  /** Every range of a successfully parsed group is well-formed. */
  lemma {:induction false} GroupWellFormed(s: string)
    requires GroupOf(s).Ok?
    ensures forall r :: r in GroupOf(s).value ==> WellFormed(r)
  {
    var specs := Split(s, ",");
    var rs := ParseEach(specs);
    var g := GroupOf(s).value;
    forall r | r in g ensures WellFormed(r) {
      var k :| 0 <= k < |g| && g[k] == r;
      assert rs[k] == Ok(g[k]);
      assert ParseFieldRange(specs[k]) == Ok(r);
    }
  }

  /** An empty group body has one empty member, which does not parse. */
  lemma {:induction false} EmptyGroupFails()
    ensures GroupOf("") == Err(CannotParse("", SyntaxError("")))
  {
    assert IndexOf("", ",") == -1;
    assert Split("", ",") == [""];
    assert IndexOf("", ":") == -1;
    assert ParseEach([""]) == [ParseFieldRange("")];
  }

  // ---------------------------------------------------------------- Group.Select

  /** Concatenation of a sequence of sequences, first to last. */
  function Flatten<T>(xss: seq<seq<T>>): seq<T>
    decreases |xss|
  {
    if |xss| == 0 then [] else xss[0] + Flatten(xss[1..])
  }

  lemma {:induction false} FlattenSnoc<T>(xss: seq<seq<T>>, x: seq<T>)
    ensures Flatten(xss + [x]) == Flatten(xss) + x
    decreases |xss|
  {
    if |xss| == 0 {
      assert xss + [x] == [x];
    } else {
      assert (xss + [x])[0] == xss[0];
      assert (xss + [x])[1..] == xss[1..] + [x];
      FlattenSnoc(xss[1..], x);
    }
  }

  /** What Group.Select computes, accumulated member by member. */
  function GroupSelected(g: seq<FieldRange>, fields: seq<string>, zero: string): (r: seq<string>)
    ensures forall x :: x in r ==> x in fields || x == zero
    decreases |g|
  {
    if |g| == 0 then []
    else GroupSelected(g[..|g| - 1], fields, zero) + RangeSelect(g[|g| - 1], fields, zero)
  }

  /** The selections of the members, one per member, in group order. */
  function MemberSelections(g: seq<FieldRange>, fields: seq<string>, zero: string): (r: seq<seq<string>>)
    ensures |r| == |g|
    ensures forall k :: 0 <= k < |g| ==> r[k] == RangeSelect(g[k], fields, zero)
    decreases |g|
  {
    if |g| == 0 then []
    else MemberSelections(g[..|g| - 1], fields, zero) + [RangeSelect(g[|g| - 1], fields, zero)]
  }

  /** A group yields its members' selections concatenated in group order. */
  lemma {:induction false} GroupSelectedIsFlatten(g: seq<FieldRange>, fields: seq<string>, zero: string)
    ensures GroupSelected(g, fields, zero) == Flatten(MemberSelections(g, fields, zero))
    decreases |g|
  {
    if |g| > 0 {
      var init := g[..|g| - 1];
      GroupSelectedIsFlatten(init, fields, zero);
      FlattenSnoc(MemberSelections(init, fields, zero), RangeSelect(g[|g| - 1], fields, zero));
    }
  }

  /** Selecting with two groups in turn is selecting with their concatenation. */
  lemma {:induction false} GroupSelectedAppend(g1: seq<FieldRange>, g2: seq<FieldRange>, fields: seq<string>, zero: string)
    ensures GroupSelected(g1 + g2, fields, zero) == GroupSelected(g1, fields, zero) + GroupSelected(g2, fields, zero)
    decreases |g2|
  {
    if |g2| == 0 {
      assert g1 + g2 == g1;
    } else {
      var init := g2[..|g2| - 1];
      InitOfAppend(g1, g2);
      GroupSelectedAppend(g1, init, fields, zero);
      var a, b, c := GroupSelected(g1, fields, zero), GroupSelected(init, fields, zero), RangeSelect(g2[|g2| - 1], fields, zero);
      assert a + b + c == a + (b + c);
    }
  }

  lemma {:induction false} InitOfAppend<T>(xs: seq<T>, ys: seq<T>)
    requires |ys| > 0
    ensures (xs + ys)[..|xs + ys| - 1] == xs + ys[..|ys| - 1]
    ensures (xs + ys)[|xs + ys| - 1] == ys[|ys| - 1]
  { }

  /** Group.Select: append each member's selection to the result. */
  method GroupSelect(g: seq<FieldRange>, fields: seq<string>, zero: string) returns (fs: seq<string>)
    ensures fs == GroupSelected(g, fields, zero)
  {
    fs := [];
    for i := 0 to |g|
      invariant fs == GroupSelected(g[..i], fields, zero)
    {
      var selected := RangeSelect(g[i], fields, zero);
      assert g[..i + 1][..i] == g[..i];
      fs := fs + selected;
    }
    assert g[..|g|] == g;
  }

  // ---------------------------------------------------------------- RegexpFilter.Select

  /** What RegexpFilter.Select computes: the matching fields, accumulated in order. */
  function RegexSelected(eng: RegexEngine, pattern: string, fields: seq<string>): (r: seq<string>)
    ensures |r| <= |fields|
    ensures forall x :: x in r ==> x in fields && eng.matches(pattern, x)
    decreases |fields|
  {
    if |fields| == 0 then []
    else
      var init := RegexSelected(eng, pattern, fields[..|fields| - 1]);
      if eng.matches(pattern, fields[|fields| - 1]) then init + [fields[|fields| - 1]] else init
  }

  /** `xs` can be obtained from `ys` by deleting elements. */
  ghost predicate IsSubsequence<T>(xs: seq<T>, ys: seq<T>)
    decreases |ys|
  {
    |xs| == 0 ||
    (|ys| > 0 &&
      ((xs[|xs| - 1] == ys[|ys| - 1] && IsSubsequence(xs[..|xs| - 1], ys[..|ys| - 1]))
       || IsSubsequence(xs, ys[..|ys| - 1])))
  }

  /** The regex filter keeps exactly the matching fields, in their original
      order: an order-preserving subsequence that holds every matching
      field as many times as the input does, and no other field. */
  lemma {:induction false} RegexSelectedSpec(eng: RegexEngine, pattern: string, fields: seq<string>)
    ensures IsSubsequence(RegexSelected(eng, pattern, fields), fields)
    ensures forall x :: multiset(RegexSelected(eng, pattern, fields))[x] == if eng.matches(pattern, x) then multiset(fields)[x] else 0
    ensures forall x :: x in RegexSelected(eng, pattern, fields) <==> x in fields && eng.matches(pattern, x)
  {
    RegexSelectedOrder(eng, pattern, fields);
    RegexSelectedCounts(eng, pattern, fields);
  }

  lemma {:induction false} RegexSelectedOrder(eng: RegexEngine, pattern: string, fields: seq<string>)
    ensures IsSubsequence(RegexSelected(eng, pattern, fields), fields)
    decreases |fields|
  {
    if |fields| > 0 {
      var init := fields[..|fields| - 1];
      RegexSelectedOrder(eng, pattern, init);
      var r := RegexSelected(eng, pattern, fields);
      var ri := RegexSelected(eng, pattern, init);
      if eng.matches(pattern, fields[|fields| - 1]) {
        assert r == ri + [fields[|fields| - 1]];
        assert r[..|r| - 1] == ri;
      } else {
        assert r == ri;
      }
    }
  }

  lemma {:induction false} RegexSelectedCounts(eng: RegexEngine, pattern: string, fields: seq<string>)
    ensures forall x :: multiset(RegexSelected(eng, pattern, fields))[x] == if eng.matches(pattern, x) then multiset(fields)[x] else 0
    decreases |fields|
  {
    if |fields| > 0 {
      var init := fields[..|fields| - 1];
      var last := fields[|fields| - 1];
      RegexSelectedCounts(eng, pattern, init);
      var r := RegexSelected(eng, pattern, fields);
      var ri := RegexSelected(eng, pattern, init);
      assert fields == init + [last];
      assert multiset(fields) == multiset(init) + multiset{last};
      if eng.matches(pattern, last) {
        assert r == ri + [last];
        assert multiset(r) == multiset(ri) + multiset{last};
      } else {
        assert r == ri;
      }
    }
  }

  /** RegexpFilter.Select: append each matching field to the result. */
  method RegexSelect(eng: RegexEngine, pattern: string, fields: seq<string>) returns (fs: seq<string>)
    ensures fs == RegexSelected(eng, pattern, fields)
  {
    fs := [];
    for i := 0 to |fields|
      invariant fs == RegexSelected(eng, pattern, fields[..i])
    {
      assert fields[..i + 1][..i] == fields[..i];
      if eng.matches(pattern, fields[i]) {
        fs := fs + [fields[i]];
      }
    }
    assert fields[..|fields|] == fields;
  }

  // ---------------------------------------------------------------- Filter.Select

  /** Filter.Select, dispatched on the kind of filter. */
  function FilterSelected(eng: RegexEngine, f: Filter, fields: seq<string>, zero: string): seq<string>
  {
    match f
    case Range(r) => RangeSelect(r, fields, zero)
    case Group(g) => GroupSelected(g, fields, zero)
    case Regex(p) => RegexSelected(eng, p, fields)
  }

  method FilterSelect(eng: RegexEngine, f: Filter, fields: seq<string>, zero: string) returns (fs: seq<string>)
    ensures fs == FilterSelected(eng, f, fields, zero)
  {
    match f
    case Range(r) => fs := RangeSelect(r, fields, zero);
    case Group(g) => fs := GroupSelect(g, fields, zero);
    case Regex(p) => fs := RegexSelect(eng, p, fields);
  }
}
