/** Star patterns, and what the path patterns of an Ingress compile to. */
module Globs {
  import opened Wrappers
  import opened Strings
  import opened Conditions

  /** The reference meaning of a pattern: a star stands for any text, also none. */
  ghost predicate Glob(pattern: string, s: string) {
    if pattern == "" then s == ""
    else if pattern[0] == '*' then exists k | 0 <= k <= |s| :: Glob(pattern[1..], s[k..])
    else s != "" && s[0] == pattern[0] && Glob(pattern[1..], s[1..])
  }

  predicate StarFree(s: string) {
    '*' !in s
  }

  lemma {:induction false} GlobLiteral(x: string, pattern: string, s: string)
    requires StarFree(x)
    ensures Glob(x + pattern, s) <==> StartsWith(s, x) && Glob(pattern, s[|x|..])
  {
    if x == "" {
      assert x + pattern == pattern && s[0..] == s;
    } else {
      assert (x + pattern)[1..] == x[1..] + pattern;
      if s != "" {
        GlobLiteral(x[1..], pattern, s[1..]);
        if s[0] == x[0] {
          if StartsWith(s[1..], x[1..]) {
            assert s[..|x|] == [s[0]] + s[1..][..|x| - 1] == x;
            assert s[1..][|x| - 1..] == s[|x|..];
          }
          if StartsWith(s, x) {
            assert s[1..][..|x| - 1] == s[..|x|][1..] == x[1..];
            assert s[1..][|x| - 1..] == s[|x|..];
          }
        }
      }
    }
  }

  lemma GlobPlain(x: string, s: string)
    requires StarFree(x)
    ensures Glob(x, s) <==> s == x
  {
    assert x + "" == x;
    GlobLiteral(x, "", s);
    if StartsWith(s, x) && s[|x|..] == "" { assert s == s[..|x|] + s[|x|..]; }
  }

  lemma GlobStarThen(x: string, s: string)
    requires StarFree(x)
    ensures Glob("*" + x, s) <==> EndsWith(s, x)
  {
    assert ("*" + x)[1..] == x;
    if EndsWith(s, x) { GlobPlain(x, s[|s| - |x|..]); }
    if k :| 0 <= k <= |s| && Glob(("*" + x)[1..], s[k..]) {
      GlobPlain(x, s[k..]);
      assert |s| - |x| == k;
    }
  }

  lemma GlobStar(s: string)
    ensures Glob("*", s)
  {
    assert "*"[1..] == "" && s[|s|..] == "";
    assert Glob("*"[1..], s[|s|..]);
  }

  /** A trailing star is a prefix test. */
  lemma GlobThenStar(x: string, s: string)
    requires StarFree(x)
    ensures Glob(x + "*", s) <==> StartsWith(s, x)
  {
    GlobLiteral(x, "*", s);
    if StartsWith(s, x) { GlobStar(s[|x|..]); }
  }

  lemma EndsWithTail(s: string, n: nat, b: string)
    requires n <= |s|
    ensures EndsWith(s[n..], b) <==> EndsWith(s, b) && n + |b| <= |s|
  {
    if n + |b| <= |s| { assert s[n..][|s[n..]| - |b|..] == s[|s| - |b|..]; }
  }

  /** A star in the middle is a prefix and a suffix test that do not overlap. */
  lemma GlobMiddle(a: string, b: string, s: string)
    requires StarFree(a) && StarFree(b)
    ensures Glob(a + ("*" + b), s) <==> StartsWith(s, a) && EndsWith(s, b) && |a| + |b| <= |s|
  {
    GlobLiteral(a, "*" + b, s);
    if StartsWith(s, a) {
      GlobStarThen(b, s[|a|..]);
      EndsWithTail(s, |a|, b);
    }
  }

  /** Stars on both sides are a containment test. */
  lemma GlobBoth(x: string, s: string)
    requires StarFree(x)
    ensures Glob("*" + (x + "*"), s) <==> Contains(s, x)
  {
    assert ("*" + (x + "*"))[1..] == x + "*";
    forall k | 0 <= k <= |s| ensures Glob(x + "*", s[k..]) <==> StartsWith(s[k..], x) {
      GlobThenStar(x, s[k..]);
    }
  }

  // ---------------------------------------------------------------------------------------------
  // The layouts of the regular expressions

  /** The stars at the front of `s`. */
  function LeadingStars(s: string): (n: nat)
    ensures n <= |s| && (forall i | 0 <= i < n :: s[i] == '*') && (n < |s| ==> s[n] != '*')
  {
    if s != "" && s[0] == '*' then 1 + LeadingStars(s[1..]) else 0
  }

  function StarCount(s: string): nat {
    if s == "" then 0 else (if s[0] == '*' then 1 else 0) + StarCount(s[1..])
  }

  /** The first star-free stretch of `s`. */
  function Stretch(s: string): (n: nat)
    ensures n <= |s| && StarFree(s[..n]) && (n < |s| ==> s[n] == '*')
  {
    if s == "" || s[0] == '*' then 0
    else
      var rest := Stretch(s[1..]);
      assert s[..1 + rest] == [s[0]] + s[1..][..rest];
      1 + rest
  }

  /** `^[^*]+\*[^*]+$` */
  predicate IsMiddle(s: string) {
    var n := Stretch(s);
    0 < n && n + 1 < |s| && StarFree(s[n + 1..])
  }

  /** `^\*[^*]+$` */
  predicate IsSuffix(s: string) {
    |s| > 1 && s[0] == '*' && StarFree(s[1..])
  }

  /** `^[^*]+\*$` */
  predicate IsPrefix(s: string) {
    |s| > 1 && s[|s| - 1] == '*' && StarFree(s[..|s| - 1])
  }

  /** `^\*+[^*]+\*+$`: the body of the pattern between its stars. */
  predicate IsBoth(s: string) {
    var m := LeadingStars(s);
    var n := Stretch(s[m..]);
    0 < m && 0 < n && m + n < |s| && LeadingStars(s[m + n..]) == |s| - m - n
  }

  /** What a path pattern asks of the path. */
  datatype Layout =
    | Whole(x: string)              // no star
    | Middle(a: string, b: string)  // a*b
    | Suffix(x: string)             // *x
    | Prefix(x: string)             // x*
    | Both(x: string)               // *x*

  /** The layout of a path, or None if the path is refused. */
  function Classify(path: string): Option<Layout> {
    if StarFree(path) then Some(Whole(path))
    else if IsMiddle(path) then Some(Middle(path[..Stretch(path)], path[Stretch(path) + 1..]))
    else if IsSuffix(path) then Some(Suffix(path[1..]))
    else if IsPrefix(path) then Some(Prefix(path[..|path| - 1]))
    else if IsBoth(path) then Some(Both(path[1..|path| - 1]))
    else None
  }

  /** The condition printed for a layout. */
  function CondOf(layout: Layout): Cond {
    match layout
    case Whole(x) => All(Last(PathIs(Eq, x)))
    case Middle(a, b) => All(More(PathIs(Sw, a), true, Last(PathIs(Ew, b))))
    case Suffix(x) => All(Last(PathIs(Ew, x)))
    case Prefix(x) => All(Last(PathIs(Sw, x)))
    case Both(x) => All(Last(PathIs(Cw, x)))
  }

  /** What a layout asks of a path. */
  ghost predicate Asks(layout: Layout, path: string) {
    match layout
    case Whole(x) => path == x
    case Middle(a, b) => StartsWith(path, a) && EndsWith(path, b)
    case Suffix(x) => EndsWith(path, x)
    case Prefix(x) => StartsWith(path, x)
    case Both(x) => Contains(path, x)
  }

  lemma EvalOne(c: Cond, req: Request)
    ensures Eval(All(Last(c)), req) <==> Eval(c, req)
  {
    assert EvalAll(Last(c), req) <==> Eval(c, req);
  }

  lemma EvalTwo(c: Cond, blank: bool, d: Cond, req: Request)
    ensures Eval(All(More(c, blank, Last(d))), req) <==> Eval(c, req) && Eval(d, req)
  {
    assert EvalAll(More(c, blank, Last(d)), req) <==> Eval(c, req) && EvalAll(Last(d), req);
    assert EvalAll(Last(d), req) <==> Eval(d, req);
  }

  /** The condition of a layout evaluates to what the layout asks. */
  lemma CondMeans(layout: Layout, req: Request)
    ensures Eval(CondOf(layout), req) <==> Asks(layout, req.path)
  {
    match layout
    case Whole(x) => EvalOne(PathIs(Eq, x), req);
    case Middle(a, b) => EvalTwo(PathIs(Sw, a), true, PathIs(Ew, b), req);
    case Suffix(x) => EvalOne(PathIs(Ew, x), req);
    case Prefix(x) => EvalOne(PathIs(Sw, x), req);
    case Both(x) => EvalOne(PathIs(Cw, x), req);
  }

  lemma {:induction false} StretchOf(a: string, b: string)
    requires StarFree(a)
    ensures Stretch(a + ("*" + b)) == |a|
  {
    var s := a + ("*" + b);
    if a == "" {
      assert s[0] == '*';
    } else {
      StretchOf(a[1..], b);
      assert s[1..] == a[1..] + ("*" + b) && s[0] == a[0];
    }
  }

  /** `a*b` equals the pattern except on paths so short that prefix and suffix overlap; there it accepts too much. */
  lemma CompileMiddle(a: string, b: string, path: string)
    requires StarFree(a) && StarFree(b) && a != "" && b != ""
    ensures Classify(a + ("*" + b)) == Some(Middle(a, b))
    ensures Glob(a + ("*" + b), path) <==> Asks(Middle(a, b), path) && |a| + |b| <= |path|
  {
    MiddleShape(a, b, a + ("*" + b));
    GlobMiddle(a, b, path);
  }

  /** An overlapping path: `ab*ba` accepts `aba`, which the pattern does not match. */
  lemma MiddleOverlaps()
    ensures Asks(Middle("ab", "ba"), "aba") && !Glob("ab" + ("*" + "ba"), "aba")
  {
    CompileMiddle("ab", "ba", "aba");
    assert "aba"[..2] == "ab" && "aba"[1..] == "ba";
  }

  lemma MiddleShape(a: string, b: string, s: string)
    requires StarFree(a) && StarFree(b) && a != "" && b != "" && s == a + ("*" + b)
    ensures Classify(s) == Some(Middle(a, b))
  {
    StretchOf(a, b);
    assert s[|a|] == '*' && s[|a|] in s;
    assert s[..|a|] == a && s[|a| + 1..] == b;
  }

  lemma CompileSuffix(x: string, path: string)
    requires StarFree(x) && x != ""
    ensures Classify("*" + x) == Some(Suffix(x))
    ensures Glob("*" + x, path) <==> Asks(Suffix(x), path)
  {
    var s := "*" + x;
    assert s[0] == '*' && s[1..] == x;
    GlobStarThen(x, path);
  }

  lemma CompilePrefix(x: string, path: string)
    requires StarFree(x) && x != ""
    ensures Classify(x + "*") == Some(Prefix(x))
    ensures Glob(x + "*", path) <==> Asks(Prefix(x), path)
  {
    var s := x + "*";
    assert s[|x|] == '*' && s[..|x|] == x && s[0] == x[0];
    assert x + ("*" + "") == s;
    StretchOf(x, "");
    GlobThenStar(x, path);
  }

  /** A pattern without stars is compared as it is. */
  lemma CompilePlain(x: string, path: string)
    requires StarFree(x)
    ensures Classify(x) == Some(Whole(x))
    ensures Glob(x, path) <==> Asks(Whole(x), path)
  {
    GlobPlain(x, path);
  }

  function Stars(n: nat): string {
    seq(n, i => '*')
  }

  lemma {:induction false} LeadingOf(n: nat, rest: string)
    requires rest == "" || rest[0] != '*'
    ensures LeadingStars(Stars(n) + rest) == n
  {
    var s := Stars(n) + rest;
    if n > 0 {
      LeadingOf(n - 1, rest);
      assert s[1..] == Stars(n - 1) + rest && s[0] == '*';
    }
  }

  /** A star at both ends rules the other layouts out. */
  lemma OnlyBoth(s: string)
    requires |s| > 2 && s[0] == '*' && s[|s| - 1] == '*'
    ensures Classify(s) == if IsBoth(s) then Some(Both(s[1..|s| - 1])) else None
  {
    assert s[1..][|s| - 2] == '*' && s[..|s| - 1][0] == '*';
    assert Stretch(s) == 0;
  }

  lemma StarsSplit(n: nat)
    requires n > 0
    ensures Stars(n) == "*" + Stars(n - 1) && Stars(n) + "" == Stars(n)
  {
  }

  /** The stretch and the stars behind it. */
  lemma TailShape(x: string, n: nat, tail: string)
    requires 0 < n && StarFree(x) && x != "" && tail == x + Stars(n)
    ensures tail[0] != '*' && Stretch(tail) == |x| && tail[|x|..] == Stars(n) && LeadingStars(tail[|x|..]) == n
  {
    StarsSplit(n);
    StretchOf(x, Stars(n - 1));
    LeadingOf(n, "");
    assert tail[0] == x[0];
  }

  lemma BothShape(m: nat, x: string, n: nat, s: string)
    requires 0 < m && 0 < n && StarFree(x) && x != "" && s == Stars(m) + (x + Stars(n))
    ensures IsBoth(s) && |s| > 2 && s[0] == '*' && s[|s| - 1] == '*'
  {
    var tail := x + Stars(n);
    TailShape(x, n, tail);
    LeadingOf(m, tail);
    assert s[m..] == tail;
    assert s[m + |x|..] == tail[|x|..];
  }

  /** With stars on both sides, one star is taken off each side; further stars stay in the text to be contained. */
  lemma CompileBothText(m: nat, x: string, n: nat)
    requires 0 < m && 0 < n && StarFree(x) && x != ""
    ensures Classify(Stars(m) + (x + Stars(n))) == Some(Both(Stars(m - 1) + (x + Stars(n - 1))))
  {
    var s := Stars(m) + (x + Stars(n));
    BothShape(m, x, n, s);
    OnlyBoth(s);
    assert s[1..|s| - 1] == Stars(m - 1) + (x + Stars(n - 1));
  }

  /** So patterns with stars on both sides are understood exactly if there is one star on each side. */
  lemma CompileBoth(m: nat, x: string, n: nat)
    requires 0 < m && 0 < n && StarFree(x) && x != ""
    ensures var pattern := Stars(m) + (x + Stars(n));
      && Classify(pattern).Some?
      && ((forall path :: Asks(Classify(pattern).value, path) <==> Glob(pattern, path)) <==> m == n == 1)
  {
    CompileBothText(m, x, n);
    var pattern, literal := Stars(m) + (x + Stars(n)), Stars(m - 1) + (x + Stars(n - 1));
    if m == n == 1 {
      assert literal == x && pattern == "*" + (x + "*");
      forall path ensures Asks(Both(x), path) <==> Glob(pattern, path) { GlobBoth(x, path); }
    } else {
      ManyStarsGlob(m, x, n);
      TooLong(x, literal);
      assert !Asks(Both(literal), x) && Glob(pattern, x);
    }
  }

  lemma TooLong(s: string, part: string)
    requires |part| > |s|
    ensures !Contains(s, part)
  {
  }

  lemma {:induction false} StarsMatchNothing(n: nat)
    ensures Glob(Stars(n), "")
  {
    if n > 0 {
      StarsMatchNothing(n - 1);
      assert Stars(n)[1..] == Stars(n - 1) && ""[0..] == "";
      assert Glob(Stars(n)[1..], ""[0..]);
    }
  }

  lemma {:induction false} ManyStarsGlob(m: nat, x: string, n: nat)
    requires StarFree(x)
    ensures Glob(Stars(m) + (x + Stars(n)), x)
  {
    var pattern := Stars(m) + (x + Stars(n));
    if m == 0 {
      assert pattern == x + Stars(n) && x[|x|..] == "";
      StarsMatchNothing(n);
      GlobLiteral(x, Stars(n), x);
    } else {
      ManyStarsGlob(m - 1, x, n);
      assert pattern[1..] == Stars(m - 1) + (x + Stars(n)) && x[0..] == x;
      assert Glob(pattern[1..], x[0..]);
    }
  }

  /** One star, not alone. */
  ghost predicate HasOneStar(path: string, a: string, b: string) {
    StarFree(a) && StarFree(b) && |a| + |b| > 0 && path == a + ("*" + b)
  }

  /** Stars in front and at the end only. */
  ghost predicate HasOuterStars(path: string, m: nat, x: string, n: nat) {
    0 < m && 0 < n && StarFree(x) && x != "" && path == Stars(m) + (x + Stars(n))
  }

  lemma OneStarAccepted(path: string, a: string, b: string)
    requires HasOneStar(path, a, b)
    ensures Classify(path).Some?
  {
    if a == "" {
      assert path == "*" + b;
      CompileSuffix(b, "");
    } else if b == "" {
      assert path == a + "*";
      CompilePrefix(a, "");
    } else {
      CompileMiddle(a, b, "");
    }
  }

  lemma AcceptedHasShape(path: string)
    requires Classify(path).Some? && !StarFree(path)
    ensures (exists a, b :: HasOneStar(path, a, b)) || (exists m: nat, x, n: nat :: HasOuterStars(path, m, x, n))
  {
    if IsMiddle(path) {
      var n := Stretch(path);
      assert path == path[..n] + ("*" + path[n + 1..]);
      assert HasOneStar(path, path[..n], path[n + 1..]);
    } else if IsSuffix(path) {
      assert path == "" + ("*" + path[1..]);
      assert HasOneStar(path, "", path[1..]);
    } else if IsPrefix(path) {
      assert path == path[..|path| - 1] + ("*" + "");
      assert HasOneStar(path, path[..|path| - 1], "");
    } else {
      var m, x, n := BothParts(path);
    }
  }

  lemma BothParts(path: string) returns (m: nat, x: string, n: nat)
    requires IsBoth(path)
    ensures HasOuterStars(path, m, x, n)
  {
    m := LeadingStars(path);
    var tail := path[m..];
    x := tail[..Stretch(tail)];
    n := |path| - m - |x|;
    assert path[m + |x|..] == Stars(n);
    assert tail == x + path[m + |x|..];
    assert path[..m] == Stars(m);
    assert path == path[..m] + tail;
  }

  /** The paths accepted are exactly those with no star, with one star besides other text, and with stars at both ends only. */
  lemma CompileAccepts(path: string)
    ensures Classify(path).Some? <==>
      || StarFree(path)
      || (exists a, b :: HasOneStar(path, a, b))
      || (exists m: nat, x, n: nat :: HasOuterStars(path, m, x, n))
  {
    if Classify(path).Some? && !StarFree(path) { AcceptedHasShape(path); }
    if a, b :| HasOneStar(path, a, b) { OneStarAccepted(path, a, b); }
    if m: nat, x, n: nat :| HasOuterStars(path, m, x, n) { CompileBothText(m, x, n); }
  }
}
