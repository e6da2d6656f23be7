/** Sets of strings and their ordered listing, as in the `sets` package the controller uses. */
module SortedSets {

  /** Go compares strings byte by byte. */
  predicate Less(a: string, b: string) {
    if b == "" then false
    else if a == "" then true
    else a[0] < b[0] || (a[0] == b[0] && Less(a[1..], b[1..]))
  }

  lemma {:induction false} LessTotal(a: string, b: string)
    ensures Less(a, b) || Less(b, a) || a == b
    ensures !(Less(a, b) && Less(b, a))
    decreases |a|
  {
    if a != "" && b != "" {
      LessTotal(a[1..], b[1..]);
      assert a == [a[0]] + a[1..] && b == [b[0]] + b[1..];
    }
  }

  lemma {:induction false} LessTransitive(a: string, b: string, c: string)
    requires Less(a, b) && Less(b, c)
    ensures Less(a, c)
    decreases |a|
  {
    if a != "" && a[0] == b[0] == c[0] { LessTransitive(a[1..], b[1..], c[1..]); }
  }

  predicate IsLeast(s: set<string>, least: string) {
    least in s && forall x <- s :: x == least || Less(least, x)
  }

  lemma {:induction false} HasLeast(s: set<string>) returns (least: string)
    requires s != {}
    ensures IsLeast(s, least)
    decreases |s|
  {
    least :| least in s;
    if s != {least} {
      var other := HasLeast(s - {least});
      LessTotal(least, other);
      if Less(other, least) {
        least := other;
      } else {
        forall x | x in s && x != least ensures Less(least, x) {
          if x != other { LessTransitive(least, other, x); }
        }
      }
    }
  }

  lemma LeastIsUnique(s: set<string>)
    ensures forall a, b | IsLeast(s, a) && IsLeast(s, b) :: a == b
  {
    forall a, b | IsLeast(s, a) && IsLeast(s, b) ensures a == b { LessTotal(a, b); }
  }

  /** No finite set holds all strings. */
  lemma {:induction false} Outside(s: set<string>) returns (x: string)
    ensures forall y <- s :: |y| < |x|
    decreases |s|
  {
    if s == {} {
      x := "x";
    } else {
      var y :| y in s;
      x := Outside(s - {y});
      if |x| <= |y| { x := y + "x"; }
    }
  }

  function Least(s: set<string>): (least: string)
    requires s != {}
    ensures IsLeast(s, least)
  {
    assert exists x :: IsLeast(s, x) by { var x := HasLeast(s); }
    LeastIsUnique(s);
    var x :| x in s && IsLeast(s, x);
    x
  }

  /** `sets.String.List()`: the members in ascending order. */
  function Ascending(s: set<string>): seq<string>
    decreases |s|
  {
    if s == {} then [] else [Least(s)] + Ascending(s - {Least(s)})
  }

  lemma {:induction false} AscendingMembers(s: set<string>)
    ensures forall x :: x in Ascending(s) <==> x in s
    ensures |Ascending(s)| == |s|
    decreases |s|
  {
    if s != {} { AscendingMembers(s - {Least(s)}); }
  }

  /** Two strings are in order at the first place where they differ, or if one continues the other. */
  lemma {:induction false} LessMeans(a: string, b: string)
    ensures Less(a, b) <==>
      exists n :: 0 <= n <= |a| && n < |b| && a[..n] == b[..n] && (n == |a| || a[n] < b[n])
  {
    if b != "" {
      if a == "" || a[0] < b[0] {
        assert a[..0] == b[..0];
      } else if a[0] == b[0] {
        LessMeans(a[1..], b[1..]);
        if Less(a[1..], b[1..]) {
          var m :| 0 <= m <= |a[1..]| && m < |b[1..]| && a[1..][..m] == b[1..][..m] && (m == |a[1..]| || a[1..][m] < b[1..][m]);
          assert a[..m + 1] == [a[0]] + a[1..][..m] && b[..m + 1] == [b[0]] + b[1..][..m];
          assert m + 1 == |a| || a[m + 1] < b[m + 1];
        }
        if n :| 0 <= n <= |a| && n < |b| && a[..n] == b[..n] && (n == |a| || a[n] < b[n]) {
          assert n > 0;
          assert a[1..][..n - 1] == a[..n][1..] == b[..n][1..] == b[1..][..n - 1];
          assert n - 1 == |a[1..]| || a[1..][n - 1] < b[1..][n - 1];
        }
      } else {
        forall n | 0 < n <= |a| && n < |b| ensures a[..n] != b[..n] { HeadsDiffer(a, b, n); }
      }
    }
  }

  lemma HeadsDiffer(a: string, b: string, n: nat)
    requires 0 < n <= |a| && n < |b| && a[0] != b[0]
    ensures a[..n] != b[..n]
  {
    assert a[..n][0] == a[0] && b[..n][0] == b[0];
  }

  lemma {:induction false} AscendingInOrder(s: set<string>, i: nat, j: nat)
    requires i < j < |Ascending(s)|
    ensures Less(Ascending(s)[i], Ascending(s)[j])
    decreases |s|
  {
    var least, rest := Least(s), s - {Least(s)};
    AscendingMembers(rest);
    if i == 0 {
      assert Ascending(s)[j] == Ascending(rest)[j - 1] && Ascending(s)[j] in Ascending(rest);
    } else {
      AscendingInOrder(rest, i - 1, j - 1);
    }
  }
}
