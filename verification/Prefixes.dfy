/**
 Path prefixes: routing_rule.go prints a test of the text, Kubernetes documents a match by path elements, where
 a trailing slash does not count.
 */
module Prefixes {
  import opened Strings

  /** A prefix without one trailing slash. */
  function Bare(x: string): string {
    if x != "" && x[|x| - 1] == '/' then x[..|x| - 1] else x
  }

  /** The path is the prefix, or goes on with a further element. */
  predicate ByElements(x: string, path: string) {
    path == Bare(x) || StartsWith(path, Bare(x) + "/")
  }

  /** The path goes on within the last element of the prefix. */
  predicate GoesOnWithin(x: string, path: string) {
    StartsWith(path, x) && |path| > |x| && path[|x|] != '/'
  }

  lemma StartsWithMore(y: string, path: string)
    ensures StartsWith(path, y + "/") <==> StartsWith(path, y) && |path| > |y| && path[|y|] == '/'
  {
    if StartsWith(path, y) && |path| > |y| && path[|y|] == '/' {
      assert path[..|y| + 1] == path[..|y|] + [path[|y|]];
    }
    if StartsWith(path, y + "/") {
      assert path[..|y|] == (y + "/")[..|y|] && path[|y|] == (y + "/")[|y|];
    }
  }

  /** The two tests agree on a path unless it goes on within the last element, or lacks the trailing slash of the prefix. */
  lemma AgreeOn(x: string, path: string)
    requires StartsWith(x, "/") && StartsWith(path, "/")
    ensures (StartsWith(path, x) <==> ByElements(x, path))
            <==> if Bare(x) == x then !GoesOnWithin(x, path) else path != Bare(x)
  {
    var y := Bare(x);
    StartsWithMore(y, path);
    if y == x {
      if StartsWith(path, x) && |path| == |x| { assert path[..|x|] == path; }
    } else {
      assert x == y + "/";
    }
  }

  /** Only for the prefix `/` do the two tests agree on every path. */
  lemma AgreeEverywhere(x: string)
    requires StartsWith(x, "/")
    ensures (forall path | StartsWith(path, "/") :: StartsWith(path, x) <==> ByElements(x, path)) <==> x == "/"
  {
    if x == "/" {
      forall path | StartsWith(path, "/") ensures StartsWith(path, x) <==> ByElements(x, path) {
        AgreeOn(x, path);
      }
    } else {
      var path := if Bare(x) == x then x + "a" else Bare(x);
      assert path[..1] == x[..1];
      if Bare(x) == x { assert (x + "a")[..|x|] == x; }
      AgreeOn(x, path);
    }
  }

  /** The text test takes `/foobar` for a path below `/foo`. */
  lemma FoobarBelowFoo()
    ensures StartsWith("/foobar", "/foo") && !ByElements("/foo", "/foobar")
  {
    assert "/foobar"[..4] == "/foo";
    assert GoesOnWithin("/foo", "/foobar");
    AgreeOn("/foo", "/foobar");
  }
}
