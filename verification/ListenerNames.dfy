/** `getSanitizedName` of load_balancer_util.go: the name under which listeners are matched. */
module ListenerNames {
  import opened Strings
  import opened Names

  /** `strings.EqualFold(s, "HTTP")`. */
  predicate IsHttp(s: string) {
    |s| == 4 && s[0] in "hH" && s[1] in "tT" && s[2] in "tT" && s[3] in "pP"
  }

  /** Letter case aside, that is the word itself. */
  lemma HttpInAnyCase(s: string)
    ensures IsHttp(s) <==> ToLower(s) == "http"
  {
    var low := ToLower(s);
    if low == "http" {
      assert low[0] == 'h' && low[1] == 't' && low[2] == 't' && low[3] == 'p';
      forall i | 0 <= i < 4 ensures low[i] == Lower(s[i]) {}
    }
  }

  /**
   Only the first two hyphen-separated fields count, and a leading HTTP counts as TCP. The source passes
   the joined fields through Sprintf as a format; listener names hold no percent sign, so that is the identity.
   */
  function Sanitized(name: string): string {
    var fields := Split(name, '-');
    var tcp := if IsHttp(fields[0]) then ["TCP"] + fields[1..] else fields;
    if |tcp| > 2 then Join(tcp[..2], "-")
    else if IsHttp(fields[0]) then Join(tcp, "-")
    else name
  }

  /** The fields of a sanitized name. */
  lemma SanitizedFields(name: string)
    ensures var fields := Split(name, '-');
            var tcp := if IsHttp(fields[0]) then ["TCP"] + fields[1..] else fields;
            Split(Sanitized(name), '-') == if |tcp| > 2 then tcp[..2] else tcp
  {
    var fields := Split(name, '-');
    forall f | f in fields ensures '-' !in f {
      var i :| 0 <= i < |fields| && fields[i] == f;
      SplitFields(name, '-', i);
    }
    var tcp := if IsHttp(fields[0]) then ["TCP"] + fields[1..] else fields;
    SplitOfJoin(tcp, '-');
    SplitOfJoin(if |tcp| > 2 then tcp[..2] else tcp, '-');
  }

  /** Sanitizing twice is sanitizing once. */
  lemma SanitizedIdempotent(name: string)
    ensures Sanitized(Sanitized(name)) == Sanitized(name)
  {
    SanitizedFields(name);
    var fields := Split(Sanitized(name), '-');
    assert !IsHttp(fields[0]);
  }

  /** Which names sanitizing leaves alone: at most one hyphen, and not starting with an HTTP field. */
  lemma SanitizedUnchanged(name: string)
    ensures Sanitized(name) == name <==> |Split(name, '-')| <= 2 && !IsHttp(Split(name, '-')[0])
  {
    SanitizedFields(name);
  }

  /** What sanitizing keeps: the first two fields, a leading HTTP read as TCP. */
  function Kept(name: string): seq<string> {
    var fields := Split(name, '-');
    [if IsHttp(fields[0]) then "TCP" else fields[0]] + if |fields| > 1 then [fields[1]] else []
  }

  /** Exactly the names with the same first two fields are merged. */
  lemma SanitizedSame(x: string, y: string)
    ensures Sanitized(x) == Sanitized(y) <==> Kept(x) == Kept(y)
  {
    SanitizedKeeps(x);
    SanitizedKeeps(y);
    JoinOfSplit(Sanitized(x), '-');
    JoinOfSplit(Sanitized(y), '-');
  }

  lemma SanitizedKeeps(name: string)
    ensures Split(Sanitized(name), '-') == Kept(name)
  {
    SanitizedFields(name);
    var fields := Split(name, '-');
    var tcp := if IsHttp(fields[0]) then ["TCP"] + fields[1..] else fields;
    if |tcp| > 2 {
      assert tcp[..2] == [tcp[0], tcp[1]];
    }
  }
}
