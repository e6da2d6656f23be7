/** The texts that src/ingress/routing_rule.go prints and takes over, spelled out. */
module ConditionTexts {
  import opened Wrappers
  import opened Strings
  import opened Conditions
  import opened RoutingRules

  // ---------------------------------------------------------------------------------------------
  // Printed conditions

  lemma Constants()
    ensures PATH == "http.request.url.path " && HOST == "http.request.headers[(i 'Host')] eq (i '"
    ensures PATH + "eq '" == "http.request.url.path eq '" && PATH + "sw '" == "http.request.url.path sw '"
  {
  }

  /** The host in the three spellings a request may use. */
  lemma HostText(host: string)
    requires NamesHost(host)
    ensures HostConditions(host) == [HostnameCondition(host)]
    ensures HostnameCondition(host)
         == "any(" + ("http.request.headers[(i 'Host')] eq (i '" + host + "')")
            + ", " + ("http.request.headers[(i 'Host')] eq (i '" + (host + ":443") + "')")
            + ", " + ("http.request.headers[(i 'Host')] eq (i '" + (host + ":80") + "')") + ")"
  {
    HostConditionSpelled(host);
  }

  /** The condition of an exact or prefix path: the path test, behind the host condition if the host is named. */
  lemma PathText(parse: UrlParser, p: IngressPath, host: string)
    requires p.pathType.Exact? || p.pathType.Prefix?
    ensures var test := (if p.pathType.Exact? then "http.request.url.path eq '" else "http.request.url.path sw '") + p.path + "'";
      RuleCondition(parse, p, host)
      == Success(if NamesHost(host) then "all(" + (HostnameCondition(host) + "," + test) + ")" else test)
  {
    Constants();
    var test := (if p.pathType.Exact? then "http.request.url.path eq '" else "http.request.url.path sw '") + p.path + "'";
    hide HostnameCondition;
    assert RuleCondition(parse, p, host) == Success(Combine(HostConditions(host) + [test]));
    CombinedWith(host, test);
  }

  lemma CombinedWith(host: string, test: string)
    ensures Combine(HostConditions(host) + [test])
         == if NamesHost(host) then "all(" + (HostnameCondition(host) + "," + test) + ")" else test
  {
    if NamesHost(host) {
      HostText(host);
      hide HostnameCondition;
      assert [HostnameCondition(host)] + [test] == [HostnameCondition(host), test];
      JoinFirst(HostnameCondition(host), [test]);
    } else {
      assert HostConditions(host) == [];
      assert [] + [test] == [test];
    }
  }

  // ---------------------------------------------------------------------------------------------
  // Custom conditions

  /** Which conditions leave the host out: groups by `any`, negated groups, and groups by `all` that go over several lines or on behind the group. */
  lemma KeepsHostExactly(text: string)
    ensures KeepsHost(text) <==>
      || !(StartsWith(text, "any(") || StartsWith(text, "all(") || StartsWith(text, "not any(") || StartsWith(text, "not all("))
      || exists x :: text == "all(" + x + ")" && '\n' !in x
  {
    if InnerOfAll(text).Some? {
      InnerOfAllText(text);
      assert text == "all(" + InnerOfAll(text).value + ")" && '\n' !in InnerOfAll(text).value;
    }
    if x :| text == "all(" + x + ")" && '\n' !in x { InnerOfText(x); }
  }

  predicate AllSpaces(s: string) {
    forall c <- s :: IsSpace(c)
  }

  /** Trimming takes away the spaces at both ends, and nothing else. */
  lemma {:induction false} Trimmed(s: string) returns (before: string, after: string)
    ensures s == before + TrimSpace(s) + after && AllSpaces(before) && AllSpaces(after)
    ensures var t := TrimSpace(s); t != "" ==> !IsSpace(t[0]) && !IsSpace(t[|t| - 1])
    ensures s != "" && !IsSpace(s[0]) ==> before == ""
    decreases |s|
  {
    before, after := "", "";
    if s == "" {
    } else if IsSpace(s[0]) {
      before, after := Trimmed(s[1..]);
      Refront(s, before, TrimSpace(s), after);
      before := [s[0]] + before;
    } else if IsSpace(s[|s| - 1]) {
      before, after := Trimmed(s[..|s| - 1]);
      Reback(s, before, TrimSpace(s), after);
      after := after + [s[|s| - 1]];
    } else {
      assert "" + s + "" == s;
    }
  }

  lemma Refront(s: string, before: string, t: string, after: string)
    requires s != "" && s[1..] == before + t + after
    ensures s == ([s[0]] + before) + t + after
  {
    assert s == [s[0]] + s[1..];
  }

  lemma Reback(s: string, before: string, t: string, after: string)
    requires s != "" && s[..|s| - 1] == before + t + after
    ensures s == before + t + (after + [s[|s| - 1]])
  {
    assert s == s[..|s| - 1] + [s[|s| - 1]];
  }

  lemma TrimmedPast(head: string, x: string)
    requires head != "" && !IsSpace(head[0])
    ensures |TrimSpace(head + x)| > |head| <==> !AllSpaces(x)
  {
    var s, n := head + x, |head|;
    var before, after := Trimmed(s);
    hide TrimSpace, IsSpace;
    var t := TrimSpace(s);
    assert s[0] == head[0];
    assert s == t + after;
    if |t| > n {
      assert t[|t| - 1] == s[|t| - 1] == x[|t| - 1 - n];
      assert x[|t| - 1 - n] in x;
    }
    if |t| <= n {
      forall c | c in x ensures IsSpace(c) {
        var j :| 0 <= j < |x| && x[j] == c;
        assert s[n + j] == c && s[n + j] == after[n + j - |t|];
      }
    }
  }

  /** A path is a custom condition if anything but spaces follows `condition:`, and then that is the condition, trimmed. */
  lemma CustomText(parse: UrlParser, x: string)
    ensures IsCustom("condition:" + x) <==> !AllSpaces(x)
    ensures !AllSpaces(x) ==> ProcessImplementationSpecificPath(parse, "condition:" + x) == Success(TrimSpace(x))
  {
    var head := "condition:";
    assert |head| == 10 && head[0] == 'c';
    TrimmedPast(head, x);
    StartsWithConcat(head, x);
    hide TrimSpace, IsSpace;
    assert (head + x)[10..] == x;
  }
}
