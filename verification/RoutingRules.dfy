/** src/ingress/routing_rule.go: from a path of an Ingress rule to the condition text of a routing rule. */
module RoutingRules {
  import opened Wrappers
  import opened Strings
  import opened Names
  import opened Conditions
  import opened Globs

  datatype PathType = Exact | Prefix | ImplementationSpecific | OtherType

  datatype Backend =
    | ResourceBackend
    | ServiceBackend(service: string, number: int, portName: string)

  datatype IngressPath = IngressPath(path: string, pathType: PathType, backend: Backend)

  /** url.Parse and the check after it: the path, or an error when it fails or finds a scheme, host, query or fragment. */
  type UrlParser = string -> Result<string>

  predicate IsSpace(c: char) {
    c == ' ' || c == '\t' || c == '\n' || c == '\r' || c as int == 11 || c as int == 12 || c as int == 133 || c as int == 160
  }

  /** `strings.TrimSpace`. */
  function TrimSpace(s: string): string {
    if s == "" then ""
    else if IsSpace(s[0]) then TrimSpace(s[1..])
    else if IsSpace(s[|s| - 1]) then TrimSpace(s[..|s| - 1])
    else s
  }

  /** `createHostnameCondition`. */
  function HostnameCondition(hostname: string): string {
    if StartsWith(hostname, "*.") then ""
    else "any(" + HostMatch(hostname) + ", " + HostMatch(hostname + ":443") + ", " + HostMatch(hostname + ":80") + ")"
  }

  function HostMatch(h: string): string {
    HOST + h + "')"
  }

  predicate IsCustom(pathValue: string) {
    StartsWith(pathValue, "condition:") && |TrimSpace(pathValue)| > 10
  }

  /** `processImplementationSpecificPath`. */
  function ProcessImplementationSpecificPath(parse: UrlParser, pathValue: string): Result<string> {
    if pathValue == "" then Failure("Invalid path")
    else if IsCustom(pathValue) then Success(TrimSpace(pathValue[10..]))
    else match parse(pathValue)
      case Failure(e) => Failure(e)
      case Success(path) =>
        if StarFree(path) then Success("all(" + PATH + "eq '" + path + "')")
        else if IsMiddle(path) then
          Success("all(" + PATH + "sw '" + path[..Stretch(path)] + "', " + PATH + "ew '" + path[Stretch(path) + 1..] + "')")
        else if IsSuffix(path) then Success("all(" + PATH + "ew '" + path[1..] + "')")
        else if IsPrefix(path) then Success("all(" + PATH + "sw '" + path[..|path| - 1] + "')")
        else if IsBoth(path) then Success("all(" + PATH + "cw '" + path[1..|path| - 1] + "')")
        else Failure("Invalid path")
  }

  /** `^(not )?(any|all)\(` */
  predicate IsGroup(text: string) {
    || StartsWith(text, "any(") || StartsWith(text, "all(")
    || StartsWith(text, "not any(") || StartsWith(text, "not all(")
  }

  /** `^all\((.*)\)$`; the dot does not match a line break. */
  function InnerOfAll(text: string): Option<string> {
    if StartsWith(text, "all(") && |text| > 4 && text[|text| - 1] == ')' && '\n' !in text[4..|text| - 1]
    then Some(text[4..|text| - 1]) else None
  }

  function Combine(conditions: seq<string>): string {
    if |conditions| == 1 then conditions[0] else "all(" + Join(conditions, ",") + ")"
  }

  function HostConditions(host: string): seq<string> {
    if host == "" || HostnameCondition(host) == "" then [] else [HostnameCondition(host)]
  }

  /** The condition of `createRoutingRule`, as a function of its inputs. */
  function RuleCondition(parse: UrlParser, p: IngressPath, host: string): Result<string> {
    match p.pathType
    case Exact => Success(Combine(HostConditions(host) + [PATH + "eq '" + p.path + "'"]))
    case Prefix => Success(Combine(HostConditions(host) + [PATH + "sw '" + p.path + "'"]))
    case ImplementationSpecific =>
      (match ProcessImplementationSpecificPath(parse, p.path)
       case Failure(e) => Failure(e)
       case Success(custom) =>
         if !IsGroup(custom) then Success(Combine(HostConditions(host) + [custom]))
         else match InnerOfAll(custom)
           case Some(inner) => Success(Combine(HostConditions(host) + Split(inner, ',')))
           case None => Success(custom))
    case OtherType => Failure("Unknown ingress path type")
  }

  /** `createRoutingRule` up to the condition: the slice of conditions grows, or is replaced. */
  method CreateCondition(parse: UrlParser, p: IngressPath, host: string) returns (r: Result<string>)
    ensures r == RuleCondition(parse, p, host)
  {
    var conditions: seq<string> := [];
    if host != "" {
      var hostnameCondition := HostnameCondition(host);
      if hostnameCondition != "" { conditions := conditions + [hostnameCondition]; }
    }
    match p.pathType {
      case Exact => conditions := conditions + [PATH + "eq '" + p.path + "'"];
      case Prefix => conditions := conditions + [PATH + "sw '" + p.path + "'"];
      case ImplementationSpecific =>
        var custom := ProcessImplementationSpecificPath(parse, p.path);
        if custom.Failure? { return custom; }
        if IsGroup(custom.value) {
          var inner := InnerOfAll(custom.value);
          if inner.Some? {
            conditions := conditions + Split(inner.value, ',');
          } else {
            conditions := [custom.value];
          }
        } else {
          conditions := conditions + [custom.value];
        }
      case OtherType => return Failure("Unknown ingress path type");
    }
    if |conditions| == 1 { return Success(conditions[0]); }
    return Success("all(" + Join(conditions, ",") + ")");
  }

  // ---------------------------------------------------------------------------------------------
  // What the condition means

  /** The host as a request may spell it, with the port of either listener or without; a wildcard is left to the listener. */
  predicate HostTest(host: string, req: Request) {
    || host == "" || StartsWith(host, "*.")
    || ToLower(req.host) == ToLower(host)
    || ToLower(req.host) == ToLower(host + ":443")
    || ToLower(req.host) == ToLower(host + ":80")
  }

  /** What a path of an Ingress rule asks of a request path, unless it is a custom condition; patterns are taken as URL parsing gives them. */
  ghost predicate PathAsks(parse: UrlParser, p: IngressPath, path: string) {
    match p.pathType
    case Exact => path == p.path
    case Prefix => StartsWith(path, p.path)
    case ImplementationSpecific =>
      (match parse(p.path)
       case Success(pattern) => Classify(pattern).Some? && Asks(Classify(pattern).value, path)
       case Failure(_) => false)
    case OtherType => false
  }

  /** The meaning of a condition text; `custom` stands for texts beyond the grammar. */
  ghost predicate Meaning(text: string, req: Request, custom: (string, Request) -> bool) {
    match Parse(text)
    case Some(c) => Eval(c, req)
    case None => custom(text, req)
  }

  function HostCond(host: string): Cond {
    Any(More(HostIs(host), true, More(HostIs(host + ":443"), true, Last(HostIs(host + ":80")))))
  }

  predicate NamesHost(host: string) {
    host != "" && !StartsWith(host, "*.")
  }

  lemma HostConditionSpelled(host: string)
    requires NamesHost(host)
    ensures HostConditions(host) == [Spell(HostCond(host))]
  {
    assert HostnameCondition(host)[0] == 'a';
    SpellThree(HostIs(host), HostIs(host + ":443"), HostIs(host + ":80"));
  }

  lemma SpellThree(a: Cond, b: Cond, c: Cond)
    ensures Spell(Any(More(a, true, More(b, true, Last(c))))) == "any(" + Spell(a) + ", " + Spell(b) + ", " + Spell(c) + ")"
  {
    var rest := More(b, true, Last(c));
    assert SpellList(rest) == Spell(b) + ", " + SpellList(Last(c));
    assert SpellList(More(a, true, rest)) == Spell(a) + ", " + SpellList(rest);
    assert Spell(Any(More(a, true, rest))) == "any(" + SpellList(More(a, true, rest)) + ")";
    Regroup("any(", Spell(a), ", ", Spell(b), Spell(c), ")");
  }

  lemma Regroup(open_: string, x: string, sep: string, y: string, z: string, close: string)
    ensures open_ + x + sep + y + sep + z + close == open_ + (x + sep + (y + sep + z)) + close
  {
  }

  lemma HostCondMeans(host: string, req: Request)
    requires NamesHost(host)
    ensures Eval(HostCond(host), req) <==> HostTest(host, req)
  {
    var last := Last(HostIs(host + ":80"));
    var rest := More(HostIs(host + ":443"), true, last);
    assert EvalAny(last, req) <==> Eval(HostIs(host + ":80"), req);
    assert EvalAny(rest, req) <==> Eval(HostIs(host + ":443"), req) || EvalAny(last, req);
    assert EvalAny(More(HostIs(host), true, rest), req) <==> Eval(HostIs(host), req) || EvalAny(rest, req);
  }

  lemma HostCondPlain(host: string)
    requires QuoteFree(host)
    ensures Plain(HostCond(host))
  {
    var last := Last(HostIs(host + ":80"));
    var rest := More(HostIs(host + ":443"), true, last);
    assert PlainList(last) && PlainList(rest) && PlainList(More(HostIs(host), true, rest));
  }

  lemma JoinFirst(head: string, fields: seq<string>)
    requires fields != []
    ensures Join([head] + fields, ",") == head + "," + Join(fields, ",")
  {
    assert ([head] + fields)[1..] == fields;
  }

  /** With a host, the combination is one `all` over the host condition and the others. */
  lemma CombineWithHost(host: string, cs: Conds, fields: seq<string>)
    requires NamesHost(host) && fields != [] && Join(fields, ",") == SpellList(cs)
    ensures Combine(HostConditions(host) + fields) == Spell(All(More(HostCond(host), false, cs)))
  {
    HostConditionSpelled(host);
    JoinFirst(Spell(HostCond(host)), fields);
    assert SpellList(More(HostCond(host), false, cs)) == Spell(HostCond(host)) + "," + SpellList(cs);
  }

  /** A text means the host test and a condition. */
  ghost predicate MeansHostAnd(text: string, host: string, test: Cond) {
    exists c :: Parse(text) == Some(c) && forall req :: Eval(c, req) <==> HostTest(host, req) && Eval(test, req)
  }

  lemma WithHost(host: string, cs: Conds, text: string)
    requires NamesHost(host) && QuoteFree(host) && PlainList(cs)
    requires text == Spell(All(More(HostCond(host), false, cs)))
    ensures MeansHostAnd(text, host, All(cs))
  {
    var conds := More(HostCond(host), false, cs);
    var c := All(conds);
    HostCondPlain(host);
    assert PlainList(conds);
    ParseBack(c);
    forall req ensures Eval(c, req) <==> HostTest(host, req) && Eval(All(cs), req) {
      HostCondMeans(host, req);
      assert EvalAll(conds, req) <==> Eval(HostCond(host), req) && EvalAll(cs, req);
    }
  }

  lemma WithoutHost(host: string, c: Cond, text: string)
    requires !NamesHost(host) && Plain(c) && text == Spell(c)
    ensures MeansHostAnd(text, host, c)
  {
    ParseBack(c);
  }

  lemma MeansSame(text: string, host: string, c: Cond, d: Cond)
    requires MeansHostAnd(text, host, c) && forall req :: Eval(c, req) <==> Eval(d, req)
    ensures MeansHostAnd(text, host, d)
  {
  }

  /** A single condition. */
  lemma SingleMeans(host: string, c: Cond)
    requires QuoteFree(host) && Plain(c)
    ensures MeansHostAnd(Combine(HostConditions(host) + [Spell(c)]), host, c)
  {
    var cs := Last(c);
    if NamesHost(host) {
      CombineWithHost(host, cs, [Spell(c)]);
      var text := Combine(HostConditions(host) + [Spell(c)]);
      WithHost(host, cs, text);
      forall req ensures Eval(All(cs), req) <==> Eval(c, req) {
        assert EvalAll(cs, req) <==> Eval(c, req);
      }
      MeansSame(text, host, All(cs), c);
    } else {
      assert HostConditions(host) == [];
      assert [] + [Spell(c)] == [Spell(c)];
      WithoutHost(host, c, Spell(c));
    }
  }

  /** The text printed for a layout. */
  function LayoutText(layout: Layout): string {
    match layout
    case Whole(x) => "all(" + PATH + "eq '" + x + "')"
    case Middle(a, b) => "all(" + PATH + "sw '" + a + "', " + PATH + "ew '" + b + "')"
    case Suffix(x) => "all(" + PATH + "ew '" + x + "')"
    case Prefix(x) => "all(" + PATH + "sw '" + x + "')"
    case Both(x) => "all(" + PATH + "cw '" + x + "')"
  }

  lemma LayoutPrinted(parse: UrlParser, path: string)
    requires path != "" && !IsCustom(path) && parse(path).Success?
    ensures ProcessImplementationSpecificPath(parse, path)
         == match Classify(parse(path).value) case Some(layout) => Success(LayoutText(layout)) case None => Failure("Invalid path")
  {
  }

  /** It is the spelling of the condition of the layout. */
  lemma LayoutSpelled(layout: Layout)
    ensures LayoutText(layout) == Spell(CondOf(layout))
  {
    match layout
    case Middle(a, b) => SpellMiddle(a, b);
    case Whole(x) => SpellOne(Eq, x);
    case Suffix(x) => SpellOne(Ew, x);
    case Prefix(x) => SpellOne(Sw, x);
    case Both(x) => SpellOne(Cw, x);
  }

  lemma SpellMiddle(a: string, b: string)
    ensures Spell(CondOf(Middle(a, b))) == "all(" + PATH + "sw '" + a + "', " + PATH + "ew '" + b + "')"
  {
    var last := Last(PathIs(Ew, b));
    var both := More(PathIs(Sw, a), true, last);
    assert SpellList(last) == PATH + "ew '" + b + "'";
    assert Spell(PathIs(Sw, a)) == PATH + "sw '" + a + "'";
    assert SpellList(both) == Spell(PathIs(Sw, a)) + ", " + SpellList(last);
    assert Spell(CondOf(Middle(a, b))) == "all(" + SpellList(both) + ")";
  }

  lemma SpellOne(test: Test, x: string)
    ensures Spell(All(Last(PathIs(test, x)))) == "all(" + PATH + Operator(test) + x + "')"
  {
    assert SpellList(Last(PathIs(test, x))) == PATH + Operator(test) + x + "'";
  }

  lemma InnerOfText(x: string)
    requires '\n' !in x
    ensures IsGroup("all(" + x + ")") && InnerOfAll("all(" + x + ")") == Some(x)
  {
    var text := "all(" + x + ")";
    assert text == "all(" + (x + ")");
    StartsWithConcat("all(", x + ")");
    assert text[4..|text| - 1] == x;
  }

  lemma InnerOfSpelled(cs: Conds)
    requires '\n' !in SpellList(cs)
    ensures IsGroup(Spell(All(cs))) && InnerOfAll(Spell(All(cs))) == Some(SpellList(cs))
  {
    InnerOfText(SpellList(cs));
  }

  lemma {:induction false} SplitCount(s: string, sep: char)
    ensures |Split(s, sep)| == 1 <==> sep !in s
  {
    if s != "" { SplitCount(s[1..], sep); }
  }

  /** A whole `all` group, split on commas and joined again. */
  lemma GroupMeans(host: string, cs: Conds)
    requires QuoteFree(host) && PlainList(cs)
    ensures MeansHostAnd(Combine(HostConditions(host) + Split(SpellList(cs), ',')), host, All(cs))
  {
    var inner := SpellList(cs);
    if NamesHost(host) {
      JoinOfSplit(inner, ',');
      CombineWithHost(host, cs, Split(inner, ','));
      WithHost(host, cs, Combine(HostConditions(host) + Split(inner, ',')));
    } else {
      assert HostConditions(host) == [];
      assert [] + Split(inner, ',') == Split(inner, ',');
      CombinedAlone(inner);
      if ',' in inner {
        WithoutHost(host, All(cs), Spell(All(cs)));
      } else {
        SingleConds(cs);
        WithoutHost(host, cs.cond, inner);
        forall req ensures Eval(cs.cond, req) <==> Eval(All(cs), req) {
          assert EvalAll(cs, req) <==> Eval(cs.cond, req);
        }
        MeansSame(inner, host, cs.cond, All(cs));
      }
    }
  }

  lemma SingleConds(cs: Conds)
    requires ',' !in SpellList(cs)
    ensures cs.Last?
  {
    if cs.More? { MoreHasComma(cs); }
  }

  lemma MoreHasComma(cs: Conds)
    requires cs.More?
    ensures ',' in SpellList(cs)
  {
    var comma := if cs.blank then ", " else ",";
    assert SpellList(cs) == Spell(cs.cond) + comma + SpellList(cs.rest);
    assert SpellList(cs)[|Spell(cs.cond)|] == comma[0];
  }

  lemma LayoutPlain(path: string)
    requires QuoteFree(path) && Classify(path).Some?
    ensures CondOf(Classify(path).value).All? && PlainList(CondOf(Classify(path).value).conds)
  {
    match Classify(path).value
    case Middle(a, b) => assert PlainList(Last(PathIs(Ew, b)));
    case _ =>
  }

  /** Nothing in a path condition but its literals can hold a line break. */
  lemma NoLineBreak(path: string)
    requires '\n' !in path && Classify(path).Some?
    ensures CondOf(Classify(path).value).All? && '\n' !in SpellList(CondOf(Classify(path).value).conds)
  {
    match Classify(path).value
    case Middle(a, b) =>
      PathOnOneLine(Sw, a);
      PathOnOneLine(Ew, b);
      assert SpellList(More(PathIs(Sw, a), true, Last(PathIs(Ew, b)))) == Spell(PathIs(Sw, a)) + ", " + SpellList(Last(PathIs(Ew, b)));
    case Whole(x) => PathOnOneLine(Eq, x);
    case Suffix(x) => PathOnOneLine(Ew, x);
    case Prefix(x) => PathOnOneLine(Sw, x);
    case Both(x) => PathOnOneLine(Cw, x);
  }

  lemma PathOnOneLine(test: Test, literal: string)
    requires '\n' !in literal
    ensures '\n' !in Spell(PathIs(test, literal)) && SpellList(Last(PathIs(test, literal))) == Spell(PathIs(test, literal))
  {
    assert '\n' !in PATH;
  }

  /** Paths that are printed literally: quote-free, and for patterns, as URL parsing gives them, also on one line. */
  predicate Literal(parse: UrlParser, p: IngressPath) {
    if p.pathType.ImplementationSpecific?
    then p.path != "" && !IsCustom(p.path) && parse(p.path).Success? && QuoteFree(parse(p.path).value) && '\n' !in parse(p.path).value
    else QuoteFree(p.path)
  }

  /** A text means host and path. */
  ghost predicate MeansHostAndPath(text: string, host: string, parse: UrlParser, p: IngressPath) {
    exists c :: Parse(text) == Some(c) && forall req :: Eval(c, req) <==> HostTest(host, req) && PathAsks(parse, p, req.path)
  }

  lemma MeansPath(text: string, host: string, test: Cond, parse: UrlParser, p: IngressPath)
    requires MeansHostAnd(text, host, test) && forall req: Request :: Eval(test, req) <==> PathAsks(parse, p, req.path)
    ensures MeansHostAndPath(text, host, parse, p)
  {
  }

  /** The text of a rule condition, read back, is the host test and the path test. */
  lemma ConditionMeans(parse: UrlParser, p: IngressPath, host: string)
    requires QuoteFree(host) && Literal(parse, p) && RuleCondition(parse, p, host).Success?
    ensures MeansHostAndPath(RuleCondition(parse, p, host).value, host, parse, p)
  {
    var text := RuleCondition(parse, p, host).value;
    match p.pathType
    case Exact =>
      SingleMeans(host, PathIs(Eq, p.path));
      MeansPath(text, host, PathIs(Eq, p.path), parse, p);
    case Prefix =>
      SingleMeans(host, PathIs(Sw, p.path));
      MeansPath(text, host, PathIs(Sw, p.path), parse, p);
    case ImplementationSpecific =>
      LayoutMeans(parse, p, host);
  }

  lemma LayoutMeans(parse: UrlParser, p: IngressPath, host: string)
    requires QuoteFree(host) && Literal(parse, p) && RuleCondition(parse, p, host).Success? && p.pathType.ImplementationSpecific?
    ensures MeansHostAndPath(RuleCondition(parse, p, host).value, host, parse, p)
  {
    var pattern := parse(p.path).value;
    LayoutPrinted(parse, p.path);
    LayoutPlain(pattern);
    NoLineBreak(pattern);
    var layout := Classify(pattern).value;
    LayoutSpelled(layout);
    var cs := CondOf(layout).conds;
    InnerOfSpelled(cs);
    GroupMeans(host, cs);
    forall req: Request ensures Eval(All(cs), req) <==> PathAsks(parse, p, req.path) {
      CondMeans(layout, req);
    }
    MeansPath(RuleCondition(parse, p, host).value, host, All(cs), parse, p);
  }

  /** The same, as the meaning of the text for one request. */
  lemma ConditionMeaning(parse: UrlParser, p: IngressPath, host: string, req: Request, custom: (string, Request) -> bool)
    requires QuoteFree(host) && Literal(parse, p) && RuleCondition(parse, p, host).Success?
    ensures Meaning(RuleCondition(parse, p, host).value, req, custom) <==> HostTest(host, req) && PathAsks(parse, p, req.path)
  {
    ConditionMeans(parse, p, host);
  }

  // ---------------------------------------------------------------------------------------------
  // Custom conditions

  /**
   A custom `all(X)` keeps X verbatim, nested commas and all, and gets the host condition in front;
   alone, X loses its group only if it holds no comma.
   */
  lemma CustomAllKept(parse: UrlParser, p: IngressPath, host: string, x: string)
    requires p.pathType.ImplementationSpecific? && ProcessImplementationSpecificPath(parse, p.path) == Success("all(" + x + ")")
    requires '\n' !in x
    ensures RuleCondition(parse, p, host) == Success(
      if HostConditions(host) != [] then "all(" + HostnameCondition(host) + "," + x + ")"
      else if ',' in x then "all(" + x + ")"
      else x)
  {
    InnerOfText(x);
    CombinedKept(host, x);
  }

  lemma CombinedKept(host: string, x: string)
    ensures Combine(HostConditions(host) + Split(x, ',')) ==
      if HostConditions(host) != [] then "all(" + HostnameCondition(host) + "," + x + ")"
      else if ',' in x then "all(" + x + ")"
      else x
  {
    if HostConditions(host) != [] {
      CombinedAfter(HostnameCondition(host), x);
    } else {
      CombinedAlone(x);
      assert [] + Split(x, ',') == Split(x, ',');
    }
  }

  lemma CombinedAfter(h: string, x: string)
    ensures Combine([h] + Split(x, ',')) == "all(" + h + "," + x + ")"
  {
    JoinOfSplit(x, ',');
    JoinFirst(h, Split(x, ','));
    assert "all(" + (h + "," + x) + ")" == "all(" + h + "," + x + ")";
  }

  lemma CombinedAlone(x: string)
    ensures Combine(Split(x, ',')) == if ',' in x then "all(" + x + ")" else x
  {
    JoinOfSplit(x, ',');
    SplitCount(x, ',');
  }

  /** Whether the condition of a path, custom or printed for a pattern, is put behind the host condition: not a group, or `all(...)` on one line. */
  predicate KeepsHost(text: string) {
    !IsGroup(text) || InnerOfAll(text).Some?
  }

  lemma InnerOfAllText(text: string)
    requires InnerOfAll(text).Some?
    ensures text == "all(" + InnerOfAll(text).value + ")" && '\n' !in InnerOfAll(text).value
  {
    assert text[..4] == "all(";
    assert text == text[..4] + text[4..|text| - 1] + text[|text| - 1..];
  }

  /** With a host to test, the condition of a path is used alone if and only if it does not keep the host. */
  lemma CustomAlone(parse: UrlParser, p: IngressPath, host: string)
    requires p.pathType.ImplementationSpecific? && ProcessImplementationSpecificPath(parse, p.path).Success? && NamesHost(host)
    ensures var text := ProcessImplementationSpecificPath(parse, p.path).value;
      RuleCondition(parse, p, host) == Success(text) <==> !KeepsHost(text)
  {
    var text := ProcessImplementationSpecificPath(parse, p.path).value;
    HostConditionSpelled(host);
    if InnerOfAll(text).Some? {
      InnerOfAllText(text);
      InnerOfText(InnerOfAll(text).value);
      CustomAllKept(parse, p, host, InnerOfAll(text).value);
    } else if !IsGroup(text) {
      JoinFirst(HostnameCondition(host), [text]);
      assert HostConditions(host) + [text] == [HostnameCondition(host), text];
      assert Join([text], ",") == text;
    }
  }

  /** A text of the grammar that is no group is a single test. */
  lemma ParsedGroup(text: string, c: Cond)
    requires Parse(text) == Some(c)
    ensures text == Spell(c) && Plain(c)
    ensures InnerOfAll(text).Some? ==> c.All? && InnerOfAll(text).value == SpellList(c.conds)
  {
    ParseExact(text, c);
    if InnerOfAll(text).Some? {
      InnerOfAllText(text);
      SpellStarts(c);
      assert text[1] == 'l';
      assert text == "all(" + SpellList(c.conds) + ")";
      assert text[4..|text| - 1] == SpellList(c.conds);
    }
  }

  lemma SpellStarts(c: Cond)
    ensures |Spell(c)| >= 2 && (Spell(c)[1] == 'l' <==> c.All?)
  {
    match c
    case PathIs(_, _) => assert Spell(c)[1] == PATH[1];
    case HostIs(_) => assert Spell(c)[1] == HOST[1];
    case Any(_) => assert Spell(c)[1] == "any("[1];
    case All(_) => assert Spell(c)[1] == "all("[1];
  }

  /** The path is a custom condition, or a pattern, whose text the grammar covers. */
  predicate IsReadable(parse: UrlParser, p: IngressPath) {
    && p.pathType.ImplementationSpecific? && ProcessImplementationSpecificPath(parse, p.path).Success?
    && Parse(ProcessImplementationSpecificPath(parse, p.path).value).Some?
  }

  /** A condition in the grammar means itself, and the host test as well if and only if it keeps the host. */
  lemma CustomMeans(parse: UrlParser, p: IngressPath, host: string, req: Request, custom: (string, Request) -> bool)
    requires QuoteFree(host) && IsReadable(parse, p)
    ensures RuleCondition(parse, p, host).Success?
    ensures var text := ProcessImplementationSpecificPath(parse, p.path).value;
      Meaning(RuleCondition(parse, p, host).value, req, custom)
      <==> (KeepsHost(text) ==> HostTest(host, req)) && Meaning(text, req, custom)
  {
    hide Parse, Eval, HostTest, ProcessImplementationSpecificPath;
    var text := ProcessImplementationSpecificPath(parse, p.path).value;
    var c := Parse(text).value;
    ParsedGroup(text, c);
    if InnerOfAll(text).Some? {
      InnerOfAllText(text);
      InnerOfText(InnerOfAll(text).value);
      GroupMeans(host, c.conds);
    } else if !IsGroup(text) {
      SingleMeans(host, c);
    }
  }
}
