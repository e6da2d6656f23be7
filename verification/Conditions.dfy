/**
 The condition language of routing policies: what a condition says of a request, how it is
 written, and how its text is read back.
 */
module Conditions {
  import opened Wrappers
  import opened Strings
  import opened Names

  datatype Request = Request(host: string, path: string)

  datatype Test = Eq | Sw | Ew | Cw

  datatype Cond =
    | PathIs(test: Test, literal: string)
    | HostIs(literal: string)
    | Any(conds: Conds)
    | All(conds: Conds)

  /** At least one condition; `blank` tells whether a blank follows the comma. */
  datatype Conds = Last(cond: Cond) | More(cond: Cond, blank: bool, rest: Conds)

  ghost predicate PathTest(test: Test, literal: string, path: string) {
    match test
    case Eq => path == literal
    case Sw => StartsWith(path, literal)
    case Ew => EndsWith(path, literal)
    case Cw => Contains(path, literal)
  }

  ghost predicate Eval(c: Cond, req: Request) {
    match c
    case PathIs(test, literal) => PathTest(test, literal, req.path)
    case HostIs(literal) => ToLower(req.host) == ToLower(literal)
    case Any(cs) => EvalAny(cs, req)
    case All(cs) => EvalAll(cs, req)
  }

  ghost predicate EvalAny(cs: Conds, req: Request) {
    match cs
    case Last(c) => Eval(c, req)
    case More(c, _, rest) => Eval(c, req) || EvalAny(rest, req)
  }

  ghost predicate EvalAll(cs: Conds, req: Request) {
    match cs
    case Last(c) => Eval(c, req)
    case More(c, _, rest) => Eval(c, req) && EvalAll(rest, req)
  }

  // ---------------------------------------------------------------------------------------------
  // Writing

  const PATH := "http.request.url.path "
  const HOST := "http.request.headers[(i 'Host')] eq (i '"

  function Operator(test: Test): string {
    match test
    case Eq => "eq '"
    case Sw => "sw '"
    case Ew => "ew '"
    case Cw => "cw '"
  }

  function Spell(c: Cond): string {
    match c
    case PathIs(test, literal) => PATH + Operator(test) + literal + "'"
    case HostIs(literal) => HOST + literal + "')"
    case Any(cs) => "any(" + SpellList(cs) + ")"
    case All(cs) => "all(" + SpellList(cs) + ")"
  }

  function SpellList(cs: Conds): string {
    match cs
    case Last(c) => Spell(c)
    case More(c, blank, rest) => Spell(c) + (if blank then ", " else ",") + SpellList(rest)
  }

  // ---------------------------------------------------------------------------------------------
  // Reading

  /** Up to the next quote, and what follows it. */
  function ReadLiteral(s: string): (r: Option<(string, string)>)
    ensures r.Some? ==> |r.value.1| < |s|
  {
    if s == "" then None
    else if s[0] == '\'' then Some(("", s[1..]))
    else match ReadLiteral(s[1..])
      case None => None
      case Some((literal, rest)) => Some(([s[0]] + literal, rest))
  }

  function ReadTest(s: string): Option<Test> {
    if StartsWith(s, Operator(Eq)) then Some(Eq)
    else if StartsWith(s, Operator(Sw)) then Some(Sw)
    else if StartsWith(s, Operator(Ew)) then Some(Ew)
    else if StartsWith(s, Operator(Cw)) then Some(Cw)
    else None
  }

  /** A condition at the front of the text, and what follows it. */
  function Read(s: string): (r: Option<(Cond, string)>)
    ensures r.Some? ==> |r.value.1| < |s|
    decreases |s|, 0
  {
    if StartsWith(s, "any(") || StartsWith(s, "all(") then
      match ReadList(s[4..])
      case Some((cs, rest)) =>
        if StartsWith(rest, ")") then Some((if s[1] == 'n' then Any(cs) else All(cs), rest[1..])) else None
      case None => None
    else if StartsWith(s, PATH) then
      var body := s[|PATH|..];
      match ReadTest(body)
      case Some(test) =>
        (match ReadLiteral(body[4..])
         case Some((literal, rest)) => Some((PathIs(test, literal), rest))
         case None => None)
      case None => None
    else if StartsWith(s, HOST) then
      match ReadLiteral(s[|HOST|..])
      case Some((literal, rest)) => if StartsWith(rest, ")") then Some((HostIs(literal), rest[1..])) else None
      case None => None
    else None
  }

  function ReadList(s: string): (r: Option<(Conds, string)>)
    ensures r.Some? ==> |r.value.1| < |s|
    decreases |s|, 1
  {
    match Read(s)
    case None => None
    case Some((c, rest)) =>
      if StartsWith(rest, ",") then
        var blank := StartsWith(rest, ", ");
        match ReadList(rest[if blank then 2 else 1..])
        case Some((cs, end)) => Some((More(c, blank, cs), end))
        case None => None
      else Some((Last(c), rest))
  }

  /** The meaning of a text, if the grammar covers it. */
  function Parse(s: string): Option<Cond> {
    match Read(s)
    case Some((c, rest)) => if rest == "" then Some(c) else None
    case None => None
  }

  predicate QuoteFree(s: string) {
    '\'' !in s
  }

  predicate Plain(c: Cond) {
    match c
    case PathIs(_, literal) => QuoteFree(literal)
    case HostIs(literal) => QuoteFree(literal)
    case Any(cs) => PlainList(cs)
    case All(cs) => PlainList(cs)
  }

  predicate PlainList(cs: Conds) {
    match cs
    case Last(c) => Plain(c)
    case More(c, _, rest) => Plain(c) && PlainList(rest)
  }

  lemma {:induction false} ReadLiteralBack(literal: string, rest: string)
    requires QuoteFree(literal)
    ensures ReadLiteral(literal + "'" + rest) == Some((literal, rest))
  {
    var s := literal + "'" + rest;
    if literal == "" {
      assert s[0] == '\'' && s[1..] == rest;
    } else {
      ReadLiteralBack(literal[1..], rest);
      assert s[1..] == literal[1..] + "'" + rest;
      assert [literal[0]] + literal[1..] == literal;
    }
  }

  lemma StartsWithConcat(a: string, b: string)
    ensures StartsWith(a + b, a) && (a + b)[|a|..] == b
  {
  }

  /** The four ways a condition begins are told apart by their fifth or fourteenth character at the latest. */
  lemma Beginnings(x: string)
    ensures !StartsWith(PATH + x, "any(") && !StartsWith(PATH + x, "all(")
    ensures !StartsWith(HOST + x, "any(") && !StartsWith(HOST + x, "all(")
    ensures !StartsWith(HOST + x, PATH)
  {
    assert (PATH + x)[0] == 'h' && (HOST + x)[0] == 'h' && "any("[0] == 'a' && "all("[0] == 'a';
    assert (PATH + x)[..4][0] == 'h' && (HOST + x)[..4][0] == 'h';
    assert |PATH| == 22 && |HOST| > 22 && PATH[13] == 'u' && HOST[13] == 'h';
    assert (HOST + x)[..|PATH|][13] == 'h';
  }

  lemma Operators(test: Test, x: string)
    ensures |Operator(test)| == 4 && ReadTest(Operator(test) + x) == Some(test) && (Operator(test) + x)[4..] == x
  {
    var s := Operator(test) + x;
    assert s[..4] == Operator(test);
    assert Operator(Eq)[0] == 'e' && Operator(Eq)[1] == 'q' && Operator(Sw)[0] == 's';
    assert Operator(Ew)[0] == 'e' && Operator(Ew)[1] == 'w' && Operator(Cw)[0] == 'c';
  }

  lemma ReadPath(test: Test, literal: string, rest: string)
    requires QuoteFree(literal)
    ensures Read(Spell(PathIs(test, literal)) + rest) == Some((PathIs(test, literal), rest))
  {
    var tail := literal + "'" + rest;
    var body := Operator(test) + tail;
    GroupText(PATH + Operator(test), literal, "'", rest);
    GroupText(PATH, Operator(test), literal, "'" + rest);
    assert tail == literal + ("'" + rest);
    assert Spell(PathIs(test, literal)) + rest == PATH + body;
    Beginnings(body);
    StartsWithConcat(PATH, body);
    Operators(test, tail);
    ReadLiteralBack(literal, rest);
  }

  lemma ReadHost(literal: string, rest: string)
    requires QuoteFree(literal)
    ensures Read(Spell(HostIs(literal)) + rest) == Some((HostIs(literal), rest))
  {
    var end := ")" + rest;
    var tail := literal + "'" + end;
    HostText(HOST, literal, "'", ")", rest);
    assert "'" + ")" == "')" && tail == literal + ("'" + end);
    assert Spell(HostIs(literal)) + rest == HOST + tail;
    Beginnings(tail);
    StartsWithConcat(HOST, tail);
    ReadLiteralBack(literal, end);
    assert end[1..] == rest;
  }

  lemma ReadGroup(any_: bool, cs: Conds, rest: string)
    requires ReadList(SpellList(cs) + (")" + rest)) == Some((cs, ")" + rest))
    ensures var c := if any_ then Any(cs) else All(cs); Read(Spell(c) + rest) == Some((c, rest))
  {
    var c := if any_ then Any(cs) else All(cs);
    var open_ := if any_ then "any(" else "all(";
    var tail := SpellList(cs) + (")" + rest);
    var s := open_ + tail;
    assert Spell(c) + rest == s;
    StartsWithConcat(open_, tail);
    assert s[1] == open_[1];
    assert (")" + rest)[1..] == rest;
  }

  /** No spelling begins with a blank. */
  lemma SpellBegins(cs: Conds)
    ensures SpellList(cs) != "" && SpellList(cs)[0] != ' '
  {
    var c := cs.cond;
    match c
    case PathIs(_, _) => assert Spell(c)[0] == PATH[0];
    case HostIs(_) => assert Spell(c)[0] == HOST[0];
    case Any(_) => assert Spell(c)[0] == 'a';
    case All(_) => assert Spell(c)[0] == 'a';
  }

  lemma ReadMore(c: Cond, blank: bool, cs: Conds, rest: string)
    requires var tail := (if blank then ", " else ",") + (SpellList(cs) + rest); Read(Spell(c) + tail) == Some((c, tail))
    requires ReadList(SpellList(cs) + rest) == Some((cs, rest))
    ensures ReadList(SpellList(More(c, blank, cs)) + rest) == Some((More(c, blank, cs), rest))
  {
    var next := SpellList(cs) + rest;
    var comma := if blank then ", " else ",";
    Regrouped(Spell(c), comma, SpellList(cs), rest);
    SpellBegins(cs);
    assert next[0] == SpellList(cs)[0];
    AfterComma(blank, next);
    assert SpellList(More(c, blank, cs)) + rest == Spell(c) + (comma + next);
  }

  lemma Regrouped(a: string, b: string, c: string, d: string)
    ensures (a + b + c) + d == a + (b + (c + d))
  {
  }

  /** How a comma and what follows it are told apart. */
  lemma AfterComma(blank: bool, next: string)
    requires next != "" && next[0] != ' '
    ensures var tail := (if blank then ", " else ",") + next;
      StartsWith(tail, ",") && (StartsWith(tail, ", ") <==> blank) && tail[if blank then 2 else 1..] == next
  {
    var tail := (if blank then ", " else ",") + next;
    if !blank { assert tail[1] == next[0]; }
  }

  /** Reading back what was written, whatever follows. */
  lemma {:induction false} ReadBack(c: Cond, rest: string)
    requires Plain(c)
    ensures Read(Spell(c) + rest) == Some((c, rest))
    decreases c, 0
  {
    match c
    case PathIs(test, literal) => ReadPath(test, literal, rest);
    case HostIs(literal) => ReadHost(literal, rest);
    case Any(cs) =>
      ReadListBack(cs, ")" + rest);
      ReadGroup(true, cs, rest);
    case All(cs) =>
      ReadListBack(cs, ")" + rest);
      ReadGroup(false, cs, rest);
  }

  lemma {:induction false} ReadListBack(cs: Conds, rest: string)
    requires PlainList(cs) && rest != "" && rest[0] == ')'
    ensures ReadList(SpellList(cs) + rest) == Some((cs, rest))
    decreases cs, 1
  {
    match cs
    case Last(c) =>
      ReadBack(c, rest);
      assert !StartsWith(rest, ",");
    case More(c, blank, more) =>
      ReadListBack(more, rest);
      ReadBack(c, (if blank then ", " else ",") + (SpellList(more) + rest));
      ReadMore(c, blank, more, rest);
  }

  /** A spelled condition is read back as it was. */
  lemma ParseBack(c: Cond)
    requires Plain(c)
    ensures Parse(Spell(c)) == Some(c)
  {
    ReadBack(c, "");
    assert Spell(c) + "" == Spell(c);
  }

  // ---------------------------------------------------------------------------------------------
  // Only spellings are read

  lemma {:induction false} ReadLiteralSound(s: string)
    requires ReadLiteral(s).Some?
    ensures var (literal, rest) := ReadLiteral(s).value; QuoteFree(literal) && s == literal + ("'" + rest)
  {
    if s[0] == '\'' {
      assert s == "" + ("'" + s[1..]);
    } else {
      ReadLiteralSound(s[1..]);
      var (literal, rest) := ReadLiteral(s[1..]).value;
      assert s == [s[0]] + s[1..];
      assert ([s[0]] + literal) + ("'" + rest) == [s[0]] + (literal + ("'" + rest));
    }
  }

  lemma ReadTestSound(s: string)
    requires ReadTest(s).Some?
    ensures |Operator(ReadTest(s).value)| == 4 && |s| >= 4 && s == Operator(ReadTest(s).value) + s[4..]
  {
  }

  lemma ReadPathSound(s: string)
    requires StartsWith(s, PATH) && Read(s).Some?
    ensures var (c, rest) := Read(s).value; Plain(c) && s == Spell(c) + rest && c.PathIs?
  {
    var body := s[|PATH|..];
    assert s == PATH + body;
    Beginnings(body);
    ReadTestSound(body);
    ReadLiteralSound(body[4..]);
    var (c, rest) := Read(s).value;
    Flattened(PATH, Operator(c.test), c.literal, "'", rest);
  }

  lemma Flattened(a: string, b: string, c: string, d: string, e: string)
    ensures a + (b + (c + (d + e))) == a + b + c + d + e
  {
  }

  lemma ReadHostSound(s: string)
    requires StartsWith(s, HOST) && Read(s).Some?
    ensures var (c, rest) := Read(s).value; Plain(c) && s == Spell(c) + rest && c.HostIs?
  {
    var body := s[|HOST|..];
    assert s == HOST + body;
    Beginnings(body);
    ReadLiteralSound(body);
    var (c, rest) := Read(s).value;
    var (literal, end) := ReadLiteral(body).value;
    assert end == ")" + rest && "'" + ")" == "')";
    HostText(HOST, literal, "'", ")", rest);
  }

  lemma HostText(open_: string, literal: string, quote: string, close: string, rest: string)
    ensures open_ + (literal + (quote + (close + rest))) == open_ + literal + (quote + close) + rest
  {
  }

  lemma ReadGroupSound(s: string, cs: Conds, end: string)
    requires (StartsWith(s, "any(") || StartsWith(s, "all(")) && ReadList(s[4..]) == Some((cs, end)) && Read(s).Some?
    requires PlainList(cs) && s[4..] == SpellList(cs) + end
    ensures var (c, rest) := Read(s).value; Plain(c) && s == Spell(c) + rest
  {
    var (c, rest) := Read(s).value;
    Opened(s);
    assert end == ")" + rest;
    GroupText(s[..4], SpellList(cs), ")", rest);
  }

  /** How a group opens. */
  lemma Opened(s: string)
    requires StartsWith(s, "any(") || StartsWith(s, "all(")
    ensures s == s[..4] + s[4..] && s[..4] == if s[1] == 'n' then "any(" else "all("
  {
    assert s[..4][1] == s[1] && "any("[1] == 'n' && "all("[1] == 'l';
  }

  lemma GroupText(open_: string, inner: string, close: string, rest: string)
    ensures open_ + (inner + (close + rest)) == open_ + inner + close + rest
  {
  }

  /** What is read is the spelling of what is returned. */
  lemma {:induction false} ReadSound(s: string)
    requires Read(s).Some?
    ensures var (c, rest) := Read(s).value; Plain(c) && s == Spell(c) + rest
    decreases |s|, 0
  {
    if StartsWith(s, "any(") || StartsWith(s, "all(") {
      ReadListSound(s[4..]);
      var (cs, end) := ReadList(s[4..]).value;
      ReadGroupSound(s, cs, end);
    } else if StartsWith(s, PATH) {
      ReadPathSound(s);
    } else {
      ReadHostSound(s);
    }
  }

  lemma {:induction false} ReadListSound(s: string)
    requires ReadList(s).Some?
    ensures var (cs, rest) := ReadList(s).value; PlainList(cs) && s == SpellList(cs) + rest
    decreases |s|, 1
  {
    ReadSound(s);
    var (c, rest) := Read(s).value;
    if StartsWith(rest, ",") {
      var blank := StartsWith(rest, ", ");
      var comma := if blank then ", " else ",";
      var next := rest[if blank then 2 else 1..];
      assert rest == comma + next;
      ReadListSound(next);
      var (cs, end) := ReadList(next).value;
      Regrouped(Spell(c), comma, SpellList(cs), end);
    }
  }

  /** The grammar covers exactly the spellings of quote-free conditions, each read as the one condition it spells. */
  lemma ParseExact(s: string, c: Cond)
    ensures Parse(s) == Some(c) <==> Plain(c) && s == Spell(c)
  {
    if Parse(s) == Some(c) {
      ReadSound(s);
      assert Spell(c) + "" == Spell(c);
    }
    if Plain(c) && s == Spell(c) { ParseBack(c); }
  }
}
