/** String helpers of Go's `strings` and `fmt` packages, and of src/utils/strings.go. */
module Strings {

  /** `strings.Split(s, sep)` for a one-character separator. */
  function Split(s: string, sep: char): (fields: seq<string>)
    ensures |fields| > 0
  {
    if s == "" then [""]
    else
      var rest := Split(s[1..], sep);
      if s[0] == sep then [""] + rest
      else [[s[0]] + rest[0]] + rest[1..]
  }

  /** `strings.Join(fields, sep)`. */
  function Join(fields: seq<string>, sep: string): string {
    if fields == [] then ""
    else if |fields| == 1 then fields[0]
    else fields[0] + sep + Join(fields[1..], sep)
  }

  /** Splitting and rejoining is the identity. */
  lemma {:induction false} JoinOfSplit(s: string, sep: char)
    ensures Join(Split(s, sep), [sep]) == s
  {
    if s != "" {
      JoinOfSplit(s[1..], sep);
      var rest := Split(s[1..], sep);
      if s[0] == sep {
        assert Split(s, sep)[1..] == rest;
      } else if |rest| > 1 {
        assert Split(s, sep)[1..] == rest[1..];
        assert [s[0]] + (rest[0] + [sep] + Join(rest[1..], [sep])) == s;
      }
    }
  }

  /** No field of a split contains the separator. */
  lemma {:induction false} SplitFields(s: string, sep: char, i: nat)
    requires i < |Split(s, sep)|
    ensures sep !in Split(s, sep)[i]
  {
    if s != "" {
      var rest := Split(s[1..], sep);
      if s[0] == sep {
        if i > 0 { SplitFields(s[1..], sep, i - 1); }
      } else {
        SplitFields(s[1..], sep, i);
      }
    }
  }

  /** Splitting gives back any fields that do not contain the separator. */
  lemma {:induction false} SplitOfJoin(fields: seq<string>, sep: char)
    requires fields != [] && forall f <- fields :: sep !in f
    ensures Split(Join(fields, [sep]), sep) == fields
  {
    var head := fields[0];
    if |fields| == 1 {
      SplitPlain(head, "", sep);
      assert head + "" == head;
    } else {
      var tail := Join(fields[1..], [sep]);
      SplitOfJoin(fields[1..], sep);
      SplitPlain(head, [sep] + tail, sep);
      var rest := [sep] + tail;
      assert rest[1..] == tail;
      assert Split(rest, sep) == [""] + fields[1..];
      assert Split(rest, sep)[0] == "" && Split(rest, sep)[1..] == fields[1..];
      assert head + "" == head;
      assert Join(fields, [sep]) == head + rest;
      assert [head] + fields[1..] == fields;
    }
  }

  /** A prefix without the separator only lengthens the first field. */
  lemma {:induction false} SplitPlain(head: string, tail: string, sep: char)
    requires sep !in head
    ensures var rest := Split(tail, sep); Split(head + tail, sep) == [head + rest[0]] + rest[1..]
  {
    if head == "" {
      var rest := Split(tail, sep);
      assert head + tail == tail && head + rest[0] == rest[0] && [rest[0]] + rest[1..] == rest;
    } else {
      SplitPlain(head[1..], tail, sep);
      var rest := Split(tail, sep);
      var inner := Split(head[1..] + tail, sep);
      assert (head + tail)[1..] == head[1..] + tail;
      assert inner[0] == head[1..] + rest[0] && inner[1..] == rest[1..];
      assert [head[0]] + (head[1..] + rest[0]) == head + rest[0];
    }
  }

  /** `fmt.Sprint` of a string slice: the names in brackets, one blank between them; nil prints like the empty slice. */
  function Sprint(names: seq<string>): string {
    "[" + Join(names, " ") + "]"
  }

  /** A name that `Sprint` shows unambiguously: not empty and without blanks. */
  predicate PlainName(name: string) {
    name != "" && ' ' !in name
  }

  /** On plain names, equal prints mean equal slices. */
  lemma SprintInjective(a: seq<string>, b: seq<string>)
    requires forall n <- a :: PlainName(n)
    requires forall n <- b :: PlainName(n)
    requires Sprint(a) == Sprint(b)
    ensures a == b
  {
    var ja, jb := Join(a, " "), Join(b, " ");
    assert ja == Sprint(a)[1..|ja| + 1] && jb == Sprint(b)[1..|jb| + 1];
    if a == [] || b == [] {
      JoinEmpty(a);
      JoinEmpty(b);
    } else {
      SplitOfJoin(a, ' ');
      SplitOfJoin(b, ' ');
    }
  }

  lemma JoinEmpty(a: seq<string>)
    requires forall n <- a :: PlainName(n)
    ensures Join(a, " ") == "" <==> a == []
  {
    if a != [] { assert PlainName(a[0]); }
  }

  /** `SafeSlice` of src/utils/strings.go. */
  function SafeSlice(s: string, start: nat, end: int): string {
    if start >= |s| || end < start then ""
    else if end > |s| then s[start..]
    else s[start..end]
  }

  predicate StartsWith(s: string, prefix: string) {
    |prefix| <= |s| && s[..|prefix|] == prefix
  }

  predicate EndsWith(s: string, suffix: string) {
    |suffix| <= |s| && s[|s| - |suffix|..] == suffix
  }

  ghost predicate Contains(s: string, part: string) {
    exists i :: 0 <= i <= |s| && StartsWith(s[i..], part)
  }
}
