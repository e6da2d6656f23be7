/** The generated names of src/ingress/helpers.go, modified__.go and the digest of src/utils/utils.go. */
module Names {
  import opened Strings

  predicate IsDigit(c: char) { '0' <= c <= '9' }
  predicate IsUpper(c: char) { 'A' <= c <= 'Z' }
  predicate IsLower(c: char) { 'a' <= c <= 'z' }
  predicate IsLetter(c: char) { IsUpper(c) || IsLower(c) }
  predicate IsAlphaNumeric(c: char) { IsLetter(c) || IsDigit(c) }

  predicate AllAlphaNumeric(s: string) {
    forall i | 0 <= i < |s| :: IsAlphaNumeric(s[i])
  }

  /** The hash: MD5 in base64 without padding, slash and plus replaced; 22 letters and digits. */
  type Hash = string -> string

  ghost predicate GoodHash(gen: Hash) {
    forall s :: |gen(s)| == 22 && AllAlphaNumeric(gen(s))
  }

  /** A digit in front is moved to the end, as a letter. */
  function Turned(digest: string): string
    requires digest != "" && AllAlphaNumeric(digest)
  {
    if digest[0] <= '9' then digest[1..] + [('a' as int + '9' as int - digest[0] as int) as char] else digest
  }

  function Grown(gen: Hash, digest: string, length: nat): (r: string)
    requires GoodHash(gen)
    ensures |r| >= length && digest <= r
    decreases length - |digest|
  {
    if |digest| >= length then digest else Grown(gen, digest + gen(digest), length)
  }

  /** `ByteAlphaNumericDigest` as a function. */
  function Digest(gen: Hash, bytes: string, length: nat): string
    requires GoodHash(gen)
  {
    Grown(gen, Turned(gen(bytes)), length)[..length]
  }

  /** `ByteAlphaNumericDigest`: the loop ends, with exactly the requested length. */
  method ByteAlphaNumericDigest(gen: Hash, bytes: string, length: nat) returns (digest: string)
    requires GoodHash(gen)
    ensures digest == Digest(gen, bytes, length) && |digest| == length
  {
    digest := gen(bytes);
    if digest[0] <= '9' {
      digest := digest[1..] + [('a' as int + '9' as int - digest[0] as int) as char];
    }
    while |digest| < length
      invariant Grown(gen, digest, length) == Grown(gen, Turned(gen(bytes)), length)
      decreases length - |digest|
    {
      digest := digest + gen(digest);
    }
    digest := digest[..length];
  }

  lemma {:induction false} GrownAlphaNumeric(gen: Hash, digest: string, length: nat)
    requires GoodHash(gen) && AllAlphaNumeric(digest)
    ensures AllAlphaNumeric(Grown(gen, digest, length))
    decreases length - |digest|
  {
    if |digest| < length { GrownAlphaNumeric(gen, digest + gen(digest), length); }
  }

  /** A digest is made of letters and digits only. */
  lemma DigestAlphaNumeric(gen: Hash, bytes: string, length: nat)
    requires GoodHash(gen)
    ensures |Digest(gen, bytes, length)| == length
    ensures AllAlphaNumeric(Digest(gen, bytes, length))
  {
    GrownAlphaNumeric(gen, Turned(gen(bytes)), length);
  }

  /** The digest of 32 characters: the hash, with a leading digit moved to the end as a letter, and then the hash of that. */
  lemma LongDigest(gen: Hash, bytes: string)
    requires GoodHash(gen)
    ensures var hash := gen(bytes);
            var first := if IsDigit(hash[0]) then hash[1..] + [['j', 'i', 'h', 'g', 'f', 'e', 'd', 'c', 'b', 'a'][hash[0] as int - '0' as int]] else hash;
      && Digest(gen, bytes, 32) == first + gen(first)[..10]
      && Digest(gen, bytes, 15) == first[..15]
  {
    var hash := gen(bytes);
    var first := Turned(hash);
    assert IsAlphaNumeric(hash[0]);
    assert Grown(gen, first, 32) == Grown(gen, first + gen(first), 32) == first + gen(first);
    assert (first + gen(first))[..32] == first + gen(first)[..10];
  }

  /** `^[a-zA-Z_][a-zA-Z_0-9]*$`, with a length between 1 and 32. */
  predicate IsPolicyName(name: string) {
    && 1 <= |name| <= 32
    && (IsLetter(name[0]) || name[0] == '_')
    && forall c <- name :: IsAlphaNumeric(c) || c == '_'
  }

  /**
   Turning one digit away is not always enough: a digest serves as a rule name unless the hash
   starts with two digits.
   */
  lemma DigestAsName(gen: Hash, bytes: string, length: nat)
    requires GoodHash(gen) && 1 <= length <= 32
    ensures IsPolicyName(Digest(gen, bytes, length)) <==> !(IsDigit(gen(bytes)[0]) && IsDigit(gen(bytes)[1]))
  {
    DigestAlphaNumeric(gen, bytes, length);
    var hash := gen(bytes);
    assert Digest(gen, bytes, length)[0] == Turned(hash)[0];
  }

  // ---------------------------------------------------------------------------------------------
  // Routing policy names

  function Lower(c: char): char {
    if IsUpper(c) then (c as int - 'A' as int + 'a' as int) as char else c
  }

  /** `strings.ToLower` on ASCII. */
  function ToLower(s: string): string {
    seq(|s|, i requires 0 <= i < |s| => Lower(s[i]))
  }

  /** `strings.ReplaceAll`. */
  function ReplaceAll(s: string, old_: string, new_: string): string
    requires old_ != ""
  {
    if s == "" then ""
    else if StartsWith(s, old_) then new_ + ReplaceAll(s[|old_|..], old_, new_)
    else [s[0]] + ReplaceAll(s[1..], old_, new_)
  }

  lemma {:induction false} ReplaceAllChars(s: string, old_: string, new_: string)
    requires old_ != "" && new_ != ""
    ensures forall c <- ReplaceAll(s, old_, new_) :: c in new_ || c in s
    ensures |old_| == 1 && old_[0] !in new_ ==> old_[0] !in ReplaceAll(s, old_, new_)
    ensures s != "" ==> ReplaceAll(s, old_, new_) != ""
                        && (ReplaceAll(s, old_, new_)[0] == if StartsWith(s, old_) then new_[0] else s[0])
    decreases |s|
  {
    if s == "" {
    } else if StartsWith(s, old_) {
      ReplaceAllChars(s[|old_|..], old_, new_);
    } else {
      ReplaceAllChars(s[1..], old_, new_);
      if |old_| == 1 { assert s[..1] == [s[0]] && old_ == [old_[0]]; }
    }
  }

  lemma {:induction false} ReplaceAllNone(s: string, old_: string, new_: string)
    requires old_ != "" && old_[0] !in s
    ensures ReplaceAll(s, old_, new_) == s
    decreases |s|
  {
    if s != "" {
      ReplaceAllNone(s[1..], old_, new_);
    }
  }

  /** The host with everything a policy name cannot hold replaced. */
  function PolicyStem(hostname: string): string {
    var a := ReplaceAll(ToLower(hostname), "*.", "S_");
    var b := ReplaceAll(a, ".", "_");
    var c := ReplaceAll(b, "-", "_");
    var d := ReplaceAll(c, "__", "_");
    if d != "" && IsDigit(d[0]) then "X_" + d else d
  }

  /** `getRoutingPolicyName`, before it is checked. */
  function RoutingPolicyName(gen: Hash, hostname: string): string
    requires GoodHash(gen)
  {
    SafeSlice(SafeSlice(PolicyStem(hostname), 0, 25) + "_" + Digest(gen, hostname, 32), 0, 32)
  }

  /** Letters, digits, dots and hyphens, the first one a letter or digit, as section 2.1 of RFC 1123 asks of a host name. */
  predicate IsHostName(h: string) {
    h != "" && IsAlphaNumeric(h[0]) && forall c <- h :: IsAlphaNumeric(c) || c == '.' || c == '-'
  }

  /** A host an Ingress rule may have: none, a name, or a name below a wildcard label. */
  predicate IsIngressHost(h: string) {
    h == "" || IsHostName(h) || (StartsWith(h, "*.") && IsHostName(h[2..]))
  }

  /** A stem of legal characters that does not start with a digit. */
  predicate IsStem(s: string) {
    (forall c <- s :: IsAlphaNumeric(c) || c == '_') && (s != "" ==> !IsDigit(s[0]))
  }

  lemma LowerHost(h: string)
    requires IsHostName(h)
    ensures IsHostName(ToLower(h)) && '*' !in ToLower(h)
  {
    forall c | c in ToLower(h) ensures IsAlphaNumeric(c) || c == '.' || c == '-' {
      var i :| 0 <= i < |h| && c == Lower(h[i]);
      assert h[i] in h;
    }
  }

  lemma StarReplaced(h: string)
    requires IsIngressHost(h) && h != ""
    ensures var a := ReplaceAll(ToLower(h), "*.", "S_");
      && a != "" && (forall c <- a :: IsAlphaNumeric(c) || c == '.' || c == '-' || c == '_') && IsAlphaNumeric(a[0])
  {
    if IsHostName(h) {
      LowerHost(h);
      ReplaceAllNone(ToLower(h), "*.", "S_");
    } else {
      LowerHost(h[2..]);
      var low := ToLower(h);
      assert h[..2] == "*." && h[0] == '*' && h[1] == '.';
      assert low[..2] == "*.";
      assert low[2..] == ToLower(h[2..]);
      ReplaceAllNone(low[2..], "*.", "S_");
      assert ReplaceAll(low, "*.", "S_") == "S_" + low[2..];
    }
  }

  lemma StemIsLegal(h: string)
    requires IsIngressHost(h)
    ensures IsStem(PolicyStem(h))
  {
    if h != "" {
      StarReplaced(h);
      var a := ReplaceAll(ToLower(h), "*.", "S_");
      var b := ReplaceAll(a, ".", "_");
      var c := ReplaceAll(b, "-", "_");
      ReplaceAllChars(a, ".", "_");
      ReplaceAllChars(b, "-", "_");
      ReplaceAllChars(c, "__", "_");
    } else {
      assert ToLower(h) == "";
    }
  }

  /** For every host an Ingress can have, the policy name has 32 legal characters, so the panic is unreachable. */
  lemma RoutingPolicyNameFits(gen: Hash, hostname: string)
    requires GoodHash(gen) && IsIngressHost(hostname)
    ensures |RoutingPolicyName(gen, hostname)| == 32 && IsPolicyName(RoutingPolicyName(gen, hostname))
  {
    StemIsLegal(hostname);
    DigestAlphaNumeric(gen, hostname, 32);
    var stem, digest := SafeSlice(PolicyStem(hostname), 0, 25), Digest(gen, hostname, 32);
    var whole := stem + "_" + digest;
    assert forall c <- stem :: c in PolicyStem(hostname);
    assert forall c <- whole :: c in stem || c == '_' || c in digest;
    var name := RoutingPolicyName(gen, hostname);
    assert name == whole[..32];
    assert forall c <- name :: c in whole;
    assert name[0] == if stem == "" then '_' else PolicyStem(hostname)[0];
    if stem != "" { assert stem[0] in PolicyStem(hostname); }
  }

  /** The name is the stem, cut to 25 characters, and as much of the digest of the host as there is room for. */
  lemma RoutingPolicyNameShape(gen: Hash, hostname: string)
    requires GoodHash(gen)
    ensures var stem := PolicyStem(hostname);
            var head := if |stem| > 25 then stem[..25] else stem;
            RoutingPolicyName(gen, hostname) == head + "_" + Digest(gen, hostname, 32)[..31 - |head|]
  {
    DigestAlphaNumeric(gen, hostname, 32);
    var stem := PolicyStem(hostname);
    var head := if |stem| > 25 then stem[..25] else stem;
    var digest := Digest(gen, hostname, 32);
    assert SafeSlice(stem, 0, 25) == head;
    assert (head + "_" + digest)[..32] == head + "_" + digest[..31 - |head|];
  }

  function Swapped(s: string, c: char, d: char): string {
    seq(|s|, i requires 0 <= i < |s| => if s[i] == c then d else s[i])
  }

  lemma {:induction false} ReplaceChar(s: string, c: char, d: char)
    ensures ReplaceAll(s, [c], [d]) == Swapped(s, c, d)
  {
    if s != "" {
      ReplaceChar(s[1..], c, d);
      assert s[..1] == [s[0]];
      assert s[|[c]|..] == s[1..];
    }
  }

  predicate Doubled(s: string) {
    exists i :: 0 <= i < |s| - 1 && s[i] == '_' && s[i + 1] == '_'
  }

  lemma NoDoubleAhead(s: string)
    requires !Doubled(s)
    ensures !StartsWith(s, "__")
  {
    if |s| >= 2 { assert s[..2][0] == s[0] && s[..2][1] == s[1]; }
  }

  lemma {:induction false} NoDoubles(s: string)
    requires !Doubled(s)
    ensures ReplaceAll(s, "__", "_") == s
  {
    if s != "" {
      NoDoubleAhead(s);
      forall i | 0 <= i < |s[1..]| - 1 ensures !(s[1..][i] == '_' && s[1..][i + 1] == '_') {
        assert s[1..][i] == s[i + 1] && s[1..][i + 1] == s[i + 2];
      }
      NoDoubles(s[1..]);
    }
  }

  /** A host of labels as Kubernetes grants them, starting with a letter, and without hyphens or dots side by side. */
  predicate IsPlainLabels(h: string) {
    && (forall c <- h :: IsLower(c) || IsDigit(c) || c == '.' || c == '-')
    && (h != "" ==> IsLower(h[0]))
    && forall i | 0 <= i < |h| - 1 :: h[i] in ".-" ==> h[i + 1] !in ".-"
  }

  lemma LabelsAreLower(h: string)
    requires IsPlainLabels(h)
    ensures ToLower(h) == h && '*' !in h
  {
    forall i | 0 <= i < |h| ensures Lower(h[i]) == h[i] { assert h[i] in h; }
  }

  lemma LabelsUnderscored(h: string)
    requires IsPlainLabels(h)
    ensures var c := Swapped(Swapped(h, '.', '_'), '-', '_');
      && c == seq(|h|, i requires 0 <= i < |h| => if h[i] == '.' || h[i] == '-' then '_' else h[i])
      && !Doubled(c) && (h != "" ==> !IsDigit(c[0]))
  {
    var c := Swapped(Swapped(h, '.', '_'), '-', '_');
    forall i | 0 <= i < |c| - 1 ensures !(c[i] == '_' && c[i + 1] == '_') {
      assert h[i] in h && h[i + 1] in h;
    }
  }

  /** The stem of such a host is the host with its dots and hyphens as underscores. */
  lemma StemOfLabels(h: string)
    requires IsPlainLabels(h)
    ensures PolicyStem(h) == seq(|h|, i requires 0 <= i < |h| => if h[i] == '.' || h[i] == '-' then '_' else h[i])
  {
    LabelsAreLower(h);
    LabelsUnderscored(h);
    hide ReplaceAll, Swapped, Doubled, IsPlainLabels, ToLower;
    ReplaceAllNone(h, "*.", "S_");
    ReplaceChar(h, '.', '_');
    ReplaceChar(Swapped(h, '.', '_'), '-', '_');
    NoDoubles(Swapped(Swapped(h, '.', '_'), '-', '_'));
  }

  // ---------------------------------------------------------------------------------------------
  // Backend set names

  /** `strconv.Itoa` for natural numbers. */
  function Itoa(n: nat): (s: string)
    ensures s != "" && forall c <- s :: IsDigit(c)
  {
    var last := [('0' as int + n % 10) as char];
    if n < 10 then last else Itoa(n / 10) + last
  }

  lemma {:induction false} ItoaInjective(a: nat, b: nat)
    requires Itoa(a) == Itoa(b)
    ensures a == b
  {
    var sa, sb := Itoa(a), Itoa(b);
    assert sa[|sa| - 1] == sb[|sb| - 1];
    if a >= 10 && b >= 10 {
      assert sa[..|sa| - 1] == Itoa(a / 10) && sb[..|sb| - 1] == Itoa(b / 10);
      ItoaInjective(a / 10, b / 10);
    }
  }

  /** The number that decimal digits stand for. */
  function ReadDecimal(s: string): int {
    if s == "" then 0 else 10 * ReadDecimal(s[..|s| - 1]) + (s[|s| - 1] as int - '0' as int)
  }

  /** Printing a number gives its decimal digits, without leading zeros. */
  lemma {:induction false} ItoaReads(n: nat)
    ensures ReadDecimal(Itoa(n)) == n && (n > 0 ==> Itoa(n)[0] != '0')
  {
    var s := Itoa(n);
    if n >= 10 {
      ItoaReads(n / 10);
      assert s[..|s| - 1] == Itoa(n / 10);
    } else {
      assert s[..|s| - 1] == "";
    }
  }

  lemma ItoaLength(n: nat)
    requires n < 100000
    ensures |Itoa(n)| <= 5
  {
    assert n / 10 / 10 / 10 / 10 < 10;
    if n >= 10 { assert |Itoa(n)| == |Itoa(n / 10)| + 1; }
    if n / 10 >= 10 { assert |Itoa(n / 10)| == |Itoa(n / 10 / 10)| + 1; }
    if n / 10 / 10 >= 10 { assert |Itoa(n / 10 / 10)| == |Itoa(n / 10 / 10 / 10)| + 1; }
    if n / 10 / 10 / 10 >= 10 { assert |Itoa(n / 10 / 10 / 10)| == |Itoa(n / 10 / 10 / 10 / 10)| + 1; }
  }

  function PortSegment(protocol: string, port: nat): string
    requires protocol != ""
  {
    protocol[..1] + Itoa(port)
  }

  /** `GetBackendSetName`, for ports of up to five digits. */
  function BackendSetName(gen: Hash, service: string, protocol: string, port: nat): string
    requires GoodHash(gen) && protocol != "" && port < 100000
  {
    var portStr := PortSegment(protocol, port);
    ItoaLength(port);
    var stem := SafeSlice(service, 0, 32 - |portStr| - 6 - 2);
    SafeSlice(stem + "_" + portStr + "_" + Digest(gen, service, 32), 0, 32)
  }

  /** The name has 32 characters and holds the whole port segment and at least six characters of the digest. */
  lemma BackendSetNameFits(gen: Hash, service: string, protocol: string, port: nat) returns (stem: string, digits: nat)
    requires GoodHash(gen) && protocol != "" && port < 100000
    ensures 6 <= digits <= 32 && stem <= service && (|stem| == |service| || digits == 6)
    ensures BackendSetName(gen, service, protocol, port)
         == stem + "_" + (PortSegment(protocol, port) + "_" + Digest(gen, service, 32)[..digits])
    ensures |BackendSetName(gen, service, protocol, port)| == 32
  {
    var portStr, digest := PortSegment(protocol, port), Digest(gen, service, 32);
    ItoaLength(port);
    DigestAlphaNumeric(gen, service, 32);
    stem := SafeSlice(service, 0, 32 - |portStr| - 6 - 2);
    digits := 32 - |stem| - |portStr| - 2;
    assert (stem + "_" + portStr + "_" + digest)[..32] == stem + "_" + (portStr + "_" + digest[..digits]);
  }

  lemma FieldBefore(head: string, tail: string)
    requires '_' !in head
    ensures Split(head + "_" + tail, '_') == [head] + Split(tail, '_')
  {
    var rest := "_" + tail;
    assert rest[1..] == tail;
    assert Split(rest, '_') == [""] + Split(tail, '_');
    SplitPlain(head, rest, '_');
    assert head + "_" + tail == head + rest;
    assert head + "" == head;
  }

  /** The ports of one service never share a name, unless their protocols share a first letter and they are the same number. */
  lemma BackendSetNamesApart(gen: Hash, service: string, protocol: string, port: nat, protocol': string, port': nat)
    requires GoodHash(gen) && protocol != "" && port < 100000 && protocol' != "" && port' < 100000
    requires '_' !in service && protocol[0] != '_' && protocol'[0] != '_'
    requires BackendSetName(gen, service, protocol, port) == BackendSetName(gen, service, protocol', port')
    ensures protocol[0] == protocol'[0] && port == port'
  {
    var stem, digits := BackendSetNameFits(gen, service, protocol, port);
    var stem', digits' := BackendSetNameFits(gen, service, protocol', port');
    var seg, seg' := PortSegment(protocol, port), PortSegment(protocol', port');
    FieldBefore(stem, seg + "_" + Digest(gen, service, 32)[..digits]);
    FieldBefore(seg, Digest(gen, service, 32)[..digits]);
    FieldBefore(stem', seg' + "_" + Digest(gen, service, 32)[..digits']);
    FieldBefore(seg', Digest(gen, service, 32)[..digits']);
    var fields := Split(BackendSetName(gen, service, protocol, port), '_');
    assert fields[1] == seg && fields[1] == seg';
    assert seg[1..] == Itoa(port) && seg'[1..] == Itoa(port');
    ItoaInjective(port, port');
  }

  // ---------------------------------------------------------------------------------------------
  // Listener and hostname names

  /** `getHostnameName`: a host of more than 240 characters is cut and given a digest. */
  function HostnameName(gen: Hash, hostname: string): string
    requires GoodHash(gen)
  {
    if |hostname| > 240 then SafeSlice(hostname[..240] + Digest(gen, hostname, 15), 0, 255) else hostname
  }

  /** Hosts of up to 240 characters are their own entries; longer ones are cut and told apart by 15 characters of the digest. */
  lemma HostnameNameShape(gen: Hash, hostname: string)
    requires GoodHash(gen)
    ensures |HostnameName(gen, hostname)| <= 255
    ensures HostnameName(gen, hostname) == if |hostname| <= 240 then hostname else hostname[..240] + Digest(gen, hostname, 15)
  {
    DigestAlphaNumeric(gen, hostname, 15);
  }

  /** `GetListenerName`, before it is checked. */
  function ListenerName(gen: Hash, hostname: string): string
    requires GoodHash(gen)
  {
    if hostname == "" then "any-host"
    else
      var name := ReplaceAll(ReplaceAll(ToLower(hostname), "*.", "STAR"), ".", "DOT");
      if |name| > 240 then SafeSlice(name[..240] + Digest(gen, hostname, 15), 0, 255) else name
  }

  /** `^[a-zA-Z0-9_-]{1,255}$`. */
  predicate IsListenerName(name: string) {
    1 <= |name| <= 255 && forall c <- name :: IsAlphaNumeric(c) || c == '_' || c == '-'
  }

  /** For every host an Ingress can have, the listener name is legal, so the panic is unreachable. */
  lemma ListenerNameFits(gen: Hash, hostname: string)
    requires GoodHash(gen) && IsIngressHost(hostname)
    ensures IsListenerName(ListenerName(gen, hostname))
  {
    if hostname == "" {
      assert ListenerName(gen, hostname) == "any-host";
    } else {
      var starless := ReplaceAll(ToLower(hostname), "*.", "STAR");
      var name := ReplaceAll(starless, ".", "DOT");
      StarSpelledOut(hostname);
      DotsSpelledOut(starless);
      if |name| > 240 {
        DigestAlphaNumeric(gen, hostname, 15);
        forall c | c in ListenerName(gen, hostname) ensures IsAlphaNumeric(c) || c == '-' {
          assert c in name[..240] || c in Digest(gen, hostname, 15);
        }
      }
    }
  }

  lemma StarSpelledOut(h: string)
    requires IsIngressHost(h) && h != ""
    ensures var a := ReplaceAll(ToLower(h), "*.", "STAR");
      a != "" && forall c <- a :: IsAlphaNumeric(c) || c == '.' || c == '-'
  {
    if IsHostName(h) {
      LowerHost(h);
      ReplaceAllNone(ToLower(h), "*.", "STAR");
    } else {
      LowerHost(h[2..]);
      var low := ToLower(h);
      assert h[..2] == "*." && h[0] == '*' && h[1] == '.';
      assert low[..2] == "*.";
      assert low[2..] == ToLower(h[2..]);
      ReplaceAllNone(low[2..], "*.", "STAR");
      assert ReplaceAll(low, "*.", "STAR") == "STAR" + low[2..];
    }
  }

  lemma {:induction false} DotsSpelledOut(s: string)
    requires forall c <- s :: IsAlphaNumeric(c) || c == '.' || c == '-'
    ensures var name := ReplaceAll(s, ".", "DOT");
      |name| >= |s| && forall c <- name :: IsAlphaNumeric(c) || c == '-'
  {
    if s != "" { DotsSpelledOut(s[1..]); }
  }

  // ---------------------------------------------------------------------------------------------
  // What a listener name tells of its host

  /** The host that a listener name spells out. */
  function Spelled(name: string): string {
    if name == "" then ""
    else if StartsWith(name, "DOT") then "." + Spelled(name[3..])
    else if StartsWith(name, "STAR") then "*." + Spelled(name[4..])
    else [name[0]] + Spelled(name[1..])
  }

  lemma {:induction false} DotsReadBack(s: string)
    requires forall c <- s :: !IsUpper(c)
    ensures Spelled(ReplaceAll(s, ".", "DOT")) == s
  {
    if s != "" {
      DotsReadBack(s[1..]);
      var rest := ReplaceAll(s[1..], ".", "DOT");
      assert s[..1] == [s[0]] && s == [s[0]] + s[1..];
      if s[0] == '.' {
        StartsWithHead("DOT", rest);
        assert ("DOT" + rest)[3..] == rest;
      } else {
        var name := [s[0]] + rest;
        assert s[0] in s && name[0] == s[0] && name[1..] == rest;
        OtherHead(name, "DOT");
        OtherHead(name, "STAR");
      }
    }
  }

  lemma OtherHead(s: string, prefix: string)
    requires s != "" && prefix != "" && s[0] != prefix[0]
    ensures !StartsWith(s, prefix)
  {
    if |prefix| <= |s| { assert s[..|prefix|][0] == s[0]; }
  }

  lemma StartsWithHead(head: string, rest: string)
    ensures StartsWith(head + rest, head)
  {
  }

  lemma LowerHasNoUpper(s: string)
    ensures forall c <- ToLower(s) :: !IsUpper(c)
  {
  }

  /** Before it is cut, the name of a host spells out the host in lower case. */
  lemma NameReadsBack(h: string)
    requires IsIngressHost(h) && h != ""
    ensures Spelled(ReplaceAll(ReplaceAll(ToLower(h), "*.", "STAR"), ".", "DOT")) == ToLower(h)
  {
    LowerHasNoUpper(h);
    var low := ToLower(h);
    if IsHostName(h) {
      LowerHost(h);
      ReplaceAllNone(low, "*.", "STAR");
      DotsReadBack(low);
    } else {
      LowerHost(h[2..]);
      LowerHasNoUpper(h[2..]);
      assert h[..2] == "*." && h[0] == '*' && h[1] == '.';
      assert low[..2] == "*." && low[2..] == ToLower(h[2..]) && low == "*." + low[2..];
      ReplaceAllNone(low[2..], "*.", "STAR");
      assert ReplaceAll(low, "*.", "STAR") == "STAR" + low[2..];
      StarDots(low[2..]);
      DotsReadBack(low[2..]);
      var rest := ReplaceAll(low[2..], ".", "DOT");
      StartsWithHead("STAR", rest);
      assert ("STAR" + rest)[4..] == rest && ("STAR" + rest)[0] == 'S';
      OtherHead("STAR" + rest, "DOT");
    }
  }

  lemma OtherCharPassed(s: string, c: char, new_: string)
    requires s != "" && s[0] != c
    ensures ReplaceAll(s, [c], new_) == [s[0]] + ReplaceAll(s[1..], [c], new_)
  {
    OtherHead(s, [c]);
  }

  lemma {:induction false} ReplacePassed(head: string, s: string, c: char, new_: string)
    requires c !in head
    ensures ReplaceAll(head + s, [c], new_) == head + ReplaceAll(s, [c], new_)
  {
    hide ReplaceAll;
    if head == "" {
      assert head + s == s && head + ReplaceAll(s, [c], new_) == ReplaceAll(s, [c], new_);
    } else {
      ReplacePassed(head[1..], s, c, new_);
      assert (head + s)[1..] == head[1..] + s && (head + s)[0] == head[0];
      OtherCharPassed(head + s, c, new_);
      assert head == [head[0]] + head[1..];
    }
  }

  lemma StarDots(s: string)
    ensures ReplaceAll("STAR" + s, ".", "DOT") == "STAR" + ReplaceAll(s, ".", "DOT")
  {
    ReplacePassed("STAR", s, '.', "DOT");
  }

  /** The name needs no digest. */
  predicate IsShort(h: string) {
    |ReplaceAll(ReplaceAll(ToLower(h), "*.", "STAR"), ".", "DOT")| <= 240
  }

  /** Short listener names are told apart by the hosts, and only by them, letter case aside. */
  lemma ListenerNamesApart(gen: Hash, a: string, b: string)
    requires GoodHash(gen) && IsIngressHost(a) && IsIngressHost(b) && a != "" && b != "" && IsShort(a) && IsShort(b)
    ensures ListenerName(gen, a) == ListenerName(gen, b) <==> ToLower(a) == ToLower(b)
  {
    NameReadsBack(a);
    NameReadsBack(b);
  }

  /** A listener name that would be too long is cut as well, with the digest of the host. */
  lemma LongListenerName(gen: Hash, h: string)
    requires GoodHash(gen) && h != "" && !IsShort(h)
    ensures ListenerName(gen, h) == ReplaceAll(ReplaceAll(ToLower(h), "*.", "STAR"), ".", "DOT")[..240] + Digest(gen, h, 15)
  {
    DigestAlphaNumeric(gen, h, 15);
  }

  /** A host that is one short label of lower-case letters and hyphens is its own listener name. */
  lemma OneLabel(gen: Hash, h: string)
    requires GoodHash(gen) && 1 <= |h| <= 240 && IsLower(h[0]) && forall i | 0 <= i < |h| :: IsLower(h[i]) || h[i] == '-'
    ensures IsIngressHost(h) && ListenerName(gen, h) == h
  {
    assert ToLower(h) == h;
    ReplaceAllNone(h, "*.", "STAR");
    ReplaceAllNone(h, ".", "DOT");
  }

  /** The name for requests of every host is also that of the host `any-host`. */
  lemma AnyHostCollides(gen: Hash)
    requires GoodHash(gen)
    ensures IsIngressHost("any-host") && ListenerName(gen, "any-host") == ListenerName(gen, "")
  {
    var h := "any-host";
    assert h[0] == 'a' && h[1] == 'n' && h[2] == 'y' && h[3] == '-' && h[4] == 'h' && h[5] == 'o' && h[6] == 's' && h[7] == 't';
    OneLabel(gen, h);
    hide ListenerName;
    EmptyHostName(gen);
  }

  lemma EmptyHostName(gen: Hash)
    requires GoodHash(gen)
    ensures ListenerName(gen, "") == "any-host"
  {
  }
}
