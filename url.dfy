/** The part of the WHATWG URL Standard's basic URL parser that decides
    `new URL(target, "https://" + host).pathname`: the cleaning of the input, whether the base's
    authority parses, network-path targets (`//authority/path`), whose authority is read and then
    dropped, and the path of every other target. The constructor throws exactly when the base or
    the target fails to parse. */
module Url {
  import opened Wrappers
  import opened Strings

  /** Both `/` and `\` separate path segments in an `https` URL. */
  predicate IsSlash(c: char)
  {
    c == '/' || c == '\\'
  }

  /** The parser removes tabs and newlines from anywhere in its input. */
  predicate IsTabOrNewline(c: char)
  {
    c == '\t' || c == '\n' || c == '\r'
  }

  /** C0 controls and space: trimmed from both ends of the input. */
  predicate IsC0OrSpace(c: char)
  {
    c <= ' '
  }

  /** The forbidden domain code points: C0 controls, space, `#%/:<>?@[\]^|` and DEL. */
  predicate ForbiddenDomainChar(c: char)
  {
    c <= ' ' || c in {'#', '%', '/', ':', '<', '>', '?', '@', '[', '\\', ']', '^', '|'} || c == '\U{007F}'
  }

  predicate IsDigit(c: char)
  {
    '0' <= c <= '9'
  }

  /** The characters an IPv6 literal between brackets is written with. */
  predicate IsIpv6Char(c: char)
  {
    IsDigit(c) || 'a' <= c <= 'f' || 'A' <= c <= 'F' || c == ':' || c == '.'
  }

  function RemoveTabsAndNewlines(s: string): (r: string)
    ensures |r| <= |s|
    ensures forall c :: c in r <==> c in s && !IsTabOrNewline(c)
    decreases |s|
  {
    if s == [] then [] else (if IsTabOrNewline(s[0]) then [] else [s[0]]) + RemoveTabsAndNewlines(s[1..])
  }

  function StripStart(s: string): (r: string)
    ensures |r| <= |s| && r == s[|s| - |r|..]
    ensures r == [] || !IsC0OrSpace(r[0])
    ensures forall i :: 0 <= i < |s| - |r| ==> IsC0OrSpace(s[i])
    decreases |s|
  {
    if s != [] && IsC0OrSpace(s[0]) then
      var r := StripStart(s[1..]);
      assert forall i :: 1 <= i < |s| - |r| ==> s[i] == s[1..][i - 1];
      r
    else s
  }

  function StripEnd(s: string): (r: string)
    ensures |r| <= |s| && r == s[..|r|]
    ensures r == [] || !IsC0OrSpace(r[|r| - 1])
    ensures forall i :: |r| <= i < |s| ==> IsC0OrSpace(s[i])
    decreases |s|
  {
    if s != [] && IsC0OrSpace(s[|s| - 1]) then StripEnd(s[..|s| - 1]) else s
  }

  /** What the parser reads of an input: leading and trailing C0 controls and spaces trimmed,
      then every tab and newline removed. */
  function Cleaned(s: string): string
  {
    RemoveTabsAndNewlines(StripEnd(StripStart(s)))
  }

  /** A string with no control character or space anywhere reads as it is. */
  lemma CleanedPlain(s: string)
    requires forall i :: 0 <= i < |s| ==> !IsC0OrSpace(s[i])
    ensures Cleaned(s) == s
  {
    assert StripStart(s) == s;
    assert StripEnd(s) == s;
    RemovesNothing(s);
  }

  lemma {:induction false} RemovesNothing(s: string)
    requires forall i :: 0 <= i < |s| ==> !IsTabOrNewline(s[i])
    ensures RemoveTabsAndNewlines(s) == s
    decreases |s|
  {
    if s != [] {
      RemovesNothing(s[1..]);
    }
  }

  /** `s` without its leading slashes: the parser skips any number of them before an authority. */
  function DropSlashes(s: string): (r: string)
    ensures |r| <= |s| && r == s[|s| - |r|..]
    ensures r == [] || !IsSlash(r[0])
    ensures forall i :: 0 <= i < |s| - |r| ==> IsSlash(s[i])
    decreases |s|
  {
    if s != [] && IsSlash(s[0]) then
      var r := DropSlashes(s[1..]);
      assert forall i :: 1 <= i < |s| - |r| ==> s[i] == s[1..][i - 1];
      r
    else s
  }

  /** The length of the longest prefix of `s` holding none of `stops`. */
  function SpanUntil(s: string, stops: set<char>): (n: nat)
    ensures n <= |s|
    ensures forall i :: 0 <= i < n ==> s[i] !in stops
    ensures n < |s| ==> s[n] in stops
    decreases |s|
  {
    if s == [] || s[0] in stops then 0 else 1 + SpanUntil(s[1..], stops)
  }

  /** What follows the last `c` in `s`, or all of `s` when `c` does not occur. */
  function AfterLast(s: string, c: char): (r: string)
    ensures |r| <= |s| && r == s[|s| - |r|..] && c !in r
    ensures |r| < |s| ==> s[|s| - |r| - 1] == c
    decreases |s|
  {
    if s == [] then []
    else if s[|s| - 1] == c then []
    else
      var init := s[..|s| - 1];
      var r := AfterLast(init, c);
      assert init[|init| - |r|..] + [s[|s| - 1]] == s[|s| - |r| - 1..];
      assert |r| < |init| ==> s[|s| - |r| - 2] == init[|init| - |r| - 1];
      r + [s[|s| - 1]]
  }

  /** The characters that end an authority. */
  const AUTHORITY_END: set<char> := {'/', '\\', '?', '#'}

  /** What follows a host: nothing, or `:` and a decimal port, possibly empty, of at most 65535. */
  predicate PortSuffixValid(rest: string)
  {
    rest == [] || (rest[0] == ':' && (forall i :: 1 <= i < |rest| ==> IsDigit(rest[i])) && DigitsValue(rest[1..]) <= 65535)
  }

  predicate IsHexDigit(c: char)
  {
    IsDigit(c) || 'a' <= c <= 'f' || 'A' <= c <= 'F'
  }

  function HexDigitValue(c: char): nat
  {
    if IsDigit(c) then c as int - '0' as int
    else if 'a' <= c <= 'f' then c as int - 'a' as int + 10
    else if 'A' <= c <= 'F' then c as int - 'A' as int + 10
    else 0
  }

  /** Every character of `s` is a digit in base `radix` (at most 16). */
  predicate AllRadixDigits(s: string, radix: nat)
  {
    forall i :: 0 <= i < |s| ==> IsHexDigit(s[i]) && HexDigitValue(s[i]) < radix
  }

  /** The number the digits `s` write in base `radix`. */
  function RadixValue(s: string, radix: nat): nat
    decreases |s|
  {
    if s == [] then 0 else RadixValue(s[..|s| - 1], radix) * radix + HexDigitValue(s[|s| - 1])
  }

  /** The IPv4 number parser: after `0x` or `0X` the digits (possibly none) are hexadecimal,
      after any other leading `0` octal, and otherwise decimal. An empty part, or a digit
      outside the radix, is a failure. */
  function Ipv4Number(p: string): (n: Option<nat>)
    ensures n.Some? ==> p != []
  {
    if p == [] then None
    else
      var (digits, radix) :=
        if |p| >= 2 && p[0] == '0' && (p[1] == 'x' || p[1] == 'X') then (p[2..], 16)
        else if |p| >= 2 && p[0] == '0' then (p[1..], 8)
        else (p, 10);
      if AllRadixDigits(digits, radix) then Some(RadixValue(digits, radix)) else None
  }

  /** `s.split(".")`. */
  function Labels(s: string): (r: seq<string>)
    ensures |r| >= 1
    decreases |s|
  {
    var k := SpanUntil(s, {'.'});
    if k == |s| then [s] else [s[..k]] + Labels(s[k + 1..])
  }

  /** A host's dot-separated parts, with an empty last one dropped unless it is the only one. */
  function HostParts(h: string): (r: seq<string>)
    ensures |r| >= 1
  {
    var parts := Labels(h);
    if |parts| > 1 && parts[|parts| - 1] == [] then parts[..|parts| - 1] else parts
  }

  /** The host parser's "ends in a number" test: the last part is a non-empty run of decimal
      digits, or it parses as an IPv4 number. */
  predicate EndsInNumber(h: string)
  {
    var ps := HostParts(h);
    var last := ps[|ps| - 1];
    (last != [] && forall i :: 0 <= i < |last| ==> IsDigit(last[i])) || Ipv4Number(last).Some?
  }

  function Pow256(n: nat): nat
  {
    if n == 0 then 1 else 256 * Pow256(n - 1)
  }

  /** The IPv4 parser succeeds: at most four parts, each an IPv4 number, every one but the last
      at most 255, and the last below 256 to the power of five minus the number of parts. */
  predicate Ipv4Parses(h: string)
  {
    var ps := HostParts(h);
    && |ps| <= 4
    && (forall i :: 0 <= i < |ps| ==> Ipv4Number(ps[i]).Some?)
    && (forall i :: 0 <= i < |ps| - 1 ==> Ipv4Number(ps[i]).value <= 255)
    && Ipv4Number(ps[|ps| - 1]).value < Pow256(5 - |ps|)
  }

  /** A domain that ends in a number must be an IPv4 address; otherwise the host parser fails. */
  predicate NumericHostValid(h: string)
  {
    !EndsInNumber(h) || Ipv4Parses(h)
  }

  /** A host and optional port: a bracketed IPv6 literal, or a non-empty domain free of forbidden
      domain code points that is an IPv4 address if it ends in a number, each followed by a
      valid port suffix. */
  predicate HostPortValid(hp: string)
  {
    if hp != [] && hp[0] == '[' then
      var close := SpanUntil(hp, {']'});
      && 1 < close < |hp|
      && (forall i :: 1 <= i < close ==> IsIpv6Char(hp[i]))
      && PortSuffixValid(hp[close + 1..])
    else
      var colon := SpanUntil(hp, {':'});
      && 0 < colon
      && (forall i :: 0 <= i < colon ==> !ForbiddenDomainChar(hp[i]))
      && NumericHostValid(hp[..colon])
      && PortSuffixValid(hp[colon..])
  }

  /** An authority of an `https` URL parses when what follows its credentials (everything up to
      the last `@`) is a valid host and port. */
  predicate AuthorityValid(a: string)
  {
    HostPortValid(AfterLast(a, '@'))
  }

  lemma {:induction false} SpanUntilAbsent(s: string, stops: set<char>)
    requires forall i :: 0 <= i < |s| ==> s[i] !in stops
    ensures SpanUntil(s, stops) == |s|
    decreases |s|
  {
    if s != [] {
      SpanUntilAbsent(s[1..], stops);
    }
  }

  lemma {:induction false} SpanUntilAt(s: string, stops: set<char>, k: nat)
    requires k < |s| && s[k] in stops
    requires forall i :: 0 <= i < k ==> s[i] !in stops
    ensures SpanUntil(s, stops) == k
    decreases k
  {
    if k > 0 {
      SpanUntilAt(s[1..], stops, k - 1);
    }
  }

  lemma {:induction false} AfterLastAbsent(s: string, c: char)
    requires c !in s
    ensures AfterLast(s, c) == s
    decreases |s|
  {
    if s != [] {
      AfterLastAbsent(s[..|s| - 1], c);
    }
  }

  /** A character that is no forbidden domain code point is no control, space, slash, port
      separator, credentials separator or end of authority. */
  lemma PlainDomainChars(a: string)
    requires forall i :: 0 <= i < |a| ==> !ForbiddenDomainChar(a[i])
    ensures forall i :: 0 <= i < |a| ==> !IsC0OrSpace(a[i]) && !IsTabOrNewline(a[i]) && !IsSlash(a[i])
    ensures forall i :: 0 <= i < |a| ==> a[i] !in AUTHORITY_END && a[i] !in {':'}
    ensures '@' !in a
  {
  }

  /** A host name free of forbidden domain code points, with no credentials and no port, is a
      valid authority exactly when it is an IPv4 address or does not end in a number. */
  lemma DomainAuthorityValid(a: string)
    requires a != [] && forall i :: 0 <= i < |a| ==> !ForbiddenDomainChar(a[i])
    ensures AuthorityValid(a) <==> NumericHostValid(a)
  {
    PlainDomainChars(a);
    AfterLastAbsent(a, '@');
    SpanUntilAbsent(a, {':'});
    assert a[|a|..] == [] && a[..|a|] == a;
  }

  /** A host name without dots that starts with a letter never ends in a number. */
  lemma WordHostValid(h: string)
    requires h != [] && '.' !in h && !IsDigit(h[0])
    ensures NumericHostValid(h)
  {
    SpanUntilAbsent(h, {'.'});
    assert HostParts(h) == [h];
  }

  /** `a.1` ends in a number but is not an IPv4 address: its first part is not a number. */
  lemma NumericLastLabelInvalid()
    ensures !NumericHostValid("a.1")
  {
    var h := "a.1";
    SpanUntilAt(h, {'.'}, 1);
    SpanUntilAbsent(h[2..], {'.'});
    assert h[..1] == "a" && h[2..] == "1";
    assert Labels(h[2..]) == ["1"];
    assert Labels(h) == ["a"] + Labels(h[2..]);
    var ps := HostParts(h);
    assert ps == ["a", "1"];
    assert EndsInNumber(h) by {
      assert ps[|ps| - 1] == "1";
    }
    assert Ipv4Number(ps[0]).None? by {
      assert ps[0] == "a" && HexDigitValue('a') == 10;
    }
  }

  /** A label without dots, a dot, and the rest: the label comes first. */
  lemma LabelsCons(first: string, rest: string)
    requires '.' !in first
    ensures Labels(first + "." + rest) == [first] + Labels(rest)
  {
    var s := first + "." + rest;
    assert s[|first|] == '.' && s[..|first|] == first && s[|first| + 1..] == rest;
    assert forall i :: 0 <= i < |first| ==> s[i] == first[i];
    SpanUntilAt(s, {'.'}, |first|);
  }

  lemma LabelsNoDot(s: string)
    requires '.' !in s
    ensures Labels(s) == [s]
  {
    SpanUntilAbsent(s, {'.'});
  }

  lemma LabelsConsTo(first: string, rest: string, r: seq<string>)
    requires '.' !in first && Labels(rest) == r
    ensures Labels(first + "." + rest) == [first] + r
  {
    LabelsCons(first, rest);
  }

  /** Dot-free labels joined by dots split back into those labels. */
  lemma TwoLabels(c: string, d: string)
    requires '.' !in c && '.' !in d
    ensures Labels(c + "." + d) == [c, d]
  {
    LabelsNoDot(d);
    LabelsConsTo(c, d, [d]);
  }

  lemma ThreeLabels(b: string, c: string, d: string)
    requires '.' !in b && '.' !in c && '.' !in d
    ensures Labels(b + "." + (c + "." + d)) == [b, c, d]
  {
    TwoLabels(c, d);
    LabelsConsTo(b, c + "." + d, [c, d]);
  }

  lemma FourLabels(a: string, b: string, c: string, d: string)
    requires '.' !in a && '.' !in b && '.' !in c && '.' !in d
    ensures Labels(a + "." + (b + "." + (c + "." + d))) == [a, b, c, d]
  {
    ThreeLabels(b, c, d);
    LabelsConsTo(a, b + "." + (c + "." + d), [b, c, d]);
  }

  lemma LoopbackLabels()
    ensures Labels("127.0.0.1") == ["127", "0", "0", "1"]
  {
    FourLabels("127", "0", "0", "1");
    assert "127.0.0.1" == "127" + "." + ("0" + "." + ("0" + "." + "1"));
  }

  lemma LoopbackNumbers()
    ensures Ipv4Number("127") == Some(127) && Ipv4Number("0") == Some(0) && Ipv4Number("1") == Some(1)
  {
    assert RadixValue("12", 10) == 12 by {
      assert "12"[..1] == "1";
      assert RadixValue("1", 10) == 1;
    }
    assert "127"[..2] == "12";
    assert RadixValue("127", 10) == 127;
    assert RadixValue("0", 10) == 0 && RadixValue("1", 10) == 1;
  }

  /** `127.0.0.1` ends in a number and is an IPv4 address. */
  lemma LoopbackHostValid()
    ensures NumericHostValid("127.0.0.1")
  {
    LoopbackLabels();
    LoopbackNumbers();
    Ipv4FourParts("127.0.0.1", "127", "0", "0", "1");
  }

  /** A host whose four parts are IPv4 numbers of at most 255 is an IPv4 address. */
  lemma Ipv4FourParts(h: string, a: string, b: string, c: string, d: string)
    requires Labels(h) == [a, b, c, d] && d != []
    requires Ipv4Number(a).Some? && Ipv4Number(a).value <= 255
    requires Ipv4Number(b).Some? && Ipv4Number(b).value <= 255
    requires Ipv4Number(c).Some? && Ipv4Number(c).value <= 255
    requires Ipv4Number(d).Some? && Ipv4Number(d).value <= 255
    ensures Ipv4Parses(h)
  {
    var ps := HostParts(h);
    assert ps == [a, b, c, d];
    assert ps[0] == a && ps[1] == b && ps[2] == c && ps[3] == d;
    assert Pow256(1) == 256;
  }

  /** What the template literal writes for the `Host` header: the text, or "undefined" when the
      header is absent. */
  function HostText(host: Option<string>): string
  {
    match host
    case None => "undefined"
    case Some(h) => h
  }

  /** Whether `"https://" + host` parses as a base URL. The scheme cannot be trimmed, so cleaning
      touches only the host's end and its tabs and newlines; the authority follows any number
      of slashes and runs up to the next slash, `?` or `#`. */
  predicate BaseValid(host: string)
  {
    var rest := DropSlashes(RemoveTabsAndNewlines(StripEnd(host)));
    AuthorityValid(rest[..SpanUntil(rest, AUTHORITY_END)])
  }

  /** A host with nothing to trim and no tab, newline or leading slash is its own authority
      text, up to the first end of authority. */
  lemma BaseRestPlain(host: string)
    requires host != [] && !IsC0OrSpace(host[|host| - 1]) && !IsSlash(host[0])
    requires forall i :: 0 <= i < |host| ==> !IsTabOrNewline(host[i])
    ensures DropSlashes(RemoveTabsAndNewlines(StripEnd(host))) == host
  {
    assert StripEnd(host) == host;
    RemovesNothing(host);
    assert DropSlashes(host) == host;
  }

  /** A `Host` header that is a bare host name (no forbidden domain code point, so no port,
      slash or control character) gives a base that parses exactly when the name is an IPv4
      address or does not end in a number. */
  lemma DomainBaseValid(host: string)
    requires host != [] && forall i :: 0 <= i < |host| ==> !ForbiddenDomainChar(host[i])
    ensures BaseValid(host) <==> NumericHostValid(host)
  {
    PlainDomainChars(host);
    BaseRestPlain(host);
    SpanUntilAbsent(host, AUTHORITY_END);
    assert host[..|host|] == host;
    DomainAuthorityValid(host);
  }

  /** Two plain host names around a space: no tab, newline, port separator, credentials
      separator or end of authority anywhere. */
  lemma SpacedNameChars(name: string, rest: string)
    requires forall i :: 0 <= i < |name| ==> !ForbiddenDomainChar(name[i])
    requires forall i :: 0 <= i < |rest| ==> !ForbiddenDomainChar(rest[i])
    ensures var host := name + " " + rest;
      && (forall i :: 0 <= i < |host| ==> !IsTabOrNewline(host[i]))
      && (forall i :: 0 <= i < |host| ==> host[i] !in AUTHORITY_END && host[i] !in {':'})
      && '@' !in host
  {
    PlainDomainChars(name);
    PlainDomainChars(rest);
    var host := name + " " + rest;
    forall i | 0 <= i < |host|
      ensures !IsTabOrNewline(host[i]) && host[i] !in AUTHORITY_END && host[i] !in {':'} && host[i] != '@'
    {
      if i < |name| {
        assert host[i] == name[i];
      } else if i > |name| {
        assert host[i] == rest[i - |name| - 1];
      }
    }
  }

  /** A `Host` header with a space inside its host name does not parse. */
  lemma SpaceInHostInvalid(name: string, rest: string)
    requires name != [] && forall i :: 0 <= i < |name| ==> !ForbiddenDomainChar(name[i])
    requires rest != [] && forall i :: 0 <= i < |rest| ==> !ForbiddenDomainChar(rest[i])
    ensures !BaseValid(name + " " + rest)
  {
    var host := name + " " + rest;
    SpacedNameChars(name, rest);
    PlainDomainChars(name);
    PlainDomainChars(rest);
    assert host[|host| - 1] == rest[|rest| - 1] && host[0] == name[0];
    BaseRestPlain(host);
    SpanUntilAbsent(host, AUTHORITY_END);
    assert host[..|host|] == host;
    AfterLastAbsent(host, '@');
    SpanUntilAbsent(host, {':'});
    assert ForbiddenDomainChar(host[|name|]);
  }

  function SlashOf(c: char): char
  {
    if c == '\\' then '/' else c
  }

  /** `s` with every backslash written as a slash. */
  function Slashed(s: string): (r: string)
    ensures |r| == |s| && forall i :: 0 <= i < |s| ==> r[i] == SlashOf(s[i])
    decreases |s|
  {
    if s == [] then [] else [SlashOf(s[0])] + Slashed(s[1..])
  }

  lemma SlashedPlain(s: string)
    requires '\\' !in s
    ensures Slashed(s) == s
  {
  }

  /** Rewriting backslashes leaves every other character where it was. */
  lemma SlashedKeeps(s: string, c: char)
    requires c != '/' && c != '\\'
    ensures c in s <==> c in Slashed(s)
  {
    if c in s {
      var i :| 0 <= i < |s| && s[i] == c;
      assert Slashed(s)[i] == c;
    }
    if c in Slashed(s) {
      var i :| 0 <= i < |s| && Slashed(s)[i] == c;
      assert s[i] == c;
    }
  }

  /** The path of `s`: everything before the query (`?`) or the fragment (`#`), with backslashes
      written as slashes. */
  function PathPart(s: string): (p: string)
    ensures |p| <= |s| && p == Slashed(s[..|p|])
    ensures '?' !in p && '#' !in p && '\\' !in p
    ensures |p| < |s| ==> s[|p|] == '?' || s[|p|] == '#'
    decreases |s|
  {
    if s == [] || s[0] == '?' || s[0] == '#' then ""
    else
      var rest := PathPart(s[1..]);
      assert Slashed(s[..|rest| + 1]) == [SlashOf(s[0])] + Slashed(s[1..][..|rest|]) by {
        assert s[..|rest| + 1] == [s[0]] + s[1..][..|rest|];
      }
      [SlashOf(s[0])] + rest
  }

  /** A prefix without `?` or `#` that is followed by one of them, or by nothing, is the path. */
  lemma {:induction false} PathPartOfPrefix(s: string, p: string)
    requires p <= s && '?' !in p && '#' !in p
    requires |s| == |p| || s[|p|] in {'?', '#'}
    ensures PathPart(s) == Slashed(p)
    decreases |p|
  {
    if p != [] {
      PathPartOfPrefix(s[1..], p[1..]);
    }
  }

  /** The path of `s` is `q` exactly when `s` opens with `q` (backslashes read as slashes),
      followed by nothing, a query or a fragment. */
  lemma PathPartIs(s: string, q: string)
    requires '?' !in q && '#' !in q
    ensures PathPart(s) == q <==>
              |q| <= |s| && Slashed(s[..|q|]) == q && (|s| == |q| || s[|q|] in {'?', '#'})
  {
    var p := PathPart(s);
    if |q| <= |s| && Slashed(s[..|q|]) == q && (|s| == |q| || s[|q|] in {'?', '#'}) {
      var prefix := s[..|q|];
      SlashedKeeps(prefix, '?');
      SlashedKeeps(prefix, '#');
      PathPartOfPrefix(s, prefix);
    }
  }

  /** An empty path serializes as `/` in an `https` URL. */
  function RootIfEmpty(p: string): string
  {
    if p == [] then "/" else p
  }

  /** `new URL(target, base).pathname` for a base `https://host` that parsed and whose path is
      `/`, or `None` when the constructor throws on `target`. The result is always an absolute
      path without query, fragment or backslash. */
  function ResolvedPathname(target: string): (p: Option<string>)
    ensures p.Some? ==> |p.value| > 0 && p.value[0] == '/'
    ensures p.Some? ==> '?' !in p.value && '#' !in p.value && '\\' !in p.value
  {
    CleanedPathname(Cleaned(target))
  }

  /** The pathname for an input already cleaned. */
  function CleanedPathname(t: string): (p: Option<string>)
    ensures p.Some? ==> |p.value| > 0 && p.value[0] == '/'
    ensures p.Some? ==> '?' !in p.value && '#' !in p.value && '\\' !in p.value
  {
    if |t| >= 2 && IsSlash(t[0]) && IsSlash(t[1]) then
      var rest := DropSlashes(t);
      var n := SpanUntil(rest, AUTHORITY_END);
      if AuthorityValid(rest[..n]) then
        var p := PathPart(rest[n..]);
        assert p != [] ==> p[0] == SlashOf(rest[n]) == '/';
        Some(RootIfEmpty(p))
      else None
    else if t != [] && IsSlash(t[0]) then
      var p := PathPart(t);
      assert p[0] == SlashOf(t[0]) == '/';
      Some(p)
    else if t == [] || t[0] == '?' || t[0] == '#' then Some("/")
    else
      var p := PathPart(t);
      assert ("/" + p)[1..] == p;
      Some("/" + p)
  }

  /** A target that opens with two slashes (of either kind) names an authority, whatever its
      path: the constructor throws when that authority does not parse, and otherwise the
      pathname is the path after it. */
  lemma NetworkPathResolution(target: string)
    requires forall i :: 0 <= i < |target| ==> !IsC0OrSpace(target[i])
    requires |target| >= 2 && IsSlash(target[0]) && IsSlash(target[1])
    ensures var rest := DropSlashes(target);
      var n := SpanUntil(rest, AUTHORITY_END);
      && (ResolvedPathname(target).None? <==> !AuthorityValid(rest[..n]))
      && (AuthorityValid(rest[..n]) ==> ResolvedPathname(target) == Some(RootIfEmpty(PathPart(rest[n..]))))
  {
    CleanedPlain(target);
  }

  /** A target of slashes only, or of two slashes followed at once by a query or fragment, has
      an empty authority, so the constructor throws. */
  lemma EmptyAuthorityThrows(target: string)
    requires |target| >= 2 && IsSlash(target[0]) && IsSlash(target[1])
    requires forall i :: 0 <= i < |target| ==> !IsC0OrSpace(target[i])
    requires var rest := DropSlashes(target); rest == [] || rest[0] in {'?', '#'}
    ensures ResolvedPathname(target).None?
  {
    CleanedPlain(target);
    var rest := DropSlashes(target);
    assert SpanUntil(rest, AUTHORITY_END) == 0;
    assert rest[..0] == [];
    EmptyAuthorityInvalid();
  }

  /** An empty authority has no host, so it does not parse. */
  lemma EmptyAuthorityInvalid()
    ensures !AuthorityValid([])
  {
    assert AfterLast([], '@') == [];
  }

  /** A target that opens with exactly one slash never throws, and its pathname is its path part. */
  lemma OriginFormResolution(target: string)
    requires forall i :: 0 <= i < |target| ==> !IsC0OrSpace(target[i])
    requires |target| >= 1 && IsSlash(target[0]) && (|target| == 1 || !IsSlash(target[1]))
    ensures ResolvedPathname(target) == Some(PathPart(target))
  {
    CleanedPlain(target);
  }
}
