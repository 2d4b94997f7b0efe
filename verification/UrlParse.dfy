/** As much of Go's `url.Parse` as the stores use: fragment, control characters, scheme,
    query, authority and percent-decoding of the path. */
module UrlParse {
  import opened Common
  import opened Texts

  datatype Parsed = Parsed(scheme: string, host: string, path: string)

  predicate HasPrefix(s: string, p: string) {
    |p| <= |s| && s[..|p|] == p
  }

  predicate IsControl(c: char) {
    c < ' ' || c == '\U{7f}'
  }

  predicate IsLetter(c: char) {
    'a' <= c <= 'z' || 'A' <= c <= 'Z'
  }

  predicate IsDigit(c: char) {
    '0' <= c <= '9'
  }

  predicate IsHex(c: char) {
    IsDigit(c) || 'a' <= c <= 'f' || 'A' <= c <= 'F'
  }

  function HexValue(c: char): int
    requires IsHex(c)
  {
    if IsDigit(c) then c as int - '0' as int
    else if c >= 'a' then c as int - 'a' as int + 10
    else c as int - 'A' as int + 10
  }

  predicate HasControl(s: string) {
    exists i :: 0 <= i < |s| && IsControl(s[i])
  }

  /** The part of `s` before the first `c`. */
  function Before(s: string, c: char): string {
    if s == "" || s[0] == c then "" else [s[0]] + Before(s[1..], c)
  }

  /** Percent-decoding; nothing when a '%' is not followed by two hexadecimal digits. */
  function Unescape(s: string): Option<string> {
    if s == "" then Some("")
    else if s[0] != '%' then
      var rest := Unescape(s[1..]);
      if rest.None? then None else Some([s[0]] + rest.value)
    else if |s| < 3 || !IsHex(s[1]) || !IsHex(s[2]) then None
    else
      var rest := Unescape(s[3..]);
      if rest.None? then None else Some([(16 * HexValue(s[1]) + HexValue(s[2])) as char] + rest.value)
  }

  datatype SchemeEnd = NoScheme | BadScheme | At(end: nat)

  /** Go's `getScheme`, from position `i` on. */
  function FindScheme(s: string, i: nat): (e: SchemeEnd)
    requires i <= |s|
    ensures e.At? ==> e.end < |s|
    decreases |s| - i
  {
    if i == |s| then NoScheme
    else if IsLetter(s[i]) then FindScheme(s, i + 1)
    else if IsDigit(s[i]) || s[i] == '+' || s[i] == '-' || s[i] == '.' then
      if i == 0 then NoScheme else FindScheme(s, i + 1)
    else if s[i] == ':' then if i == 0 then BadScheme else At(i)
    else NoScheme
  }

  /** A host name or address and, after a ':', a port of digits. */
  predicate HostOk(s: string) {
    && (forall i | 0 <= i < |s| :: IsLetter(s[i]) || IsDigit(s[i]) || s[i] == '.' || s[i] == '-' || s[i] == ':')
    && (forall i, j | 0 <= i < j < |s| && s[i] == ':' :: IsDigit(s[j]))
  }

  function WithPath(scheme: string, host: string, rest: string): Option<Parsed> {
    var path := Unescape(rest);
    if path.None? then None else Some(Parsed(scheme, host, path.value))
  }

  function ParseRest(scheme: string, full: string): Option<Parsed> {
    var rest := Before(full, '?');
    if !HasPrefix(rest, "/") then
      if scheme != "" then Some(Parsed(scheme, "", ""))
      else if ':' in Before(rest, '/') then None
      else WithPath(scheme, "", rest)
    else if (scheme != "" || !HasPrefix(rest, "///")) && HasPrefix(rest, "//") then
      var host := Before(rest[2..], '/');
      BeforeIsPrefix(rest[2..], '/');
      if HostOk(host) then WithPath(scheme, host, rest[2..][|host|..]) else None
    else WithPath(scheme, "", rest)
  }

  lemma {:induction false} BeforeIsPrefix(s: string, c: char)
    ensures |Before(s, c)| <= |s| && s[..|Before(s, c)|] == Before(s, c) && c !in Before(s, c)
    ensures Before(s, c) == s <==> c !in s
  {
    if s == "" || s[0] == c {
    } else {
      BeforeIsPrefix(s[1..], c);
      assert s == [s[0]] + s[1..];
    }
  }

  function ParseURL(raw: string): Option<Parsed> {
    BeforeIsPrefix(raw, '#');
    var u := Before(raw, '#');
    if HasControl(u) || Unescape(raw[|u|..]).None? then None
    else if u == "*" then Some(Parsed("", "", "*"))
    else
      match FindScheme(u, 0)
      case BadScheme => None
      case NoScheme => ParseRest("", u)
      case At(i) => ParseRest(ToLower(u[..i]), u[i + 1..])
  }

  // ---------- A path and what parsing makes of it ----------

  /** Characters that stand for themselves in the path of a URL. */
  predicate IsPlain(c: char) {
    c != '%' && c != '?' && c != '#' && !IsControl(c)
  }

  predicate AllPlain(s: string) {
    forall i | 0 <= i < |s| :: IsPlain(s[i])
  }

  /** What a URL's path and what follows it decode to. */
  function PathPart(p: string): Option<string> {
    BeforeIsPrefix(p, '#');
    var u := Before(p, '#');
    if HasControl(u) || Unescape(p[|u|..]).None? then None else Unescape(Before(u, '?'))
  }

  lemma {:induction false} BeforeConcat(a: string, b: string, c: char)
    requires c !in a
    ensures Before(a + b, c) == a + Before(b, c)
  {
    if a == "" {
      assert a + b == b && a + Before(b, c) == Before(b, c);
    } else {
      assert a[0] in a && (a + b)[1..] == a[1..] + b;
      assert Before(a + b, c) == [a[0]] + Before(a[1..] + b, c);
      BeforeConcat(a[1..], b, c);
      assert [a[0]] + (a[1..] + Before(b, c)) == a + Before(b, c);
    }
  }

  lemma {:induction false} UnescapeConcat(a: string, b: string)
    requires '%' !in a
    ensures Unescape(a + b) == if Unescape(b).None? then None else Some(a + Unescape(b).value)
  {
    if a == "" {
      assert a + b == b;
      assert Unescape(b).Some? ==> a + Unescape(b).value == Unescape(b).value;
    } else {
      assert a[0] in a && (a + b)[1..] == a[1..] + b;
      UnescapeConcat(a[1..], b);
      assert Unescape(b).Some? ==> [a[0]] + (a[1..] + Unescape(b).value) == a + Unescape(b).value;
    }
  }

  lemma {:induction false} UnescapeLength(s: string)
    ensures Unescape(s).Some? ==> |Unescape(s).value| <= |s| && (|Unescape(s).value| == |s| <==> '%' !in s)
  {
    if s == "" {
    } else if s[0] != '%' {
      UnescapeLength(s[1..]);
    } else if |s| >= 3 {
      UnescapeLength(s[3..]);
    }
  }

  /** Plain text in front of a path leaves its fragment and its control characters. */
  lemma FragmentAfter(f: string, p: string)
    requires AllPlain(f)
    ensures var u := Before(p, '#');
            && |u| <= |p| && Before(f + p, '#') == f + u && (f + p)[|f + u|..] == p[|u|..]
            && (HasControl(f + u) <==> HasControl(u))
  {
    BeforeIsPrefix(p, '#');
    BeforeConcat(f, p, '#');
    var u := Before(p, '#');
    if HasControl(u) {
      var i :| 0 <= i < |u| && IsControl(u[i]);
      assert (f + u)[|f| + i] == u[i];
    }
  }

  lemma PathPartConcat(a: string, b: string)
    requires AllPlain(a)
    ensures PathPart(a + b) == if PathPart(b).None? then None else Some(a + PathPart(b).value)
  {
    FragmentAfter(a, b);
    var u := Before(b, '#');
    BeforeConcat(a, u, '?');
    UnescapeConcat(a, Before(u, '?'));
  }

  /** Plain text decodes to itself; any other decodes to something shorter, if at all. */
  lemma PathPartLength(b: string)
    ensures AllPlain(b) ==> PathPart(b) == Some(b)
    ensures !AllPlain(b) && PathPart(b).Some? ==> |PathPart(b).value| < |b|
  {
    BeforeIsPrefix(b, '#');
    var u := Before(b, '#');
    BeforeIsPrefix(u, '?');
    UnescapeLength(Before(u, '?'));
    if AllPlain(b) {
      UnescapeConcat(b, "");
      assert b + "" == b && b[|b|..] == "";
    } else {
      var i :| 0 <= i < |b| && !IsPlain(b[i]);
      assert b[i] in b;
    }
  }

  // ---------- URLs with a known front ----------

  /** A public base URL without its path. */
  datatype Base = Base(scheme: string, host: string)

  predicate BaseOk(b: Base) {
    b.scheme != "" && (forall i | 0 <= i < |b.scheme| :: IsLetter(b.scheme[i])) && b.host != "" && HostOk(b.host)
  }

  function Front(b: Base): string {
    b.scheme + "://" + b.host
  }

  lemma {:induction false} SchemeFound(scheme: string, rest: string, i: nat)
    requires scheme != "" && i <= |scheme| && forall i | 0 <= i < |scheme| :: IsLetter(scheme[i])
    ensures FindScheme(scheme + ":" + rest, i) == At(|scheme|)
    decreases |scheme| - i
  {
    var s := scheme + ":" + rest;
    if i < |scheme| {
      assert s[i] == scheme[i];
      SchemeFound(scheme, rest, i + 1);
    } else {
      assert s[i] == ':';
    }
  }

  lemma FrontPlain(b: Base)
    requires BaseOk(b)
    ensures AllPlain(Front(b)) && '/' !in b.host
  {
  }

  /** After a base URL, a path is parsed on its own. */
  lemma ParseWithBase(b: Base, p: string)
    requires BaseOk(b) && (p == "" || p[0] == '/')
    ensures ParseURL(Front(b) + p) ==
            if PathPart(p).None? then None else Some(Parsed(ToLower(b.scheme), b.host, PathPart(p).value))
  {
    FrontPlain(b);
    BeforeIsPrefix(p, '#');
    FragmentAfter(Front(b), p);
    SchemeOf(b, Before(p, '#'));
    ParseAuthority(b, Before(p, '#'));
  }

  lemma SchemeOf(b: Base, u: string)
    requires BaseOk(b)
    ensures var s, n := Front(b) + u, |b.scheme|;
            FindScheme(s, 0) == At(n) && s[..n] == b.scheme && s[n + 1..] == "//" + b.host + u && s != "*"
  {
    var rest := "//" + b.host + u;
    assert Front(b) + u == b.scheme + ":" + rest;
    SchemeFound(b.scheme, rest, 0);
  }

  /** `rest` is "//host" and a path without a query. */
  lemma SplitAuthority(host: string, q: string)
    requires '/' !in host && (q == "" || q[0] == '/')
    ensures var rest := "//" + host + q;
            && HasPrefix(rest, "/") && HasPrefix(rest, "//")
            && Before(rest[2..], '/') == host && rest[2..][|host|..] == q
  {
    var rest := "//" + host + q;
    assert rest[2..] == host + q && rest[..1] == "/" && rest[..2] == "//";
    BeforeConcat(host, q, '/');
    assert Before(q, '/') == "" && host + "" == host;
  }

  lemma ParseAuthority(b: Base, u: string)
    requires BaseOk(b) && (u == "" || u[0] == '/')
    ensures ParseRest(ToLower(b.scheme), "//" + b.host + u) == WithPath(ToLower(b.scheme), b.host, Before(u, '?'))
  {
    var q := Before(u, '?');
    var front := "//" + b.host;
    assert '?' !in front;
    BeforeConcat(front, u, '?');
    FrontPlain(b);
    SplitAuthority(b.host, q);
  }

  /** Without a base URL the path stands alone. */
  lemma ParseWithoutBase(p: string)
    requires |p| >= 2 && p[0] == '/' && IsLetter(p[1])
    ensures ParseURL(p) == if PathPart(p).None? then None else Some(Parsed("", "", PathPart(p).value))
  {
    BeforeIsPrefix(p, '#');
    var u := Before(p, '#');
    BeforeConcat(p[..2], p[2..], '#');
    assert p == p[..2] + p[2..];
    assert u[0] == '/' && IsLetter(u[1]);
    BeforeConcat(u[..2], u[2..], '?');
    assert u == u[..2] + u[2..];
    var rest := Before(u, '?');
    assert rest[0] == '/' && IsLetter(rest[1]);
    assert rest[..1] == "/" && rest[..2][1] == rest[1];
  }
}
