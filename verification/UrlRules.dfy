/** Which URLs lead to which key, and which keys to which file, in terms of their text. */
module UrlRules {
  import opened Common
  import opened Texts
  import opened PathClean
  import opened UrlParse
  import opened StoreUrls

  // ---------- Percent-encoding ----------

  const LOWER := "0123456789abcdef"
  const UPPER := "0123456789ABCDEF"

  /** `d` is the digit of value `v`, in either case. */
  predicate IsDigitOf(d: char, v: int) {
    0 <= v < 16 && (d == LOWER[v] || d == UPPER[v])
  }

  /** The text `t` writes `s`: character by character, or as '%' and two digits. */
  predicate Spells(t: string, s: string) {
    if t == "" then s == ""
    else if t[0] != '%' then s != "" && s[0] == t[0] && Spells(t[1..], s[1..])
    else
      && |t| >= 3 && s != ""
      && IsDigitOf(t[1], s[0] as int / 16) && IsDigitOf(t[2], s[0] as int % 16)
      && Spells(t[3..], s[1..])
  }

  lemma DigitValue(d: char, v: int)
    ensures IsDigitOf(d, v) <==> IsHex(d) && HexValue(d) == v
  {
    if 0 <= v < 16 { DigitAt(d, v); }
  }

  lemma DigitAt(d: char, v: int)
    requires 0 <= v < 16
    ensures d == LOWER[v] || d == UPPER[v] <==> IsHex(d) && HexValue(d) == v
  {
    assert v < 10 ==> LOWER[v] == UPPER[v] == (v + '0' as int) as char;
    assert v >= 10 ==> LOWER[v] == (v - 10 + 'a' as int) as char && UPPER[v] == (v - 10 + 'A' as int) as char;
  }

  lemma TwoDigits(d: char, e: char, c: char)
    ensures IsDigitOf(d, c as int / 16) && IsDigitOf(e, c as int % 16) <==>
            IsHex(d) && IsHex(e) && c as int == 16 * HexValue(d) + HexValue(e)
  {
    DigitValue(d, c as int / 16);
    DigitValue(e, c as int % 16);
  }

  lemma ConsIs(c: char, r: string, s: string)
    ensures [c] + r == s <==> s != "" && s[0] == c && r == s[1..]
  {
    if s != "" { assert s == [s[0]] + s[1..]; }
  }

  /** Percent-decoding reads exactly what is written. */
  lemma {:induction false} UnescapeExactly(t: string, s: string)
    ensures Unescape(t) == Some(s) <==> Spells(t, s)
  {
    if t == "" {
    } else if t[0] != '%' {
      if s != "" { UnescapeExactly(t[1..], s[1..]); }
      if Unescape(t[1..]).Some? { ConsIs(t[0], Unescape(t[1..]).value, s); }
    } else if |t| >= 3 {
      if s != "" {
        TwoDigits(t[1], t[2], s[0]);
        UnescapeExactly(t[3..], s[1..]);
      }
      if IsHex(t[1]) && IsHex(t[2]) && Unescape(t[3..]).Some? {
        ConsIs((16 * HexValue(t[1]) + HexValue(t[2])) as char, Unescape(t[3..]).value, s);
      }
    }
  }

  // ---------- Queries and fragments ----------

  /** A query, a fragment or both; nothing in it needs decoding. */
  predicate IsTail(tail: string) {
    && (tail == "" || tail[0] == '?' || tail[0] == '#')
    && '%' !in tail && !HasControl(tail)
  }

  predicate IsPathText(t: string) {
    '?' !in t && '#' !in t && !HasControl(t)
  }

  lemma TailIgnored(t: string, tail: string)
    requires IsPathText(t) && IsTail(tail)
    ensures PathPart(t + tail) == Unescape(t)
  {
    BeforeConcat(t, tail, '#');
    BeforeIsPrefix(tail, '#');
    var query := Before(tail, '#');
    var fragment := (t + tail)[|t + query|..];
    assert fragment == tail[|query|..];
    UnescapeConcat(fragment, "");
    assert fragment + "" == fragment;
    BeforeConcat(t, query, '?');
    assert Before(query, '?') == "" && t + "" == t;
    assert !HasControl(t + query);
  }

  /** Below "/uploads/" a URL leads to the key it writes, whatever query or fragment follows. */
  lemma UrlLeadsTo(base: Option<Base>, t: string, tail: string, key: string)
    requires (base.Some? ==> BaseOk(base.value)) && IsPathText(t) && IsTail(tail)
    ensures LocalKeyFromURL(BaseText(base), BaseText(base) + (UPLOADS + (t + tail))) == Some(key) <==> Spells(t, key)
  {
    LocalKeyIs(base, t + tail);
    TailIgnored(t, tail);
    UnescapeExactly(t, key);
  }

  // ---------- Foreign URLs ----------

  /** A URL of another host is no one's key, and neither is one of the own host that is not
      below "/uploads/". */
  lemma ForeignUrls(own: Base, other: Base, path: string)
    requires BaseOk(own) && BaseOk(other) && |path| >= 2 && path[0] == '/' && IsLetter(path[1]) && AllPlain(path)
    ensures own.host != other.host ==> LocalKeyFromURL(Front(own), Front(other) + path).None?
    ensures !(UPLOADS <= path) ==> LocalKeyFromURL(Front(own), Front(own) + path).None?
  {
    PathPartLength(path);
    PathPartLength("");
    ParseWithBase(other, path);
    ParseWithBase(own, path);
    ParseWithBase(own, "");
    assert Front(own) + "" == Front(own);
  }

  lemma ForeignToBucket(own: R2Base, other: Base, path: string)
    requires R2BaseOk(own) && BaseOk(other) && (path == "" || path[0] == '/') && own.front.host != other.host
    ensures R2KeyFromURL(R2Text(own), Front(other) + path).None?
  {
    ParseR2(own, "");
    ParseWithBase(other, path);
  }

  // ---------- Files ----------

  lemma DotDotExactly(s: string)
    ensures ContainsDotDot(s) <==> exists a, b :: s == a + ".." + b
  {
    if ContainsDotDot(s) {
      var i :| 0 <= i < |s| - 1 && s[i] == '.' && s[i + 1] == '.';
      assert s == s[..i] + ".." + s[i + 2..];
    }
    forall a: string, b: string | s == a + ".." + b ensures ContainsDotDot(s) {
      assert s[|a|] == '.' && s[|a| + 1] == '.';
    }
  }

  ghost predicate SomeDotDot(p: seq<string>) {
    exists c :: c in p && ContainsDotDot(c)
  }

  predicate DotsAt(s: string, i: int) {
    0 <= i < |s| - 1 && s[i] == '.' && s[i + 1] == '.'
  }

  lemma DotsFound(s: string)
    ensures ContainsDotDot(s) <==> exists i :: DotsAt(s, i)
  {
    if ContainsDotDot(s) {
      var i :| 0 <= i < |s| - 1 && s[i] == '.' && s[i + 1] == '.';
      assert DotsAt(s, i);
    }
  }

  lemma DotDotBehindSlash(c: string, s: string)
    ensures ContainsDotDot(c + "/" + s) <==> ContainsDotDot(c) || ContainsDotDot(s)
  {
    var t, n := c + "/" + s, |c| + 1;
    DotsFound(c);
    DotsFound(s);
    DotsFound(t);
    forall i | DotsAt(c, i) ensures DotsAt(t, i) {}
    forall i | DotsAt(s, i) ensures DotsAt(t, n + i) {}
    forall i | DotsAt(t, i) ensures DotsAt(c, i) || DotsAt(s, i - n) {
      assert i + 1 < n || i == n - 1 || (t[i] == s[i - n] && t[i + 1] == s[i - n + 1]);
    }
  }

  lemma {:induction false} DotDotInJoin(p: seq<string>)
    ensures ContainsDotDot(Join(p)) <==> SomeDotDot(p)
    decreases |p|
  {
    if |p| == 1 {
      assert p[0] in p;
    } else if |p| > 1 {
      DotDotInJoin(p[1..]);
      DotDotBehindSlash(p[0], Join(p[1..]));
      assert p == [p[0]] + p[1..];
    }
  }

  lemma JoinEmpty(p: seq<string>)
    requires Shaped(p)
    ensures Join(p) == "" <==> p == []
  {
  }

  /** A key leads to the file of its components, and is refused exactly when it leads to the
      root, when a component contains "..", or when the root is the root of all files. */
  lemma FileExactly(root: string, key: string)
    ensures SafeLocalPath(root, key) ==
            if root == "/" || Below(key) == [] || SomeDotDot(Below(key)) then None
            else Some(root + ("/" + Join(Below(key))))
  {
    CleanBelow(key);
    WalkShaped([], Split(key), true);
    CleanedFile(root, key, Below(key));
  }

  lemma CleanedFile(root: string, key: string, names: seq<string>)
    requires Shaped(names) && Clean("/" + key) == "/" + Join(names)
    ensures SafeLocalPath(root, key) ==
            if root == "/" || names == [] || SomeDotDot(names) then None else Some(root + ("/" + Join(names)))
  {
    var clean := "/" + Join(names);
    JoinEmpty(names);
    DotDotInJoin(names);
    DotDotBehindSlash("", Join(names));
    assert "" + "/" + Join(names) == clean;
    RootPrefix(root, Join(names));
    if names != [] {
      FirstOfJoin(names);
      RootOfAll(Join(names));
    }
  }

  lemma RootPrefix(root: string, s: string)
    ensures HasPrefix(root + ("/" + s), root + "/")
  {
    assert (root + ("/" + s))[..|root| + 1] == root + "/";
  }

  lemma RootOfAll(s: string)
    requires s != "" && s[0] != '/'
    ensures !HasPrefix("/" + s, "/" + "/") && "/" + s != "/"
  {
    assert ("/" + s)[1] == s[0] && ("/" + "/")[1] == '/';
  }

  lemma FirstOfJoin(names: seq<string>)
    requires Shaped(names) && names != []
    ensures Join(names) != "" && Join(names)[0] != '/'
  {
    assert Join(names)[0] == names[0][0] && names[0][0] in names[0];
  }
}
