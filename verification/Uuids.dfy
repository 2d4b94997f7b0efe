/** UUIDs: the text `uuid.String` writes, the order Go compares it by, and the order of the
    database. */
module Uuids {
  import opened MatchTables

  newtype Byte = x: int | 0 <= x < 256

  type Uuid = u: seq<Byte> | |u| == 16 witness seq(16, _ => 0)

  // ---------- Orders ----------

  /** Negative, zero or positive as `a` stands before, at or after `b`; `strings.Compare`. */
  function CompareText(a: string, b: string): int
    decreases |a|
  {
    if a == [] || b == [] then |a| - |b|
    else if a[0] != b[0] then a[0] as int - b[0] as int
    else CompareText(a[1..], b[1..])
  }

  /** PostgreSQL compares uuid values byte by byte. */
  function CompareBytes(a: seq<Byte>, b: seq<Byte>): int
    decreases |a|
  {
    if a == [] || b == [] then |a| - |b|
    else if a[0] != b[0] then a[0] as int - b[0] as int
    else CompareBytes(a[1..], b[1..])
  }

  function Sign(x: int): int {
    if x < 0 then -1 else if x > 0 then 1 else 0
  }

  predicate DbLess(a: Uuid, b: Uuid) {
    CompareBytes(a, b) < 0
  }

  /** The 128-bit value that the protocol modules use for a UUID. */
  function Value(u: seq<Byte>): nat {
    if u == [] then 0 else Value(u[..|u| - 1]) * 256 + u[|u| - 1] as int
  }

  // ---------- Text ----------

  function HexDigit(n: int): char
    requires 0 <= n < 16
  {
    "0123456789abcdef"[n]
  }

  function HexBytes(u: seq<Byte>): (s: string)
    ensures |s| == 2 * |u|
  {
    if u == [] then ""
    else [HexDigit(u[0] as int / 16), HexDigit(u[0] as int % 16)] + HexBytes(u[1..])
  }

  /** The five groups of section 4 of RFC 9562, in lower case. */
  function Text(u: Uuid): string {
    HexBytes(u[..4]) + "-" + HexBytes(u[4..6]) + "-" + HexBytes(u[6..8]) + "-" + HexBytes(u[8..10]) + "-" +
    HexBytes(u[10..])
  }

  function NormalizePair(a: Uuid, b: Uuid): (Uuid, Uuid) {
    if CompareText(Text(a), Text(b)) < 0 then (a, b) else (b, a)
  }

  // ---------- The orders agree ----------

  lemma HexDigitOrder(m: int, n: int)
    requires 0 <= m < 16 && 0 <= n < 16
    ensures m < n <==> HexDigit(m) < HexDigit(n)
    ensures m == n <==> HexDigit(m) == HexDigit(n)
  {
  }

  lemma {:induction false} CompareConcat(a: string, b: string, c: string, d: string)
    requires |a| == |b|
    ensures CompareText(a + c, b + d) == if CompareText(a, b) != 0 then CompareText(a, b) else CompareText(c, d)
    decreases |a|
  {
    if a == [] {
      assert a + c == c && b + d == d;
    } else {
      assert (a + c)[1..] == a[1..] + c && (b + d)[1..] == b[1..] + d;
      CompareConcat(a[1..], b[1..], c, d);
    }
  }

  lemma {:induction false} CompareHex(a: seq<Byte>, b: seq<Byte>)
    requires |a| == |b|
    ensures Sign(CompareText(HexBytes(a), HexBytes(b))) == Sign(CompareBytes(a, b))
  {
    if a == [] {
    } else {
      CompareHex(a[1..], b[1..]);
      var x, y := a[0] as int, b[0] as int;
      var p := [HexDigit(x / 16), HexDigit(x % 16)];
      var q := [HexDigit(y / 16), HexDigit(y % 16)];
      CompareConcat(p, q, HexBytes(a[1..]), HexBytes(b[1..]));
      HexDigitOrder(x / 16, y / 16);
      HexDigitOrder(x % 16, y % 16);
      assert CompareText(p[1..], q[1..]) == HexDigit(x % 16) as int - HexDigit(y % 16) as int by {
        assert p[1..][1..] == [] && q[1..][1..] == [];
      }
    }
  }

  lemma {:induction false} CompareSplit(a: seq<Byte>, b: seq<Byte>, k: nat)
    requires k <= |a| == |b|
    ensures CompareBytes(a, b) ==
            if CompareBytes(a[..k], b[..k]) != 0 then CompareBytes(a[..k], b[..k]) else CompareBytes(a[k..], b[k..])
    decreases |a|
  {
    if k > 0 && a[0] == b[0] {
      CompareSplit(a[1..], b[1..], k - 1);
      assert a[..k][1..] == a[1..][..k - 1] && b[..k][1..] == b[1..][..k - 1];
      assert a[1..][k - 1..] == a[k..] && b[1..][k - 1..] == b[k..];
    } else if k == 0 {
      assert a[0..] == a && b[0..] == b;
    }
  }

  /** A group of text and what follows it compare as the bytes of both do. */
  lemma CompareGroup(a: seq<Byte>, b: seq<Byte>, k: nat, s: string, t: string)
    requires k <= |a| == |b|
    requires Sign(CompareText(s, t)) == Sign(CompareBytes(a[k..], b[k..]))
    ensures Sign(CompareText(HexBytes(a[..k]) + "-" + s, HexBytes(b[..k]) + "-" + t)) == Sign(CompareBytes(a, b))
  {
    CompareSplit(a, b, k);
    CompareHex(a[..k], b[..k]);
    var p, q := HexBytes(a[..k]), HexBytes(b[..k]);
    assert p + "-" + s == p + ("-" + s) && q + "-" + t == q + ("-" + t);
    CompareConcat(p, q, "-" + s, "-" + t);
    CompareConcat("-", "-", s, t);
    assert CompareText("-", "-") == 0;
  }

  /** The text from byte 4, 6 or 8 on. */
  function From8(u: Uuid): string {
    HexBytes(u[8..10]) + "-" + HexBytes(u[10..])
  }

  function From6(u: Uuid): string {
    HexBytes(u[6..8]) + "-" + From8(u)
  }

  function From4(u: Uuid): string {
    HexBytes(u[4..6]) + "-" + From6(u)
  }

  lemma CompareFrom8(a: Uuid, b: Uuid)
    ensures Sign(CompareText(From8(a), From8(b))) == Sign(CompareBytes(a[8..], b[8..]))
  {
    var a8, b8 := a[8..], b[8..];
    CompareHex(a[10..], b[10..]);
    assert a8[2..] == a[10..] && b8[2..] == b[10..] && a8[..2] == a[8..10] && b8[..2] == b[8..10];
    CompareGroup(a8, b8, 2, HexBytes(a[10..]), HexBytes(b[10..]));
  }

  lemma CompareFrom6(a: Uuid, b: Uuid)
    ensures Sign(CompareText(From6(a), From6(b))) == Sign(CompareBytes(a[6..], b[6..]))
  {
    var a6, b6 := a[6..], b[6..];
    CompareFrom8(a, b);
    assert a6[2..] == a[8..] && b6[2..] == b[8..] && a6[..2] == a[6..8] && b6[..2] == b[6..8];
    CompareGroup(a6, b6, 2, From8(a), From8(b));
  }

  lemma CompareFrom4(a: Uuid, b: Uuid)
    ensures Sign(CompareText(From4(a), From4(b))) == Sign(CompareBytes(a[4..], b[4..]))
  {
    var a4, b4 := a[4..], b[4..];
    CompareFrom6(a, b);
    assert a4[2..] == a[6..] && b4[2..] == b[6..] && a4[..2] == a[4..6] && b4[..2] == b[4..6];
    CompareGroup(a4, b4, 2, From6(a), From6(b));
  }

  /** The order of the text is the order of the database. */
  lemma TextOrderIsByteOrder(a: Uuid, b: Uuid)
    ensures Sign(CompareText(Text(a), Text(b))) == Sign(CompareBytes(a, b))
  {
    CompareFrom4(a, b);
    CompareGroup(a, b, 4, From4(a), From4(b));
    TextGroups(a);
    TextGroups(b);
  }

  lemma TextGroups(u: Uuid)
    ensures Text(u) == HexBytes(u[..4]) + "-" + From4(u)
  {
  }

  lemma {:induction false} CompareEqual(a: seq<Byte>, b: seq<Byte>)
    requires |a| == |b|
    ensures CompareBytes(a, b) == 0 <==> a == b
    ensures Sign(CompareBytes(b, a)) == -Sign(CompareBytes(a, b))
  {
    if a == [] {
    } else {
      CompareEqual(a[1..], b[1..]);
      assert a == [a[0]] + a[1..] && b == [b[0]] + b[1..];
    }
  }

  /** For distinct users the pair is the same whichever way round it is given, holds both
      users, and satisfies CHECK (user_low_id < user_high_id). */
  lemma NormalizePairOrders(a: Uuid, b: Uuid)
    requires a != b
    ensures NormalizePair(a, b) == NormalizePair(b, a)
    ensures var (low, high) := NormalizePair(a, b); DbLess(low, high) && {low, high} == {a, b}
  {
    TextOrderIsByteOrder(a, b);
    TextOrderIsByteOrder(b, a);
    CompareEqual(a, b);
  }

  // ---------- What the text tells ----------

  lemma {:induction false} CompareSelf(s: string)
    ensures CompareText(s, s) == 0
    decreases |s|
  {
    if s != "" { CompareSelf(s[1..]); }
  }

  lemma HexTells(a: seq<Byte>, b: seq<Byte>)
    requires HexBytes(a) == HexBytes(b)
    ensures a == b
  {
    CompareSelf(HexBytes(a));
    CompareHex(a, b);
    CompareEqual(a, b);
  }

  lemma TextTells(a: Uuid, b: Uuid)
    requires Text(a) == Text(b)
    ensures a == b
  {
    CompareSelf(Text(a));
    TextOrderIsByteOrder(a, b);
    CompareEqual(a, b);
  }

  /** 36 characters: 8, 4, 4, 4 and 12 hexadecimal digits between hyphens. */
  lemma TextShape(u: Uuid)
    ensures var s := Text(u);
            && |s| == 36 && s[8] == s[13] == s[18] == s[23] == '-'
            && s[..8] == HexBytes(u[..4]) && s[9..13] == HexBytes(u[4..6]) && s[14..18] == HexBytes(u[6..8])
            && s[19..23] == HexBytes(u[8..10]) && s[24..] == HexBytes(u[10..])
  {
    var a, b, c, d := HexBytes(u[..4]), HexBytes(u[4..6]), HexBytes(u[6..8]), HexBytes(u[8..10]);
    Hyphens(a, b, c, d, HexBytes(u[10..]));
  }

  lemma Hyphens(a: string, b: string, c: string, d: string, e: string)
    requires |a| == 8 && |b| == |c| == |d| == 4 && |e| == 12
    ensures var s := a + "-" + b + "-" + c + "-" + d + "-" + e;
            && |s| == 36 && s[8] == s[13] == s[18] == s[23] == '-'
            && s[..8] == a && s[9..13] == b && s[14..18] == c && s[19..23] == d && s[24..] == e
  {
    var s2 := a + "-" + b + "-";
    assert s2[..8] == a && s2[9..13] == b && s2[8] == s2[13] == '-';
    var s4 := s2 + c + "-" + d + "-";
    assert s4[..14] == s2 && s4[14..18] == c && s4[19..23] == d && s4[18] == s4[23] == '-';
    assert (s4 + e)[..24] == s4 && (s4 + e)[24..] == e;
  }

  // ---------- The 128-bit value ----------

  lemma {:induction false} ValueOrder(a: seq<Byte>, b: seq<Byte>)
    requires |a| == |b|
    ensures Sign(Value(a) - Value(b)) == Sign(CompareBytes(a, b))
  {
    if a == [] {
    } else {
      var n := |a| - 1;
      ValueOrder(a[..n], b[..n]);
      CompareSplit(a, b, n);
      CompareEqual(a[..n], b[..n]);
      assert CompareBytes(a[n..], b[n..]) == a[n] as int - b[n] as int by {
        assert a[n..][1..] == [] && b[n..][1..] == [];
      }
    }
  }

  /** Identifying a UUID with its value keeps equality and order, so `normalizePair` picks
      what `Low` and `High` are of the values. */
  lemma ValueOfPair(a: Uuid, b: Uuid)
    ensures a == b <==> Value(a) == Value(b)
    ensures DbLess(a, b) <==> Value(a) < Value(b)
    ensures var (low, high) := NormalizePair(a, b);
            Value(low) == Low(Value(a), Value(b)) && Value(high) == High(Value(a), Value(b))
  {
    var bytes := CompareBytes(a, b);
    assert Sign(Value(a) - Value(b)) == Sign(bytes) by { ValueOrder(a, b); }
    assert a == b <==> bytes == 0 by { CompareEqual(a, b); }
    assert CompareText(Text(a), Text(b)) < 0 <==> bytes < 0 by { TextOrderIsByteOrder(a, b); }
  }
}
