/** What handlers do to the texts they are given. */
module Texts {
  import opened Common

  /** `unicode.IsSpace`. */
  predicate IsSpace(c: char) {
    || '\t' <= c <= '\r' || c == ' ' || c == '\U{85}' || c == '\U{a0}' || c == '\U{1680}'
    || '\U{2000}' <= c <= '\U{200a}' || c == '\U{2028}' || c == '\U{2029}'
    || c == '\U{202f}' || c == '\U{205f}' || c == '\U{3000}'
  }

  /** The characters with the Unicode property White_Space. */
  const SPACES := "\t\n\U{b}\U{c}\r \U{85}\U{a0}\U{1680}" +
                  "\U{2000}\U{2001}\U{2002}\U{2003}\U{2004}\U{2005}\U{2006}\U{2007}\U{2008}\U{2009}\U{200a}" +
                  "\U{2028}\U{2029}\U{202f}\U{205f}\U{3000}"

  lemma SpacesAre(c: char)
    ensures IsSpace(c) <==> c in SPACES
  {
    if '\t' <= c <= '\r' { assert SPACES[c as int - '\t' as int] == c; }
    if '\U{2000}' <= c <= '\U{200a}' { assert SPACES[9 + (c as int - '\U{2000}' as int)] == c; }
    assert SPACES[5] == ' ' && SPACES[6] == '\U{85}' && SPACES[7] == '\U{a0}' && SPACES[8] == '\U{1680}';
    assert SPACES[20] == '\U{2028}' && SPACES[21] == '\U{2029}' && SPACES[22] == '\U{202f}';
    assert SPACES[23] == '\U{205f}' && SPACES[24] == '\U{3000}';
  }

  predicate AllSpace(s: string) {
    forall i | 0 <= i < |s| :: IsSpace(s[i])
  }

  function TrimLeft(s: string): string {
    if s != "" && IsSpace(s[0]) then TrimLeft(s[1..]) else s
  }

  function TrimRight(s: string): string {
    if s != "" && IsSpace(s[|s| - 1]) then TrimRight(s[..|s| - 1]) else s
  }

  function TrimSpace(s: string): string {
    TrimRight(TrimLeft(s))
  }

  /** A text without spaces at its ends. */
  predicate Trimmed(s: string) {
    s != "" ==> !IsSpace(s[0]) && !IsSpace(s[|s| - 1])
  }

  lemma {:induction false} TrimLeftIs(s: string) returns (a: string)
    ensures s == a + TrimLeft(s) && AllSpace(a)
    ensures TrimLeft(s) != "" ==> !IsSpace(TrimLeft(s)[0])
  {
    if s != "" && IsSpace(s[0]) {
      var rest := TrimLeftIs(s[1..]);
      a := [s[0]] + rest;
      assert s == [s[0]] + (rest + TrimLeft(s));
    } else {
      a := "";
    }
  }

  lemma {:induction false} TrimRightIs(s: string) returns (b: string)
    ensures s == TrimRight(s) + b && AllSpace(b)
    ensures TrimRight(s) != "" ==> !IsSpace(TrimRight(s)[|TrimRight(s)| - 1])
  {
    if s != "" && IsSpace(s[|s| - 1]) {
      var rest := TrimRightIs(s[..|s| - 1]);
      b := rest + [s[|s| - 1]];
      assert s == (TrimRight(s) + rest) + [s[|s| - 1]];
    } else {
      b := "";
    }
  }

  /** Only spaces go, and all of them at both ends. */
  lemma TrimSpaceIs(s: string) returns (a: string, b: string)
    ensures s == a + TrimSpace(s) + b && AllSpace(a) && AllSpace(b) && Trimmed(TrimSpace(s))
  {
    a := TrimLeftIs(s);
    b := TrimRightIs(TrimLeft(s));
    assert s == a + (TrimSpace(s) + b);
  }

  /** Lower case, of letters that occur in what the lowered texts are compared with. */
  function ToLower(s: string): (l: string)
    ensures |l| == |s|
  {
    seq(|s|, i requires 0 <= i < |s| => if 'A' <= s[i] <= 'Z' then (s[i] as int + 32) as char else s[i])
  }

  predicate OccursAt(s: string, p: string, i: int) {
    0 <= i <= |s| - |p| && s[i..i + |p|] == p
  }

  predicate Contains(s: string, p: string) {
    exists i | 0 <= i <= |s| :: OccursAt(s, p, i)
  }

  /** `len` of a Go string: the bytes of its UTF-8 form. */
  function Bytes(s: string): nat {
    if s == "" then 0
    else
      Bytes(s[1..]) +
      if s[0] < '\U{80}' then 1 else if s[0] < '\U{800}' then 2 else if s[0] < '\U{10000}' then 3 else 4
  }

  /** How many characters of `s` are not below `from`. */
  function CountFrom(s: string, from: char): nat {
    if s == "" then 0 else CountFrom(s[1..], from) + if s[0] < from then 0 else 1
  }

  /** A byte for each character, and one more for each bound of RFC 3629 (section 3) that it
      reaches. */
  lemma {:induction false} BytesExactly(s: string)
    ensures Bytes(s) == |s| + CountFrom(s, '\U{80}') + CountFrom(s, '\U{800}') + CountFrom(s, '\U{10000}')
  {
    if s != "" { BytesExactly(s[1..]); }
  }

  /** A limit on bytes is a limit on characters. */
  lemma {:induction false} CharsWithinBytes(s: string)
    ensures |s| <= Bytes(s)
  {
    if s != "" { CharsWithinBytes(s[1..]); }
  }

  // ---------- Chat payloads ----------

  datatype PayloadError = InvalidPayload | LinksNotAllowed

  predicate HasLink(text: string) {
    var lower := ToLower(text);
    Contains(lower, "http://") || Contains(lower, "https://") || Contains(lower, "data:")
  }

  /** validateChatPayload. */
  function PayloadErrorOf(conversation: Id, text: string): Option<PayloadError> {
    var body := TrimSpace(text);
    if conversation == 0 || body == "" || |body| > 1000 then Some(InvalidPayload)
    else if HasLink(body) then Some(LinksNotAllowed)
    else None
  }

  /** What may stand in `messages.body`. */
  predicate BodyOk(body: string) {
    Trimmed(body) && 0 < |body| <= 1000 && !HasLink(body)
  }

  // ---------- What a link is ----------

  /** `c` is the lower-case letter or the sign `p`, or the upper-case letter of `p`. */
  predicate IsLetterOf(c: char, p: char) {
    c == p || ('a' <= p <= 'z' && c as int == p as int - 32)
  }

  /** At `i` stands `p`, in letters of either case. */
  predicate StandsAt(s: string, p: string, i: int) {
    0 <= i && i + |p| <= |s| && forall j | 0 <= j < |p| :: IsLetterOf(s[i + j], p[j])
  }

  /** One of the three beginnings of a link stands somewhere in the text. */
  predicate LinkStandsIn(s: string) {
    exists i | 0 <= i <= |s| :: StandsAt(s, "http://", i) || StandsAt(s, "https://", i) || StandsAt(s, "data:", i)
  }

  predicate NoCapitals(p: string) {
    forall j | 0 <= j < |p| :: !('A' <= p[j] <= 'Z')
  }

  lemma OccursExactly(s: string, p: string, i: int)
    requires NoCapitals(p)
    ensures OccursAt(ToLower(s), p, i) <==> StandsAt(s, p, i)
  {
    var l := ToLower(s);
    if 0 <= i && i + |p| <= |s| {
      var part := l[i..i + |p|];
      forall j | 0 <= j < |p| ensures part[j] == p[j] <==> IsLetterOf(s[i + j], p[j]) {
        LowerExactly(s, i + j, p[j]);
      }
      if StandsAt(s, p, i) { assert part == p; }
    }
  }

  lemma LowerExactly(s: string, k: nat, p: char)
    requires k < |s| && !('A' <= p <= 'Z')
    ensures ToLower(s)[k] == p <==> IsLetterOf(s[k], p)
  {
  }

  lemma ContainsExactly(s: string, p: string)
    requires NoCapitals(p)
    ensures Contains(ToLower(s), p) <==> exists i | 0 <= i <= |s| :: StandsAt(s, p, i)
  {
    forall i ensures OccursAt(ToLower(s), p, i) <==> StandsAt(s, p, i) { OccursExactly(s, p, i); }
  }

  /** A text has a link exactly when a beginning of one stands in it, in either case. */
  lemma HasLinkExactly(s: string)
    ensures HasLink(s) <==> LinkStandsIn(s)
  {
    ContainsExactly(s, "http://");
    ContainsExactly(s, "https://");
    ContainsExactly(s, "data:");
  }

  /** A payload passes exactly when what would be stored of it may be, and is refused for a
      link exactly when a link is all that is wrong with it. */
  lemma PayloadOkExactly(conversation: Id, text: string)
    ensures PayloadErrorOf(conversation, text).None? <==> conversation != 0 && BodyOk(TrimSpace(text))
    ensures PayloadErrorOf(conversation, text) == Some(LinksNotAllowed) <==>
            conversation != 0 && 0 < |TrimSpace(text)| <= 1000 && LinkStandsIn(TrimSpace(text))
    ensures PayloadErrorOf(conversation, text) == Some(InvalidPayload) <==>
            conversation == 0 || |TrimSpace(text)| == 0 || |TrimSpace(text)| > 1000
  {
    var a, b := TrimSpaceIs(text);
    HasLinkExactly(TrimSpace(text));
  }
}
