/** Photo keys tell whose photo they are of, at what position, from which random bytes. */
module PhotoKeys {
  import opened Common
  import opened Texts
  import opened UrlParse
  import opened StoreUrls
  import Uuids

  /** What `ProfilePhotoKey` is called with, and the bytes it draws. */
  datatype Photo = Photo(user: Uuids.Uuid, position: int, nonce: seq<Uuids.Byte>, ext: string)

  predicate PhotoOk(p: Photo) {
    0 <= p.position <= 2 && p.nonce != [] && p.ext in EXTENSIONS
  }

  function KeyOf(p: Photo): Option<string> {
    ProfilePhotoKey(Uuids.Text(p.user), p.position, Uuids.HexBytes(p.nonce), p.ext)
  }

  /** The parts of a key, by their places in it. */
  lemma KeyParts(p: Photo)
    requires PhotoOk(p)
    ensures KeyOf(p).Some?
    ensures var key, n := KeyOf(p).value, |PHOTO_DIR|;
            && |key| >= n + 40 && key[n + 1..n + 37] == Uuids.Text(p.user)
            && key[n + 38] == (p.position + '0' as int) as char
            && key[n + 40..] == Uuids.HexBytes(p.nonce) + p.ext
  {
    ExtensionsFine(p.ext);
    Uuids.TextShape(p.user);
    var text, tail := Uuids.Text(p.user), Uuids.HexBytes(p.nonce) + p.ext;
    var digit := (p.position + '0' as int) as char;
    assert PhotoName(p.position, Uuids.HexBytes(p.nonce), p.ext) == [digit] + "-" + tail;
    KeyPlaces(PHOTO_DIR, text, digit, tail);
  }

  lemma KeyPlaces(dir: string, text: string, digit: char, tail: string)
    requires |text| == 36
    ensures var key, n := dir + "/" + text + "/" + ([digit] + "-" + tail), |dir|;
            |key| >= n + 40 && key[n + 1..n + 37] == text && key[n + 38] == digit && key[n + 40..] == tail
  {
  }

  /** Digits without a dot and an extension that begins with one. */
  lemma DotTells(h: string, e: string, h': string, e': string)
    requires h + e == h' + e' && '.' !in h && '.' !in h' && e != "" && e' != "" && e[0] == '.' == e'[0]
    ensures h == h' && e == e'
  {
    var s := h + e;
    assert s[|h|] == '.' && s[|h'|] == '.';
    forall k | 0 <= k < |h| ensures s[k] != '.' { assert s[k] == h[k] && h[k] in h; }
    forall k | 0 <= k < |h'| ensures s[k] != '.' { assert s[k] == h'[k] && h'[k] in h'; }
    assert s[..|h|] == h && s[..|h'|] == h' && s[|h|..] == e && s[|h'|..] == e';
  }

  lemma HexHasNoDot(b: seq<Uuids.Byte>)
    requires b != []
    ensures '.' !in Uuids.HexBytes(b)
  {
    HexBytesAreHex(b);
  }

  /** Equal keys are of one user, one position, one draw of random bytes and one extension. */
  lemma KeyTells(p: Photo, q: Photo)
    requires PhotoOk(p) && PhotoOk(q) && KeyOf(p) == KeyOf(q)
    ensures p == q
  {
    KeyParts(p);
    KeyParts(q);
    Uuids.TextTells(p.user, q.user);
    ExtensionsFine(p.ext);
    HexHasNoDot(p.nonce);
    HexHasNoDot(q.nonce);
    DotTells(Uuids.HexBytes(p.nonce), p.ext, Uuids.HexBytes(q.nonce), q.ext);
    Uuids.HexTells(p.nonce, q.nonce);
  }

  /** Hence an upload with random bytes that no earlier upload drew has a key, a file and a
      URL that none of them has. */
  lemma FreshBytesFreshKey(earlier: set<Photo>, p: Photo, root: string, base: Option<Base>)
    requires PhotoOk(p) && root != "/" && forall q | q in earlier :: PhotoOk(q) && q.nonce != p.nonce
    requires base.Some? ==> BaseOk(base.value)
    ensures KeyOf(p).Some?
    ensures forall q | q in earlier :: KeyOf(q).Some? && KeyOf(q) != KeyOf(p)
    ensures forall q | q in earlier :: SafeLocalPath(root, KeyOf(q).value) != SafeLocalPath(root, KeyOf(p).value)
    ensures forall q | q in earlier :: LocalUrl(base, KeyOf(q).value) != LocalUrl(base, KeyOf(p).value)
  {
    KeyParts(p);
    forall q | q in earlier
      ensures KeyOf(q).Some? && KeyOf(q) != KeyOf(p)
      ensures SafeLocalPath(root, KeyOf(q).value) != SafeLocalPath(root, KeyOf(p).value)
      ensures LocalUrl(base, KeyOf(q).value) != LocalUrl(base, KeyOf(p).value)
    {
      KeyParts(q);
      if KeyOf(q) == KeyOf(p) { KeyTells(p, q); }
      PlaceOf(p, root, base);
      PlaceOf(q, root, base);
      assert "/" + KeyOf(p).value != "/" + KeyOf(q).value by {
        assert ("/" + KeyOf(p).value)[1..] == KeyOf(p).value && ("/" + KeyOf(q).value)[1..] == KeyOf(q).value;
      }
      Behind(root, "/" + KeyOf(p).value, "/" + KeyOf(q).value);
      Behind(UPLOADS, KeyOf(p).value, KeyOf(q).value);
      Behind(BaseText(base), UPLOADS + KeyOf(p).value, UPLOADS + KeyOf(q).value);
    }
  }

  lemma Behind(front: string, a: string, b: string)
    requires a != b
    ensures front + a != front + b
  {
    assert (front + a)[|front|..] == a && (front + b)[|front|..] == b;
  }

  /** A photo's file and URL hold its whole key. */
  lemma PlaceOf(p: Photo, root: string, base: Option<Base>)
    requires PhotoOk(p) && root != "/" && KeyOf(p).Some?
    ensures SafeLocalPath(root, KeyOf(p).value) == Some(root + ("/" + KeyOf(p).value))
    ensures LocalUrl(base, KeyOf(p).value) == BaseText(base) + (UPLOADS + KeyOf(p).value)
  {
    TextIsHex(p.user);
    HexBytesAreHex(p.nonce);
    PhotoKeyShape(Uuids.Text(p.user), p.position, Uuids.HexBytes(p.nonce), p.ext);
    NameUnderRoot(root, KeyOf(p).value);
  }
}
