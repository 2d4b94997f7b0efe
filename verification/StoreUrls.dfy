/** Keys, files and URLs of the two object stores: where `Put` writes, the URL it returns,
    and the key that `KeyFromURL` reads back from it. */
module StoreUrls {
  import opened Common
  import opened Texts
  import opened PathClean
  import opened UrlParse
  import Uuids

  predicate ContainsDotDot(s: string) {
    exists i :: 0 <= i < |s| - 1 && s[i] == '.' && s[i + 1] == '.'
  }

  /** The file of a key under the absolute directory `root`, or an error. */
  function SafeLocalPath(root: string, key: string): Option<string> {
    var clean := Clean("/" + key);
    if clean == "/" || ContainsDotDot(clean) then None
    else
      var full := if root == "/" then clean else root + clean;
      if full != root && !HasPrefix(full, root + "/") then None else Some(full)
  }

  const UPLOADS := "/uploads/"

  /** `publicBaseURL`, empty or a scheme and host; `NewLocalStore` has trimmed slashes. */
  function BaseText(base: Option<Base>): string {
    if base.None? then "" else Front(base.value)
  }

  function LocalUrl(base: Option<Base>, key: string): string {
    BaseText(base) + (UPLOADS + Clean(key))
  }

  function LocalKeyFromURL(publicBase: string, raw: string): Option<string> {
    var parsed := ParseURL(raw);
    if parsed.None? then None
    else
      var base := ParseURL(publicBase);
      if publicBase != "" && base.Some? && parsed.value.host != "" && parsed.value.host != base.value.host then None
      else if !HasPrefix(parsed.value.path, UPLOADS) then None
      else Some(parsed.value.path[|UPLOADS|..])
  }

  /** The store on the local disk, as far as its files go. */
  class LocalStore {
    const root: string
    const base: Option<Base>
    var files: map<string, seq<int>>

    constructor (root: string, base: Option<Base>)
      ensures this.root == root && this.base == base && files == map[]
    {
      this.root, this.base, files := root, base, map[];
    }

    method Put(key: string, data: seq<int>) returns (url: Option<string>)
      modifies this`files
      ensures url == if SafeLocalPath(root, key).None? then None else Some(LocalUrl(base, key))
      ensures files == if SafeLocalPath(root, key).None? then old(files)
                       else old(files)[SafeLocalPath(root, key).value := data]
    {
      var path := SafeLocalPath(root, key);
      if path.None? { return None; }
      files := files[path.value := data];
      var asset := UPLOADS + Clean(key);
      if base.None? {
        assert "" + asset == asset;
        return Some(asset);
      }
      return Some(Front(base.value) + asset);
    }

    method Delete(key: string) returns (ok: bool)
      modifies this`files
      ensures ok == SafeLocalPath(root, key).Some?
      ensures files == if ok then old(files) - {SafeLocalPath(root, key).value} else old(files)
    {
      var path := SafeLocalPath(root, key);
      if path.None? { return false; }
      files := files - {path.value};
      return true;
    }

    /** removeProfilePhotoObject on a URL this store returned removes the file it wrote. */
    method RemoveByURL(key: string, url: string)
      requires url == LocalUrl(base, key) && SafeLocalPath(root, key).Some? && AllPlain(Clean(key))
      requires base.Some? ==> BaseOk(base.value)
      modifies this`files
      ensures files == old(files) - {SafeLocalPath(root, key).value}
    {
      LocalRoundTrip(root, base, key);
      var found := LocalKeyFromURL(BaseText(base), url);
      if found.None? { return; }
      var ok := Delete(found.value);
    }
  }

  // ---------- The local round trip ----------

  lemma ParseUploads(base: Option<Base>, path: string)
    requires (base.Some? ==> BaseOk(base.value)) && |path| >= 2 && path[0] == '/' && IsLetter(path[1])
    ensures var parsed := ParseURL(BaseText(base) + path);
            if PathPart(path).None? then parsed.None?
            else parsed.Some? && parsed.value.path == PathPart(path).value &&
                 parsed.value.host == if base.None? then "" else base.value.host
  {
    if base.None? {
      assert "" + path == path;
      ParseWithoutBase(path);
    } else {
      ParseWithBase(base.value, path);
    }
  }

  lemma ParseLocal(base: Option<Base>, tail: string)
    requires base.Some? ==> BaseOk(base.value)
    ensures var parsed := ParseURL(BaseText(base) + (UPLOADS + tail));
            if PathPart(tail).None? then parsed.None?
            else parsed.Some? && parsed.value.path == UPLOADS + PathPart(tail).value &&
                 parsed.value.host == if base.None? then "" else base.value.host
  {
    PathPartConcat(UPLOADS, tail);
    ParseUploads(base, UPLOADS + tail);
  }

  /** The key read back is the decoded path after "/uploads/". */
  lemma LocalKeyIs(base: Option<Base>, tail: string)
    requires base.Some? ==> BaseOk(base.value)
    ensures LocalKeyFromURL(BaseText(base), BaseText(base) + (UPLOADS + tail)) == PathPart(tail)
  {
    ParseLocal(base, tail);
    if PathPart(tail).Some? {
      var path := UPLOADS + PathPart(tail).value;
      assert path[..|UPLOADS|] == UPLOADS && path[|UPLOADS|..] == PathPart(tail).value;
      if base.Some? {
        assert Front(base.value) + "" == Front(base.value);
        ParseWithBase(base.value, "");
        PathPartLength("");
      }
    }
  }

  lemma {:induction false} DotsPlain(n: nat)
    ensures AllPlain(Dots(n))
  {
    if n > 0 { DotsPlain(n - 1); }
  }

  /** A tail that is not plain decodes, if at all, to the path of another file. */
  lemma OtherFile(root: string, key: string)
    requires SafeLocalPath(root, key).Some? && !AllPlain(Clean(key)) && PathPart(Clean(key)).Some?
    ensures SafeLocalPath(root, PathPart(Clean(key)).value) != SafeLocalPath(root, key)
  {
    CleanBelow(key);
    var file := Join(Below(key));
    assert Below(key) != [];
    var lead := CleanParts(key);
    assert AllPlain(lead) by {
      if n :| lead == Dots(n) { DotsPlain(n); }
    }
    PathPartConcat(lead, file);
    PathPartLength(file);
    var y := PathPart(file).value;
    CleanBelow(lead + y);
    LeadIgnored(lead, y);
    BelowLength(y);
  }

  /** The key `KeyFromURL` finds in a URL of `Put` leads to the file `Put` wrote exactly when
      the cleaned key has no '%', '?', '#' or control character; it need not be the key. */
  lemma LocalRoundTrip(root: string, base: Option<Base>, key: string)
    requires SafeLocalPath(root, key).Some? && (base.Some? ==> BaseOk(base.value))
    ensures var found := LocalKeyFromURL(BaseText(base), LocalUrl(base, key));
            (found.Some? && SafeLocalPath(root, found.value) == SafeLocalPath(root, key)) <==> AllPlain(Clean(key))
    ensures AllPlain(Clean(key)) ==> LocalKeyFromURL(BaseText(base), LocalUrl(base, key)) == Some(Clean(key))
  {
    LocalKeyIs(base, Clean(key));
    PathPartLength(Clean(key));
    CleanUnderRoot(key);
    if !AllPlain(Clean(key)) && PathPart(Clean(key)).Some? { OtherFile(root, key); }
  }

  lemma SplitExample()
    ensures Split("a//b") == ["a", "", "b"]
  {
    assert "//b"[1..] == "/b" && "/b"[1..] == "b";
    SplitJoin(["b"]);
    assert Split("/b") == ["", "b"];
    assert Split("//b") == ["", "", "b"];
    SplitConcat("a", "//b");
    assert "a" + "" == "a" && "a//b" == "a" + "//b";
  }

  lemma WalkExample(rooted: bool)
    ensures Walk([], ["a", "", "b"], rooted) == ["a", "b"]
  {
    assert ["a", "", "b"][1..] == ["", "b"] && ["", "b"][1..] == ["b"] && ["b"][1..] == [];
  }

  lemma CleanExample()
    ensures Clean("a//b") == "a/b" && Clean("/" + "a//b") == "/a/b"
  {
    SplitExample();
    WalkExample(true);
    WalkExample(false);
    assert ["a", "b"][1..] == ["b"] && Join(["a", "b"]) == "a" + "/" + "b" == "a/b";
    CleanBelow("a//b");
    assert "/" + "a/b" == "/a/b";
  }

  lemma FileExample(key: string)
    requires Clean("/" + key) == "/a/b"
    ensures SafeLocalPath("/srv", key).Some?
  {
    assert ("/srv" + "/a/b")[..5] == "/srv/" == "/srv" + "/";
  }

  /** The two keys can differ and still name one file. */
  lemma KeysMayDiffer()
    ensures var key := "a//b";
            LocalKeyFromURL("", LocalUrl(None, key)) == Some("a/b") && SafeLocalPath("/srv", key).Some?
  {
    CleanExample();
    FileExample("a//b");
    LocalRoundTrip("/srv", None, "a//b");
  }

  lemma UnescapeExample()
    ensures Unescape("a%62") == Some("ab")
  {
    var s := "%62";
    assert s[3..] == "" && HexValue(s[1]) == 6 && HexValue(s[2]) == 2;
    assert Unescape(s) == Some(['b'] + "");
    var t := "a%62";
    assert t[1..] == s && ['a'] + (['b'] + "") == "ab";
    assert Unescape(t) == Some(['a'] + (['b'] + ""));
  }

  lemma DecodeExample()
    ensures PathPart("a%62") == Some("ab")
  {
    var key := "a%62";
    BeforeIsPrefix(key, '#');
    BeforeIsPrefix(key, '?');
    assert key[|key|..] == "";
    UnescapeExample();
  }

  lemma CleanName(name: string)
    requires name != "" && name != "." && name != ".." && '/' !in name
    ensures Clean(name) == name && Clean("/" + name) == "/" + name
  {
    CleanOfNames([name]);
  }

  /** An accepted key with an escape is read back as the key of another file. */
  lemma EscapedKeyLeadsElsewhere()
    ensures var key := "a%62";
            && SafeLocalPath("/srv", key) == Some("/srv" + ("/" + key))
            && LocalKeyFromURL("", LocalUrl(None, key)) == Some("ab")
  {
    var key := "a%62";
    CleanName(key);
    assert !ContainsDotDot(key);
    NameUnderRoot("/srv", key);
    LocalKeyIs(None, key);
    DecodeExample();
  }

  // ---------- The bucket ----------

  /** `publicBaseURL` of the bucket, which may have a path; `NewR2Store` has trimmed slashes. */
  datatype R2Base = R2Base(front: Base, path: string)

  predicate R2BaseOk(b: R2Base) {
    BaseOk(b.front) && AllPlain(b.path) && (b.path == "" || (b.path[0] == '/' && b.path[|b.path| - 1] != '/'))
  }

  function R2Text(b: R2Base): string {
    Front(b.front) + b.path
  }

  function R2Url(b: R2Base, key: string): string {
    R2Text(b) + "/" + key
  }

  function TrimRightSlashes(s: string): string {
    if s != "" && s[|s| - 1] == '/' then TrimRightSlashes(s[..|s| - 1]) else s
  }

  function TrimPrefix(s: string, p: string): string {
    if HasPrefix(s, p) then s[|p|..] else s
  }

  function R2KeyFromURL(publicBase: string, raw: string): Option<string> {
    var parsed := ParseURL(raw);
    var base := ParseURL(publicBase);
    if parsed.None? || base.None? || parsed.value.host != base.value.host then None
    else
      var key := TrimPrefix(parsed.value.path, TrimRightSlashes(base.value.path) + "/");
      if key == "" || HasPrefix(key, "/") || ContainsDotDot(key) then None else Some(key)
  }

  /** Keys the bucket's `KeyFromURL` does not refuse. */
  predicate R2Accepts(key: string) {
    key != "" && !HasPrefix(key, "/") && !ContainsDotDot(key)
  }

  lemma ParseR2(b: R2Base, key: string)
    requires R2BaseOk(b)
    ensures ParseURL(R2Text(b)) == Some(Parsed(ToLower(b.front.scheme), b.front.host, b.path))
    ensures ParseURL(R2Url(b, key)) ==
            if PathPart(key).None? then None
            else Some(Parsed(ToLower(b.front.scheme), b.front.host, (b.path + "/") + PathPart(key).value))
  {
    var lead := b.path + "/";
    assert R2Url(b, key) == Front(b.front) + (lead + key);
    ParseWithBase(b.front, lead + key);
    ParseWithBase(b.front, b.path);
    PathPartLength(b.path);
    PathPartConcat(lead, key);
  }

  /** `KeyFromURL` reads back the key `Put` was given exactly when the key is plain, not
      empty, does not start with a slash and has no "..". */
  lemma R2RoundTrip(b: R2Base, key: string)
    requires R2BaseOk(b)
    ensures R2KeyFromURL(R2Text(b), R2Url(b, key)) == Some(key) <==> AllPlain(key) && R2Accepts(key)
  {
    ParseR2(b, key);
    PathPartLength(key);
    if PathPart(key).Some? {
      var lead, found := b.path + "/", PathPart(key).value;
      assert (lead + found)[..|lead|] == lead && (lead + found)[|lead|..] == found;
      assert TrimPrefix(lead + found, lead) == found;
    }
  }

  // ---------- Photo keys ----------

  const PHOTO_DIR := "profile-photos"

  /** ProfilePhotoKey for the text of a user's id and of the random bytes. */
  function ProfilePhotoKey(user: string, position: int, nonce: string, ext: string): Option<string> {
    if position < 0 || position > 2 then None
    else if ext == "" || '/' in ext || '\\' in ext || ContainsDotDot(ext) then None
    else Some(PHOTO_DIR + "/" + user + "/" + PhotoName(position, nonce, ext))
  }

  function PhotoName(position: int, nonce: string, ext: string): string
    requires 0 <= position <= 2
  {
    [(position + '0' as int) as char] + "-" + nonce + ext
  }

  /** The text of ids and of random bytes. */
  predicate HexOrHyphen(s: string) {
    s != "" && forall i | 0 <= i < |s| :: IsDigit(s[i]) || 'a' <= s[i] <= 'f' || s[i] == '-'
  }

  const EXTENSIONS: set<string> := {".jpg", ".png", ".webp"}

  /** Both stores read back the key of a photo that was stored with a detected extension. */
  lemma PhotoKeysRoundTrip(user: string, position: int, nonce: string, ext: string, root: string,
                           base: Option<Base>, r2: R2Base)
    requires 0 <= position <= 2 && HexOrHyphen(user) && HexOrHyphen(nonce) && ext in EXTENSIONS
    requires (base.Some? ==> BaseOk(base.value)) && R2BaseOk(r2)
    requires root != "/"
    ensures var key := ProfilePhotoKey(user, position, nonce, ext);
            && key.Some?
            && SafeLocalPath(root, key.value).Some?
            && LocalKeyFromURL(BaseText(base), LocalUrl(base, key.value)) == key
            && R2KeyFromURL(R2Text(r2), R2Url(r2, key.value)) == key
  {
    var key := ProfilePhotoKey(user, position, nonce, ext).value;
    PhotoKeyShape(user, position, nonce, ext);
    NameUnderRoot(root, key);
    LocalRoundTrip(root, base, key);
    R2RoundTrip(r2, key);
  }

  lemma NameUnderRoot(root: string, key: string)
    requires root != "/" && key != "" && Clean("/" + key) == "/" + key && !ContainsDotDot(key)
    ensures SafeLocalPath(root, key) == Some(root + ("/" + key))
  {
    var full := root + ("/" + key);
    assert full[..|root| + 1] == root + "/";
    NoDotDotUnderRoot(key);
  }

  lemma {:induction false} HexBytesAreHex(b: seq<Uuids.Byte>)
    ensures b != [] ==> HexOrHyphen(Uuids.HexBytes(b))
  {
    if b == [] {
    } else {
      HexBytesAreHex(b[1..]);
      HexDigitIsHex(b[0] as int / 16);
      HexDigitIsHex(b[0] as int % 16);
    }
  }

  lemma HexDigitIsHex(n: int)
    requires 0 <= n < 16
    ensures var c := Uuids.HexDigit(n); IsDigit(c) || 'a' <= c <= 'f'
  {
  }

  lemma Hyphenated(s: string, t: string)
    requires HexOrHyphen(s) && HexOrHyphen(t)
    ensures HexOrHyphen(s + "-" + t)
  {
  }

  lemma TextIsHex(u: Uuids.Uuid)
    ensures HexOrHyphen(Uuids.Text(u))
  {
    var a, b, c, d, e := u[..4], u[4..6], u[6..8], u[8..10], u[10..];
    HexBytesAreHex(a);
    HexBytesAreHex(b);
    HexBytesAreHex(c);
    HexBytesAreHex(d);
    HexBytesAreHex(e);
    Hyphenated(Uuids.HexBytes(a), Uuids.HexBytes(b));
    Hyphenated(Uuids.HexBytes(a) + "-" + Uuids.HexBytes(b), Uuids.HexBytes(c));
    Hyphenated(Uuids.HexBytes(a) + "-" + Uuids.HexBytes(b) + "-" + Uuids.HexBytes(c), Uuids.HexBytes(d));
    Hyphenated(Uuids.HexBytes(a) + "-" + Uuids.HexBytes(b) + "-" + Uuids.HexBytes(c) + "-" + Uuids.HexBytes(d),
               Uuids.HexBytes(e));
  }

  /** Every photo of every user: no other condition on the key is needed. */
  lemma EveryPhotoRoundTrips(user: Uuids.Uuid, position: int, nonce: seq<Uuids.Byte>, ext: string,
                             root: string, base: Option<Base>, r2: R2Base)
    requires 0 <= position <= 2 && nonce != [] && ext in EXTENSIONS && root != "/"
    requires (base.Some? ==> BaseOk(base.value)) && R2BaseOk(r2)
    ensures var key := ProfilePhotoKey(Uuids.Text(user), position, Uuids.HexBytes(nonce), ext);
            && key.Some?
            && SafeLocalPath(root, key.value).Some?
            && LocalKeyFromURL(BaseText(base), LocalUrl(base, key.value)) == key
            && R2KeyFromURL(R2Text(r2), R2Url(r2, key.value)) == key
  {
    TextIsHex(user);
    HexBytesAreHex(nonce);
    PhotoKeysRoundTrip(Uuids.Text(user), position, Uuids.HexBytes(nonce), ext, root, base, r2);
  }

  lemma NoDotDotUnderRoot(key: string)
    requires !ContainsDotDot(key)
    ensures !ContainsDotDot("/" + key)
  {
    var s := "/" + key;
    forall i | 0 <= i < |s| - 1 ensures !(s[i] == '.' && s[i + 1] == '.') {
      assert i > 0 ==> s[i] == key[i - 1] && s[i + 1] == key[i];
    }
  }

  function PhotoParts(user: string, position: int, nonce: string, ext: string): seq<string>
    requires 0 <= position <= 2
  {
    [PHOTO_DIR, user, PhotoName(position, nonce, ext)]
  }

  lemma ExtensionsFine(ext: string)
    requires ext in EXTENSIONS
    ensures ext != "" && ext[0] == '.' && AllPlain(ext) && !ContainsDotDot(ext) && '/' !in ext && '\\' !in ext
  {
  }

  lemma PhotoPartsJoin(user: string, position: int, nonce: string, ext: string)
    requires 0 <= position <= 2
    ensures Join(PhotoParts(user, position, nonce, ext)) ==
            PHOTO_DIR + "/" + user + "/" + PhotoName(position, nonce, ext)
  {
    var name := PhotoName(position, nonce, ext);
    assert [PHOTO_DIR, user, name][1..] == [user, name] && [user, name][1..] == [name];
    assert Join([user, name]) == user + "/" + name;
    assert PHOTO_DIR + "/" + (user + "/" + name) == PHOTO_DIR + "/" + user + "/" + name;
  }

  lemma PhotoPartsShaped(user: string, position: int, nonce: string, ext: string)
    requires 0 <= position <= 2 && HexOrHyphen(user) && HexOrHyphen(nonce) && ext in EXTENSIONS
    ensures Shaped(PhotoParts(user, position, nonce, ext))
    ensures forall c | c in PhotoParts(user, position, nonce, ext) :: c != "" && c != "." && c != ".."
  {
    ExtensionsFine(ext);
    var name := PhotoName(position, nonce, ext);
    assert name[0] != '.' && user[0] != '.' && PHOTO_DIR[0] != '.';
    assert '/' !in name;
  }

  /** What a photo's key is in front of the extension. */
  function PhotoFront(user: string, position: int, nonce: string): string
    requires 0 <= position <= 2
  {
    PHOTO_DIR + "/" + user + "/" + [(position + '0' as int) as char] + "-" + nonce
  }

  lemma PhotoFrontPlain(user: string, position: int, nonce: string)
    requires 0 <= position <= 2 && HexOrHyphen(user) && HexOrHyphen(nonce)
    ensures var front := PhotoFront(user, position, nonce); AllPlain(front) && '.' !in front && front[0] == 'p'
  {
  }

  /** Only an extension brings a dot, and it brings one. */
  lemma OneDot(front: string, ext: string)
    requires '.' !in front && !ContainsDotDot(ext)
    ensures !ContainsDotDot(front + ext)
  {
    var key := front + ext;
    forall i | 0 <= i < |key| - 1 ensures !(key[i] == '.' && key[i + 1] == '.') {
      assert i < |front| ==> key[i] in front;
      assert i >= |front| ==> key[i] == ext[i - |front|] && key[i + 1] == ext[i + 1 - |front|];
    }
  }

  lemma PhotoKeyPlain(user: string, position: int, nonce: string, ext: string)
    requires 0 <= position <= 2 && HexOrHyphen(user) && HexOrHyphen(nonce) && ext in EXTENSIONS
    ensures var key := PHOTO_DIR + "/" + user + "/" + PhotoName(position, nonce, ext); AllPlain(key) && R2Accepts(key)
  {
    ExtensionsFine(ext);
    var front := PhotoFront(user, position, nonce);
    assert PHOTO_DIR + "/" + user + "/" + PhotoName(position, nonce, ext) == front + ext;
    PhotoFrontPlain(user, position, nonce);
    OneDot(front, ext);
    assert (front + ext)[..1] == "p";
  }

  lemma PhotoKeyShape(user: string, position: int, nonce: string, ext: string)
    requires 0 <= position <= 2 && HexOrHyphen(user) && HexOrHyphen(nonce) && ext in EXTENSIONS
    ensures var key := ProfilePhotoKey(user, position, nonce, ext);
            && key.Some? && AllPlain(key.value) && R2Accepts(key.value)
            && Clean(key.value) == key.value && Clean("/" + key.value) == "/" + key.value
  {
    ExtensionsFine(ext);
    var parts := PhotoParts(user, position, nonce, ext);
    var key := Join(parts);
    PhotoPartsJoin(user, position, nonce, ext);
    PhotoPartsShaped(user, position, nonce, ext);
    PhotoKeyPlain(user, position, nonce, ext);
    CleanOfNames(parts);
  }

  lemma CleanOfNames(parts: seq<string>)
    requires Shaped(parts) && parts != [] && forall c | c in parts :: c != "" && c != "." && c != ".."
    ensures !IsRooted(Join(parts)) && Clean(Join(parts)) == Join(parts) && Clean("/" + Join(parts)) == "/" + Join(parts)
  {
    SplitJoin(parts);
    BelowJoin(parts);
    CleanBelow(Join(parts));
    assert forall i | 0 <= i < |parts| :: parts[i] in parts;
    WalkUnrooted([], parts);
    assert [] + parts == parts;
    assert Join(parts)[0] == parts[0][0];
    assert parts[0][0] in parts[0];
  }

  /** Names alone pile up. */
  lemma {:induction false} WalkUnrooted(below: seq<string>, c: seq<string>)
    requires forall i | 0 <= i < |c| :: c[i] != "" && c[i] != "." && c[i] != ".."
    ensures Walk(below, c, false) == below + c
    decreases |c|
  {
    if c == [] {
      assert below + c == below;
    } else {
      WalkUnrooted(below + [c[0]], c[1..]);
      assert below + [c[0]] + c[1..] == below + c;
    }
  }
}
