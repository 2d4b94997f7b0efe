/** Base URLs with a path: which keys `KeyFromURL` then leads back to their file. */
module BasePaths {
  import opened Common
  import opened Texts
  import opened PathClean
  import opened CleanRules
  import opened UrlParse
  import opened StoreUrls

  // ---------- A path behind another ----------

  /** A path under the directory `q` is walked from where `q` leads. */
  lemma BelowAppend(q: string, y: string)
    requires q == "" || q[|q| - 1] == '/'
    ensures Below(q + y) == Walk(Below(q), Split(y), true)
  {
    if q == "" {
      assert q + y == y && Split("")[1..] == [];
    } else {
      var a := q[..|q| - 1];
      assert q == a + "/" + "" && q + y == a + "/" + y;
      SplitAppend(a, y);
      SplitAppend(a, "");
      WalkConcat([], Split(a), Split(y), true);
      WalkConcat([], Split(a), [""], true);
      assert [""][1..] == [];
    }
  }

  /** The stack `p` after going up `n` times. */
  function Up(p: seq<string>, n: nat): seq<string> {
    p[..if n <= |p| then |p| - n else 0]
  }

  predicate NoDots(p: seq<string>) {
    forall i | 0 <= i < |p| :: p[i] != ".."
  }

  lemma UpOnce(p: seq<string>, n: nat)
    requires n > 0 && NoDots(p)
    ensures NoDots(Push(p, "..", true)) && Up(Push(p, "..", true), n - 1) == Up(p, n)
  {
    if p != [] { assert Push(p, "..", true) == p[..|p| - 1]; }
  }

  function Ascents(n: nat): seq<string> {
    if n == 0 then [] else [".."] + Ascents(n - 1)
  }

  lemma {:induction false} SplitDots(n: nat, z: string)
    ensures Split(Dots(n) + z) == Ascents(n) + Split(z)
  {
    if n == 0 {
      assert Dots(0) + z == z && Ascents(0) + Split(z) == Split(z);
    } else {
      var rest := Dots(n - 1) + z;
      SplitDots(n - 1, z);
      DotsFirst(n, z);
      SplitUp(rest);
      assert [".."] + (Ascents(n - 1) + Split(z)) == Ascents(n) + Split(z);
    }
  }

  lemma WalkUp(p: seq<string>, c: seq<string>)
    ensures Walk(p, [".."] + c, true) == Walk(Push(p, "..", true), c, true)
  {
    assert ([".."] + c)[1..] == c;
  }

  lemma {:induction false} AscentsWalk(p: seq<string>, n: nat, c: seq<string>)
    requires NoDots(p)
    ensures Walk(p, Ascents(n) + c, true) == Walk(Up(p, n), c, true)
  {
    if n == 0 {
      assert Ascents(0) + c == c && p[..|p|] == p;
    } else {
      assert Ascents(n) + c == [".."] + (Ascents(n - 1) + c);
      WalkUp(p, Ascents(n - 1) + c);
      UpOnce(p, n);
      AscentsWalk(Push(p, "..", true), n - 1, c);
    }
  }

  lemma DotsWalk(p: seq<string>, n: nat, z: string)
    requires NoDots(p)
    ensures Walk(p, Split(Dots(n) + z), true) == Walk(Up(p, n), Split(z), true)
  {
    SplitDots(n, z);
    AscentsWalk(p, n, Split(z));
  }

  // ---------- What a walk leaves of its stack ----------

  function TailWeight(stack: seq<string>, j: nat): nat {
    if j <= |stack| then Weight(stack[j..]) else 0
  }

  lemma PushTail(stack: seq<string>, c: string, j: nat)
    ensures TailWeight(Push(stack, c, true), j) <= TailWeight(stack, j) + |c| + 1
  {
    var next := Push(stack, c, true);
    if |next| > |stack| {
      if j <= |stack| {
        assert next[j..] == stack[j..] + [c];
        WeightSnoc(next[j..]);
        assert next[j..][..|next[j..]| - 1] == stack[j..];
      } else {
        assert TailWeight(next, j) == 0 by { assert j == |next| ==> next[j..] == []; }
      }
    } else if |next| < |stack| && j <= |next| {
      WeightSnoc(stack[j..]);
      assert stack[j..][..|stack[j..]| - 1] == next[j..];
    }
  }

  lemma {:induction false} WalkTail(stack: seq<string>, c: seq<string>, j: nat)
    ensures TailWeight(Walk(stack, c, true), j) <= TailWeight(stack, j) + Weight(c)
    decreases |c|
  {
    if c != [] {
      PushTail(stack, c[0], j);
      WalkTail(Push(stack, c[0], true), c[1..], j);
    }
  }

  /** Entry `j` of the stack is kept, or what stands from there on is no longer than what was
      walked. */
  lemma {:induction false} KeptOrShort(p: seq<string>, c: seq<string>, j: nat)
    requires j < |p| && j < |Walk(p, c, true)|
    ensures var x := Walk(p, c, true); x[j] == p[j] || Weight(x[j..]) <= Weight(c)
    decreases |c|
  {
    if c != [] {
      var next := Push(p, c[0], true);
      if j < |next| { KeptOrShort(next, c[1..], j); } else { WalkTail(next, c[1..], j); }
    }
  }

  // ---------- Keys that are not plain ----------

  predicate AreNames(f: seq<string>) {
    Shaped(f) && forall i | 0 <= i < |f| :: f[i] != ".."
  }

  predicate PlainNames(p: seq<string>) {
    forall i | 0 <= i < |p| :: AllPlain(p[i])
  }

  /** A plain first name is decoded on its own. */
  lemma FirstName(f: seq<string>, z: string) returns (z': string)
    requires |f| > 1 && '/' !in f[0] && AllPlain(f[0]) && PathPart(Join(f)) == Some(z)
    ensures PathPart(Join(f[1..])) == Some(z') && Split(z) == [f[0]] + Split(z')
    ensures AllPlain(Join(f[1..])) ==> AllPlain(Join(f))
  {
    var rest := Join(f[1..]);
    assert Join(f) == (f[0] + "/") + rest;
    PathPartConcat(f[0] + "/", rest);
    z' := PathPart(rest).value;
    SplitAppend(f[0], z');
    SplitJoin([f[0]]);
  }

  /** If it did lead there, its first name would be one of the directory's. */
  lemma FirstIsKept(p: seq<string>, q: seq<string>, f: seq<string>, z: string)
    requires |q| < |p| && f != [] && |z| < |Join(f)|
    requires Walk(p, Split(z), true) == q + f
    ensures f[0] == p[|q|]
  {
    var x, j := Walk(p, Split(z), true), |q|;
    KeptOrShort(p, Split(z), j);
    assert x[j..] == f && x[j] == f[0];
    SplitWeight(z);
    JoinWeight(f);
  }

  lemma WalkName(p: seq<string>, name: string, c: seq<string>)
    requires name != "" && name != "." && name != ".."
    ensures Walk(p, [name] + c, true) == Walk(p + [name], c, true)
  {
    assert ([name] + c)[1..] == c;
  }

  lemma NamesRest(f: seq<string>)
    requires |f| > 1 && AreNames(f)
    ensures AreNames(f[1..]) && f[0] != "" && f[0] != "." && f[0] != ".." && '/' !in f[0]
  {
  }

  /** Then the rest would lead there too. */
  lemma RestLeadsThere(p: seq<string>, q: seq<string>, f: seq<string>, z: string) returns (z': string)
    requires |f| > 1 && AreNames(f) && AllPlain(f[0]) && !AllPlain(Join(f)) && PathPart(Join(f)) == Some(z)
    requires Walk(p, Split(z), true) == q + f
    ensures !AllPlain(Join(f[1..])) && PathPart(Join(f[1..])) == Some(z') && AreNames(f[1..])
    ensures Walk(p + [f[0]], Split(z'), true) == q + [f[0]] + f[1..]
  {
    NamesRest(f);
    z' := FirstName(f, z);
    WalkName(p, f[0], Split(z'));
    assert q + f == q + [f[0]] + f[1..];
  }

  /** Decoded under a plain directory, a path that is not plain never leads where it says. */
  lemma {:induction false} DecodedElsewhere(p: seq<string>, q: seq<string>, f: seq<string>, z: string)
    requires PlainNames(p) && |q| < |p| && f != [] && AreNames(f)
    requires !AllPlain(Join(f)) && PathPart(Join(f)) == Some(z)
    ensures Walk(p, Split(z), true) != q + f
    decreases |f|
  {
    if Walk(p, Split(z), true) == q + f {
      PathPartLength(Join(f));
      FirstIsKept(p, q, f, z);
      assert AllPlain(f[0]);
      if |f| > 1 {
        var z' := RestLeadsThere(p, q, f, z);
        DecodedElsewhere(p + [f[0]], q + [f[0]], f[1..], z');
      }
    }
  }

  // ---------- Base URLs with a path ----------

  /** The path of a base URL, from which trailing slashes have been trimmed. */
  predicate PathOk(path: string) {
    AllPlain(path) && (path == "" || (path[0] == '/' && path[|path| - 1] != '/'))
  }

  /** What `KeyFromURL` reads back from the URL of `key`, under a base with a path. */
  function KeyUnder(b: Base, path: string, key: string): Option<string> {
    LocalKeyFromURL(Front(b) + path, (Front(b) + path) + (UPLOADS + Clean(key)))
  }

  /** The base's path lies under "/uploads", or is empty. */
  predicate InUploads(path: string) {
    HasPrefix(path + UPLOADS, UPLOADS)
  }

  /** What such a path puts before the key. */
  function Inserted(path: string): string
    requires InUploads(path)
  {
    (path + UPLOADS)[|UPLOADS|..]
  }

  lemma ParseBase(b: Base, path: string)
    requires BaseOk(b) && PathOk(path)
    ensures ParseURL(Front(b) + path) == Some(Parsed(ToLower(b.scheme), b.host, path))
  {
    ParseWithBase(b, path);
    PathPartLength(path);
  }

  lemma FrontIsPlain(path: string)
    requires PathOk(path)
    ensures AllPlain(path + UPLOADS) && (path + UPLOADS)[0] == '/'
  {
    PlainConcat(path, UPLOADS);
  }

  lemma ParseUnder(b: Base, path: string, tail: string)
    requires BaseOk(b) && AllPlain(path + UPLOADS) && (path + UPLOADS)[0] == '/'
    ensures ParseURL((Front(b) + path) + (UPLOADS + tail)) ==
            if PathPart(tail).None? then None
            else Some(Parsed(ToLower(b.scheme), b.host, (path + UPLOADS) + PathPart(tail).value))
  {
    var front := path + UPLOADS;
    assert (Front(b) + path) + (UPLOADS + tail) == Front(b) + (front + tail);
    ParseWithBase(b, front + tail);
    PathPartConcat(front, tail);
  }

  lemma KeyUnderIs(b: Base, path: string, key: string)
    requires BaseOk(b) && PathOk(path)
    ensures KeyUnder(b, path, key) ==
            if !InUploads(path) || PathPart(Clean(key)).None? then None
            else Some(Inserted(path) + PathPart(Clean(key)).value)
  {
    var tail := Clean(key);
    ParseBase(b, path);
    FrontIsPlain(path);
    ParseUnder(b, path, tail);
    if PathPart(tail).Some? { PrefixOfFront(path + UPLOADS, PathPart(tail).value); }
  }

  lemma PrefixOfFront(front: string, x: string)
    requires |front| >= |UPLOADS|
    ensures HasPrefix(front + x, UPLOADS) <==> HasPrefix(front, UPLOADS)
    ensures (front + x)[|UPLOADS|..] == front[|UPLOADS|..] + x
  {
    assert (front + x)[..|UPLOADS|] == front[..|UPLOADS|];
  }

  lemma PlainConcat(a: string, b: string)
    requires AllPlain(a)
    ensures AllPlain(a + b) <==> AllPlain(b)
  {
    if AllPlain(a + b) {
      assert forall i | 0 <= i < |b| :: b[i] == (a + b)[|a| + i];
    }
  }

  /** How many times `s` first goes up. */
  function Ups(s: string): nat {
    if HasPrefix(s, "../") then 1 + Ups(s[3..]) else 0
  }

  lemma {:induction false} UpsOfDots(n: nat, s: string)
    requires Split(s)[0] != ".."
    ensures Ups(Dots(n) + s) == n
  {
    if n == 0 {
      assert Dots(0) + s == s;
      NoUps(s);
    } else {
      UpsOfDots(n - 1, s);
      DotsFirst(n, s);
      UpsNext(Dots(n - 1) + s);
    }
  }

  lemma NoUps(s: string)
    requires Split(s)[0] != ".."
    ensures Ups(s) == 0
  {
    if HasPrefix(s, "../") {
      assert s == "../" + s[3..];
      SplitUp(s[3..]);
    }
  }

  lemma UpsNext(s: string)
    ensures Ups("../" + s) == 1 + Ups(s)
  {
    var t := "../" + s;
    assert t[..3] == "../" && t[3..] == s;
  }

  lemma WalkLead(p: seq<string>, lead: string, f: string, z: string)
    requires forall i | 0 <= i < |p| :: p[i] != ".."
    requires Split(f)[0] != ".." && (lead == "/" || exists n :: lead == Dots(n))
    ensures Walk(p, Split(lead + z), true) == Walk(Up(p, Ups(lead + f)), Split(z), true)
  {
    if lead == "/" {
      assert ("/" + z)[1..] == z && ([""] + Split(z))[1..] == Split(z);
      assert p[..|p|] == p && ("/" + f)[0] == '/';
    } else {
      var n :| lead == Dots(n);
      DotsWalk(p, n, z);
      UpsOfDots(n, f);
    }
  }

  lemma BelowNames(s: string)
    ensures AreNames(Below(s))
    ensures Below(s) != [] ==> Split(Join(Below(s))) == Below(s)
  {
    WalkShaped([], Split(s), true);
    NoDotsRooted(Below(s));
    if Below(s) != [] { SplitJoin(Below(s)); }
  }

  lemma {:induction false} SplitPlain(s: string)
    requires AllPlain(s)
    ensures PlainNames(Split(s))
  {
    if s != "" { SplitPlain(s[1..]); }
  }

  lemma {:induction false} WalkPlain(stack: seq<string>, c: seq<string>)
    requires PlainNames(stack) && PlainNames(c)
    ensures PlainNames(Walk(stack, c, true))
    decreases |c|
  {
    if c != [] { WalkPlain(Push(stack, c[0], true), c[1..]); }
  }

  /** Two keys name one file exactly when they lead to the same place below the root. */
  lemma SameFile(root: string, key: string, found: string)
    requires SafeLocalPath(root, key).Some?
    ensures SafeLocalPath(root, found) == SafeLocalPath(root, key) <==> Below(found) == Below(key)
    ensures Below(key) != []
  {
    CleanBelow(key);
    CleanBelow(found);
    BelowNames(key);
    BelowNames(found);
    if SafeLocalPath(root, found) == SafeLocalPath(root, key) {
      assert Clean("/" + found) == Clean("/" + key) by {
        var a, b := Clean("/" + found), Clean("/" + key);
        if root != "/" { assert (root + a)[|root|..] == a && (root + b)[|root|..] == b; }
      }
      var a, b := Join(Below(found)), Join(Below(key));
      assert ("/" + a)[1..] == a && ("/" + b)[1..] == b;
      assert Below(found) != [];
    }
  }

  /** Where the key that is read back leads. */
  lemma FoundLeads(path: string, key: string)
    requires InUploads(path) && PathOk(path) && Below(key) != [] && PathPart(Clean(key)).Some?
    ensures PathPart(Join(Below(key))).Some?
    ensures Below(Inserted(path) + PathPart(Clean(key)).value) ==
            Walk(Up(Below(Inserted(path)), Ups(Clean(key))), Split(PathPart(Join(Below(key))).value), true)
    ensures AllPlain(Clean(key)) <==> AllPlain(Join(Below(key)))
  {
    var q, file := Inserted(path), Join(Below(key));
    var lead := CleanParts(key);
    assert AllPlain(lead) by {
      if n :| lead == Dots(n) { DotsPlain(n); }
    }
    PathPartConcat(lead, file);
    PlainConcat(lead, file);
    var z := PathPart(file).value;
    assert q == "" || q[|q| - 1] == '/';
    BelowAppend(q, lead + z);
    BelowNames(q);
    BelowNames(key);
    WalkLead(Below(q), lead, file, z);
  }

  /** Under a base URL with or without a path, and for every accepted key, the key that is
      read back names the same file exactly when the base's path is empty or under
      "/uploads", the cleaned key is plain, and it goes up at least as often as that path
      goes down. */
  lemma RoundTripUnderPath(root: string, b: Base, path: string, key: string)
    requires BaseOk(b) && PathOk(path) && SafeLocalPath(root, key).Some?
    ensures var found := KeyUnder(b, path, key);
            (found.Some? && SafeLocalPath(root, found.value) == SafeLocalPath(root, key)) <==>
            InUploads(path) && AllPlain(Clean(key)) && Ups(Clean(key)) >= |Below(Inserted(path))|
  {
    KeyUnderIs(b, path, key);
    PathPartLength(Clean(key));
    SameFile(root, key, "");
    if InUploads(path) && PathPart(Clean(key)).Some? {
      SameFile(root, key, KeyUnder(b, path, key).value);
      FoundLeads(path, key);
      LeadsBackExactly(path, key);
    }
  }

  lemma LeadsBackExactly(path: string, key: string)
    requires InUploads(path) && PathOk(path) && Below(key) != [] && PathPart(Join(Below(key))).Some?
    ensures var p, f := Up(Below(Inserted(path)), Ups(Clean(key))), Below(key);
            Walk(p, Split(PathPart(Join(f)).value), true) == f <==> AllPlain(Join(f)) && p == []
  {
    var q, f := Inserted(path), Below(key);
    var p := Up(Below(q), Ups(Clean(key)));
    var z := PathPart(Join(f)).value;
    BelowNames(key);
    PathPartLength(Join(f));
    if AllPlain(Join(f)) {
      WalkNames(p, f);
      if p != [] { assert |p + f| > |f|; } else { assert p + f == f; }
    } else if p == [] {
      BelowLength(z);
    } else {
      SplitPlain(q);
      WalkPlain([], Split(q));
      DecodedElsewhere(p, [], f, z);
      assert [] + f == f;
    }
  }

  /** What is inserted ends with the directory "uploads/". */
  lemma InsertedEnds(path: string) returns (x: string)
    requires PathOk(path) && path != "" && InUploads(path)
    ensures Inserted(path) == x + "uploads/" && (x == "" || x[|x| - 1] == '/')
  {
    var front := path + UPLOADS;
    assert front[..|UPLOADS|] == UPLOADS;
    assert |path| < |UPLOADS| ==> UPLOADS[|path|] == front[|path|] == '/';
    x := if |path| == 8 then "" else path[9..] + "/";
    assert front == front[..9] + (x + "uploads/");
  }

  lemma BelowDirectory(x: string, name: string)
    requires x == "" || x[|x| - 1] == '/'
    requires name != "" && name != "." && name != ".." && '/' !in name
    ensures Below(x + (name + "/" + "")) == Below(x) + [name]
  {
    BelowAppend(x, name + "/" + "");
    SplitDirectory(name);
    WalkName(Below(x), name, [""]);
    assert [""][1..] == [];
  }

  /** A path under "/uploads" goes down at least once. */
  lemma GoesDown(path: string)
    requires PathOk(path) && path != "" && InUploads(path)
    ensures Below(Inserted(path)) != []
  {
    var x := InsertedEnds(path);
    BelowDirectory(x, "uploads");
    assert "uploads" + "/" + "" == "uploads/";
  }

  lemma SplitDirectory(name: string)
    requires '/' !in name
    ensures Split(name + "/" + "") == [name] + [""]
  {
    SplitAppend(name, "");
    SplitJoin([name]);
  }

  /** Under a base URL with a path, no key whose cleaned form does not go up leads back to
      its file, so photo objects are never removed. */
  lemma BaseWithPathLosesKeys(root: string, b: Base, path: string, key: string)
    requires BaseOk(b) && PathOk(path) && path != "" && SafeLocalPath(root, key).Some?
    requires !HasPrefix(Clean(key), "../")
    ensures var found := KeyUnder(b, path, key);
            found.None? || SafeLocalPath(root, found.value) != SafeLocalPath(root, key)
  {
    RoundTripUnderPath(root, b, path, key);
    if InUploads(path) { GoesDown(path); }
  }
}
