/** The rules that `path.Clean` documents: what it may shorten, and the form it ends in. */
module CleanRules {
  import opened PathClean

  // ---------- Paths behind one another ----------

  lemma SplitCons(c: char, s: string)
    ensures var r := Split(s); Split([c] + s) == if c == '/' then [""] + r else [[c] + r[0]] + r[1..]
  {
    assert ([c] + s)[1..] == s;
  }

  lemma {:induction false} SplitAppend(a: string, b: string)
    ensures Split(a + "/" + b) == Split(a) + Split(b)
    decreases |a|
  {
    if a == "" {
      assert a + "/" + b == ['/'] + b;
      SplitCons('/', b);
    } else {
      var c, s := a[0], a[1..];
      SplitAppend(s, b);
      assert a == [c] + s && a + "/" + b == [c] + (s + "/" + b);
      SplitCons(c, s);
      SplitCons(c, s + "/" + b);
      HeadOfAppend(c, Split(s), Split(b));
    }
  }

  lemma HeadOfAppend(c: char, r: seq<string>, t: seq<string>)
    requires r != []
    ensures [""] + (r + t) == [""] + r + t
    ensures [[c] + (r + t)[0]] + (r + t)[1..] == [[c] + r[0]] + r[1..] + t
  {
  }

  lemma {:induction false} WalkConcat(stack: seq<string>, c: seq<string>, d: seq<string>, rooted: bool)
    ensures Walk(stack, c + d, rooted) == Walk(Walk(stack, c, rooted), d, rooted)
    decreases |c|
  {
    if c == [] {
      assert c + d == d;
    } else {
      WalkConcat(Push(stack, c[0], rooted), c[1..], d, rooted);
      assert (c + d)[1..] == c[1..] + d;
    }
  }

  // ---------- What may be dropped ----------

  predicate IsName(x: string) {
    x != "" && x != "." && x != ".." && '/' !in x
  }

  /** Components that leave every stack as it is. */
  ghost predicate DoesNothing(c: seq<string>) {
    forall stack, rooted :: Walk(stack, c, rooted) == stack
  }

  lemma Drop(a: string, m: string, b: string)
    requires DoesNothing(Split(m))
    ensures Clean(a + "/" + m + "/" + b) == Clean(a + "/" + b)
  {
    var s, rooted := a + "/" + m + "/" + b, IsRooted(a + "/" + b);
    assert s[0] == (a + "/" + b)[0];
    SplitAppend(a + "/" + m, b);
    SplitAppend(a, m);
    SplitAppend(a, b);
    WalkConcat([], Split(a) + Split(m), Split(b), rooted);
    WalkConcat([], Split(a), Split(m), rooted);
    WalkConcat([], Split(a), Split(b), rooted);
  }

  lemma OneComponent(x: string)
    requires '/' !in x
    ensures Split(x) == [x]
    ensures forall stack, rooted :: Walk(stack, [x], rooted) == Push(stack, x, rooted)
  {
    SplitJoin([x]);
    assert [x][1..] == [];
  }

  lemma NothingMuch(x: string)
    requires x == "" || x == "."
    ensures DoesNothing(Split(x))
  {
    OneComponent(x);
  }

  lemma ThereAndBack(x: string)
    requires IsName(x)
    ensures DoesNothing(Split(x + "/" + ".."))
  {
    SplitAppend(x, "..");
    OneComponent(x);
    OneComponent("..");
    forall stack, rooted ensures Walk(stack, [x] + [".."], rooted) == stack {
      WalkConcat(stack, [x], [".."], rooted);
    }
  }

  /** Between two parts of a path, a second slash, a "." and a name followed by ".." go. */
  lemma DropsInside(a: string, x: string, b: string)
    requires IsName(x)
    ensures Clean(a + "//" + b) == Clean(a + "/" + b)
    ensures Clean(a + "/./" + b) == Clean(a + "/" + b)
    ensures Clean(a + "/" + x + "/../" + b) == Clean(a + "/" + b)
  {
    NothingMuch("");
    NothingMuch(".");
    ThereAndBack(x);
    Drop(a, "", b);
    Drop(a, ".", b);
    Drop(a, x + "/" + "..", b);
    assert a + "/" + "" + "/" + b == a + "//" + b && a + "/" + "." + "/" + b == a + "/./" + b;
    assert a + "/" + (x + "/" + "..") + "/" + b == a + "/" + x + "/../" + b;
  }

  lemma WalkFirst(c: string, d: seq<string>, rooted: bool)
    ensures Walk([], [c] + d, rooted) == Walk(Push([], c, rooted), d, rooted)
  {
    assert ([c] + d)[1..] == d;
  }

  /** At the root ".." goes, at the start of another path "./", and at its end a slash. */
  lemma DropsAtEnds(s: string)
    ensures Clean("/../" + s) == Clean("/" + s)
    ensures !IsRooted(s) ==> Clean("./" + s) == Clean(s)
    ensures s != "" ==> Clean(s + "/") == Clean(s)
  {
    CleanBelow("../" + s);
    CleanBelow(s);
    BelowUp(s);
    assert "/" + ("../" + s) == "/../" + s;
    SplitAppend(".", s);
    OneComponent(".");
    WalkFirst(".", Split(s), false);
    assert "." + "/" + s == "./" + s;
    SplitAppend(s, "");
    OneComponent("");
    WalkConcat([], Split(s), [""], IsRooted(s));
    assert s + "/" + "" == s + "/";
  }

  // ---------- What is left ----------

  /** "." alone, or names after any number of ".." or after the root. */
  ghost predicate IsNormal(s: string) {
    s == "." || exists c :: Shaped(c) && ((c != [] && s == Join(c)) || (".." !in c && s == "/" + Join(c)))
  }

  lemma {:induction false} WalkKeeps(below: seq<string>, c: seq<string>)
    requires Shaped(below + c)
    ensures Walk(below, c, false) == below + c
    decreases |c|
  {
    if c == [] {
      assert below + c == below;
    } else {
      assert below + [c[0]] + c[1..] == below + c;
      assert (below + c)[|below|] == c[0];
      assert below != [] ==> (below + c)[|below| - 1] == below[|below| - 1];
      assert Push(below, c[0], false) == below + [c[0]];
      WalkKeeps(below + [c[0]], c[1..]);
    }
  }

  lemma JoinUnrooted(c: seq<string>)
    requires Shaped(c) && c != []
    ensures !IsRooted(Join(c))
  {
    assert Join(c)[0] == c[0][0] && c[0][0] in c[0];
  }

  lemma NormalStays(c: seq<string>)
    requires Shaped(c)
    ensures c != [] ==> Clean(Join(c)) == Join(c)
    ensures ".." !in c ==> Clean("/" + Join(c)) == "/" + Join(c)
  {
    CleanBelow(Join(c));
    BelowJoin(c);
    if ".." !in c { assert c != [] ==> c[0] in c; }
    if c != [] {
      SplitJoin(c);
      JoinUnrooted(c);
      assert [] + c == c;
      WalkKeeps([], c);
    }
  }

  /** Cleaning ends in a normal form, and a path in normal form is left as it is. */
  lemma CleanIsNormal(s: string)
    ensures IsNormal(Clean(s))
    ensures IsNormal(s) <==> Clean(s) == s
  {
    var stack := Walk([], Split(s), IsRooted(s));
    WalkShaped([], Split(s), IsRooted(s));
    if IsRooted(s) { NoDotsRooted(stack); }
    if s == "." {
      OneComponent(".");
    } else if IsNormal(s) {
      var c :| Shaped(c) && ((c != [] && s == Join(c)) || (".." !in c && s == "/" + Join(c)));
      NormalStays(c);
    }
  }
}
