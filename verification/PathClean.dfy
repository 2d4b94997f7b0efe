/** `path.Clean`, on the components of a slash-separated path. */
module PathClean {
  // ---------- Components ----------

  function Split(s: string): (c: seq<string>)
    ensures c != [] && forall i | 0 <= i < |c| :: '/' !in c[i]
  {
    if s == "" then [""]
    else
      var rest := Split(s[1..]);
      if s[0] == '/' then [""] + rest else [[s[0]] + rest[0]] + rest[1..]
  }

  function Join(c: seq<string>): string {
    if c == [] then ""
    else if |c| == 1 then c[0]
    else c[0] + "/" + Join(c[1..])
  }

  predicate Plain(c: seq<string>) {
    forall i | 0 <= i < |c| :: '/' !in c[i]
  }

  lemma {:induction false} SplitConcat(a: string, b: string)
    requires '/' !in a
    ensures var t := Split(b); Split(a + b) == [a + t[0]] + t[1..]
    decreases |a|
  {
    if a == "" {
      assert a + b == b;
      assert a + Split(b)[0] == Split(b)[0];
    } else {
      SplitConcat(a[1..], b);
      assert (a + b)[1..] == a[1..] + b;
      assert [a[0]] + (a[1..] + Split(b)[0]) == a + Split(b)[0];
    }
  }

  lemma {:induction false} SplitJoin(c: seq<string>)
    requires c != [] && Plain(c)
    ensures Split(Join(c)) == c
    decreases |c|
  {
    if |c| == 1 {
      SplitConcat(c[0], "");
      assert c[0] + "" == c[0];
    } else {
      SplitJoin(c[1..]);
      SplitConcat(c[0], "/" + Join(c[1..]));
      assert c[0] + "/" + Join(c[1..]) == c[0] + ("/" + Join(c[1..]));
      assert ("/" + Join(c[1..]))[1..] == Join(c[1..]);
      assert Split("/" + Join(c[1..])) == [""] + c[1..];
      assert c[0] + "" == c[0] && [c[0]] + ([""] + c[1..])[1..] == c;
    }
  }

  // ---------- The stack ----------

  /** What Clean does with one component. */
  function Push(stack: seq<string>, c: string, rooted: bool): seq<string> {
    if c == "" || c == "." then stack
    else if c == ".." then
      if stack != [] && stack[|stack| - 1] != ".." then stack[..|stack| - 1]
      else if rooted then stack
      else stack + [c]
    else stack + [c]
  }

  function Walk(stack: seq<string>, c: seq<string>, rooted: bool): seq<string>
    decreases |c|
  {
    if c == [] then stack else Walk(Push(stack, c[0], rooted), c[1..], rooted)
  }

  function IsRooted(s: string): bool {
    s != "" && s[0] == '/'
  }

  function Clean(s: string): string {
    var stack := Walk([], Split(s), IsRooted(s));
    if IsRooted(s) then "/" + Join(stack)
    else if stack == [] then "."
    else Join(stack)
  }

  /** A stack as Clean builds it: names after any number of leading "..". */
  predicate Shaped(stack: seq<string>) {
    && Plain(stack)
    && (forall i | 0 <= i < |stack| :: stack[i] != "" && stack[i] != ".")
    && (forall i | 0 < i < |stack| && stack[i] == ".." :: stack[i - 1] == "..")
  }

  /** The stack without its leading "..". */
  function Names(stack: seq<string>): seq<string> {
    if stack != [] && stack[0] == ".." then Names(stack[1..]) else stack
  }

  lemma {:induction false} WalkShaped(stack: seq<string>, c: seq<string>, rooted: bool)
    requires Shaped(stack) && Plain(c) && (rooted ==> Names(stack) == stack)
    ensures Shaped(Walk(stack, c, rooted)) && (rooted ==> Names(Walk(stack, c, rooted)) == Walk(stack, c, rooted))
    decreases |c|
  {
    if c == [] {
    } else {
      var next := Push(stack, c[0], rooted);
      if rooted { NoDotsRooted(stack); }
      assert Shaped(next);
      WalkShaped(next, c[1..], rooted);
    }
  }

  lemma {:induction false} NoDotsRooted(stack: seq<string>)
    requires Shaped(stack) && Names(stack) == stack
    ensures forall i | 0 <= i < |stack| :: stack[i] != ".."
  {
    if stack != [] && stack[0] == ".." {
      NamesShorter(stack);
    } else {
      NoDotsAfter(stack, |stack|);
    }
  }

  lemma {:induction false} NamesShorter(stack: seq<string>)
    ensures |Names(stack)| <= |stack| && (stack != [] && stack[0] == ".." ==> |Names(stack)| < |stack|)
  {
    if stack != [] && stack[0] == ".." { NamesShorter(stack[1..]); }
  }

  lemma {:induction false} NoDotsAfter(stack: seq<string>, n: nat)
    requires Shaped(stack) && n <= |stack| && (stack != [] ==> stack[0] != "..")
    ensures forall i | 0 <= i < n :: stack[i] != ".."
  {
    if n == 0 {
    } else {
      NoDotsAfter(stack, n - 1);
      assert n > 1 ==> stack[n - 2] != "..";
    }
  }

  /** A leading ".." takes no part in what an unrooted walk does. */
  lemma PushBehindDots(rest: seq<string>, c: string)
    ensures Push([".."] + rest, c, false) == [".."] + Push(rest, c, false)
  {
    var stack := [".."] + rest;
    if rest != [] {
      assert stack[|stack| - 1] == rest[|rest| - 1];
      assert stack[..|stack| - 1] == [".."] + rest[..|rest| - 1];
    }
    assert stack + [c] == [".."] + (rest + [c]);
  }

  lemma NamesBehindDots(rest: seq<string>)
    ensures Names([".."] + rest) == Names(rest)
  {
    assert ([".."] + rest)[1..] == rest;
  }

  /** Dropping the leading ".." of an unrooted stack gives what the rooted walk would have. */
  lemma {:induction false} NamesPush(stack: seq<string>, c: string)
    requires Shaped(stack)
    ensures Names(Push(stack, c, false)) == Push(Names(stack), c, true)
  {
    if stack != [] && stack[0] == ".." {
      var rest := stack[1..];
      assert Shaped(rest);
      NamesPush(rest, c);
      PushBehindDots(rest, c);
      assert stack == [".."] + rest;
      NamesBehindDots(Push(rest, c, false));
    } else {
      if stack != [] { NoDotsAfter(stack, |stack|); }
      if c == ".." && stack == [] {
        assert Names([".."]) == Names([".."][1..]);
      }
    }
  }

  lemma {:induction false} NamesWalk(stack: seq<string>, c: seq<string>)
    requires Shaped(stack) && Plain(c)
    ensures Names(Walk(stack, c, false)) == Walk(Names(stack), c, true)
    decreases |c|
  {
    if c == [] {
    } else {
      NamesPush(stack, c[0]);
      WalkShaped(stack, [c[0]], false);
      assert Walk(stack, [c[0]], false) == Push(stack, c[0], false) by {
        assert [c[0]][1..] == [];
      }
      NamesWalk(Push(stack, c[0], false), c[1..]);
    }
  }

  /** Walking a stack again from the root drops its leading ".." and keeps the names. */
  lemma {:induction false} WalkNames(below: seq<string>, c: seq<string>)
    requires Shaped(c) && forall i | 0 <= i < |c| :: c[i] != ".."
    ensures Walk(below, c, true) == below + c
    decreases |c|
  {
    if c == [] {
      assert below + c == below;
    } else {
      assert Shaped(c[1..]);
      WalkNames(below + [c[0]], c[1..]);
      assert below + [c[0]] + c[1..] == below + c;
    }
  }

  lemma {:induction false} WalkAgain(c: seq<string>)
    requires Shaped(c)
    ensures Walk([], c, true) == Names(c)
  {
    if c != [] && c[0] == ".." {
      assert Shaped(c[1..]);
      WalkAgain(c[1..]);
    } else {
      NoDotsAfter(c, |c|);
      WalkNames([], c);
      assert [] + c == c;
    }
  }

  // ---------- Cleaning below the root ----------

  /** The components of the cleaned path under "/". */
  function Below(s: string): seq<string> {
    Walk([], Split(s), true)
  }

  lemma BelowSlash(s: string)
    ensures Below("/" + s) == Below(s)
  {
    assert ("/" + s)[1..] == s;
    assert Split("/" + s) == [""] + Split(s) && ([""] + Split(s))[1..] == Split(s);
  }

  lemma CleanBelow(s: string)
    ensures Clean("/" + s) == "/" + Join(Below(s))
  {
    BelowSlash(s);
  }

  lemma BelowJoin(stack: seq<string>)
    requires Shaped(stack)
    ensures Below(Join(stack)) == Names(stack)
  {
    if stack == [] {
      assert Split("") == [""] && [""][1..] == [];
    } else {
      SplitJoin(stack);
      WalkAgain(stack);
    }
  }

  /** Cleaning first makes no difference to where a path leads below the root. */
  lemma BelowClean(s: string)
    ensures Below(Clean(s)) == Below(s)
  {
    var stack := Walk([], Split(s), IsRooted(s));
    WalkShaped([], Split(s), IsRooted(s));
    BelowJoin(stack);
    if IsRooted(s) {
      BelowSlash(Join(stack));
    } else {
      NamesWalk([], Split(s));
      if stack == [] {
        SplitJoin(["."]);
        assert ["."][1..] == [];
      }
    }
  }

  /** Clean("/" + Clean(k)) == Clean("/" + k). */
  lemma CleanUnderRoot(k: string)
    ensures Clean("/" + Clean(k)) == Clean("/" + k)
  {
    CleanBelow(Clean(k));
    CleanBelow(k);
    BelowClean(k);
  }

  // ---------- What leads to a cleaned path ----------

  function Dots(n: nat): string {
    if n == 0 then "" else "../" + Dots(n - 1)
  }

  lemma SplitUp(s: string)
    ensures Split("../" + s) == [".."] + Split(s)
  {
    assert "../" + s == ".." + ("/" + s) && ("/" + s)[1..] == s;
    SplitConcat("..", "/" + s);
    assert ".." + "" == ".." && ([""] + Split(s))[1..] == Split(s);
  }

  lemma BelowUp(s: string)
    ensures Below("../" + s) == Below(s)
  {
    SplitUp(s);
    assert ([".."] + Split(s))[1..] == Split(s);
  }

  lemma DotsFirst(n: nat, s: string)
    requires n > 0
    ensures Dots(n) + s == "../" + (Dots(n - 1) + s)
  {
  }

  lemma {:induction false} BelowDots(n: nat, s: string)
    ensures Below(Dots(n) + s) == Below(s)
  {
    if n == 0 {
      assert Dots(0) + s == s;
    } else {
      BelowDots(n - 1, s);
      DotsFirst(n, s);
      BelowUp(Dots(n - 1) + s);
    }
  }

  lemma {:induction false} JoinNames(stack: seq<string>) returns (n: nat)
    requires Shaped(stack) && Names(stack) != []
    ensures Join(stack) == Dots(n) + Join(Names(stack))
  {
    if stack[0] == ".." {
      assert Shaped(stack[1..]);
      var m := JoinNames(stack[1..]);
      n := m + 1;
      assert Names(stack) == Names(stack[1..]) && stack[1..] != [];
      assert Join(stack) == Dots(n) + Join(Names(stack));
    } else {
      n := 0;
      assert Dots(0) + Join(stack) == Join(stack);
    }
  }

  /** A cleaned path is where it leads, behind a "/" or some "../". */
  lemma CleanParts(s: string) returns (lead: string)
    requires Below(s) != []
    ensures Clean(s) == lead + Join(Below(s))
    ensures lead == "/" || exists n :: lead == Dots(n)
  {
    var stack := Walk([], Split(s), IsRooted(s));
    WalkShaped([], Split(s), IsRooted(s));
    if IsRooted(s) {
      lead := "/";
    } else {
      NamesWalk([], Split(s));
      var n := JoinNames(stack);
      lead := Dots(n);
      assert stack != [];
    }
  }

  lemma LeadIgnored(lead: string, s: string)
    requires lead == "/" || exists n :: lead == Dots(n)
    ensures Below(lead + s) == Below(s)
  {
    if lead == "/" {
      BelowSlash(s);
    } else {
      var n :| lead == Dots(n);
      BelowDots(n, s);
    }
  }

  // ---------- Cleaning never lengthens ----------

  function Weight(c: seq<string>): nat {
    if c == [] then 0 else |c[0]| + 1 + Weight(c[1..])
  }

  lemma {:induction false} WeightSnoc(c: seq<string>)
    requires c != []
    ensures Weight(c) == Weight(c[..|c| - 1]) + |c[|c| - 1]| + 1
    decreases |c|
  {
    if |c| > 1 {
      WeightSnoc(c[1..]);
      assert c[1..][..|c| - 2] == c[..|c| - 1][1..];
    }
  }

  lemma {:induction false} JoinWeight(c: seq<string>)
    ensures |Join(c)| == if c == [] then 0 else Weight(c) - 1
    decreases |c|
  {
    if |c| > 1 {
      JoinWeight(c[1..]);
    } else if |c| == 1 {
      assert c[1..] == [];
    }
  }

  lemma {:induction false} SplitWeight(s: string)
    ensures Weight(Split(s)) == |s| + 1
  {
    if s == "" {
      assert [""][1..] == [];
    } else {
      SplitWeight(s[1..]);
      var rest := Split(s[1..]);
      assert ([""] + rest)[1..] == rest;
      assert ([[s[0]] + rest[0]] + rest[1..])[1..] == rest[1..];
    }
  }

  lemma {:induction false} WalkWeight(stack: seq<string>, c: seq<string>, rooted: bool)
    ensures Weight(Walk(stack, c, rooted)) <= Weight(stack) + Weight(c)
    decreases |c|
  {
    if c == [] {
    } else {
      var next := Push(stack, c[0], rooted);
      if stack != [] { WeightSnoc(stack); }
      WeightSnoc(stack + [c[0]]);
      assert (stack + [c[0]])[..|stack|] == stack;
      WalkWeight(next, c[1..], rooted);
    }
  }

  lemma BelowLength(s: string)
    ensures |Join(Below(s))| <= |s|
  {
    WalkWeight([], Split(s), true);
    SplitWeight(s);
    JoinWeight(Below(s));
  }
}
