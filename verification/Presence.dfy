/** The presence key of one user, kept by any number of WebSocket connections.

    A connection sets the key with a 45 s time to live when it opens and at every tick of a
    20 s ticker, and deletes it when it closes; its ticker stops only when its context is
    cancelled, after the deletion.  A connection that ends with its process, on a deployment
    or a crash, deletes nothing.  Times are in seconds.
  */
module Presence {
  import opened Common

  const TTL := 45
  const REFRESH := 20

  datatype Phase = Open | Deleted | Gone

  /** A connection: when it opened, how many ticks it has handled and when it last set the key. */
  datatype Connection = Connection(phase: Phase, since: int, ticks: nat, lastSet: int)

  /** `expires` is what Redis holds; the last two fields record the last Set and the last Del
      with the connection that made it. */
  datatype State = State(
    now: int,
    connections: map<nat, Connection>,
    expires: Option<int>,
    setAt: Option<int>,
    deletedAt: Option<(int, nat)>)

  datatype Event =
    | Connect(c: nat, at: int)
    | Tick(c: nat, at: int)
    | Close(c: nat, at: int)
    | Cancel(c: nat, at: int)
    | Die(c: nat, at: int)

  const INIT := State(0, map[], None, None, None)

  /** Ticks are not early, and come until the context is cancelled. */
  predicate Enabled(s: State, e: Event) {
    && e.at >= s.now
    && match e
       case Connect(c, _) => c !in s.connections
       case Tick(c, at) =>
         c in s.connections && !s.connections[c].phase.Gone? &&
         at >= s.connections[c].since + REFRESH * (s.connections[c].ticks + 1)
       case Close(c, _) => c in s.connections && s.connections[c].phase.Open?
       case Cancel(c, _) => c in s.connections && s.connections[c].phase.Deleted?
       case Die(c, _) => c in s.connections && !s.connections[c].phase.Gone?
  }

  function Set(s: State, at: int): State {
    s.(now := at, expires := Some(at + TTL), setAt := Some(at))
  }

  function Step(s: State, e: Event): State {
    if !Enabled(s, e) then s
    else
      match e
      case Connect(c, at) => Set(s, at).(connections := s.connections[c := Connection(Open, at, 0, at)])
      case Tick(c, at) =>
        var x := s.connections[c];
        Set(s, at).(connections := s.connections[c := x.(ticks := x.ticks + 1, lastSet := at)])
      case Close(c, at) =>
        s.(now := at, expires := None, deletedAt := Some((at, c)),
           connections := s.connections[c := s.connections[c].(phase := Deleted)])
      case Cancel(c, at) =>
        s.(now := at, connections := s.connections[c := s.connections[c].(phase := Gone)])
      case Die(c, at) =>
        s.(now := at, connections := s.connections[c := s.connections[c].(phase := Gone)])
  }

  function After(run: seq<Event>): State {
    if run == [] then INIT else Step(After(run[..|run| - 1]), run[|run| - 1])
  }

  /** isOnline at time `t`, when nothing has happened since the last event. */
  predicate Online(s: State, t: int) {
    s.expires.Some? && t < s.expires.value
  }

  /** By time `t` no open connection's next tick is `delay` or more overdue. */
  predicate Punctual(s: State, t: int, delay: int) {
    forall c | c in s.connections && s.connections[c].phase.Open? ::
      t < s.connections[c].since + REFRESH * (s.connections[c].ticks + 1) + delay
  }

  // ---------- The invariant ----------

  ghost predicate Inv(s: State) {
    && (s.expires.Some? ==> s.setAt.Some? && s.expires.value == s.setAt.value + TTL)
    && (s.setAt.Some? ==> s.setAt.value <= s.now)
    && (s.expires.None? && s.setAt.Some? ==> s.deletedAt.Some? && s.deletedAt.value.0 >= s.setAt.value)
    && (s.deletedAt.Some? ==>
          && s.deletedAt.value.0 <= s.now
          && s.deletedAt.value.1 in s.connections && !s.connections[s.deletedAt.value.1].phase.Open?)
    && (forall c | c in s.connections ::
          var x := s.connections[c];
          && s.setAt.Some? && x.lastSet <= s.setAt.value
          && x.lastSet >= x.since + REFRESH * x.ticks)
  }

  lemma SetKeeps(s: State, e: Event)
    requires Inv(s) && Enabled(s, e) && (e.Connect? || e.Tick?)
    ensures Inv(Step(s, e))
  {
  }

  lemma EndKeeps(s: State, e: Event)
    requires Inv(s) && Enabled(s, e) && !e.Connect? && !e.Tick?
    ensures Inv(Step(s, e))
  {
  }

  lemma StepKeeps(s: State, e: Event)
    requires Inv(s)
    ensures Inv(Step(s, e))
  {
    if Enabled(s, e) {
      if e.Connect? || e.Tick? { SetKeeps(s, e); } else { EndKeeps(s, e); }
    }
  }

  lemma {:induction false} RunKeeps(run: seq<Event>)
    ensures Inv(After(run))
  {
    if run == [] {
    } else {
      RunKeeps(run[..|run| - 1]);
      StepKeeps(After(run[..|run| - 1]), run[|run| - 1]);
    }
  }

  /** Event `i` of the run took effect. */
  predicate Happened(run: seq<Event>, i: int) {
    0 <= i < |run| && Enabled(After(run[..i]), run[i])
  }

  /** Event `i` set the key. */
  predicate Sets(run: seq<Event>, i: int) {
    Happened(run, i) && (run[i].Connect? || run[i].Tick?)
  }

  predicate Closes(run: seq<Event>, i: int) {
    Happened(run, i) && run[i].Close?
  }

  lemma {:induction false} SetHappened(run: seq<Event>)
    requires After(run).setAt.Some?
    ensures exists i :: Sets(run, i) && run[i].at == After(run).setAt.value
  {
    var n := |run| - 1;
    var most := run[..n];
    if !Sets(run, n) {
      SetHappened(most);
      var i :| Sets(most, i) && most[i].at == After(most).setAt.value;
      assert most[..i] == run[..i];
      assert Sets(run, i);
    }
  }

  lemma {:induction false} DeleteHappened(run: seq<Event>)
    requires After(run).deletedAt.Some?
    ensures exists i :: Closes(run, i) && (run[i].at, run[i].c) == After(run).deletedAt.value
  {
    var n := |run| - 1;
    var most := run[..n];
    if !Closes(run, n) {
      DeleteHappened(most);
      var i :| Closes(most, i) && (most[i].at, most[i].c) == After(most).deletedAt.value;
      assert most[..i] == run[..i];
      assert Closes(run, i);
    }
  }

  // ---------- How far presence can be wrong ----------

  /** While one of a user's connections is open, the user is online unless another of them
      closed less than one refresh interval and one tick delay ago. */
  lemma OpenMeansOnline(run: seq<Event>, c: nat, t: int, delay: int)
    requires 0 < delay <= TTL - REFRESH && t >= After(run).now && Punctual(After(run), t, delay)
    requires c in After(run).connections && After(run).connections[c].phase.Open?
    ensures Online(After(run), t) ||
            exists i :: Closes(run, i) && run[i].c != c && t - REFRESH - delay < run[i].at <= t
  {
    RunKeeps(run);
    var s := After(run);
    var x := s.connections[c];
    assert t < x.since + REFRESH * x.ticks + REFRESH + delay;
    if !Online(s, t) {
      DeleteHappened(run);
      var i :| Closes(run, i) && (run[i].at, run[i].c) == s.deletedAt.value;
      assert run[i].c != c;
    }
  }

  /** A user shown online had the key set less than 45 seconds before. */
  lemma OnlineMeansRecentSet(run: seq<Event>, t: int)
    requires t >= After(run).now && Online(After(run), t)
    ensures exists i :: Sets(run, i) && t - TTL < run[i].at <= t
  {
    RunKeeps(run);
    SetHappened(run);
  }

  // ---------- Exactly when a user is online ----------

  /** Event `i` is a tick of a connection that had already deleted the key. */
  predicate LateTick(run: seq<Event>, i: int) {
    Happened(run, i) && run[i].Tick? && After(run[..i]).connections[run[i].c].phase.Deleted?
  }

  /** Event `j` ended an open connection without deleting the key. */
  predicate EndsOpen(run: seq<Event>, j: int, c: nat) {
    Happened(run, j) && run[j] == Die(c, run[j].at) && After(run[..j]).connections[c].phase.Open?
  }

  /** The connection of event `i` later ended so. */
  ghost predicate DiesAfter(run: seq<Event>, i: int)
    requires 0 <= i < |run|
  {
    exists j | i < j :: EndsOpen(run, j, run[i].c)
  }

  ghost predicate NoCloseAfter(run: seq<Event>, i: int) {
    forall j | i < j :: !Closes(run, j)
  }

  ghost predicate NoSetAfter(run: seq<Event>, i: int) {
    forall j | i < j :: !Sets(run, j)
  }

  lemma HappenedPrefix(run: seq<Event>, n: nat, i: int)
    requires i < n <= |run|
    ensures Happened(run[..n], i) <==> Happened(run, i)
  {
    if i >= 0 { assert run[..n][..i] == run[..i]; }
  }

  lemma NoneAfterPrefix(run: seq<Event>, n: nat, i: int)
    requires i < n <= |run|
    ensures NoCloseAfter(run, i) ==> NoCloseAfter(run[..n], i)
    ensures n + 1 == |run| && !Closes(run, n) && NoCloseAfter(run[..n], i) ==> NoCloseAfter(run, i)
    ensures n + 1 == |run| && !Sets(run, n) && NoSetAfter(run[..n], i) ==> NoSetAfter(run, i)
  {
    forall j | j < n ensures Happened(run[..n], j) <==> Happened(run, j) { HappenedPrefix(run, n, j); }
    assert forall j | 0 <= j < n :: run[..n][j] == run[j];
    forall j | i < j && NoCloseAfter(run, i) ensures !Closes(run[..n], j) {
      assert !Closes(run, j);
    }
    forall j | i < j && NoCloseAfter(run[..n], i) && n + 1 == |run| && !Closes(run, n) ensures !Closes(run, j) {
      assert !Closes(run[..n], j);
    }
    forall j | i < j && NoSetAfter(run[..n], i) && n + 1 == |run| && !Sets(run, n) ensures !Sets(run, j) {
      assert !Sets(run[..n], j);
    }
  }

  /** While the key is there, the last set has not been followed by a close. */
  lemma {:induction false} LastSetStands(run: seq<Event>) returns (i: int)
    requires After(run).expires.Some?
    ensures Sets(run, i) && NoCloseAfter(run, i) && run[i].at + TTL == After(run).expires.value
  {
    var n := |run| - 1;
    if Sets(run, n) {
      i := n;
    } else {
      assert !Closes(run, n);
      i := LastSetStands(run[..n]);
      HappenedPrefix(run, n, i);
      NoneAfterPrefix(run, n, i);
    }
  }

  lemma {:induction false} SetStands(run: seq<Event>, i: int)
    requires Sets(run, i) && NoCloseAfter(run, i)
    ensures After(run).expires.Some? && After(run).expires.value >= run[i].at + TTL
  {
    var n := |run| - 1;
    if i < n {
      HappenedPrefix(run, n, i);
      NoneAfterPrefix(run, n, i);
      SetStands(run[..n], i);
      RunKeeps(run[..n]);
      assert !Closes(run, n);
    }
  }

  /** A user is online exactly when the key was set in the last 45 seconds and no connection
      has closed since. */
  lemma OnlineExactly(run: seq<Event>, t: int)
    requires t >= After(run).now
    ensures Online(After(run), t) <==> exists i :: Sets(run, i) && NoCloseAfter(run, i) && t - TTL < run[i].at
  {
    if Online(After(run), t) {
      var i := LastSetStands(run);
    }
    forall i | Sets(run, i) && NoCloseAfter(run, i) && t - TTL < run[i].at ensures Online(After(run), t) {
      SetStands(run, i);
    }
  }

  /** A connection that set the key while open is open until something closes or it dies. */
  lemma {:induction false} StaysOpen(run: seq<Event>, i: int)
    requires Sets(run, i) && !LateTick(run, i) && NoCloseAfter(run, i) && !DiesAfter(run, i)
    ensures run[i].c in After(run).connections && After(run).connections[run[i].c].phase.Open?
  {
    var n := |run| - 1;
    if i < n {
      HappenedPrefix(run, n, i);
      NoneAfterPrefix(run, n, i);
      assert run[..n][..i] == run[..i];
      forall j | i < j && EndsOpen(run[..n], j, run[i].c) ensures DiesAfter(run, i) {
        assert run[..n][..j] == run[..j];
        assert EndsOpen(run, j, run[i].c);
      }
      StaysOpen(run[..n], i);
      assert !Closes(run, n) && !EndsOpen(run, n, run[i].c);
    }
  }

  /** A user with no open connection is online exactly when the key was set in the last 45
      seconds by a tick of a connection that had already deleted it, or by one that then
      ended with its process, and no connection has closed since. */
  lemma ClosedOnlineExactly(run: seq<Event>, t: int)
    requires t >= After(run).now
    requires var s := After(run); forall c | c in s.connections :: !s.connections[c].phase.Open?
    ensures Online(After(run), t) <==>
            exists i :: Sets(run, i) && (LateTick(run, i) || DiesAfter(run, i)) && NoCloseAfter(run, i) &&
                        t - TTL < run[i].at
  {
    OnlineExactly(run, t);
    forall i | Sets(run, i) && NoCloseAfter(run, i) ensures LateTick(run, i) || DiesAfter(run, i) {
      if !LateTick(run, i) && !DiesAfter(run, i) { StaysOpen(run, i); }
    }
  }

  /** While the key is gone, the last close has not been followed by a set. */
  lemma {:induction false} LastCloseStands(run: seq<Event>) returns (i: int)
    requires After(run).expires.None? && After(run).setAt.Some?
    ensures Closes(run, i) && NoSetAfter(run, i)
  {
    var n := |run| - 1;
    if Closes(run, n) {
      i := n;
    } else {
      assert !Sets(run, n);
      i := LastCloseStands(run[..n]);
      HappenedPrefix(run, n, i);
      NoneAfterPrefix(run, n, i);
    }
  }

  /** A user with an open connection that ticks in time is offline exactly from a close of
      another one until the key is next set. */
  lemma OpenOfflineExactly(run: seq<Event>, c: nat, t: int, delay: int)
    requires 0 < delay <= TTL - REFRESH && t >= After(run).now && Punctual(After(run), t, delay)
    requires c in After(run).connections && After(run).connections[c].phase.Open?
    ensures !Online(After(run), t) <==> exists i :: Closes(run, i) && NoSetAfter(run, i)
  {
    RunKeeps(run);
    var s := After(run);
    assert t < s.connections[c].since + REFRESH * s.connections[c].ticks + REFRESH + delay;
    if s.expires.Some? {
      var j := LastSetStands(run);
      forall i | Closes(run, i) ensures !NoSetAfter(run, i) {
        assert i < j;
      }
    } else {
      var i := LastCloseStands(run);
    }
  }

  /** The exception is real and its length exact: for any delay, with two connections of
      which one closes at once, the other stays open and the user offline until the last
      instant a punctual tick may take. */
  lemma GapIsTight(delay: int)
    requires 0 < delay <= TTL - REFRESH
    ensures var s := After([Connect(0, 0), Connect(1, 0), Close(1, 0)]);
            var t := REFRESH + delay - 1;
            && s.connections.Keys == {0, 1} && s.connections[0].phase.Open?
            && Punctual(s, t, delay) && !Online(s, t)
  {
    var run := [Connect(0, 0), Connect(1, 0), Close(1, 0)];
    assert run[..2] == [Connect(0, 0), Connect(1, 0)] && run[..2][..1] == [Connect(0, 0)];
    assert run[..2][..1][..0] == [];
    assert After(run[..2][..1]) == Step(INIT, Connect(0, 0));
    assert After(run[..2]) == Step(After(run[..2][..1]), Connect(1, 0));
  }

  /** A tick that lands between the deletion and the cancellation leaves a user without any
      connection online for up to 45 seconds more, and no longer. */
  lemma LateTickLingers(t: int)
    requires t >= 20
    ensures var s := After([Connect(0, 0), Close(0, 20), Tick(0, 20), Cancel(0, 20)]);
            s.connections.Keys == {0} && s.connections[0].phase.Gone? && (Online(s, t) <==> t < 20 + TTL)
  {
    var run := [Connect(0, 0), Close(0, 20), Tick(0, 20), Cancel(0, 20)];
    assert run[..3] == [Connect(0, 0), Close(0, 20), Tick(0, 20)];
    assert run[..3][..2] == [Connect(0, 0), Close(0, 20)] && run[..3][..2][..1] == [Connect(0, 0)];
    assert run[..3][..2][..1][..0] == [];
    assert After(run[..3][..2][..1]) == Step(INIT, Connect(0, 0));
    assert After(run[..3][..2]) == Step(After(run[..3][..2][..1]), Close(0, 20));
    assert After(run[..3]) == Step(After(run[..3][..2]), Tick(0, 20));
  }

  /** So does a process that ends with an open connection: the key outlives it by up to 45 s. */
  lemma DeadProcessLingers(end: int, t: int)
    requires 0 <= end <= t
    ensures var s := After([Connect(0, 0), Die(0, end)]);
            s.connections.Keys == {0} && s.connections[0].phase.Gone? && (Online(s, t) <==> t < TTL)
  {
    var run := [Connect(0, 0), Die(0, end)];
    assert run[..1] == [Connect(0, 0)] && run[..1][..0] == [];
    assert After(run[..1]) == Step(INIT, Connect(0, 0));
  }
}
