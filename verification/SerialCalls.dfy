/** The serial reading of `recordSwipe` is a special case of the concurrent one: when no
    other call is open, the protocol's events for one call do what `Alone` says. */
module SerialCalls {
  import opened Common
  import opened MatchTables
  import opened SwipeProtocol
  import opened RecordSwipe

  /** One call of `recordSwipe` from start to end. */
  datatype Call = Call(id: nat, actor: Id, target: Id, action: Action, now: nat, matchId: Id, conversationId: Id)

  /** Its statements in order; those that its control flow skips are not enabled. */
  function Events(k: Call): seq<Event> {
    [Begin(k.id, k.actor, k.target, k.action, k.now), InsertSwipe(k.id), ReadReciprocal(k.id),
     UpsertMatch(k.id, k.matchId), UpsertConversation(k.id, k.conversationId),
     AddMember(k.id), AddMember(k.id), Commit(k.id)]
  }

  ghost predicate Quiet(s: State) {
    forall i | i in s.txs :: s.txs[i].status != Running
  }

  /** No call is open, the ids of `k` are new, and its pair has no match if it may swipe;
      no row of a conversation is there before the conversation. */
  ghost predicate Ready(s: State, k: Call) {
    && k.id !in s.txs && k.matchId !in s.db.matches && k.conversationId !in s.db.conversations
    && (forall i | i in s.txs :: s.txs[i].status != Running && s.txs[i].own == NO_ROWS)
    && (SwipeAllowed(s.db, k.actor, k.target) ==> !HasMatch(s.db.matches, k.actor, k.target))
    && !HasConversation(s.db.conversations, k.matchId)
    && (forall p | p in s.db.members :: p.0 in s.db.conversations)
  }

  lemma QuietIsReady(s: State, k: Call)
    requires TxsOk(s) && Consistent(s.db) && Quiet(s)
    requires k.id !in s.txs && k.matchId !in s.db.matches && k.conversationId !in s.db.conversations
    ensures Ready(s, k)
  {
    forall i | i in s.txs ensures s.txs[i].own == NO_ROWS {
      assert TxOk(s.db, s.clock, s.txs[i]);
    }
    RowsAreFree(s.db, k.actor, k.target, k.matchId);
  }

  /** The open transaction of `k`. */
  ghost predicate Mine(db: Tables, clock: nat, t: Tx, k: Call, stage: Stage) {
    && t.status == Running && t.stage == stage
    && t.actor == k.actor && t.target == k.target && t.action == k.action && t.now == k.now
    && TxOk(db, clock, t)
    && (HasMatched(t) ==> t.matchId == k.matchId)
    && (HasConversed(t) ==> t.conversationId == k.conversationId)
  }

  /** Between the events of `k`, started in `s0`: only its own transaction is open. */
  ghost predicate Open(s0: State, s: State, k: Call, stage: Stage) {
    && s.db == s0.db && k.id in s.txs
    && (forall i | i in s.txs && i != k.id :: s.txs[i].status != Running && s.txs[i].own == NO_ROWS)
    && Mine(s.db, s.clock, s.txs[k.id], k, stage)
  }

  lemma MineMatch(db: Tables, clock: nat, t: Tx, k: Call)
    requires Mine(db, clock, t, k, Read) && t.saw
    requires k.matchId !in db.matches && !HasMatch(db.matches, k.actor, k.target)
    ensures Mine(db, clock + 1, DoUpsertMatch(db, t, k.matchId), k, Matched)
  {
    UpsertMatchOk(db, clock, t, k.matchId);
  }

  lemma MineConversation(db: Tables, clock: nat, t: Tx, k: Call)
    requires Mine(db, clock, t, k, Matched)
    requires k.conversationId !in db.conversations && !HasConversation(db.conversations, k.matchId)
    ensures Mine(db, clock + 1, DoUpsertConversation(db, t, k.conversationId), k, Conversed)
  {
    UpsertConversationOk(db, clock, t, k.conversationId);
  }

  lemma MineMember(db: Tables, clock: nat, t: Tx, k: Call, stage: Stage)
    requires Mine(db, clock, t, k, stage) && (stage == Conversed || stage == ActorAdded)
    requires forall p | p in db.members :: p.0 in db.conversations
    ensures Mine(db, clock + 1, DoAddMember(db, t), k, if stage == Conversed then ActorAdded else TargetAdded)
  {
    AddMemberOk(db, clock, t);
  }

  lemma OpenBegin(s: State, k: Call)
    requires Ready(s, k)
    ensures Open(s, Step(s, Events(k)[0]), k, Begun)
  {
  }

  lemma OpenInsert(s0: State, s: State, k: Call)
    requires Ready(s0, k) && Open(s0, s, k, Begun)
    ensures var s' := Step(s, InsertSwipe(k.id));
            if SwipeAllowed(s0.db, k.actor, k.target) then Open(s0, s', k, Inserted)
            else s'.db == s0.db && k.id in s'.txs && s'.txs[k.id].status == Aborted
  {
    assert !SwipeLocked(s, k.id);
    InsertOk(s.db, s.clock, s.txs[k.id]);
  }

  lemma OpenRead(s0: State, s: State, k: Call)
    requires Ready(s0, k) && Open(s0, s, k, Inserted) && k.action == Like
    ensures var s' := Step(s, ReadReciprocal(k.id));
            Open(s0, s', k, Read) && s'.txs[k.id].saw == Likes(s0.db.swipes, k.target, k.actor)
  {
    ReadOk(s.db, s.clock, s.txs[k.id]);
  }

  lemma StillOpen(s0: State, s: State, k: Call, before: Stage, t: Tx, stage: Stage)
    requires Open(s0, s, k, before) && Mine(s.db, s.clock + 1, t, k, stage)
    ensures Open(s0, State(s.db, s.txs[k.id := t], s.clock + 1), k, stage)
  {
  }

  lemma MatchStep(s: State, k: Call)
    requires k.id in s.txs && Enabled(s, UpsertMatch(k.id, k.matchId))
    ensures Step(s, UpsertMatch(k.id, k.matchId)) ==
            State(s.db, s.txs[k.id := DoUpsertMatch(s.db, s.txs[k.id], k.matchId)], s.clock + 1)
  {
  }

  lemma ConversationStep(s: State, k: Call)
    requires k.id in s.txs && Enabled(s, UpsertConversation(k.id, k.conversationId))
    ensures Step(s, UpsertConversation(k.id, k.conversationId)) ==
            State(s.db, s.txs[k.id := DoUpsertConversation(s.db, s.txs[k.id], k.conversationId)], s.clock + 1)
  {
  }

  lemma MemberStep(s: State, k: Call)
    requires k.id in s.txs && Enabled(s, AddMember(k.id))
    ensures Step(s, AddMember(k.id)) == State(s.db, s.txs[k.id := DoAddMember(s.db, s.txs[k.id])], s.clock + 1)
  {
  }

  lemma OpenMatch(s0: State, s: State, k: Call)
    requires Ready(s0, k) && Open(s0, s, k, Read) && s.txs[k.id].saw
    ensures Open(s0, Step(s, UpsertMatch(k.id, k.matchId)), k, Matched)
  {
    var t := s.txs[k.id];
    assert !MatchLocked(s, k.id);
    assert SwipeAllowed(s0.db, k.actor, k.target);
    MatchStep(s, k);
    MineMatch(s.db, s.clock, t, k);
    StillOpen(s0, s, k, Read, DoUpsertMatch(s.db, t, k.matchId), Matched);
  }

  lemma OpenConversation(s0: State, s: State, k: Call)
    requires Ready(s0, k) && Open(s0, s, k, Matched)
    ensures Open(s0, Step(s, UpsertConversation(k.id, k.conversationId)), k, Conversed)
  {
    var t := s.txs[k.id];
    assert !ConversationLocked(s, k.id);
    ConversationStep(s, k);
    MineConversation(s.db, s.clock, t, k);
    StillOpen(s0, s, k, Matched, DoUpsertConversation(s.db, t, k.conversationId), Conversed);
  }

  lemma OpenMember(s0: State, s: State, k: Call, stage: Stage)
    requires Open(s0, s, k, stage) && (stage == Conversed || stage == ActorAdded)
    requires forall p | p in s0.db.members :: p.0 in s0.db.conversations
    ensures Open(s0, Step(s, AddMember(k.id)), k, if stage == Conversed then ActorAdded else TargetAdded)
  {
    var t := s.txs[k.id];
    MemberStep(s, k);
    MineMember(s.db, s.clock, t, k, stage);
    StillOpen(s0, s, k, stage, DoAddMember(s.db, t), if stage == Conversed then ActorAdded else TargetAdded);
  }

  lemma OpenCommit(s0: State, s: State, k: Call, stage: Stage)
    requires Ready(s0, k) && Open(s0, s, k, stage) && AtCommit(s.txs[k.id])
    ensures var s' := Step(s, Commit(k.id));
            s'.db == Committing(s0.db, s.txs[k.id]) && Won(s'.txs[k.id]) == s.txs[k.id].saw
            && s'.txs[k.id].matchId == s.txs[k.id].matchId
            && s'.txs[k.id].conversationId == s.txs[k.id].conversationId
  {
    CommitIs(s.db, s.clock, s.txs[k.id]);
  }

  ghost function Steps(s: State, run: seq<Event>): State
    decreases |run|
  {
    if run == [] then s else Steps(Step(s, run[0]), run[1..])
  }

  lemma {:induction false} AfterSteps(users: set<Id>, run: seq<Event>, more: seq<Event>)
    ensures After(users, run + more) == Steps(After(users, run), more)
    decreases |more|
  {
    if more == [] {
      assert run + more == run;
    } else {
      AfterSteps(users, run + [more[0]], more[1..]);
      assert run + more == (run + [more[0]]) + more[1..];
      assert (run + [more[0]])[..|run|] == run;
    }
  }

  lemma StepsOne(s: State, run: seq<Event>)
    requires |run| == 1
    ensures Steps(s, run) == Step(s, run[0])
  {
    assert Steps(Step(s, run[0]), run[1..]) == Step(s, run[0]);
  }

  lemma StepsFour(s: State, run: seq<Event>)
    requires |run| == 4
    ensures Steps(s, run) == Step(Step(Step(Step(s, run[0]), run[1]), run[2]), run[3])
  {
    var s1 := Step(s, run[0]);
    var s2 := Step(s1, run[1]);
    assert run[1..][1..][1..] == [run[3]];
    StepsOne(Step(s2, run[2]), [run[3]]);
    assert Steps(s2, run[1..][1..]) == Steps(Step(s2, run[2]), [run[3]]);
    assert Steps(s1, run[1..]) == Steps(s2, run[1..][1..]);
  }

  function Middle(k: Call): seq<Event> {
    Events(k)[3..7]
  }

  lemma MiddleIs(s: State, k: Call)
    ensures Steps(s, Middle(k)) ==
            Step(Step(Step(Step(s, UpsertMatch(k.id, k.matchId)), UpsertConversation(k.id, k.conversationId)),
                      AddMember(k.id)), AddMember(k.id))
  {
    StepsFour(s, Middle(k));
  }

  /** The middle statements of a call change nothing once it is past or short of them. */
  lemma SkipMiddle(s: State, k: Call)
    requires k.id in s.txs
    requires var t := s.txs[k.id];
             || t.status != Running
             || t.stage == Inserted
             || (t.stage == Read && !t.saw)
    ensures Steps(s, Middle(k)) == s
  {
    MiddleIs(s, k);
  }

  lemma OpenRows(s0: State, s: State, k: Call)
    requires Ready(s0, k)
    requires Open(s0, s, k, Read) && s.txs[k.id].saw
    ensures var s2 := Step(Step(s, UpsertMatch(k.id, k.matchId)), UpsertConversation(k.id, k.conversationId));
            Open(s0, s2, k, Conversed)
  {
    OpenMatch(s0, s, k);
    OpenConversation(s0, Step(s, UpsertMatch(k.id, k.matchId)), k);
  }

  lemma OpenMembers(s0: State, s: State, k: Call)
    requires Ready(s0, k)
    requires Open(s0, s, k, Conversed)
    ensures Open(s0, Step(Step(s, AddMember(k.id)), AddMember(k.id)), k, TargetAdded)
  {
    OpenMember(s0, s, k, Conversed);
    OpenMember(s0, Step(s, AddMember(k.id)), k, ActorAdded);
  }

  lemma DoMiddle(s0: State, s: State, k: Call)
    requires Ready(s0, k)
    requires Open(s0, s, k, Read) && s.txs[k.id].saw
    ensures Open(s0, Steps(s, Middle(k)), k, TargetAdded)
  {
    var s2 := Step(Step(s, UpsertMatch(k.id, k.matchId)), UpsertConversation(k.id, k.conversationId));
    assert Open(s0, s2, k, Conversed) by { OpenRows(s0, s, k); }
    assert Open(s0, Step(Step(s2, AddMember(k.id)), AddMember(k.id)), k, TargetAdded) by { OpenMembers(s0, s2, k); }
    assert Steps(s, Middle(k)) == Step(Step(s2, AddMember(k.id)), AddMember(k.id)) by { MiddleIs(s, k); }
  }

  lemma {:induction false} StepsConcat(s: State, p: seq<Event>, q: seq<Event>)
    ensures Steps(s, p + q) == Steps(Steps(s, p), q)
    decreases |p|
  {
    if p == [] {
      assert p + q == q;
    } else {
      StepsConcat(Step(s, p[0]), p[1..], q);
      assert (p + q)[1..] == p[1..] + q;
    }
  }

  lemma EventsSplit(s: State, k: Call)
    ensures var es := Events(k);
            Steps(s, es) == Step(Steps(Step(Step(Step(s, es[0]), es[1]), es[2]), Middle(k)), es[7])
  {
    var es := Events(k);
    var s3 := Step(Step(Step(s, es[0]), es[1]), es[2]);
    var s7 := Steps(s3, Middle(k));
    assert es == (es[..3] + es[3..7]) + es[7..];
    StepsConcat(s, es[..3] + es[3..7], es[7..]);
    StepsConcat(s, es[..3], es[3..7]);
    StepsOne(s7, es[7..]);
    assert Steps(s, es[..3]) == s3 by {
      assert es[..3][1..][1..] == [es[2]];
      StepsOne(Step(Step(s, es[0]), es[1]), [es[2]]);
      assert Steps(Step(s, es[0]), es[..3][1..]) == Steps(Step(Step(s, es[0]), es[1]), [es[2]]);
    }
  }

  /** Call `k` has committed what `out` says. */
  predicate CommittedAs(s: State, k: Call, out: (Tables, Reply)) {
    && s.db == out.0 && k.id in s.txs && s.txs[k.id].status == Committed
    && (out.1.MatchedWith? <==> Won(s.txs[k.id]))
    && (out.1.MatchedWith? ==>
          s.txs[k.id].matchId == out.1.matchId && s.txs[k.id].conversationId == out.1.conversationId)
  }

  function AloneIs(t: Tables, k: Call): (Tables, Reply) {
    Alone(t, k.actor, k.target, k.action, k.now, k.matchId, k.conversationId)
  }

  lemma CommitsAs(s0: State, s: State, k: Call, stage: Stage)
    requires Ready(s0, k) && Open(s0, s, k, stage) && k.action == Like && SwipeAllowed(s0.db, k.actor, k.target)
    requires s.txs[k.id].saw == Likes(s0.db.swipes, k.target, k.actor)
    requires stage == if s.txs[k.id].saw then TargetAdded else Read
    ensures CommittedAs(Step(s, Commit(k.id)), k, AloneIs(s0.db, k))
  {
    OpenCommit(s0, s, k, stage);
  }

  /** The rest of a like that has been inserted. */
  lemma StepsLike(s0: State, s: State, k: Call)
    requires Ready(s0, k) && Open(s0, s, k, Inserted) && k.action == Like && SwipeAllowed(s0.db, k.actor, k.target)
    ensures CommittedAs(Step(Steps(Step(s, ReadReciprocal(k.id)), Middle(k)), Commit(k.id)), k, AloneIs(s0.db, k))
  {
    var s1 := Step(s, ReadReciprocal(k.id));
    OpenRead(s0, s, k);
    if s1.txs[k.id].saw {
      DoMiddle(s0, s1, k);
      CommitsAs(s0, Steps(s1, Middle(k)), k, TargetAdded);
    } else {
      SkipMiddle(s1, k);
      CommitsAs(s0, s1, k, Read);
    }
  }

  /** What the protocol makes of one call that runs alone. */
  lemma StepsAlone(s: State, k: Call)
    requires Ready(s, k)
    ensures var s' := Steps(s, Events(k));
            var (t, r) := Alone(s.db, k.actor, k.target, k.action, k.now, k.matchId, k.conversationId);
            && s'.db == t && k.id in s'.txs
            && (r.Refused? <==> s'.txs[k.id].status == Aborted)
            && (r.MatchedWith? <==> Won(s'.txs[k.id]))
            && (r.MatchedWith? ==> s'.txs[k.id].matchId == r.matchId && s'.txs[k.id].conversationId == r.conversationId)
  {
    var es := Events(k);
    EventsSplit(s, k);
    var s1 := Step(s, es[0]);
    var s2 := Step(s1, es[1]);
    var s3 := Step(s2, es[2]);
    OpenBegin(s, k);
    OpenInsert(s, s1, k);
    if !SwipeAllowed(s.db, k.actor, k.target) {
      assert s3 == s2;
      SkipMiddle(s3, k);
    } else if k.action == Pass {
      assert s3 == s2;
      SkipMiddle(s3, k);
      OpenCommit(s, s3, k, Inserted);
    } else {
      StepsLike(s, s2, k);
    }
  }

  /** In any history, a call made while no other is open does what `Alone` says. */
  lemma AloneIsOneCall(users: set<Id>, run: seq<Event>, k: Call)
    requires var s := After(users, run); Quiet(s) && k.id !in s.txs
    requires var s := After(users, run); k.matchId !in s.db.matches && k.conversationId !in s.db.conversations
    ensures var s, s' := After(users, run), After(users, run + Events(k));
            var (t, r) := Alone(s.db, k.actor, k.target, k.action, k.now, k.matchId, k.conversationId);
            && s'.db == t && k.id in s'.txs
            && (r.Refused? <==> s'.txs[k.id].status == Aborted)
            && (r.MatchedWith? <==> Won(s'.txs[k.id]))
            && (r.MatchedWith? ==> s'.txs[k.id].matchId == r.matchId && s'.txs[k.id].conversationId == r.conversationId)
  {
    RunKeeps(users, run);
    AfterSteps(users, run, Events(k));
    QuietIsReady(After(users, run), k);
    StepsAlone(After(users, run), k);
  }
}
