/** `recordSwipe` as the code runs it, one statement after another, and what one call does
    when no other is open. */
module RecordSwipe {
  import opened Common
  import opened MatchTables
  import opened SwipeProtocol

  datatype SwipeError = SelfSwipe | AlreadySwiped | UnknownUser

  datatype Reply =
    | Refused(error: SwipeError)
    | Recorded
    | MatchedWith(matchId: Id, conversationId: Id)

  /** The constraint of `swipes` that an insert breaks first, if any. */
  function Violation(t: Tables, actor: Id, target: Id): SwipeError
    requires !SwipeAllowed(t, actor, target)
  {
    if actor == target then SelfSwipe
    else if (actor, target) in t.swipes then AlreadySwiped
    else UnknownUser
  }

  /** What a call makes of the committed tables when it runs alone; `m` and `c` are the ids
      its inserts would generate. */
  function Alone(t: Tables, actor: Id, target: Id, action: Action, now: nat, m: Id, c: Id): (Tables, Reply) {
    if !SwipeAllowed(t, actor, target) then (t, Refused(Violation(t, actor, target)))
    else
      var swiped := WithSwipe(t, actor, target, action);
      if action == Like && Likes(t.swipes, target, actor)
      then (WithMatch(swiped, m, c, actor, target, now), MatchedWith(m, c))
      else (swiped, Recorded)
  }

  /** Both likes of a pair have made their match. */
  ghost predicate Complete(t: Tables) {
    forall a, b | Likes(t.swipes, a, b) && Likes(t.swipes, b, a) :: HasMatch(t.matches, a, b)
  }

  lemma NoMatchBeforeSwipe(t: Tables, a: Id, b: Id)
    requires MatchesOk(t.swipes, t.matches) && a != b && (a, b) !in t.swipes
    ensures !HasMatch(t.matches, a, b)
  {
  }

  /** An allowed swipe finds neither a match of its pair nor a conversation of a new match. */
  lemma RowsAreFree(t: Tables, actor: Id, target: Id, m: Id)
    requires Consistent(t) && m !in t.matches
    ensures SwipeAllowed(t, actor, target) ==> !HasMatch(t.matches, actor, target)
    ensures !HasConversation(t.conversations, m)
  {
  }

  lemma AloneConsistent(t: Tables, actor: Id, target: Id, action: Action, now: nat, m: Id, c: Id)
    requires Consistent(t) && m !in t.matches && c !in t.conversations
    ensures var t' := Alone(t, actor, target, action, now, m, c).0; Consistent(t') && Grows(t, t')
  {
    if SwipeAllowed(t, actor, target) {
      var swiped := WithSwipe(t, actor, target, action);
      NoMatchBeforeSwipe(t, actor, target);
      WithSwipeConsistent(t, actor, target, action);
      if action == Like && Likes(t.swipes, target, actor) {
        WithMatchConsistent(swiped, m, c, actor, target, now);
        GrowsTransitive(t, swiped, WithMatch(swiped, m, c, actor, target, now));
      }
    }
  }

  lemma AloneComplete(t: Tables, actor: Id, target: Id, action: Action, now: nat, m: Id, c: Id)
    requires Complete(t) && m !in t.matches
    ensures Complete(Alone(t, actor, target, action, now, m, c).0)
  {
    var (t', r) := Alone(t, actor, target, action, now, m, c);
    forall a, b | Likes(t'.swipes, a, b) && Likes(t'.swipes, b, a) ensures HasMatch(t'.matches, a, b) {
      if Likes(t.swipes, a, b) && Likes(t.swipes, b, a) {
        var n :| IsMatchOf(t.matches, n, a, b);
        assert IsMatchOf(t'.matches, n, a, b);
      } else {
        assert IsMatchOf(t'.matches, m, a, b);
      }
    }
  }

  /** A call answers "matched" exactly when it made the match. */
  lemma AloneMatches(t: Tables, actor: Id, target: Id, action: Action, now: nat, m: Id, c: Id)
    requires MatchesOk(t.swipes, t.matches)
    ensures var (t', r) := Alone(t, actor, target, action, now, m, c);
            r.MatchedWith? <==> !HasMatch(t.matches, actor, target) && HasMatch(t'.matches, actor, target)
  {
    if SwipeAllowed(t, actor, target) {
      NoMatchBeforeSwipe(t, actor, target);
      var (t', r) := Alone(t, actor, target, action, now, m, c);
      if r.MatchedWith? { assert IsMatchOf(t'.matches, m, actor, target); }
    }
  }

  /** Calls that run alone keep the tables consistent, and a match for every mutual like. */
  lemma AloneKeeps(t: Tables, actor: Id, target: Id, action: Action, now: nat, m: Id, c: Id)
    requires Consistent(t) && Complete(t) && m !in t.matches && c !in t.conversations
    ensures var t' := Alone(t, actor, target, action, now, m, c).0;
            Consistent(t') && Complete(t') && Grows(t, t')
    ensures var (t', r) := Alone(t, actor, target, action, now, m, c);
            r.MatchedWith? <==> !HasMatch(t.matches, actor, target) && HasMatch(t'.matches, actor, target)
  {
    AloneConsistent(t, actor, target, action, now, m, c);
    AloneComplete(t, actor, target, action, now, m, c);
    AloneMatches(t, actor, target, action, now, m, c);
  }

  /** The database as one transaction of `recordSwipe` sees it: what is committed, and the
      working copy its statements change. */
  class MatchStore {
    var committed: Tables
    var work: Tables

    ghost predicate Valid()
      reads this
    {
      Consistent(committed) && Complete(committed)
    }

    constructor (users: set<Id>)
      ensures Valid() && committed == Empty(users)
    {
      committed := Empty(users);
      work := Empty(users);
    }

    method CreateSwipe(actor: Id, target: Id, action: Action) returns (ok: bool)
      modifies this`work
      ensures ok == SwipeAllowed(old(work), actor, target)
      ensures work == if ok then WithSwipe(old(work), actor, target, action) else old(work)
    {
      ok := actor != target && actor in work.users && target in work.users && (actor, target) !in work.swipes;
      if ok { work := work.(swipes := work.swipes[(actor, target) := action]); }
    }

    method HasReciprocalLike(actor: Id, target: Id) returns (found: bool)
      ensures found == Likes(work.swipes, actor, target)
    {
      found := (actor, target) in work.swipes && work.swipes[(actor, target)] == Like;
    }

    /** INSERT ... ON CONFLICT (user_low_id, user_high_id) DO UPDATE ... RETURNING id. */
    method UpsertMatch(low: Id, high: Id, newId: Id, now: nat) returns (m: Id)
      modifies this`work
      ensures HasMatch(old(work).matches, low, high) && low < high ==>
                work == old(work) && IsMatchOf(work.matches, m, low, high)
      ensures !HasMatch(old(work).matches, low, high) && low < high ==>
                m == newId && work == old(work).(matches := old(work).matches[newId := Match(low, high, now)])
    {
      if n :| n in work.matches && work.matches[n].low == low && work.matches[n].high == high {
        m := n;
        assert low < high ==> IsMatchOf(work.matches, n, low, high);
      } else {
        m := newId;
        work := work.(matches := work.matches[newId := Match(low, high, now)]);
      }
    }

    /** INSERT ... ON CONFLICT (match_id) DO UPDATE ... RETURNING id. */
    method UpsertConversationForMatch(m: Id, newId: Id, now: nat) returns (c: Id)
      modifies this`work
      ensures HasConversation(old(work).conversations, m) ==>
                work == old(work) && IsConversationOf(work.conversations, c, m)
      ensures !HasConversation(old(work).conversations, m) ==>
                c == newId &&
                work == old(work).(conversations := old(work).conversations[newId := Conversation(m, now)])
    {
      if n :| n in work.conversations && work.conversations[n].matchId == m {
        c := n;
        assert IsConversationOf(work.conversations, n, m);
      } else {
        c := newId;
        work := work.(conversations := work.conversations[newId := Conversation(m, now)]);
      }
    }

    /** INSERT ... ON CONFLICT DO NOTHING. */
    method AddConversationMember(c: Id, user: Id)
      modifies this`work
      ensures work == old(work).(members := old(work).members + {(c, user)})
    {
      work := work.(members := work.members + {(c, user)});
    }

    /** The part of `recordSwipe` after a reciprocal like was found. */
    method OpenMatch(actor: Id, target: Id, now: nat, newMatch: Id, newConversation: Id) returns (m: Id, c: Id)
      requires actor != target && !HasMatch(work.matches, actor, target)
      requires !HasConversation(work.conversations, newMatch)
      modifies this`work
      ensures m == newMatch && c == newConversation
      ensures work == WithMatch(old(work), m, c, actor, target, now)
    {
      var low, high := Low(actor, target), High(actor, target);
      assert forall n :: IsMatchOf(work.matches, n, low, high) ==> IsMatchOf(work.matches, n, actor, target);
      m := UpsertMatch(low, high, newMatch, now);
      c := UpsertConversationForMatch(m, newConversation, now);
      var pair := [actor, target];
      ghost var before := work;
      for i := 0 to 2
        modifies this`work
        invariant i == 0 ==> work == before
        invariant i == 1 ==> work == before.(members := before.members + {(c, actor)})
        invariant i == 2 ==> work == before.(members := before.members + {(c, actor)} + {(c, target)})
      {
        AddConversationMember(c, pair[i]);
      }
      assert before.members + {(c, actor)} + {(c, target)} == before.members + {(c, actor), (c, target)};
    }

    /** The statements of `recordSwipe`, on tables where an allowed swipe has no match yet. */
    method Transact(actor: Id, target: Id, action: Action, now: nat, newMatch: Id, newConversation: Id)
      returns (reply: Reply)
      requires SwipeAllowed(committed, actor, target) ==> !HasMatch(committed.matches, actor, target)
      requires !HasConversation(committed.conversations, newMatch)
      modifies this
      ensures (committed, reply) == Alone(old(committed), actor, target, action, now, newMatch, newConversation)
    {
      work := committed;
      var ok := CreateSwipe(actor, target, action);
      if !ok { return Refused(Violation(work, actor, target)); }
      var reciprocal := false;
      if action == Like { reciprocal := HasReciprocalLike(target, actor); }
      if !reciprocal {
        committed := work;
        return Recorded;
      }
      var m, c := OpenMatch(actor, target, now, newMatch, newConversation);
      committed := work;
      return MatchedWith(m, c);
    }

    method RecordSwipe(actor: Id, target: Id, action: Action, now: nat, newMatch: Id, newConversation: Id)
      returns (reply: Reply)
      requires Valid() && newMatch !in committed.matches && newConversation !in committed.conversations
      modifies this
      ensures Valid()
      ensures (committed, reply) == Alone(old(committed), actor, target, action, now, newMatch, newConversation)
    {
      RowsAreFree(committed, actor, target, newMatch);
      AloneKeeps(committed, actor, target, action, now, newMatch, newConversation);
      reply := Transact(actor, target, action, now, newMatch, newConversation);
    }
  }
}
