/** The relational tables behind swipes, matches and conversations, with the
    constraints that `migrations/00001_init.sql` puts on them.
  */
module MatchTables {
  import opened Common

  datatype Action = Like | Pass

  /** A row of `matches`, without its primary key. */
  datatype Match = Match(low: Id, high: Id, createdAt: nat)

  /** A row of `conversations`, without its primary key. */
  datatype Conversation = Conversation(matchId: Id, createdAt: nat)

  /** Primary and unique keys that a statement uses to find a row are map keys here. */
  datatype Tables = Tables(
    users: set<Id>,
    swipes: map<(Id, Id), Action>,
    matches: map<Id, Match>,
    conversations: map<Id, Conversation>,
    members: set<(Id, Id)>)

  const NO_ROWS := Tables({}, map[], map[], map[], {})

  function Empty(users: set<Id>): Tables {
    NO_ROWS.(users := users)
  }

  function Low(a: Id, b: Id): Id {
    if a < b then a else b
  }

  function High(a: Id, b: Id): Id {
    if a < b then b else a
  }

  /** The rows a statement sees at READ COMMITTED: what is committed plus the
      transaction's own writes.  It is also what a commit leaves behind. */
  function Merge(db: Tables, own: Tables): Tables {
    Tables(db.users + own.users, db.swipes + own.swipes, db.matches + own.matches,
           db.conversations + own.conversations, db.members + own.members)
  }

  predicate Likes(swipes: map<(Id, Id), Action>, actor: Id, target: Id) {
    (actor, target) in swipes && swipes[(actor, target)] == Like
  }

  predicate IsMatchOf(matches: map<Id, Match>, m: Id, a: Id, b: Id) {
    m in matches && matches[m].low == Low(a, b) && matches[m].high == High(a, b)
  }

  ghost predicate HasMatch(matches: map<Id, Match>, a: Id, b: Id) {
    exists m :: IsMatchOf(matches, m, a, b)
  }

  predicate IsConversationOf(conversations: map<Id, Conversation>, c: Id, m: Id) {
    c in conversations && conversations[c].matchId == m
  }

  ghost predicate HasConversation(conversations: map<Id, Conversation>, m: Id) {
    exists c :: IsConversationOf(conversations, c, m)
  }

  /** The members of conversation `c` are exactly the two users of match `m`. */
  ghost predicate MembersAre(members: set<(Id, Id)>, c: Id, m: Match) {
    forall u :: (c, u) in members <==> u == m.low || u == m.high
  }

  ghost predicate SwipesOk(users: set<Id>, swipes: map<(Id, Id), Action>) {
    forall k | k in swipes :: k.0 != k.1 && k.0 in users && k.1 in users
  }

  ghost predicate MatchesOk(swipes: map<(Id, Id), Action>, matches: map<Id, Match>) {
    && (forall m | m in matches ::
          var r := matches[m]; r.low < r.high && Likes(swipes, r.low, r.high) && Likes(swipes, r.high, r.low))
    && (forall m, n | m in matches && n in matches &&
                      matches[m].low == matches[n].low && matches[m].high == matches[n].high :: m == n)
  }

  ghost predicate ConversationsOk(matches: map<Id, Match>, conversations: map<Id, Conversation>, members: set<(Id, Id)>)
  {
    && (forall m | m in matches :: HasConversation(conversations, m))
    && (forall c, d | c in conversations && d in conversations &&
                      conversations[c].matchId == conversations[d].matchId :: c == d)
    && (forall c | c in conversations ::
          && conversations[c].matchId in matches
          && conversations[c].createdAt == matches[conversations[c].matchId].createdAt
          && MembersAre(members, c, matches[conversations[c].matchId]))
    && (forall p | p in members :: p.0 in conversations)
  }

  /** What the committed tables are meant to satisfy: no self-swipe, every match ordered,
      unique and backed by both likes, one conversation a match, exactly its two members. */
  ghost predicate Consistent(t: Tables) {
    && SwipesOk(t.users, t.swipes)
    && MatchesOk(t.swipes, t.matches)
    && ConversationsOk(t.matches, t.conversations, t.members)
  }

  /** `t` keeps every row of `s`. */
  ghost predicate Grows(s: Tables, t: Tables) {
    && s.users == t.users
    && (forall k | k in s.swipes :: k in t.swipes && t.swipes[k] == s.swipes[k])
    && (forall k | k in s.matches :: k in t.matches && t.matches[k] == s.matches[k])
    && (forall k | k in s.conversations :: k in t.conversations && t.conversations[k] == s.conversations[k])
    && s.members <= t.members
  }

  lemma GrowsTransitive(s: Tables, t: Tables, u: Tables)
    requires Grows(s, t) && Grows(t, u)
    ensures Grows(s, u)
  {
  }

  /** Each member of a conversation and the one other member like each other. */
  lemma MembersLikeEachOther(t: Tables, c: Id, u: Id) returns (partner: Id)
    requires Consistent(t) && (c, u) in t.members
    ensures partner != u && (forall v :: (c, v) in t.members <==> v == u || v == partner)
    ensures Likes(t.swipes, u, partner) && Likes(t.swipes, partner, u)
  {
    var r := t.matches[t.conversations[c].matchId];
    assert MembersAre(t.members, c, r);
    partner := if u == r.low then r.high else r.low;
  }

  // ---------- The two changes a committed call makes ----------

  function WithSwipe(t: Tables, actor: Id, target: Id, action: Action): Tables {
    t.(swipes := t.swipes[(actor, target) := action])
  }

  function WithMatch(t: Tables, m: Id, c: Id, a: Id, b: Id, now: nat): Tables {
    t.(matches := t.matches[m := Match(Low(a, b), High(a, b), now)],
       conversations := t.conversations[c := Conversation(m, now)],
       members := t.members + {(c, a), (c, b)})
  }

  /** CreateSwipe: the constraints of `swipes`. */
  predicate SwipeAllowed(t: Tables, actor: Id, target: Id) {
    actor != target && actor in t.users && target in t.users && (actor, target) !in t.swipes
  }

  lemma MoreSwipes(swipes: map<(Id, Id), Action>, k: (Id, Id), action: Action, matches: map<Id, Match>)
    requires MatchesOk(swipes, matches) && k !in swipes
    ensures MatchesOk(swipes[k := action], matches)
  {
  }

  lemma WithSwipeConsistent(t: Tables, actor: Id, target: Id, action: Action)
    requires Consistent(t) && SwipeAllowed(t, actor, target)
    ensures Consistent(WithSwipe(t, actor, target, action)) && Grows(t, WithSwipe(t, actor, target, action))
  {
    MoreSwipes(t.swipes, (actor, target), action, t.matches);
  }

  lemma WithMatchMatches(t: Tables, m: Id, c: Id, a: Id, b: Id, now: nat)
    requires MatchesOk(t.swipes, t.matches) && m !in t.matches && !HasMatch(t.matches, a, b)
    requires a != b && Likes(t.swipes, a, b) && Likes(t.swipes, b, a)
    ensures MatchesOk(t.swipes, WithMatch(t, m, c, a, b, now).matches)
  {
    var matches := WithMatch(t, m, c, a, b, now).matches;
    forall n, o | n in matches && o in matches &&
                  matches[n].low == matches[o].low && matches[n].high == matches[o].high
      ensures n == o
    {
      assert n != m ==> !IsMatchOf(t.matches, n, a, b);
      assert o != m ==> !IsMatchOf(t.matches, o, a, b);
    }
  }

  lemma WithMatchHasConversation(t: Tables, m: Id, c: Id, a: Id, b: Id, now: nat, n: Id)
    requires c !in t.conversations && (n != m ==> HasConversation(t.conversations, n))
    ensures HasConversation(WithMatch(t, m, c, a, b, now).conversations, n)
  {
    var conversations := WithMatch(t, m, c, a, b, now).conversations;
    if n == m {
      assert IsConversationOf(conversations, c, m);
    } else {
      var d :| IsConversationOf(t.conversations, d, n);
      assert IsConversationOf(conversations, d, n);
    }
  }

  lemma WithMatchMembers(t: Tables, m: Id, c: Id, a: Id, b: Id, now: nat, d: Id, row: Match)
    requires if d == c then (forall p | p in t.members :: p.0 != c) && row == Match(Low(a, b), High(a, b), now)
             else MembersAre(t.members, d, row)
    ensures MembersAre(WithMatch(t, m, c, a, b, now).members, d, row)
  {
  }

  lemma WithMatchRows(t: Tables, m: Id, c: Id, a: Id, b: Id, now: nat)
    requires ConversationsOk(t.matches, t.conversations, t.members) && m !in t.matches && c !in t.conversations
    ensures var t' := WithMatch(t, m, c, a, b, now);
            && (forall d, e | d in t'.conversations && e in t'.conversations &&
                              t'.conversations[d].matchId == t'.conversations[e].matchId :: d == e)
            && (forall d | d in t'.conversations ::
                  && t'.conversations[d].matchId in t'.matches
                  && t'.conversations[d].createdAt == t'.matches[t'.conversations[d].matchId].createdAt)
  {
  }

  lemma WithMatchConversations(t: Tables, m: Id, c: Id, a: Id, b: Id, now: nat)
    requires ConversationsOk(t.matches, t.conversations, t.members) && m !in t.matches && c !in t.conversations
    ensures var t' := WithMatch(t, m, c, a, b, now); ConversationsOk(t'.matches, t'.conversations, t'.members)
  {
    var t' := WithMatch(t, m, c, a, b, now);
    WithMatchRows(t, m, c, a, b, now);
    forall n | n in t'.matches ensures HasConversation(t'.conversations, n) {
      WithMatchHasConversation(t, m, c, a, b, now, n);
    }
    forall d | d in t'.conversations
      ensures MembersAre(t'.members, d, t'.matches[t'.conversations[d].matchId])
    {
      WithMatchMembers(t, m, c, a, b, now, d, t'.matches[t'.conversations[d].matchId]);
    }
  }

  lemma WithMatchGrows(t: Tables, m: Id, c: Id, a: Id, b: Id, now: nat)
    requires m !in t.matches && c !in t.conversations
    ensures Grows(t, WithMatch(t, m, c, a, b, now))
  {
  }

  lemma NoSelfLike(t: Tables, a: Id, b: Id)
    requires SwipesOk(t.users, t.swipes) && Likes(t.swipes, a, b)
    ensures a != b
  {
    assert (a, b) in t.swipes;
  }

  lemma WithMatchConsistent(t: Tables, m: Id, c: Id, a: Id, b: Id, now: nat)
    requires Consistent(t) && m !in t.matches && c !in t.conversations && !HasMatch(t.matches, a, b)
    requires Likes(t.swipes, a, b) && Likes(t.swipes, b, a)
    ensures Consistent(WithMatch(t, m, c, a, b, now)) && Grows(t, WithMatch(t, m, c, a, b, now))
  {
    NoSelfLike(t, a, b);
    WithMatchMatches(t, m, c, a, b, now);
    WithMatchConversations(t, m, c, a, b, now);
    WithMatchGrows(t, m, c, a, b, now);
  }
}
