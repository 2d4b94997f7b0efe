/** `recordSwipe` as concurrent transactions at READ COMMITTED.

    An event is one SQL statement of one transaction, or a commit or an abort.  An event
    that cannot happen yet, such as an insert that waits for another transaction's
    uncommitted row, leaves the state as it is; so `After` is defined for every sequence
    of events and a theorem about it speaks of every interleaving.
  */
module SwipeProtocol {
  import opened Common
  import opened MatchTables

  datatype Status = Running | Committed | Aborted

  datatype Stage = Begun | Inserted | Read | Matched | Conversed | ActorAdded | TargetAdded

  /** One call of `recordSwipe`.  `own` are its uncommitted rows, `now` is the transaction's
      `now()`, and the last three fields number the steps at which it began, read the
      reciprocal like and ended. */
  datatype Tx = Tx(
    actor: Id, target: Id, action: Action, now: nat,
    status: Status, stage: Stage, own: Tables,
    saw: bool, matchId: Id, conversationId: Id, conflicted: bool,
    begunAt: nat, readAt: nat, endedAt: nat)

  datatype State = State(db: Tables, txs: map<nat, Tx>, clock: nat)

  datatype Event =
    | Begin(id: nat, actor: Id, target: Id, action: Action, now: nat)
    | InsertSwipe(id: nat)
    | ReadReciprocal(id: nat)
    | UpsertMatch(id: nat, newId: Id)
    | UpsertConversation(id: nat, newId: Id)
    | AddMember(id: nat)
    | Commit(id: nat)
    | Abort(id: nat)

  function Init(users: set<Id>): State {
    State(Empty(users), map[], 0)
  }

  predicate HasInserted(t: Tx) {
    t.stage != Begun
  }

  predicate HasRead(t: Tx) {
    t.stage != Begun && t.stage != Inserted
  }

  predicate HasMatched(t: Tx) {
    HasRead(t) && t.stage != Read
  }

  predicate HasConversed(t: Tx) {
    HasMatched(t) && t.stage != Matched
  }

  /** The call that returns `matched == true`. */
  predicate Won(t: Tx) {
    t.status == Committed && t.saw
  }

  predicate SamePair(t: Tx, u: Tx) {
    Low(t.actor, t.target) == Low(u.actor, u.target) && High(t.actor, t.target) == High(u.actor, u.target)
  }

  predicate Swiped(t: Tx, actor: Id, target: Id) {
    t.actor == actor && t.target == target
  }

  /** A running transaction other than `id` has an uncommitted row that an insert of
      `id` would collide with, so that insert waits. */
  ghost predicate SwipeLocked(s: State, id: nat) {
    exists j :: j in s.txs && j != id && s.txs[j].status == Running && id in s.txs &&
                (s.txs[id].actor, s.txs[id].target) in s.txs[j].own.swipes
  }

  ghost predicate MatchLocked(s: State, id: nat) {
    exists j, m :: j in s.txs && j != id && s.txs[j].status == Running && id in s.txs &&
                   IsMatchOf(s.txs[j].own.matches, m, s.txs[id].actor, s.txs[id].target)
  }

  ghost predicate ConversationLocked(s: State, id: nat) {
    exists j, c :: j in s.txs && j != id && s.txs[j].status == Running && id in s.txs &&
                   IsConversationOf(s.txs[j].own.conversations, c, s.txs[id].matchId)
  }

  /** `gen_random_uuid` is taken to return a value no row has. */
  ghost predicate FreshMatch(s: State, m: Id) {
    m !in s.db.matches && forall j | j in s.txs :: m !in s.txs[j].own.matches
  }

  ghost predicate FreshConversation(s: State, c: Id) {
    c !in s.db.conversations && forall j | j in s.txs :: c !in s.txs[j].own.conversations
  }

  /** `recordSwipe` commits only at these stages. */
  predicate AtCommit(t: Tx) {
    || (t.stage == Inserted && t.action == Pass)
    || (t.stage == Read && !t.saw)
    || t.stage == TargetAdded
  }

  ghost predicate Enabled(s: State, e: Event) {
    if e.Begin? then e.id !in s.txs
    else
      && e.id in s.txs
      && s.txs[e.id].status == Running
      && var t := s.txs[e.id];
         match e
         case InsertSwipe(_) => t.stage == Begun && !SwipeLocked(s, e.id)
         case ReadReciprocal(_) => t.stage == Inserted && t.action == Like
         case UpsertMatch(_, newId) => t.stage == Read && t.saw && FreshMatch(s, newId) && !MatchLocked(s, e.id)
         case UpsertConversation(_, newId) =>
           t.stage == Matched && FreshConversation(s, newId) && !ConversationLocked(s, e.id)
         case AddMember(_) => t.stage == Conversed || t.stage == ActorAdded
         case Commit(_) => AtCommit(t)
         case _ => true
  }

  /** CreateSwipe: a constraint that fails ends the transaction. */
  function DoInsertSwipe(db: Tables, clock: nat, t: Tx): Tx {
    if SwipeAllowed(db, t.actor, t.target)
    then t.(stage := Inserted, own := t.own.(swipes := t.own.swipes[(t.actor, t.target) := t.action]))
    else End(t, Aborted, clock)
  }

  function DoRead(db: Tables, clock: nat, t: Tx): Tx {
    t.(stage := Read, saw := Likes(Merge(db, t.own).swipes, t.target, t.actor), readAt := clock)
  }

  ghost function DoUpsertMatch(db: Tables, t: Tx, newId: Id): Tx {
    var seen := Merge(db, t.own);
    if HasMatch(seen.matches, t.actor, t.target) then
      var m :| IsMatchOf(seen.matches, m, t.actor, t.target);
      t.(stage := Matched, matchId := m, conflicted := true)
    else
      var row := Match(Low(t.actor, t.target), High(t.actor, t.target), t.now);
      t.(stage := Matched, matchId := newId, own := t.own.(matches := t.own.matches[newId := row]))
  }

  ghost function DoUpsertConversation(db: Tables, t: Tx, newId: Id): Tx {
    var seen := Merge(db, t.own);
    if HasConversation(seen.conversations, t.matchId) then
      var c :| IsConversationOf(seen.conversations, c, t.matchId);
      t.(stage := Conversed, conversationId := c, conflicted := true)
    else
      var row := Conversation(t.matchId, t.now);
      t.(stage := Conversed, conversationId := newId, own := t.own.(conversations := t.own.conversations[newId := row]))
  }

  function DoAddMember(db: Tables, t: Tx): Tx {
    var member := if t.stage == Conversed then t.actor else t.target;
    var next := if t.stage == Conversed then ActorAdded else TargetAdded;
    if (t.conversationId, member) in Merge(db, t.own).members then t.(stage := next, conflicted := true)
    else t.(stage := next, own := t.own.(members := t.own.members + {(t.conversationId, member)}))
  }

  function End(t: Tx, status: Status, clock: nat): Tx {
    t.(status := status, own := NO_ROWS, endedAt := clock)
  }

  function Start(e: Event, clock: nat): Tx
    requires e.Begin?
  {
    Tx(e.actor, e.target, e.action, e.now, Running, Begun, NO_ROWS, false, 0, 0, false, clock, 0, 0)
  }

  /** The transaction of event `e` after it. */
  ghost function Advance(s: State, e: Event): Tx
    requires Enabled(s, e)
  {
    match e
    case Begin(_, _, _, _, _) => Start(e, s.clock)
    case InsertSwipe(id) => DoInsertSwipe(s.db, s.clock, s.txs[id])
    case ReadReciprocal(id) => DoRead(s.db, s.clock, s.txs[id])
    case UpsertMatch(id, newId) => DoUpsertMatch(s.db, s.txs[id], newId)
    case UpsertConversation(id, newId) => DoUpsertConversation(s.db, s.txs[id], newId)
    case AddMember(id) => DoAddMember(s.db, s.txs[id])
    case Commit(id) => End(s.txs[id], Committed, s.clock)
    case Abort(id) => End(s.txs[id], Aborted, s.clock)
  }

  ghost function Step(s: State, e: Event): State {
    if !Enabled(s, e) then s
    else
      State(if e.Commit? then Merge(s.db, s.txs[e.id].own) else s.db, s.txs[e.id := Advance(s, e)], s.clock + 1)
  }

  ghost function After(users: set<Id>, run: seq<Event>): State {
    if run == [] then Init(users) else Step(After(users, run[..|run| - 1]), run[|run| - 1])
  }

  // ---------- The invariant ----------

  /** What one transaction's private rows are at each stage, and what the committed tables
      say of it. */
  ghost predicate TxOk(db: Tables, clock: nat, t: Tx) {
    && t.begunAt < clock && !t.conflicted
    && (t.status != Running ==> t.own == NO_ROWS)
    && (!HasRead(t) ==> !t.saw)
    && (HasRead(t) ==> t.action == Like && t.begunAt < t.readAt < clock)
    && (HasMatched(t) ==> t.saw)
    && (t.saw ==> Likes(db.swipes, t.target, t.actor) && t.actor != t.target)
    && (t.status == Running ==> RunningOk(db, t))
    && (t.status == Committed ==> CommittedOk(db, clock, t))
  }

  ghost predicate RunningOk(db: Tables, t: Tx) {
    var low, high := Low(t.actor, t.target), High(t.actor, t.target);
    && t.own.users == {}
    && t.own.swipes == (if HasInserted(t) then map[(t.actor, t.target) := t.action] else map[])
    && (HasInserted(t) ==> SwipeAllowed(db, t.actor, t.target))
    && t.own.matches == (if HasMatched(t) then map[t.matchId := Match(low, high, t.now)] else map[])
    && (HasMatched(t) ==> t.matchId !in db.matches)
    && t.own.conversations ==
       (if HasConversed(t) then map[t.conversationId := Conversation(t.matchId, t.now)] else map[])
    && (HasConversed(t) ==> t.conversationId !in db.conversations)
    && t.own.members ==
       (if t.stage == ActorAdded then {(t.conversationId, t.actor)}
        else if t.stage == TargetAdded then {(t.conversationId, t.actor), (t.conversationId, t.target)}
        else {})
  }

  ghost predicate CommittedOk(db: Tables, clock: nat, t: Tx) {
    && (t.actor, t.target) in db.swipes && db.swipes[(t.actor, t.target)] == t.action
    && t.begunAt < t.endedAt < clock
    && (t.action == Like ==> HasRead(t) && t.readAt < t.endedAt)
    && (t.saw ==> IsMatchOf(db.matches, t.matchId, t.actor, t.target))
    && (t.saw ==> IsConversationOf(db.conversations, t.conversationId, t.matchId))
  }

  /** What keeps two different transactions apart. */
  ghost predicate Apart(t: Tx, u: Tx) {
    && (t.status == Running && u.status == Running && HasInserted(t) && HasInserted(u)
        ==> !Swiped(u, t.actor, t.target))
    && (t.status == Committed && u.status == Committed ==> !Swiped(u, t.actor, t.target))
    && (t.status != Aborted && u.status != Aborted && t.saw && u.saw ==> !SamePair(t, u))
    && (t.status == Running && u.status == Running && HasMatched(t) && HasMatched(u) ==> t.matchId != u.matchId)
    && (t.status == Running && u.status == Running && HasConversed(t) && HasConversed(u)
        ==> t.conversationId != u.conversationId)
    && (t.status == Committed && HasRead(u) ==> t.endedAt != u.readAt)
  }

  /** The committed transaction `t` is the like of `actor` for `target`. */
  predicate CommittedLike(t: Tx, actor: Id, target: Id) {
    t.status == Committed && t.action == Like && Swiped(t, actor, target)
  }

  predicate CommittedSwipe(s: State, i: nat, k: (Id, Id)) {
    i in s.txs && s.txs[i].status == Committed && Swiped(s.txs[i], k.0, k.1)
  }

  predicate Winner(s: State, i: nat, m: Id) {
    i in s.txs && Won(s.txs[i]) && s.txs[i].matchId == m
  }

  /** Transaction `i` committed the like that `t` looked for before `t` looked. */
  predicate SeenBy(s: State, i: nat, t: Tx) {
    i in s.txs && CommittedLike(s.txs[i], t.target, t.actor) && s.txs[i].endedAt < t.readAt
  }

  ghost predicate TxsOk(s: State) {
    forall i | i in s.txs :: TxOk(s.db, s.clock, s.txs[i])
  }

  ghost predicate AllApart(s: State) {
    forall i, j | i in s.txs && j in s.txs && i != j :: Apart(s.txs[i], s.txs[j])
  }

  /** Every committed row has the transaction it came from. */
  ghost predicate Sourced(s: State) {
    && (forall k | k in s.db.swipes :: exists i :: CommittedSwipe(s, i, k))
    && (forall m | m in s.db.matches :: exists i :: Winner(s, i, m))
  }

  /** A reciprocal read is true exactly when the other like was committed before it. */
  ghost predicate ReadsExact(s: State) {
    forall i | i in s.txs && HasRead(s.txs[i]) :: s.txs[i].saw <==> exists j :: SeenBy(s, j, s.txs[i])
  }

  ghost predicate Inv(s: State) {
    TxsOk(s) && AllApart(s) && Sourced(s) && ReadsExact(s) && Consistent(s.db)
  }

  // ---------- Every step keeps it ----------

  lemma WinnerElsewhere(db: Tables, clock: nat, t: Tx, u: Tx)
    requires TxOk(db, clock, u) && Won(u) && Apart(u, t) && t.status == Running && t.saw
    ensures !IsMatchOf(db.matches, u.matchId, t.actor, t.target)
  {
  }

  /** No committed match stands for a pair on which a running transaction has `saw`. */
  lemma NoMatchYet(s: State, id: nat)
    requires TxsOk(s) && AllApart(s) && Sourced(s)
    requires id in s.txs && s.txs[id].status == Running && s.txs[id].saw
    ensures !HasMatch(s.db.matches, s.txs[id].actor, s.txs[id].target)
  {
    var t := s.txs[id];
    forall m | m in s.db.matches ensures !IsMatchOf(s.db.matches, m, t.actor, t.target) {
      var i :| Winner(s, i, m);
      WinnerElsewhere(s.db, s.clock, t, s.txs[i]);
    }
  }

  /** Two transactions on one pair cannot both see the other's like. */
  lemma OnlyOneSees(db: Tables, clock: nat, t: Tx, u: Tx)
    requires TxOk(db, clock, t) && TxOk(db, clock, u) && Apart(t, u)
    requires t.status == Running && t.stage == Inserted && Likes(db.swipes, t.target, t.actor)
    requires u.status != Aborted && u.saw
    ensures !SamePair(t, u)
  {
    if Swiped(u, t.actor, t.target) {
    } else if Swiped(u, t.target, t.actor) {
    }
  }

  lemma InsertOk(db: Tables, clock: nat, t: Tx)
    requires TxOk(db, clock, t) && t.status == Running && t.stage == Begun
    ensures TxOk(db, clock + 1, DoInsertSwipe(db, clock, t))
  {
  }

  lemma ReadOk(db: Tables, clock: nat, t: Tx)
    requires TxOk(db, clock, t) && t.status == Running && t.stage == Inserted && t.action == Like
    ensures TxOk(db, clock + 1, DoRead(db, clock, t))
    ensures DoRead(db, clock, t).saw == Likes(db.swipes, t.target, t.actor)
  {
  }

  lemma UpsertMatchOk(db: Tables, clock: nat, t: Tx, newId: Id)
    requires TxOk(db, clock, t) && t.status == Running && t.stage == Read && t.saw
    requires newId !in db.matches && !HasMatch(db.matches, t.actor, t.target)
    ensures TxOk(db, clock + 1, DoUpsertMatch(db, t, newId))
    ensures DoUpsertMatch(db, t, newId).matchId == newId
  {
    var seen := Merge(db, t.own);
    assert seen.matches == db.matches;
    forall m ensures !IsMatchOf(seen.matches, m, t.actor, t.target) {
      assert !IsMatchOf(db.matches, m, t.actor, t.target);
    }
  }

  lemma NoConversationYet(db: Tables, m: Id)
    requires ConversationsOk(db.matches, db.conversations, db.members) && m !in db.matches
    ensures !HasConversation(db.conversations, m)
  {
  }

  lemma UpsertConversationOk(db: Tables, clock: nat, t: Tx, newId: Id)
    requires TxOk(db, clock, t) && t.status == Running && t.stage == Matched
    requires newId !in db.conversations && !HasConversation(db.conversations, t.matchId)
    ensures TxOk(db, clock + 1, DoUpsertConversation(db, t, newId))
    ensures DoUpsertConversation(db, t, newId).conversationId == newId
  {
    assert Merge(db, t.own).conversations == db.conversations;
  }

  lemma AddMemberOk(db: Tables, clock: nat, t: Tx)
    requires TxOk(db, clock, t) && t.status == Running && (t.stage == Conversed || t.stage == ActorAdded)
    requires forall p | p in db.members :: p.0 in db.conversations
    ensures TxOk(db, clock + 1, DoAddMember(db, t))
  {
    AddMemberIs(db, clock, t);
  }

  /** The member is new to the conversation, which is the transaction's own. */
  lemma AddMemberIs(db: Tables, clock: nat, t: Tx)
    requires TxOk(db, clock, t) && t.status == Running && (t.stage == Conversed || t.stage == ActorAdded)
    requires forall p | p in db.members :: p.0 in db.conversations
    ensures var member := if t.stage == Conversed then t.actor else t.target;
            DoAddMember(db, t) == t.(stage := if t.stage == Conversed then ActorAdded else TargetAdded,
                                     own := t.own.(members := t.own.members + {(t.conversationId, member)}))
  {
    assert forall u :: (t.conversationId, u) !in db.members;
  }

  /** The rows that event `e` is about to upsert are not there yet, and no conversation has
      members before it exists. */
  ghost predicate RowsFree(s: State, e: Event)
    requires Enabled(s, e)
  {
    && (e.UpsertMatch? ==> !HasMatch(s.db.matches, s.txs[e.id].actor, s.txs[e.id].target))
    && (e.UpsertConversation? ==> !HasConversation(s.db.conversations, s.txs[e.id].matchId))
    && (forall p | p in s.db.members :: p.0 in s.db.conversations)
  }

  lemma FreeConversation(s: State, id: nat)
    requires TxsOk(s) && ConversationsOk(s.db.matches, s.db.conversations, s.db.members)
    requires id in s.txs && s.txs[id].status == Running && s.txs[id].stage == Matched
    ensures !HasConversation(s.db.conversations, s.txs[id].matchId)
  {
    assert TxOk(s.db, s.clock, s.txs[id]);
    NoConversationYet(s.db, s.txs[id].matchId);
  }

  lemma MembersKnown(db: Tables)
    requires ConversationsOk(db.matches, db.conversations, db.members)
    ensures forall p | p in db.members :: p.0 in db.conversations
  {
  }

  lemma AlwaysFree(s: State, e: Event)
    requires Inv(s) && Enabled(s, e)
    ensures RowsFree(s, e)
  {
    MembersKnown(s.db);
    if e.UpsertMatch? {
      NoMatchYet(s, e.id);
    } else if e.UpsertConversation? {
      FreeConversation(s, e.id);
    }
  }

  /** The upserts insert: their ON CONFLICT branches are not taken. */
  ghost predicate Inserts(s: State, e: Event)
    requires Enabled(s, e)
  {
    && (e.UpsertMatch? ==> Advance(s, e).matchId == e.newId)
    && (e.UpsertConversation? ==> Advance(s, e).conversationId == e.newId)
  }

  lemma AdvanceOk(s: State, e: Event)
    requires Enabled(s, e) && !e.Commit? && RowsFree(s, e)
    requires !e.Begin? ==> TxOk(s.db, s.clock, s.txs[e.id])
    ensures TxOk(s.db, s.clock + 1, Advance(s, e)) && Inserts(s, e)
  {
    if !e.Begin? {
      var t := s.txs[e.id];
      match e
      case InsertSwipe(_) => InsertOk(s.db, s.clock, t);
      case ReadReciprocal(_) => ReadOk(s.db, s.clock, t);
      case UpsertMatch(_, newId) => UpsertMatchOk(s.db, s.clock, t, newId);
      case UpsertConversation(_, newId) => UpsertConversationOk(s.db, s.clock, t, newId);
      case AddMember(_) => AddMemberOk(s.db, s.clock, t);
      case Abort(_) =>
    }
  }

  lemma InsertApart(db: Tables, clock: nat, t: Tx, u: Tx)
    requires TxOk(db, clock, t) && TxOk(db, clock, u) && Apart(t, u) && Apart(u, t)
    requires t.status == Running && t.stage == Begun
    requires u.status == Running ==> (t.actor, t.target) !in u.own.swipes
    ensures var t' := DoInsertSwipe(db, clock, t); Apart(t', u) && Apart(u, t')
  {
  }

  lemma ReadApart(db: Tables, clock: nat, t: Tx, u: Tx)
    requires TxOk(db, clock, t) && TxOk(db, clock, u) && Apart(t, u) && Apart(u, t)
    requires t.status == Running && t.stage == Inserted && t.action == Like
    ensures var t' := DoRead(db, clock, t); Apart(t', u) && Apart(u, t')
  {
    ReadOk(db, clock, t);
    if u.status != Aborted && u.saw && Likes(db.swipes, t.target, t.actor) { OnlyOneSees(db, clock, t, u); }
  }

  lemma UpsertMatchApart(db: Tables, clock: nat, t: Tx, u: Tx, newId: Id)
    requires TxOk(db, clock, u) && Apart(t, u) && Apart(u, t)
    requires t.status == Running && t.stage == Read && t.saw && newId !in u.own.matches
    requires DoUpsertMatch(db, t, newId).matchId == newId
    ensures var t' := DoUpsertMatch(db, t, newId); Apart(t', u) && Apart(u, t')
  {
  }

  lemma UpsertConversationApart(db: Tables, clock: nat, t: Tx, u: Tx, newId: Id)
    requires TxOk(db, clock, u) && Apart(t, u) && Apart(u, t)
    requires t.status == Running && t.stage == Matched && newId !in u.own.conversations
    requires DoUpsertConversation(db, t, newId).conversationId == newId
    ensures var t' := DoUpsertConversation(db, t, newId); Apart(t', u) && Apart(u, t')
  {
  }

  lemma AddMemberApart(db: Tables, t: Tx, u: Tx)
    requires Apart(t, u) && Apart(u, t) && t.status == Running && (t.stage == Conversed || t.stage == ActorAdded)
    ensures var t' := DoAddMember(db, t); Apart(t', u) && Apart(u, t')
  {
  }

  lemma AdvanceApart(s: State, e: Event, j: nat)
    requires Enabled(s, e) && !e.Commit? && !e.Begin? && j in s.txs && j != e.id
    requires TxOk(s.db, s.clock, s.txs[e.id]) && TxOk(s.db, s.clock, s.txs[j])
    requires Apart(s.txs[e.id], s.txs[j]) && Apart(s.txs[j], s.txs[e.id])
    requires e.UpsertMatch? ==> Advance(s, e).matchId == e.newId
    requires e.UpsertConversation? ==> Advance(s, e).conversationId == e.newId
    ensures Apart(Advance(s, e), s.txs[j]) && Apart(s.txs[j], Advance(s, e))
  {
    var t, u := s.txs[e.id], s.txs[j];
    match e
    case InsertSwipe(_) => InsertApart(s.db, s.clock, t, u);
    case ReadReciprocal(_) => ReadApart(s.db, s.clock, t, u);
    case UpsertMatch(_, newId) => UpsertMatchApart(s.db, s.clock, t, u, newId);
    case UpsertConversation(_, newId) => UpsertConversationApart(s.db, s.clock, t, u, newId);
    case AddMember(_) => AddMemberApart(s.db, t, u);
    case Abort(_) =>
  }

  /** In every state that satisfies the invariant. */
  lemma UpsertsInsert(s: State, e: Event)
    requires Inv(s) && Enabled(s, e)
    ensures e.UpsertMatch? ==> Advance(s, e).matchId == e.newId
    ensures e.UpsertConversation? ==> Advance(s, e).conversationId == e.newId
  {
    if e.UpsertMatch? || e.UpsertConversation? {
      AlwaysFree(s, e);
      AdvanceOk(s, e);
    }
  }

  lemma AdvanceAllApart(s: State, e: Event)
    requires TxsOk(s) && AllApart(s) && Enabled(s, e) && !e.Commit? && Inserts(s, e)
    ensures AllApart(Step(s, e))
  {
    var s' := Step(s, e);
    forall i, j | i in s'.txs && j in s'.txs && i != j ensures Apart(s'.txs[i], s'.txs[j]) {
      if !e.Begin? {
        if i == e.id { AdvanceApart(s, e, j); } else if j == e.id { AdvanceApart(s, e, i); }
      }
    }
  }

  lemma AdvanceSourced(s: State, e: Event)
    requires Sourced(s) && Enabled(s, e) && !e.Commit?
    ensures Sourced(Step(s, e))
  {
    var s' := Step(s, e);
    forall k | k in s'.db.swipes ensures exists i :: CommittedSwipe(s', i, k) {
      var i :| CommittedSwipe(s, i, k);
      assert CommittedSwipe(s', i, k);
    }
    forall m | m in s'.db.matches ensures exists i :: Winner(s', i, m) {
      var i :| Winner(s, i, m);
      assert Winner(s', i, m);
    }
  }

  /** The read that event `e` makes sees the like of an earlier commit, or there is none. */
  lemma NewReadExact(s: State, e: Event)
    requires TxsOk(s) && Sourced(s) && Enabled(s, e) && e.ReadReciprocal?
    ensures var t := Advance(s, e); t.saw <==> exists j :: SeenBy(s, j, t)
  {
    var t := s.txs[e.id];
    var t' := Advance(s, e);
    ReadOk(s.db, s.clock, t);
    if t'.saw {
      var j :| CommittedSwipe(s, j, (t.target, t.actor));
      assert TxOk(s.db, s.clock, s.txs[j]);
      assert SeenBy(s, j, t');
    }
    forall j | SeenBy(s, j, t') ensures t'.saw {
      assert TxOk(s.db, s.clock, s.txs[j]);
    }
  }

  /** Nothing but a commit changes who has seen what, and nothing but a read what was seen. */
  lemma AdvanceFrame(s: State, e: Event)
    requires Enabled(s, e) && !e.Commit?
    ensures forall j, t :: SeenBy(Step(s, e), j, t) <==> SeenBy(s, j, t)
    ensures !e.Begin? && !e.ReadReciprocal? ==>
              var t, t' := s.txs[e.id], Advance(s, e);
              && (HasRead(t') ==> HasRead(t) && t'.saw == t.saw)
              && (forall j :: SeenBy(s, j, t') <==> SeenBy(s, j, t))
  {
    if !e.Begin? { assert Advance(s, e).status != Committed; }
  }

  lemma AdvanceReads(s: State, e: Event)
    requires TxsOk(s) && Sourced(s) && ReadsExact(s) && Enabled(s, e) && !e.Commit?
    ensures ReadsExact(Step(s, e))
  {
    var s' := Step(s, e);
    AdvanceFrame(s, e);
    if e.ReadReciprocal? { NewReadExact(s, e); }
  }

  lemma AdvanceTxs(s: State, e: Event)
    requires TxsOk(s) && AllApart(s) && Enabled(s, e) && !e.Commit? && RowsFree(s, e)
    ensures TxsOk(Step(s, e)) && AllApart(Step(s, e))
  {
    var s' := Step(s, e);
    AdvanceOk(s, e);
    forall i | i in s'.txs ensures TxOk(s'.db, s'.clock, s'.txs[i]) {
      assert i != e.id ==> TxOk(s.db, s.clock, s.txs[i]);
    }
    AdvanceAllApart(s, e);
  }

  lemma AdvanceKeeps(s: State, e: Event)
    requires Inv(s) && Enabled(s, e) && !e.Commit?
    ensures Inv(Step(s, e))
  {
    AlwaysFree(s, e);
    AdvanceTxs(s, e);
    AdvanceSourced(s, e);
    AdvanceReads(s, e);
  }

  // ---------- Commits ----------

  /** The committed tables after `t` commits. */
  function Committing(db: Tables, t: Tx): Tables {
    var swiped := WithSwipe(db, t.actor, t.target, t.action);
    if t.saw then WithMatch(swiped, t.matchId, t.conversationId, t.actor, t.target, t.now) else swiped
  }

  lemma CommitIs(db: Tables, clock: nat, t: Tx)
    requires TxOk(db, clock, t) && t.status == Running && AtCommit(t)
    ensures Merge(db, t.own) == Committing(db, t)
    ensures Grows(db, Committing(db, t))
  {
    CommitRows(db, t);
    CommitGrows(db, t);
  }

  lemma CommitGrows(db: Tables, t: Tx)
    requires RunningOk(db, t) && HasInserted(t) && (t.saw ==> t.stage == TargetAdded)
    ensures Grows(db, Committing(db, t))
  {
  }

  lemma CommitRows(db: Tables, t: Tx)
    requires RunningOk(db, t) && HasInserted(t) && (t.saw ==> t.stage == TargetAdded) && (!t.saw ==> !HasMatched(t))
    ensures Merge(db, t.own) == Committing(db, t)
  {
    if t.saw { CommitMatch(db, t); } else { CommitSwipe(db, t); }
  }

  lemma CommitSwipe(db: Tables, t: Tx)
    requires t.own == NO_ROWS.(swipes := map[(t.actor, t.target) := t.action])
    ensures Merge(db, t.own) == WithSwipe(db, t.actor, t.target, t.action)
  {
    var db' := Merge(db, t.own);
    assert db'.users == db.users && db'.swipes == db.swipes[(t.actor, t.target) := t.action];
    assert db'.matches == db.matches && db'.conversations == db.conversations && db'.members == db.members;
  }

  lemma CommitMatch(db: Tables, t: Tx)
    requires RunningOk(db, t) && t.stage == TargetAdded && t.saw
    ensures Merge(db, t.own) == Committing(db, t)
  {
    PlusOne(db.swipes, (t.actor, t.target), t.action);
    PlusOne(db.matches, t.matchId, Match(Low(t.actor, t.target), High(t.actor, t.target), t.now));
    PlusOne(db.conversations, t.conversationId, Conversation(t.matchId, t.now));
    assert db.users + {} == db.users;
  }

  lemma PlusOne<K, V>(m: map<K, V>, k: K, v: V)
    ensures m + map[k := v] == m[k := v]
  {
  }

  lemma CommitConsistent(s: State, id: nat)
    requires Inv(s) && Enabled(s, Commit(id))
    ensures Consistent(Merge(s.db, s.txs[id].own))
  {
    var t := s.txs[id];
    assert TxOk(s.db, s.clock, t);
    CommitIs(s.db, s.clock, t);
    WithSwipeConsistent(s.db, t.actor, t.target, t.action);
    if t.saw {
      NoMatchYet(s, id);
      var swiped := WithSwipe(s.db, t.actor, t.target, t.action);
      WithMatchConsistent(swiped, t.matchId, t.conversationId, t.actor, t.target, t.now);
    }
  }

  lemma CommitSelfOk(db: Tables, clock: nat, t: Tx)
    requires TxOk(db, clock, t) && t.status == Running && AtCommit(t)
    ensures TxOk(Merge(db, t.own), clock + 1, End(t, Committed, clock))
  {
    CommitIs(db, clock, t);
  }

  lemma CommitOthersOk(db: Tables, clock: nat, t: Tx, u: Tx)
    requires TxOk(db, clock, t) && TxOk(db, clock, u) && Apart(t, u)
    requires t.status == Running && AtCommit(t)
    ensures TxOk(Merge(db, t.own), clock + 1, u)
  {
    CommitIs(db, clock, t);
  }

  lemma CommitApart(db: Tables, clock: nat, t: Tx, u: Tx)
    requires TxOk(db, clock, t) && TxOk(db, clock, u) && Apart(t, u) && Apart(u, t)
    requires t.status == Running && AtCommit(t)
    ensures var t' := End(t, Committed, clock); Apart(t', u) && Apart(u, t')
  {
  }

  lemma CommitSourcesSwipes(s: State, id: nat)
    requires Sourced(s) && Enabled(s, Commit(id))
    requires Merge(s.db, s.txs[id].own) == Committing(s.db, s.txs[id])
    ensures var s' := Step(s, Commit(id)); forall k | k in s'.db.swipes :: exists i :: CommittedSwipe(s', i, k)
  {
    var t, s' := s.txs[id], Step(s, Commit(id));
    forall k | k in s'.db.swipes ensures exists i :: CommittedSwipe(s', i, k) {
      if k == (t.actor, t.target) {
        assert CommittedSwipe(s', id, k);
      } else {
        var i :| CommittedSwipe(s, i, k);
        assert CommittedSwipe(s', i, k);
      }
    }
  }

  lemma CommitSourcesMatches(s: State, id: nat)
    requires Sourced(s) && Enabled(s, Commit(id))
    requires Merge(s.db, s.txs[id].own) == Committing(s.db, s.txs[id])
    ensures var s' := Step(s, Commit(id)); forall m | m in s'.db.matches :: exists i :: Winner(s', i, m)
  {
    var t, s' := s.txs[id], Step(s, Commit(id));
    forall m | m in s'.db.matches ensures exists i :: Winner(s', i, m) {
      if t.saw && m == t.matchId {
        assert Winner(s', id, m);
      } else {
        var i :| Winner(s, i, m);
        assert Winner(s', i, m);
      }
    }
  }

  lemma CommitSourced(s: State, id: nat)
    requires Sourced(s) && Enabled(s, Commit(id))
    requires Merge(s.db, s.txs[id].own) == Committing(s.db, s.txs[id])
    ensures Sourced(Step(s, Commit(id)))
  {
    CommitSourcesSwipes(s, id);
    CommitSourcesMatches(s, id);
  }

  /** A commit comes after a read made before it. */
  lemma CommitSeen(s: State, id: nat, t: Tx)
    requires Enabled(s, Commit(id)) && t.readAt < s.clock
    ensures forall j :: SeenBy(Step(s, Commit(id)), j, t) <==> SeenBy(s, j, t)
  {
  }

  /** A commit comes after every read made so far, so it changes what none of them saw. */
  lemma CommitReads(s: State, id: nat)
    requires TxsOk(s) && ReadsExact(s) && Enabled(s, Commit(id))
    ensures ReadsExact(Step(s, Commit(id)))
  {
    var s' := Step(s, Commit(id));
    forall i | i in s'.txs && HasRead(s'.txs[i])
      ensures s'.txs[i].saw <==> exists j :: SeenBy(s', j, s'.txs[i])
    {
      assert TxOk(s.db, s.clock, s.txs[i]);
      CommitSeen(s, id, s.txs[i]);
      assert forall j :: SeenBy(s', j, s'.txs[i]) <==> SeenBy(s', j, s.txs[i]);
    }
  }

  lemma CommitTxsOk(s: State, id: nat)
    requires TxsOk(s) && AllApart(s) && Enabled(s, Commit(id))
    ensures TxsOk(Step(s, Commit(id)))
  {
    var t, s' := s.txs[id], Step(s, Commit(id));
    forall i | i in s'.txs ensures TxOk(s'.db, s'.clock, s'.txs[i]) {
      if i == id { CommitSelfOk(s.db, s.clock, t); } else { CommitOthersOk(s.db, s.clock, t, s.txs[i]); }
    }
  }

  lemma CommitAllApart(s: State, id: nat)
    requires TxsOk(s) && AllApart(s) && Enabled(s, Commit(id))
    ensures AllApart(Step(s, Commit(id)))
  {
    var t, s' := s.txs[id], Step(s, Commit(id));
    forall i, j | i in s'.txs && j in s'.txs && i != j ensures Apart(s'.txs[i], s'.txs[j]) {
      if i == id {
        CommitApart(s.db, s.clock, t, s.txs[j]);
      } else if j == id {
        CommitApart(s.db, s.clock, t, s.txs[i]);
      }
    }
  }

  lemma StepKeeps(s: State, e: Event)
    requires Inv(s)
    ensures Inv(Step(s, e))
  {
    if Enabled(s, e) {
      if e.Commit? {
        CommitTxsOk(s, e.id);
        CommitAllApart(s, e.id);
        CommitIs(s.db, s.clock, s.txs[e.id]);
        CommitSourced(s, e.id);
        CommitReads(s, e.id);
        CommitConsistent(s, e.id);
      } else {
        AdvanceKeeps(s, e);
      }
    }
  }

  // ---------- What holds in every interleaving ----------

  lemma {:induction false} RunKeeps(users: set<Id>, run: seq<Event>)
    ensures Inv(After(users, run))
  {
    if run == [] {
    } else {
      var most, e := run[..|run| - 1], run[|run| - 1];
      RunKeeps(users, most);
      StepKeeps(After(users, most), e);
    }
  }

  /** Every committed state satisfies what the tables are for. */
  lemma AlwaysConsistent(users: set<Id>, run: seq<Event>)
    ensures Consistent(After(users, run).db)
  {
    RunKeeps(users, run);
  }

  /** At most one call per unordered pair ever returns `matched == true`. */
  lemma AtMostOneWinner(users: set<Id>, run: seq<Event>, i: nat, j: nat)
    requires var s := After(users, run); i in s.txs && j in s.txs && Won(s.txs[i]) && Won(s.txs[j])
    requires var s := After(users, run); SamePair(s.txs[i], s.txs[j])
    ensures i == j
  {
    var s := After(users, run);
    assert AllApart(s) by { RunKeeps(users, run); }
    assert i != j ==> Apart(s.txs[i], s.txs[j]);
  }

  /** No upsert of a match, a conversation or a member ever finds the row already there. */
  lemma NeverConflicts(users: set<Id>, run: seq<Event>, i: nat)
    requires i in After(users, run).txs
    ensures !After(users, run).txs[i].conflicted
  {
    RunKeeps(users, run);
    var s := After(users, run);
    assert TxOk(s.db, s.clock, s.txs[i]);
  }

  /** The ids that a winning call returns are those of its pair's match and conversation. */
  lemma WinnerReturnsItsRows(users: set<Id>, run: seq<Event>, i: nat)
    requires var s := After(users, run); i in s.txs && Won(s.txs[i])
    ensures var s := After(users, run); var t := s.txs[i];
            && IsMatchOf(s.db.matches, t.matchId, t.actor, t.target)
            && IsConversationOf(s.db.conversations, t.conversationId, t.matchId)
            && (forall u :: (t.conversationId, u) in s.db.members <==> u == t.actor || u == t.target)
  {
    RunKeeps(users, run);
    var s := After(users, run);
    var t := s.txs[i];
    assert TxOk(s.db, s.clock, t);
    assert MembersAre(s.db.members, t.conversationId, s.db.matches[t.matchId]);
  }

  lemma StepGrows(s: State, e: Event)
    requires TxsOk(s)
    ensures Grows(s.db, Step(s, e).db)
  {
    if Enabled(s, e) && e.Commit? {
      CommitIs(s.db, s.clock, s.txs[e.id]);
    }
  }

  lemma NextGrows(users: set<Id>, run: seq<Event>, e: Event)
    ensures Grows(After(users, run).db, After(users, run + [e]).db)
  {
    assert TxsOk(After(users, run)) by { RunKeeps(users, run); }
    StepGrows(After(users, run), e);
    assert (run + [e])[..|run|] == run;
  }

  /** A committed swipe, match, conversation or membership is never changed or removed. */
  lemma {:induction false} CommittedRowsStay(users: set<Id>, run: seq<Event>, more: seq<Event>)
    ensures Grows(After(users, run).db, After(users, run + more).db)
  {
    if more == [] {
      assert run + more == run;
    } else {
      var most, e := more[..|more| - 1], more[|more| - 1];
      assert run + more == run + most + [e];
      CommittedRowsStay(users, run, most);
      NextGrows(users, run + most, e);
      GrowsTransitive(After(users, run).db, After(users, run + most).db, After(users, run + most + [e]).db);
    }
  }

  // ---------- When mutual likes match ----------

  /** For two committed likes of one pair, there is a match unless each call looked for the
      other's like before the other committed it. */
  lemma MissedExactly(users: set<Id>, run: seq<Event>, i: nat, j: nat)
    requires var s := After(users, run); i in s.txs && j in s.txs
    requires var s := After(users, run); var t := s.txs[i];
             CommittedLike(t, t.actor, t.target) && CommittedLike(s.txs[j], t.target, t.actor)
    ensures var s := After(users, run); var t, u := s.txs[i], s.txs[j];
            HasMatch(s.db.matches, t.actor, t.target) <==> !(t.readAt < u.endedAt && u.readAt < t.endedAt)
  {
    RunKeeps(users, run);
    var s := After(users, run);
    var t, u := s.txs[i], s.txs[j];
    assert TxOk(s.db, s.clock, t) && TxOk(s.db, s.clock, u);
    MatchHasWinner(s, i, j);
    SawExactly(s, i, j);
    SawExactly(s, j, i);
    assert i != j && Apart(t, u) && Apart(u, t);
  }

  /** Of the only two committed likes of a pair, one saw the other or there is no match. */
  lemma MatchHasWinner(s: State, i: nat, j: nat)
    requires TxsOk(s) && AllApart(s) && Sourced(s) && i in s.txs && j in s.txs
    requires var t := s.txs[i]; CommittedLike(t, t.actor, t.target) && CommittedLike(s.txs[j], t.target, t.actor)
    ensures HasMatch(s.db.matches, s.txs[i].actor, s.txs[i].target) <==> s.txs[i].saw || s.txs[j].saw
  {
    var t, u := s.txs[i], s.txs[j];
    WinnerHasMatch(s.db, s.clock, t);
    WinnerHasMatch(s.db, s.clock, u);
    if HasMatch(s.db.matches, t.actor, t.target) {
      var m, k := MadeBy(s, t.actor, t.target);
      WinnerIsOneOf(s, i, j, k);
    }
  }

  lemma MadeBy(s: State, a: Id, b: Id) returns (m: Id, k: nat)
    requires TxsOk(s) && Sourced(s) && HasMatch(s.db.matches, a, b)
    ensures IsMatchOf(s.db.matches, m, a, b) && Winner(s, k, m) && TxOk(s.db, s.clock, s.txs[k])
  {
    m :| IsMatchOf(s.db.matches, m, a, b);
    k :| Winner(s, k, m);
  }

  lemma WinnerHasMatch(db: Tables, clock: nat, t: Tx)
    requires TxOk(db, clock, t)
    ensures Won(t) ==> HasMatch(db.matches, t.actor, t.target) && HasMatch(db.matches, t.target, t.actor)
  {
    if Won(t) { assert IsMatchOf(db.matches, t.matchId, t.target, t.actor); }
  }

  lemma WinnerIsOneOf(s: State, i: nat, j: nat, k: nat)
    requires i in s.txs && j in s.txs && k in s.txs && AllApart(s) && TxOk(s.db, s.clock, s.txs[k])
    requires var t := s.txs[i]; CommittedLike(t, t.actor, t.target) && CommittedLike(s.txs[j], t.target, t.actor)
    requires Won(s.txs[k]) && IsMatchOf(s.db.matches, s.txs[k].matchId, s.txs[i].actor, s.txs[i].target)
    ensures k == i || k == j
  {
    WinnerOfPair(s.db, s.clock, s.txs[i], s.txs[k]);
    assert k != i ==> Apart(s.txs[k], s.txs[i]);
    assert k != j ==> Apart(s.txs[k], s.txs[j]);
  }

  lemma WinnerOfPair(db: Tables, clock: nat, t: Tx, w: Tx)
    requires TxOk(db, clock, w) && Won(w) && IsMatchOf(db.matches, w.matchId, t.actor, t.target)
    ensures Swiped(w, t.actor, t.target) || Swiped(w, t.target, t.actor)
  {
  }

  /** Call `i` saw the like of call `j` exactly when `j` had committed it before. */
  lemma SawExactly(s: State, i: nat, j: nat)
    requires TxsOk(s) && AllApart(s) && ReadsExact(s) && i in s.txs && j in s.txs
    requires var t := s.txs[i]; CommittedLike(t, t.actor, t.target) && CommittedLike(s.txs[j], t.target, t.actor)
    ensures s.txs[i].saw <==> s.txs[j].endedAt < s.txs[i].readAt
  {
    var t := s.txs[i];
    assert TxOk(s.db, s.clock, t);
    assert s.txs[j].endedAt < t.readAt ==> SeenBy(s, j, t);
    forall k | SeenBy(s, k, t) ensures k == j {
      assert k != j ==> Apart(s.txs[k], s.txs[j]);
    }
  }

  /** No two committed calls overlap: each began after the other had committed. */
  ghost predicate Serial(s: State) {
    forall i, j | i in s.txs && j in s.txs && i != j &&
                  s.txs[i].status == Committed && s.txs[j].status == Committed ::
      s.txs[i].endedAt < s.txs[j].begunAt || s.txs[j].endedAt < s.txs[i].begunAt
  }

  /** When calls do not overlap, a match exists exactly when both likes do. */
  lemma SerialComplete(users: set<Id>, run: seq<Event>, a: Id, b: Id)
    requires Serial(After(users, run)) && a != b
    ensures var db := After(users, run).db;
            HasMatch(db.matches, a, b) <==> Likes(db.swipes, a, b) && Likes(db.swipes, b, a)
  {
    RunKeeps(users, run);
    var s := After(users, run);
    if Likes(s.db.swipes, a, b) && Likes(s.db.swipes, b, a) {
      var i :| CommittedSwipe(s, i, (a, b));
      var j :| CommittedSwipe(s, j, (b, a));
      assert TxOk(s.db, s.clock, s.txs[i]) && TxOk(s.db, s.clock, s.txs[j]);
      MissedExactly(users, run, i, j);
    }
  }

  /** Two overlapping calls in which each looks before the other commits. */
  function Overlap(): seq<Event> {
    [Begin(0, 1, 2, Like, 7), Begin(1, 2, 1, Like, 7), InsertSwipe(0), InsertSwipe(1),
     ReadReciprocal(0), ReadReciprocal(1), Commit(0), Commit(1)]
  }

  lemma {:induction false} AfterTwo(users: set<Id>, run: seq<Event>, e: Event, f: Event)
    ensures After(users, run + [e, f]) == Step(Step(After(users, run), e), f)
  {
    assert (run + [e, f])[..|run| + 1] == run + [e];
    assert (run + [e])[..|run|] == run;
  }

  /** The two calls of `Overlap`, both at `stage` and with only their own swipe written. */
  ghost predicate BothAt(s: State, stage: Stage) {
    && s.txs.Keys == {0, 1} && s.db == Empty({1, 2})
    && Swiped(s.txs[0], 1, 2) && Swiped(s.txs[1], 2, 1)
    && (forall i | i in s.txs ::
          var t := s.txs[i];
          && t.status == Running && t.stage == stage && t.action == Like && !t.saw
          && t.own == NO_ROWS.(swipes := if stage == Begun then map[] else map[(t.actor, t.target) := Like]))
  }

  lemma BothBegin()
    ensures BothAt(After({1, 2}, Overlap()[..2]), Begun)
  {
    assert Overlap()[..2] == [] + [Overlap()[0], Overlap()[1]];
    AfterTwo({1, 2}, [], Overlap()[0], Overlap()[1]);
  }

  lemma BothInsert(s: State)
    requires BothAt(s, Begun)
    ensures BothAt(Step(Step(s, InsertSwipe(0)), InsertSwipe(1)), Inserted)
  {
    var s1 := Step(s, InsertSwipe(0));
    assert !SwipeLocked(s, 0);
    assert s1.txs[0].own.swipes == map[(1, 2) := Like];
    assert !SwipeLocked(s1, 1);
  }

  /** A call that looks while the other's like is not committed does not see it. */
  lemma ReadsNothing(s: State, id: nat)
    requires id in s.txs && s.db == Empty({1, 2})
    requires var t := s.txs[id]; t.status == Running && t.stage == Inserted && t.action == Like
    requires var t := s.txs[id]; t.actor != t.target && t.own == NO_ROWS.(swipes := map[(t.actor, t.target) := Like])
    ensures Step(s, ReadReciprocal(id)) ==
            State(s.db, s.txs[id := s.txs[id].(stage := Read, saw := false, readAt := s.clock)], s.clock + 1)
  {
  }

  lemma BothRead(s: State)
    requires BothAt(s, Inserted)
    ensures BothAt(Step(Step(s, ReadReciprocal(0)), ReadReciprocal(1)), Read)
  {
    ReadsNothing(s, 0);
    ReadsNothing(Step(s, ReadReciprocal(0)), 1);
  }

  lemma BothCommit(s: State)
    requires BothAt(s, Read)
    ensures var db := Step(Step(s, Commit(0)), Commit(1)).db;
            Likes(db.swipes, 1, 2) && Likes(db.swipes, 2, 1) && !HasMatch(db.matches, 1, 2)
  {
  }

  lemma OverlapReads()
    ensures BothAt(After({1, 2}, Overlap()[..6]), Read)
  {
    var run, users := Overlap(), {1, 2};
    assert run[..4] == run[..2] + [run[2], run[3]] && run[..6] == run[..4] + [run[4], run[5]];
    BothBegin();
    AfterTwo(users, run[..2], run[2], run[3]);
    BothInsert(After(users, run[..2]));
    AfterTwo(users, run[..4], run[4], run[5]);
    BothRead(After(users, run[..4]));
  }

  /** Mutual likes need not match: after `Overlap` both likes are committed, with no match. */
  lemma OverlapMisses()
    ensures var db := After({1, 2}, Overlap()).db;
            Likes(db.swipes, 1, 2) && Likes(db.swipes, 2, 1) && !HasMatch(db.matches, 1, 2)
  {
    var run := Overlap();
    assert run == run[..6] + [run[6], run[7]];
    OverlapReads();
    AfterTwo({1, 2}, run[..6], run[6], run[7]);
    BothCommit(After({1, 2}, run[..6]));
  }
}
