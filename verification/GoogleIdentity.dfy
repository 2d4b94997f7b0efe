/** Google callbacks (`upsertGoogleUser`) and password registrations as concurrent
    transactions at READ COMMITTED.

    As in `SwipeProtocol`, an event is one statement of one transaction, and an event that
    cannot happen yet leaves the state as it is.  Emails are already in lower case. */
module GoogleIdentity {
  import opened Common

  datatype User = User(email: string, name: string)

  /** `users` by id, and the rows of `auth_identities` with provider 'google' by subject. */
  datatype Accounts = Accounts(users: map<Id, User>, links: map<string, Id>)

  datatype Profile = Profile(subject: string, email: string, name: string)

  datatype Status = Running | Committed | Aborted

  datatype Stage = Begun | Missing | Found | Upserted | Linked

  /** One call of `upsertGoogleUser`.  `own` are its uncommitted rows, `user` the user it
      will return; `created` and `made` say that its upsert and its link inserted a row. */
  datatype Tx = Tx(
    profile: Profile, status: Status, stage: Stage, own: Accounts,
    user: Id, created: bool, made: bool, lookedAt: nat, endedAt: nat)

  datatype State = State(db: Accounts, txs: map<nat, Tx>, clock: nat)

  datatype Event =
    | Begin(id: nat, profile: Profile)
    | Lookup(id: nat)
    | UpsertUser(id: nat, newId: Id)
    | Link(id: nat)
    | Commit(id: nat)
    | Abort(id: nat)
    | Register(newId: Id, email: string, name: string)

  const NO_ROWS := Accounts(map[], map[])

  function Merge(db: Accounts, own: Accounts): Accounts {
    Accounts(db.users + own.users, db.links + own.links)
  }

  predicate HasLooked(t: Tx) {
    t.stage != Begun
  }

  /** The transaction has gone through UpsertGoogleUserByEmail. */
  predicate HasUser(t: Tx) {
    t.stage == Upserted || t.stage == Linked
  }

  predicate IsUserOf(users: map<Id, User>, u: Id, email: string) {
    u in users && users[u].email == email
  }

  ghost predicate HasEmail(users: map<Id, User>, email: string) {
    exists u :: IsUserOf(users, u, email)
  }

  /** CHECK (position('@' in email) > 1). */
  predicate EmailOk(email: string) {
    email != "" && email[0] != '@' && '@' in email
  }

  lemma EmailOkExactly(email: string)
    ensures EmailOk(email) <==> exists local, domain :: local != "" && '@' !in local && email == local + "@" + domain
  {
    LocalPartEnds(email);
    var l := LocalPart(email);
    if EmailOk(email) {
      assert email == l + "@" + email[|l| + 1..];
    }
    forall local: string, domain: string | local != "" && '@' !in local && email == local + "@" + domain
      ensures EmailOk(email)
    {
      assert email[0] == local[0] && local[0] in local && email[|local|] == '@';
    }
  }

  /** The text before the first '@', or all of it. */
  function LocalPart(email: string): string {
    if email == "" || email[0] == '@' then "" else [email[0]] + LocalPart(email[1..])
  }

  function DisplayName(p: Profile): string {
    if p.name == "" then LocalPart(p.email) else p.name
  }

  lemma {:induction false} LocalPartEnds(email: string)
    ensures var l := LocalPart(email); l <= email && '@' !in l && (l == email || email[|l|] == '@')
  {
    if email != "" && email[0] != '@' { LocalPartEnds(email[1..]); }
  }

  /** The name is the one Google gave, or else the part of the email before its first '@'. */
  lemma DisplayNameIs(p: Profile, before: string, after: string)
    requires '@' !in before && p.email == before + "@" + after
    ensures DisplayName(p) == if p.name == "" then before else p.name
  {
    LocalPartEnds(p.email);
    var l := LocalPart(p.email);
    assert p.email[|before|] == '@' && p.email[..|before|] == before && p.email[..|l|] == l;
    forall k | 0 <= k < |before| ensures p.email[k] != '@' { assert p.email[k] == before[k] && before[k] in before; }
    forall k | 0 <= k < |l| ensures p.email[k] != '@' { assert p.email[k] == l[k] && l[k] in l; }
  }

  /** Another running transaction has inserted a row that this insert would collide with. */
  ghost predicate EmailLocked(s: State, email: string) {
    exists j, u :: j in s.txs && s.txs[j].status == Running && IsUserOf(s.txs[j].own.users, u, email)
  }

  predicate SubjectLocked(s: State, subject: string) {
    exists j | j in s.txs :: s.txs[j].status == Running && subject in s.txs[j].own.links
  }

  ghost predicate FreshUser(s: State, u: Id) {
    u !in s.db.users && forall j | j in s.txs :: u !in s.txs[j].own.users
  }

  ghost predicate Enabled(s: State, e: Event) {
    match e
    case Begin(id, _) => id !in s.txs
    case Register(newId, email, name) => FreshUser(s, newId) && !EmailLocked(s, email) && name != ""
    case _ =>
      && e.id in s.txs
      && s.txs[e.id].status == Running
      && var t := s.txs[e.id];
         match e
         case Lookup(_) => t.stage == Begun
         case UpsertUser(_, newId) => t.stage == Missing && FreshUser(s, newId) && !EmailLocked(s, t.profile.email)
         case Link(_) => t.stage == Upserted && !SubjectLocked(s, t.profile.subject)
         case Commit(_) => t.stage == Found || t.stage == Linked
         case _ => true
  }

  function End(t: Tx, status: Status, clock: nat): Tx {
    t.(status := status, own := NO_ROWS, endedAt := clock)
  }

  function DoLookup(db: Accounts, clock: nat, t: Tx): Tx {
    var seen, subject := Merge(db, t.own).links, t.profile.subject;
    if subject in seen then t.(stage := Found, user := seen[subject], lookedAt := clock)
    else t.(stage := Missing, lookedAt := clock)
  }

  ghost function DoUpsertUser(db: Accounts, clock: nat, t: Tx, newId: Id): Tx {
    var seen := Merge(db, t.own).users;
    if !EmailOk(t.profile.email) then End(t, Aborted, clock)
    else if HasEmail(seen, t.profile.email) then
      var u :| IsUserOf(seen, u, t.profile.email);
      t.(stage := Upserted, user := u)
    else
      var row := User(t.profile.email, DisplayName(t.profile));
      t.(stage := Upserted, user := newId, created := true, own := t.own.(users := t.own.users[newId := row]))
  }

  function DoLink(db: Accounts, t: Tx): Tx {
    var subject := t.profile.subject;
    if subject in Merge(db, t.own).links then t.(stage := Linked)
    else t.(stage := Linked, made := true, own := t.own.(links := t.own.links[subject := t.user]))
  }

  /** CreatePasswordUser; a taken or malformed email is refused. */
  ghost function DoRegister(db: Accounts, u: Id, email: string, name: string): Accounts {
    if EmailOk(email) && !HasEmail(db.users, email) then db.(users := db.users[u := User(email, name)]) else db
  }

  /** The transaction of event `e` after it. */
  ghost function Advance(s: State, e: Event): Tx
    requires Enabled(s, e) && !e.Register?
  {
    match e
    case Begin(_, p) => Tx(p, Running, Begun, NO_ROWS, 0, false, false, 0, 0)
    case Lookup(id) => DoLookup(s.db, s.clock, s.txs[id])
    case UpsertUser(id, newId) => DoUpsertUser(s.db, s.clock, s.txs[id], newId)
    case Link(id) => DoLink(s.db, s.txs[id])
    case Commit(id) => End(s.txs[id], Committed, s.clock)
    case Abort(id) => End(s.txs[id], Aborted, s.clock)
  }

  ghost function Step(s: State, e: Event): State {
    if !Enabled(s, e) then s
    else if e.Register? then State(DoRegister(s.db, e.newId, e.email, e.name), s.txs, s.clock + 1)
    else
      State(if e.Commit? then Merge(s.db, s.txs[e.id].own) else s.db, s.txs[e.id := Advance(s, e)], s.clock + 1)
  }

  ghost function After(run: seq<Event>): State {
    if run == [] then State(NO_ROWS, map[], 0) else Step(After(run[..|run| - 1]), run[|run| - 1])
  }

  // ---------- The invariant ----------

  /** UNIQUE (email). */
  ghost predicate EmailsUnique(users: map<Id, User>) {
    forall u, v | u in users && v in users && users[u].email == users[v].email :: u == v
  }

  ghost predicate AccountsOk(db: Accounts) {
    && EmailsUnique(db.users)
    && (forall u | u in db.users :: EmailOk(db.users[u].email) && db.users[u].name != "")
    && (forall x | x in db.links :: db.links[x] in db.users)
  }

  ghost predicate TxOk(db: Accounts, clock: nat, t: Tx) {
    && (t.status != Running ==> t.own == NO_ROWS)
    && (HasLooked(t) ==> t.lookedAt < clock)
    && (t.status == Committed ==> (t.stage == Found || t.stage == Linked) && t.lookedAt < t.endedAt < clock)
    && (t.created ==> HasUser(t))
    && (t.made ==> t.stage == Linked)
    && (t.stage == Found ==> t.profile.subject in db.links && db.links[t.profile.subject] == t.user)
    && (t.stage == Linked && !t.made ==> t.profile.subject in db.links)
    && (t.status == Running ==> RunningOk(db, t))
    && (t.status == Committed && t.made ==>
          t.profile.subject in db.links && db.links[t.profile.subject] == t.user)
    && (HasUser(t) && (t.status == Committed || !t.created) ==> IsUserOf(db.users, t.user, t.profile.email))
  }

  ghost predicate RunningOk(db: Accounts, t: Tx) {
    && t.own.users == (if t.created then map[t.user := User(t.profile.email, DisplayName(t.profile))] else map[])
    && t.own.links == (if t.made then map[t.profile.subject := t.user] else map[])
    && (t.created ==> t.user !in db.users && !HasEmail(db.users, t.profile.email) && EmailOk(t.profile.email))
    && (t.made ==> t.profile.subject !in db.links)
  }

  ghost predicate Apart(t: Tx, u: Tx) {
    && (t.status == Running && u.status == Running && t.created && u.created
        ==> t.user != u.user && t.profile.email != u.profile.email)
    && (t.status != Aborted && u.status != Aborted && t.made && u.made ==> t.profile.subject != u.profile.subject)
    && (t.status == Committed && HasLooked(u) ==> t.endedAt != u.lookedAt)
  }

  /** Call `i` inserted and committed the link of `subject`. */
  predicate Maker(s: State, i: nat, subject: string) {
    i in s.txs && s.txs[i].status == Committed && s.txs[i].made && s.txs[i].profile.subject == subject
  }

  /** Call `i` committed the link that `t` looked for before `t` looked. */
  predicate SeenBy(s: State, i: nat, t: Tx) {
    Maker(s, i, t.profile.subject) && s.txs[i].endedAt < t.lookedAt
  }

  ghost predicate TxsOk(s: State) {
    forall i | i in s.txs :: TxOk(s.db, s.clock, s.txs[i])
  }

  ghost predicate AllApart(s: State) {
    forall i, j | i in s.txs && j in s.txs && i != j :: Apart(s.txs[i], s.txs[j])
  }

  ghost predicate LinksSourced(s: State) {
    forall x | x in s.db.links :: exists i :: Maker(s, i, x)
  }

  predicate Returned(s: State, i: nat) {
    i in s.txs && s.txs[i].status == Committed
  }

  /** Call `i` committed the link of `t`'s subject no later than `t` ended. */
  predicate MadeBy(s: State, i: nat, t: Tx) {
    Maker(s, i, t.profile.subject) && s.txs[i].endedAt <= t.endedAt
  }

  ghost predicate LinkedInTime(s: State, i: nat) {
    Returned(s, i) ==> exists j :: MadeBy(s, j, s.txs[i])
  }

  ghost predicate InTime(s: State) {
    forall i :: LinkedInTime(s, i)
  }

  ghost predicate LookupsExact(s: State) {
    forall i | i in s.txs && HasLooked(s.txs[i]) :: s.txs[i].stage == Found <==> exists j :: SeenBy(s, j, s.txs[i])
  }

  ghost predicate Inv(s: State) {
    TxsOk(s) && AllApart(s) && LinksSourced(s) && InTime(s) && LookupsExact(s) && AccountsOk(s.db)
  }

  /** Rows of `before` are rows of `after`, unchanged. */
  ghost predicate Grows(before: Accounts, after: Accounts) {
    && (forall u | u in before.users :: u in after.users && after.users[u] == before.users[u])
    && (forall x | x in before.links :: x in after.links && after.links[x] == before.links[x])
  }

  // ---------- Every step keeps it ----------

  lemma {:induction false} LocalPartNotEmpty(p: Profile)
    ensures EmailOk(p.email) ==> DisplayName(p) != ""
  {
  }

  lemma LookupOk(db: Accounts, clock: nat, t: Tx)
    requires TxOk(db, clock, t) && t.status == Running && t.stage == Begun
    ensures TxOk(db, clock + 1, DoLookup(db, clock, t))
    ensures DoLookup(db, clock, t).stage == Found <==> t.profile.subject in db.links
  {
  }

  lemma UpsertUserOk(db: Accounts, clock: nat, t: Tx, newId: Id)
    requires TxOk(db, clock, t) && t.status == Running && t.stage == Missing && newId !in db.users
    ensures TxOk(db, clock + 1, DoUpsertUser(db, clock, t, newId))
    ensures DoUpsertUser(db, clock, t, newId).created ==> DoUpsertUser(db, clock, t, newId).user == newId
  {
    assert Merge(db, t.own).users == db.users;
  }

  lemma LinkOk(db: Accounts, clock: nat, t: Tx)
    requires TxOk(db, clock, t) && t.status == Running && t.stage == Upserted
    ensures TxOk(db, clock + 1, DoLink(db, t))
  {
  }

  lemma AdvanceOk(s: State, e: Event)
    requires TxsOk(s) && Enabled(s, e) && !e.Commit? && !e.Register?
    ensures TxOk(s.db, s.clock + 1, Advance(s, e))
  {
    if !e.Begin? {
      var t := s.txs[e.id];
      assert TxOk(s.db, s.clock, t);
      match e
      case Lookup(_) => LookupOk(s.db, s.clock, t);
      case UpsertUser(_, newId) => UpsertUserOk(s.db, s.clock, t, newId);
      case Link(_) => LinkOk(s.db, s.clock, t);
      case Abort(_) =>
    }
  }

  lemma UpsertUserApart(db: Accounts, clock: nat, t: Tx, u: Tx, newId: Id)
    requires TxOk(db, clock, t) && TxOk(db, clock, u) && Apart(t, u) && Apart(u, t)
    requires t.status == Running && t.stage == Missing && newId !in db.users && newId !in u.own.users
    requires u.status == Running ==> forall v :: !IsUserOf(u.own.users, v, t.profile.email)
    ensures var t' := DoUpsertUser(db, clock, t, newId); Apart(t', u) && Apart(u, t')
  {
    UpsertUserOk(db, clock, t, newId);
    if u.status == Running && u.created { assert !IsUserOf(u.own.users, u.user, t.profile.email); }
  }

  lemma AdvanceApart(s: State, e: Event, j: nat)
    requires Enabled(s, e) && !e.Commit? && !e.Begin? && !e.Register? && j in s.txs && j != e.id
    requires TxOk(s.db, s.clock, s.txs[e.id]) && TxOk(s.db, s.clock, s.txs[j])
    requires Apart(s.txs[e.id], s.txs[j]) && Apart(s.txs[j], s.txs[e.id])
    ensures Apart(Advance(s, e), s.txs[j]) && Apart(s.txs[j], Advance(s, e))
  {
    var t, u := s.txs[e.id], s.txs[j];
    match e
    case Lookup(_) =>
    case UpsertUser(_, newId) => UpsertUserApart(s.db, s.clock, t, u, newId);
    case Link(_) =>
    case Abort(_) =>
  }

  lemma AdvanceAllApart(s: State, e: Event)
    requires TxsOk(s) && AllApart(s) && Enabled(s, e) && !e.Commit? && !e.Register?
    ensures AllApart(Step(s, e))
  {
    var s' := Step(s, e);
    forall i, j | i in s'.txs && j in s'.txs && i != j ensures Apart(s'.txs[i], s'.txs[j]) {
      if !e.Begin? {
        if i == e.id { AdvanceApart(s, e, j); } else if j == e.id { AdvanceApart(s, e, i); }
      }
    }
  }

  /** A lookup finds the link exactly when an earlier commit made it. */
  lemma NewLookupExact(s: State, e: Event)
    requires TxsOk(s) && LinksSourced(s) && Enabled(s, e) && e.Lookup?
    ensures var t := Advance(s, e); t.stage == Found <==> exists j :: SeenBy(s, j, t)
  {
    var t, t' := s.txs[e.id], Advance(s, e);
    LookupOk(s.db, s.clock, t);
    if t'.stage == Found {
      var j :| Maker(s, j, t.profile.subject);
      assert TxOk(s.db, s.clock, s.txs[j]);
      assert SeenBy(s, j, t');
    }
    forall j | SeenBy(s, j, t') ensures t'.stage == Found {
      assert TxOk(s.db, s.clock, s.txs[j]);
    }
  }

  lemma AdvanceFrame(s: State, e: Event)
    requires Enabled(s, e) && !e.Commit? && !e.Register?
    ensures forall j, x :: Maker(Step(s, e), j, x) <==> Maker(s, j, x)
    ensures forall j, t :: SeenBy(Step(s, e), j, t) <==> SeenBy(s, j, t)
  {
    if !e.Begin? { assert Advance(s, e).status != Committed; }
  }

  lemma OthersLookups(s: State, e: Event)
    requires Enabled(s, e) && !e.Begin? && !e.Lookup? && !e.Commit? && !e.Register?
    ensures var t, t' := s.txs[e.id], Advance(s, e);
            && (HasLooked(t') ==> HasLooked(t) && (t'.stage == Found <==> t.stage == Found))
            && t'.profile == t.profile && t'.lookedAt == t.lookedAt
  {
  }

  lemma AdvanceLookups(s: State, e: Event)
    requires TxsOk(s) && LinksSourced(s) && LookupsExact(s) && Enabled(s, e) && !e.Commit? && !e.Register?
    ensures LookupsExact(Step(s, e))
  {
    var s' := Step(s, e);
    AdvanceFrame(s, e);
    if e.Lookup? { NewLookupExact(s, e); } else if !e.Begin? { OthersLookups(s, e); }
    forall i | i in s'.txs && HasLooked(s'.txs[i])
      ensures s'.txs[i].stage == Found <==> exists j :: SeenBy(s', j, s'.txs[i])
    {
      if i == e.id {
        if !e.Begin? && !e.Lookup? {
          assert forall j :: SeenBy(s, j, s'.txs[i]) <==> SeenBy(s, j, s.txs[i]);
        }
      } else {
        assert s'.txs[i] == s.txs[i];
      }
    }
  }

  /** A committed call stays linked in time when the calls that committed stay as they are. */
  lemma StaysInTime(s: State, s': State, i: nat)
    requires LinkedInTime(s, i) && Returned(s, i) && i in s'.txs && s'.txs[i] == s.txs[i]
    requires forall j, x | Maker(s, j, x) :: Maker(s', j, x) && s'.txs[j] == s.txs[j]
    ensures LinkedInTime(s', i)
  {
    var j :| MadeBy(s, j, s.txs[i]);
    assert MadeBy(s', j, s'.txs[i]);
  }

  lemma AdvanceSourced(s: State, e: Event)
    requires LinksSourced(s) && Enabled(s, e) && !e.Commit? && !e.Register?
    ensures LinksSourced(Step(s, e))
  {
    AdvanceFrame(s, e);
  }

  lemma AdvanceInTime(s: State, e: Event)
    requires InTime(s) && Enabled(s, e) && !e.Commit? && !e.Register?
    ensures InTime(Step(s, e))
  {
    var s' := Step(s, e);
    AdvanceFrame(s, e);
    assert e.id in s.txs ==> s.txs[e.id].status == Running;
    assert Advance(s, e).status != Committed;
    forall i ensures LinkedInTime(s', i) {
      if Returned(s', i) {
        assert LinkedInTime(s, i);
        StaysInTime(s, s', i);
      }
    }
  }

  // ---------- Commits and registrations ----------

  /** What a commit leaves behind. */
  function Committing(db: Accounts, t: Tx): Accounts {
    Accounts(if t.created then db.users[t.user := User(t.profile.email, DisplayName(t.profile))] else db.users,
             if t.made then db.links[t.profile.subject := t.user] else db.links)
  }

  lemma MergeIs(db: Accounts, t: Tx)
    requires RunningOk(db, t)
    ensures Merge(db, t.own) == Committing(db, t)
  {
    assert Merge(db, t.own).users == Committing(db, t).users;
    assert Merge(db, t.own).links == Committing(db, t).links;
  }

  lemma CommitOk(db: Accounts, clock: nat, t: Tx)
    requires TxOk(db, clock, t) && t.status == Running && (t.stage == Found || t.stage == Linked)
    ensures TxOk(Merge(db, t.own), clock + 1, End(t, Committed, clock))
    ensures Grows(db, Merge(db, t.own))
  {
  }

  /** The rows that `t` commits leave what another transaction knows as it was. */
  lemma CommitOthersOk(db: Accounts, clock: nat, t: Tx, u: Tx)
    requires TxOk(db, clock, t) && TxOk(db, clock, u) && Apart(t, u)
    requires t.status == Running && (t.stage == Found || t.stage == Linked)
    ensures TxOk(Merge(db, t.own), clock + 1, u)
  {
    MergeIs(db, t);
    if u.status == Running && u.created { EmailStaysFree(db, t, u.profile.email); }
  }

  lemma EmailStaysFree(db: Accounts, t: Tx, email: string)
    requires !HasEmail(db.users, email) && (t.created ==> t.profile.email != email)
    ensures !HasEmail(Committing(db, t).users, email)
  {
    forall v ensures !IsUserOf(Committing(db, t).users, v, email) {
      assert !IsUserOf(db.users, v, email);
    }
  }

  lemma NewUserOk(users: map<Id, User>, u: Id, row: User)
    requires EmailsUnique(users) && u !in users && !HasEmail(users, row.email)
    ensures EmailsUnique(users[u := row])
  {
    forall v | v in users ensures users[v].email != row.email {
      assert !IsUserOf(users, v, row.email);
    }
  }

  lemma NewAccountOk(db: Accounts, u: Id, row: User)
    requires AccountsOk(db) && u !in db.users && !HasEmail(db.users, row.email)
    requires EmailOk(row.email) && row.name != ""
    ensures AccountsOk(db.(users := db.users[u := row]))
  {
    NewUserOk(db.users, u, row);
  }

  lemma NewLinkOk(db: Accounts, x: string, u: Id)
    requires AccountsOk(db) && u in db.users
    ensures AccountsOk(db.(links := db.links[x := u]))
  {
  }

  lemma CommittingOk(db: Accounts, t: Tx)
    requires AccountsOk(db) && RunningOk(db, t)
    requires t.made ==> t.user in Committing(db, t).users
    ensures AccountsOk(Committing(db, t))
  {
    var row := User(t.profile.email, DisplayName(t.profile));
    if t.created {
      LocalPartNotEmpty(t.profile);
      NewAccountOk(db, t.user, row);
    }
    var db1 := db.(users := Committing(db, t).users);
    assert AccountsOk(db1);
    if t.made { NewLinkOk(db1, t.profile.subject, t.user); }
  }

  lemma LinkedIsUser(db: Accounts, clock: nat, t: Tx)
    requires TxOk(db, clock, t) && t.status == Running && t.stage == Linked
    ensures t.user in Committing(db, t).users
  {
  }

  lemma CommitAccountsOk(db: Accounts, clock: nat, t: Tx)
    requires TxOk(db, clock, t) && AccountsOk(db)
    requires t.status == Running && (t.stage == Found || t.stage == Linked)
    ensures AccountsOk(Merge(db, t.own))
  {
    MergeIs(db, t);
    if t.made { LinkedIsUser(db, clock, t); }
    CommittingOk(db, t);
  }

  lemma CommitApart(t: Tx, u: Tx, clock: nat)
    requires Apart(t, u) && Apart(u, t) && (HasLooked(u) ==> u.lookedAt < clock)
    requires t.status == Running
    ensures var t' := End(t, Committed, clock); Apart(t', u) && Apart(u, t')
  {
  }

  lemma CommitTxsOk(s: State, id: nat)
    requires TxsOk(s) && AllApart(s) && Enabled(s, Commit(id))
    ensures TxsOk(Step(s, Commit(id)))
  {
    var t, s' := s.txs[id], Step(s, Commit(id));
    forall i | i in s'.txs ensures TxOk(s'.db, s'.clock, s'.txs[i]) {
      if i == id { CommitOk(s.db, s.clock, t); } else { CommitOthersOk(s.db, s.clock, t, s.txs[i]); }
    }
  }

  lemma CommitAllApart(s: State, id: nat)
    requires TxsOk(s) && AllApart(s) && Enabled(s, Commit(id))
    ensures AllApart(Step(s, Commit(id)))
  {
    var t, s' := s.txs[id], Step(s, Commit(id));
    forall i, j | i in s'.txs && j in s'.txs && i != j ensures Apart(s'.txs[i], s'.txs[j]) {
      if i == id {
        assert TxOk(s.db, s.clock, s.txs[j]);
        CommitApart(t, s.txs[j], s.clock);
      } else if j == id {
        assert TxOk(s.db, s.clock, s.txs[i]);
        CommitApart(t, s.txs[i], s.clock);
      }
    }
  }

  /** A commit comes after every lookup made so far, so it changes what none of them saw. */
  lemma CommitLookups(s: State, id: nat)
    requires TxsOk(s) && LookupsExact(s) && Enabled(s, Commit(id))
    ensures LookupsExact(Step(s, Commit(id)))
  {
    var s' := Step(s, Commit(id));
    forall i | i in s'.txs && HasLooked(s'.txs[i])
      ensures s'.txs[i].stage == Found <==> exists j :: SeenBy(s', j, s'.txs[i])
    {
      assert TxOk(s.db, s.clock, s.txs[i]);
      CommitSeen(s, id, s.txs[i]);
      assert forall j :: SeenBy(s', j, s'.txs[i]) <==> SeenBy(s', j, s.txs[i]);
    }
  }

  /** A commit comes after a lookup made before it. */
  lemma CommitSeen(s: State, id: nat, t: Tx)
    requires Enabled(s, Commit(id)) && t.lookedAt < s.clock
    ensures forall j :: SeenBy(Step(s, Commit(id)), j, t) <==> SeenBy(s, j, t)
  {
  }

  lemma CommitSourced(s: State, id: nat)
    requires LinksSourced(s) && Enabled(s, Commit(id)) && TxOk(s.db, s.clock, s.txs[id])
    ensures LinksSourced(Step(s, Commit(id)))
  {
    var s' := Step(s, Commit(id));
    forall x | x in s'.db.links ensures exists i :: Maker(s', i, x) {
      if x in s.db.links {
        var i :| Maker(s, i, x);
        assert Maker(s', i, x);
      } else {
        assert Maker(s', id, x);
      }
    }
  }

  /** The last to commit was linked by then. */
  lemma LinkedNow(s: State, id: nat)
    requires TxsOk(s) && LinksSourced(s) && Returned(s, id) && s.txs[id].endedAt + 1 == s.clock
    ensures LinkedInTime(s, id)
  {
    assert TxOk(s.db, s.clock, s.txs[id]);
    var j :| Maker(s, j, s.txs[id].profile.subject);
    assert TxOk(s.db, s.clock, s.txs[j]);
    assert MadeBy(s, j, s.txs[id]);
  }

  lemma CommitInTime(s: State, id: nat)
    requires InTime(s) && Enabled(s, Commit(id)) && LinkedInTime(Step(s, Commit(id)), id)
    ensures InTime(Step(s, Commit(id)))
  {
    var s' := Step(s, Commit(id));
    forall i ensures LinkedInTime(s', i) {
      if i == id {
      } else if Returned(s', i) {
        assert LinkedInTime(s, i);
        StaysInTime(s, s', i);
      }
    }
  }

  lemma RegisterOk(db: Accounts, clock: nat, t: Tx, v: Id, email: string, name: string)
    requires TxOk(db, clock, t) && v !in db.users && v !in t.own.users
    requires t.status == Running ==> forall u :: !IsUserOf(t.own.users, u, email)
    ensures TxOk(DoRegister(db, v, email, name), clock + 1, t)
  {
    var db' := DoRegister(db, v, email, name);
    if t.status == Running && t.created {
      assert !IsUserOf(t.own.users, t.user, email);
      forall u ensures !IsUserOf(db'.users, u, t.profile.email) {
        assert !IsUserOf(db.users, u, t.profile.email);
      }
    }
  }

  lemma RegisterAccountsOk(db: Accounts, v: Id, email: string, name: string)
    requires AccountsOk(db) && v !in db.users && name != ""
    ensures AccountsOk(DoRegister(db, v, email, name)) && Grows(db, DoRegister(db, v, email, name))
  {
    forall u | u in db.users && !HasEmail(db.users, email) ensures db.users[u].email != email {
      assert !IsUserOf(db.users, u, email);
    }
  }

  lemma RegisterKeeps(s: State, e: Event)
    requires Inv(s) && Enabled(s, e) && e.Register?
    ensures Inv(Step(s, e))
  {
    var s' := Step(s, e);
    forall i | i in s'.txs ensures TxOk(s'.db, s'.clock, s'.txs[i]) {
      RegisterOk(s.db, s.clock, s.txs[i], e.newId, e.email, e.name);
    }
    RegisterAccountsOk(s.db, e.newId, e.email, e.name);
    assert forall i, x :: Maker(s', i, x) <==> Maker(s, i, x);
    assert forall i, t :: SeenBy(s', i, t) <==> SeenBy(s, i, t);
    forall i ensures LinkedInTime(s', i) {
      if Returned(s', i) {
        assert LinkedInTime(s, i);
        StaysInTime(s, s', i);
      }
    }
  }

  lemma CommitKeeps(s: State, id: nat)
    requires Inv(s) && Enabled(s, Commit(id))
    ensures Inv(Step(s, Commit(id)))
  {
    assert TxOk(s.db, s.clock, s.txs[id]);
    CommitTxsOk(s, id);
    CommitAllApart(s, id);
    CommitLookups(s, id);
    CommitSourced(s, id);
    LinkedNow(Step(s, Commit(id)), id);
    CommitInTime(s, id);
    CommitAccountsOk(s.db, s.clock, s.txs[id]);
  }

  lemma AdvanceKeeps(s: State, e: Event)
    requires Inv(s) && Enabled(s, e) && !e.Commit? && !e.Register?
    ensures Inv(Step(s, e))
  {
    var s' := Step(s, e);
    AdvanceOk(s, e);
    assert TxsOk(s') by {
      forall i | i in s'.txs ensures TxOk(s'.db, s'.clock, s'.txs[i]) {
        assert i != e.id ==> TxOk(s.db, s.clock, s.txs[i]);
      }
    }
    AdvanceAllApart(s, e);
    AdvanceLookups(s, e);
    AdvanceSourced(s, e);
    AdvanceInTime(s, e);
  }

  lemma StepKeeps(s: State, e: Event)
    requires Inv(s)
    ensures Inv(Step(s, e))
  {
    if Enabled(s, e) {
      if e.Register? {
        RegisterKeeps(s, e);
      } else if e.Commit? {
        CommitKeeps(s, e.id);
      } else {
        AdvanceKeeps(s, e);
      }
    }
  }

  // ---------- What holds in every interleaving ----------

  lemma {:induction false} RunKeeps(run: seq<Event>)
    ensures Inv(After(run))
  {
    if run == [] {
    } else {
      RunKeeps(run[..|run| - 1]);
      StepKeeps(After(run[..|run| - 1]), run[|run| - 1]);
    }
  }

  /** Emails stay unique across password and Google accounts. */
  lemma EmailsStayUnique(run: seq<Event>)
    ensures AccountsOk(After(run).db)
  {
    RunKeeps(run);
  }

  lemma StepGrows(s: State, e: Event)
    requires TxsOk(s)
    ensures Grows(s.db, Step(s, e).db)
  {
    if Enabled(s, e) && e.Commit? { CommitOk(s.db, s.clock, s.txs[e.id]); }
  }

  lemma NextGrows(run: seq<Event>, e: Event)
    ensures Grows(After(run).db, After(run + [e]).db)
  {
    RunKeeps(run);
    StepGrows(After(run), e);
    assert (run + [e])[..|run|] == run;
  }

  /** No committed user or link is ever changed or removed. */
  lemma {:induction false} LinksNeverChange(run: seq<Event>, more: seq<Event>)
    ensures Grows(After(run).db, After(run + more).db)
  {
    if more == [] {
      assert run + more == run;
    } else {
      var most, e := more[..|more| - 1], more[|more| - 1];
      assert run + more == run + most + [e];
      LinksNeverChange(run, most);
      NextGrows(run + most, e);
      GrowsTransitive(After(run).db, After(run + most).db, After(run + most + [e]).db);
    }
  }

  lemma GrowsTransitive(a: Accounts, b: Accounts, c: Accounts)
    requires Grows(a, b) && Grows(b, c)
    ensures Grows(a, c)
  {
  }

  /** The link of `t`'s subject was committed after `t` looked, for another email. */
  predicate Overtaken(s: State, j: nat, t: Tx) {
    && Maker(s, j, t.profile.subject)
    && t.lookedAt < s.txs[j].endedAt
    && s.txs[j].profile.email != t.profile.email
  }

  /** A callback that commits leaves its subject linked, and returns the linked user unless
      another callback linked the subject, with another email, after this one looked. */
  lemma ReturnsLinkedUserExactly(run: seq<Event>, i: nat)
    requires Returned(After(run), i)
    ensures var s := After(run); var t := s.txs[i];
            && t.profile.subject in s.db.links
            && (s.db.links[t.profile.subject] == t.user <==> !exists j :: Overtaken(s, j, t))
  {
    RunKeeps(run);
    var s := After(run);
    var t := s.txs[i];
    assert TxOk(s.db, s.clock, t);
    if s.db.links[t.profile.subject] != t.user { WrongIsOvertaken(s, i); }
    forall j | Overtaken(s, j, t) ensures s.db.links[t.profile.subject] != t.user {
      OvertakenIsWrong(s, i, j);
    }
  }

  lemma WrongIsOvertaken(s: State, i: nat)
    requires TxsOk(s) && AllApart(s) && LinksSourced(s) && LookupsExact(s) && Returned(s, i)
    requires var t := s.txs[i]; t.profile.subject in s.db.links && s.db.links[t.profile.subject] != t.user
    requires EmailsUnique(s.db.users)
    ensures exists j :: Overtaken(s, j, s.txs[i])
  {
    var t := s.txs[i];
    var j :| Maker(s, j, t.profile.subject);
    var w := s.txs[j];
    assert TxOk(s.db, s.clock, t) && TxOk(s.db, s.clock, w);
    WrongUser(s.db, s.clock, t, w);
    assert i != j && Apart(w, t);
    assert !SeenBy(s, j, t);
    assert Overtaken(s, j, t);
  }

  /** A call that returned another user than the one who made the link found no link, and
      has another email. */
  lemma WrongUser(db: Accounts, clock: nat, t: Tx, w: Tx)
    requires TxOk(db, clock, t) && TxOk(db, clock, w) && EmailsUnique(db.users)
    requires t.status == Committed && w.status == Committed && w.made && w.profile.subject == t.profile.subject
    requires t.profile.subject in db.links && db.links[t.profile.subject] != t.user
    ensures t.stage != Found && t.profile.email != w.profile.email
  {
  }

  lemma OvertakenIsWrong(s: State, i: nat, j: nat)
    requires TxsOk(s) && AllApart(s) && LookupsExact(s) && Returned(s, i) && Overtaken(s, j, s.txs[i])
    ensures var t := s.txs[i]; t.profile.subject in s.db.links && s.db.links[t.profile.subject] != t.user
  {
    var t, w := s.txs[i], s.txs[j];
    assert TxOk(s.db, s.clock, t) && TxOk(s.db, s.clock, w);
    assert Apart(w, t) && Apart(t, w);
    forall k ensures !SeenBy(s, k, t) {
      assert k in s.txs && k != j ==> Apart(s.txs[k], w);
    }
  }

  /** Once a callback has committed, every later one of its subject returns the linked user,
      whatever email and name Google then gives. */
  lemma LaterCallbacksAgree(run: seq<Event>, i: nat, j: nat)
    requires var s := After(run); Returned(s, i) && Returned(s, j)
    requires var s := After(run); s.txs[i].endedAt < s.txs[j].lookedAt
    requires var s := After(run); s.txs[i].profile.subject == s.txs[j].profile.subject
    ensures var s := After(run); var t := s.txs[j];
            t.stage == Found && t.profile.subject in s.db.links && s.db.links[t.profile.subject] == t.user
  {
    RunKeeps(run);
    var s := After(run);
    assert LinkedInTime(s, i);
    var k :| MadeBy(s, k, s.txs[i]);
    assert SeenBy(s, k, s.txs[j]);
    assert TxOk(s.db, s.clock, s.txs[j]);
  }
}
