/** `upsertGoogleUser` and `register` as the code runs them, one statement after another, and
    what one callback does when no other is open. */
module GoogleCallbacks {
  import opened Common
  import opened GoogleIdentity

  datatype Reply = Refused | SignedIn(user: Id, row: User)

  ghost function UserOf(users: map<Id, User>, email: string): (u: Id)
    requires HasEmail(users, email)
    ensures IsUserOf(users, u, email)
  {
    var u :| IsUserOf(users, u, email); u
  }

  /** What a callback makes of the committed tables when it runs alone; `newId` is the id
      that its insert would generate. */
  ghost function Alone(db: Accounts, p: Profile, newId: Id): (Accounts, Reply)
    requires AccountsOk(db)
  {
    if p.subject in db.links then (db, SignedIn(db.links[p.subject], db.users[db.links[p.subject]]))
    else if HasEmail(db.users, p.email) then
      var u := UserOf(db.users, p.email);
      (db.(links := db.links[p.subject := u]), SignedIn(u, db.users[u]))
    else if EmailOk(p.email) then
      var row := User(p.email, DisplayName(p));
      (Accounts(db.users[newId := row], db.links[p.subject := newId]), SignedIn(newId, row))
    else (db, Refused)
  }

  /** A callback that runs alone returns the user its subject is linked to; a first callback
      joins the account its email already has, whose row it leaves alone. */
  lemma AloneKeeps(db: Accounts, p: Profile, newId: Id)
    requires AccountsOk(db) && newId !in db.users
    ensures var (db', r) := Alone(db, p, newId);
            && AccountsOk(db') && Grows(db, db')
            && (r.SignedIn? <==> p.subject in db.links || EmailOk(p.email))
            && (r.SignedIn? ==> p.subject in db'.links && db'.links[p.subject] == r.user)
            && (r.SignedIn? ==> r.user in db'.users && db'.users[r.user] == r.row)
            && (forall u | p.subject !in db.links && IsUserOf(db.users, u, p.email) :: r == SignedIn(u, db.users[u]))
  {
    LocalPartNotEmpty(p);
    if p.subject !in db.links && !HasEmail(db.users, p.email) && EmailOk(p.email) {
      NewUserOk(db.users, newId, User(p.email, DisplayName(p)));
    }
  }

  /** From then on the subject's callbacks return that user, whatever else was committed in
      between and whatever email and name Google gives. */
  lemma AgainSameUser(db: Accounts, p: Profile, newId: Id, later: Accounts, q: Profile, laterId: Id)
    requires AccountsOk(db) && newId !in db.users && Alone(db, p, newId).1.SignedIn?
    requires AccountsOk(later) && Grows(Alone(db, p, newId).0, later) && q.subject == p.subject
    ensures Alone(later, q, laterId) == (later, Alone(db, p, newId).1)
  {
    AloneKeeps(db, p, newId);
  }

  // ---------- One statement after another ----------

  /** The database as one transaction sees it: what is committed, and the working copy that
      its statements change. */
  class IdentityStore {
    var committed: Accounts
    var work: Accounts

    ghost predicate Valid()
      reads this
    {
      AccountsOk(committed)
    }

    constructor ()
      ensures Valid() && committed == NO_ROWS
    {
      committed := NO_ROWS;
      work := NO_ROWS;
    }

    method GetGoogleUserBySubject(subject: string) returns (found: bool, u: Id)
      ensures found == (subject in work.links)
      ensures found ==> u == work.links[subject]
    {
      found := subject in work.links;
      u := if found then work.links[subject] else 0;
    }

    /** INSERT ... ON CONFLICT (email) DO UPDATE SET display_name = users.display_name. */
    method UpsertGoogleUserByEmail(email: string, name: string, newId: Id) returns (ok: bool, u: Id)
      modifies this`work
      ensures HasEmail(old(work).users, email) ==> ok && work == old(work) && IsUserOf(work.users, u, email)
      ensures !HasEmail(old(work).users, email) ==>
                ok == EmailOk(email) && u == newId &&
                work == if ok then old(work).(users := old(work).users[newId := User(email, name)]) else old(work)
    {
      ok := true;
      if v :| v in work.users && work.users[v].email == email {
        u := v;
        assert IsUserOf(work.users, v, email);
      } else {
        u := newId;
        ok := email != "" && email[0] != '@' && '@' in email;
        if ok { work := work.(users := work.users[newId := User(email, name)]); }
      }
    }

    /** INSERT ... ON CONFLICT (provider, provider_subject) DO NOTHING. */
    method LinkGoogleIdentity(u: Id, subject: string)
      modifies this`work
      ensures work == if subject in old(work).links then old(work)
                      else old(work).(links := old(work).links[subject := u])
    {
      if subject !in work.links { work := work.(links := work.links[subject := u]); }
    }

    method UpsertGoogleUser(p: Profile, newId: Id) returns (reply: Reply)
      requires Valid() && newId !in committed.users
      modifies this
      ensures Valid() && (committed, reply) == Alone(old(committed), p, newId)
    {
      ghost var db := committed;
      AloneKeeps(db, p, newId);
      work := committed;
      var found, u := GetGoogleUserBySubject(p.subject);
      if found { return SignedIn(u, work.users[u]); }
      var name := p.name;
      if name == "" { name := LocalPart(p.email); }
      var ok;
      ok, u := UpsertGoogleUserByEmail(p.email, name, newId);
      if !ok { return Refused; }
      var row := work.users[u];
      LinkGoogleIdentity(u, p.subject);
      committed := work;
      reply := SignedIn(u, row);
    }

    /** CreatePasswordUser, after `register` has checked the payload. */
    method Register(email: string, name: string, newId: Id) returns (ok: bool)
      requires Valid() && newId !in committed.users && name != ""
      modifies this`committed
      ensures Valid() && Grows(old(committed), committed)
      ensures ok == (EmailOk(email) && !HasEmail(old(committed).users, email))
      ensures committed == DoRegister(old(committed), newId, email, name)
    {
      RegisterAccountsOk(committed, newId, email, name);
      ok := email != "" && email[0] != '@' && '@' in email;
      if v :| v in committed.users && committed.users[v].email == email {
        ok := false;
        assert IsUserOf(committed.users, v, email);
      }
      if ok { committed := committed.(users := committed.users[newId := User(email, name)]); }
    }
  }

  // ---------- One call in the protocol ----------

  /** The statements of a callback; those its branch does not reach are not enabled. */
  function Calls(id: nat, p: Profile, newId: Id): seq<Event> {
    [Begin(id, p), Lookup(id), UpsertUser(id, newId), Link(id), Commit(id)]
  }

  lemma AfterNext(run: seq<Event>, e: Event)
    ensures After(run + [e]) == Step(After(run), e)
  {
    assert (run + [e])[..|run|] == run;
  }

  lemma AfterCalls(run: seq<Event>, id: nat, p: Profile, newId: Id)
    ensures After(run + Calls(id, p, newId)) ==
            Step(Step(Step(Step(Step(After(run), Begin(id, p)), Lookup(id)), UpsertUser(id, newId)),
                      Link(id)), Commit(id))
  {
    var es := Calls(id, p, newId);
    AfterNext(run, es[0]);
    AfterNext(run + [es[0]], es[1]);
    AfterNext(run + [es[0]] + [es[1]], es[2]);
    AfterNext(run + [es[0]] + [es[1]] + [es[2]], es[3]);
    AfterNext(run + [es[0]] + [es[1]] + [es[2]] + [es[3]], es[4]);
    assert run + es == run + [es[0]] + [es[1]] + [es[2]] + [es[3]] + [es[4]];
  }

  /** No transaction is open. */
  ghost predicate Quiet(s: State) {
    forall i | i in s.txs :: s.txs[i].status != Running && s.txs[i].own == NO_ROWS
  }

  /** Between the events of call `id`, started in `s0`: only it is open. */
  ghost predicate Open(s0: State, s: State, id: nat, p: Profile, stage: Stage) {
    && s.db == s0.db && id in s.txs
    && (forall i | i in s.txs && i != id :: s.txs[i].status != Running && s.txs[i].own == NO_ROWS)
    && var t := s.txs[id];
       t.status == Running && t.stage == stage && t.profile == p && TxOk(s.db, s.clock, t)
       && (stage != Linked ==> t.own.links == map[])
  }

  /** Call `id` has ended and returned what `r` says. */
  ghost predicate Ended(s: State, id: nat, r: Reply) {
    && id in s.txs
    && match r
       case Refused => s.txs[id].status == Aborted
       case SignedIn(u, row) => s.txs[id].status == Committed && s.txs[id].user == u &&
                                u in s.db.users && s.db.users[u] == row
  }

  lemma OpenLookup(s: State, id: nat, p: Profile)
    requires Quiet(s) && id !in s.txs
    ensures var s' := Step(Step(s, Begin(id, p)), Lookup(id));
            if p.subject in s.db.links then Open(s, s', id, p, Found) && s'.txs[id].user == s.db.links[p.subject]
            else Open(s, s', id, p, Missing)
  {
    var s1 := Step(s, Begin(id, p));
    assert Open(s, s1, id, p, Begun);
    LookupOk(s1.db, s1.clock, s1.txs[id]);
  }

  lemma OpenUpsert(s0: State, s: State, id: nat, p: Profile, newId: Id)
    requires Open(s0, s, id, p, Missing) && AccountsOk(s.db) && newId !in s.db.users
    ensures var s' := Step(s, UpsertUser(id, newId));
            if EmailOk(p.email) then
              Open(s0, s', id, p, Upserted) && s'.txs[id].created == !HasEmail(s.db.users, p.email) &&
              s'.txs[id].user == if HasEmail(s.db.users, p.email) then UserOf(s.db.users, p.email) else newId
            else s'.db == s0.db && id in s'.txs && s'.txs[id].status == Aborted
  {
    assert FreshUser(s, newId) && !EmailLocked(s, p.email);
    assert Merge(s.db, s.txs[id].own).users == s.db.users;
    UpsertUserOk(s.db, s.clock, s.txs[id], newId);
  }

  lemma OpenLink(s0: State, s: State, id: nat, p: Profile)
    requires Open(s0, s, id, p, Upserted) && p.subject !in s.db.links
    ensures var t, s' := s.txs[id], Step(s, Link(id));
            Open(s0, s', id, p, Linked) && s'.txs[id] == DoLink(s.db, t) && s'.txs[id].made
  {
    assert !SubjectLocked(s, p.subject);
    LinkOk(s.db, s.clock, s.txs[id]);
  }

  /** What a new subject's call commits. */
  lemma LinkedIs(db: Accounts, clock: nat, t: Tx)
    requires TxOk(db, clock, t) && t.status == Running && t.stage == Linked && t.made
    ensures var row := User(t.profile.email, DisplayName(t.profile));
            Merge(db, t.own) == Accounts(if t.created then db.users[t.user := row] else db.users,
                                         db.links[t.profile.subject := t.user])
  {
    MergeIs(db, t);
  }

  /** A call at its commit ends with what it wrote. */
  lemma OpenCommit(s0: State, s: State, id: nat, p: Profile, stage: Stage)
    requires Open(s0, s, id, p, stage) && (stage == Found || stage == Linked)
    ensures var t, s' := s.txs[id], Step(s, Commit(id));
            s'.db == Merge(s.db, t.own) && id in s'.txs && s'.txs[id].status == Committed && s'.txs[id].user == t.user
  {
  }

  /** A callback that looked and found nothing ends as `Alone` says. */
  lemma NewSubject(s0: State, s: State, id: nat, p: Profile, newId: Id)
    requires Open(s0, s, id, p, Missing) && AccountsOk(s.db) && newId !in s.db.users && p.subject !in s.db.links
    requires EmailOk(p.email)
    ensures var s' := Step(Step(Step(s, UpsertUser(id, newId)), Link(id)), Commit(id));
            var (db', r) := Alone(s.db, p, newId);
            s'.db == db' && Ended(s', id, r)
  {
    OpenUpsert(s0, s, id, p, newId);
    var s1 := Step(s, UpsertUser(id, newId));
    OpenLink(s0, s1, id, p);
    var s2 := Step(s1, Link(id));
    LinkedIs(s.db, s2.clock, s2.txs[id]);
    OpenCommit(s0, s2, id, p, Linked);
  }

  lemma EmailsAreOk(db: Accounts, email: string)
    requires AccountsOk(db) && HasEmail(db.users, email)
    ensures EmailOk(email)
  {
  }

  lemma BadEmail(s0: State, s: State, id: nat, p: Profile, newId: Id)
    requires Open(s0, s, id, p, Missing) && AccountsOk(s.db) && newId !in s.db.users && p.subject !in s.db.links
    requires !EmailOk(p.email)
    ensures var s' := Step(Step(Step(s, UpsertUser(id, newId)), Link(id)), Commit(id));
            var (db', r) := Alone(s.db, p, newId);
            s'.db == db' && Ended(s', id, r)
  {
    OpenUpsert(s0, s, id, p, newId);
    if HasEmail(s.db.users, p.email) { EmailsAreOk(s.db, p.email); }
    var s1 := Step(s, UpsertUser(id, newId));
    assert Step(s1, Link(id)) == s1 && Step(s1, Commit(id)) == s1;
  }

  lemma KnownSubject(s0: State, s: State, id: nat, p: Profile, newId: Id)
    requires Open(s0, s, id, p, Found) && AccountsOk(s.db) && p.subject in s.db.links
    requires s.txs[id].user == s.db.links[p.subject]
    ensures var s' := Step(Step(Step(s, UpsertUser(id, newId)), Link(id)), Commit(id));
            var (db', r) := Alone(s.db, p, newId);
            s'.db == db' && Ended(s', id, r)
  {
    assert Step(s, UpsertUser(id, newId)) == s && Step(s, Link(id)) == s;
    OpenCommit(s0, s, id, p, Found);
    assert Merge(s.db, s.txs[id].own) == s.db;
  }

  /** When no other callback is open, the protocol's events for one do what `Alone` says. */
  lemma AloneIsOneCall(run: seq<Event>, id: nat, p: Profile, newId: Id)
    requires var s := After(run);
             (forall i | i in s.txs :: s.txs[i].status != Running) && id !in s.txs && newId !in s.db.users
    ensures AccountsOk(After(run).db)
    ensures var (db', r) := Alone(After(run).db, p, newId); var s' := After(run + Calls(id, p, newId));
            s'.db == db' && Ended(s', id, r)
  {
    RunKeeps(run);
    var s := After(run);
    AfterCalls(run, id, p, newId);
    assert Quiet(s) by {
      forall i | i in s.txs ensures s.txs[i].own == NO_ROWS {
        assert TxOk(s.db, s.clock, s.txs[i]);
      }
    }
    OpenLookup(s, id, p);
    var s2 := Step(Step(s, Begin(id, p)), Lookup(id));
    if p.subject in s.db.links {
      KnownSubject(s, s2, id, p, newId);
    } else if EmailOk(p.email) {
      NewSubject(s, s2, id, p, newId);
    } else {
      BadEmail(s, s2, id, p, newId);
    }
  }
}
