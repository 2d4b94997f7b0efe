/** Two first callbacks of one Google subject that overlap, with two different emails: the
    second returns a user that its subject is not linked to. */
module GoogleOverlap {
  import opened Common
  import opened GoogleIdentity
  import opened GoogleCallbacks

  /** Each looks before the other commits. */
  function Overlap(p: Profile, q: Profile): seq<Event> {
    [Begin(0, p), Begin(1, q), Lookup(0), Lookup(1), UpsertUser(0, 0), UpsertUser(1, 1)] +
    [Link(0), Commit(0), Link(1), Commit(1)]
  }

  predicate Clash(p: Profile, q: Profile) {
    p.subject == q.subject && p.email != q.email && EmailOk(p.email) && EmailOk(q.email)
  }

  /** Both calls at `stage`, with at most their new users written. */
  ghost predicate BothAt(s: State, p: Profile, q: Profile, stage: Stage) {
    && s.txs.Keys == {0, 1} && s.db == NO_ROWS
    && BothTx(s.txs[0], p, stage, 0) && BothTx(s.txs[1], q, stage, 1)
  }

  ghost predicate BothTx(t: Tx, p: Profile, stage: Stage, u: Id) {
    && t.profile == p && t.status == Running && t.stage == stage && !t.made
    && t.own == Accounts(if stage == Upserted then map[u := User(p.email, DisplayName(p))] else map[], map[])
    && (stage == Upserted ==> t.user == u)
  }

  lemma BothBegin(s: State, p: Profile, q: Profile)
    requires s.db == NO_ROWS && s.txs == map[]
    ensures BothAt(Step(Step(s, Begin(0, p)), Begin(1, q)), p, q, Begun)
  {
  }

  lemma BothLookup(s: State, p: Profile, q: Profile)
    requires BothAt(s, p, q, Begun)
    ensures BothAt(Step(Step(s, Lookup(0)), Lookup(1)), p, q, Missing)
  {
  }

  lemma UpsertInserts(db: Accounts, clock: nat, t: Tx, p: Profile, u: Id)
    requires db == NO_ROWS && EmailOk(p.email) && BothTx(t, p, Missing, u)
    ensures BothTx(DoUpsertUser(db, clock, t, u), p, Upserted, u)
  {
    assert Merge(db, t.own).users == map[];
    assert !HasEmail(Merge(db, t.own).users, p.email);
  }

  lemma BothUpsert(s: State, p: Profile, q: Profile)
    requires BothAt(s, p, q, Missing) && Clash(p, q)
    ensures BothAt(Step(Step(s, UpsertUser(0, 0)), UpsertUser(1, 1)), p, q, Upserted)
  {
    FirstUpserts(s, p, q);
    SecondUpserts(Step(s, UpsertUser(0, 0)), p, q);
  }

  lemma FirstUpserts(s: State, p: Profile, q: Profile)
    requires BothAt(s, p, q, Missing) && Clash(p, q)
    ensures var s' := Step(s, UpsertUser(0, 0));
            s'.txs.Keys == {0, 1} && s'.db == NO_ROWS && BothTx(s'.txs[0], p, Upserted, 0) && s'.txs[1] == s.txs[1]
  {
    UpsertInserts(s.db, s.clock, s.txs[0], p, 0);
    assert FreshUser(s, 0) && !EmailLocked(s, p.email);
  }

  lemma SecondUpserts(s: State, p: Profile, q: Profile)
    requires s.txs.Keys == {0, 1} && s.db == NO_ROWS && Clash(p, q)
    requires BothTx(s.txs[0], p, Upserted, 0) && BothTx(s.txs[1], q, Missing, 1)
    ensures BothAt(Step(s, UpsertUser(1, 1)), p, q, Upserted)
  {
    UpsertInserts(s.db, s.clock, s.txs[1], q, 1);
    assert FreshUser(s, 1) && !EmailLocked(s, q.email);
  }

  lemma FirstCommits(s: State, p: Profile, q: Profile)
    requires BothAt(s, p, q, Upserted) && Clash(p, q)
    ensures var s' := Step(Step(s, Link(0)), Commit(0));
            s'.txs.Keys == {0, 1} && s'.db.links == map[p.subject := 0] && s'.txs[0].status == Committed &&
            s'.txs[0].own == NO_ROWS && s'.txs[1] == s.txs[1]
  {
    assert !SubjectLocked(s, p.subject);
    assert DoLink(s.db, s.txs[0]).own.links == map[p.subject := 0];
  }

  lemma SecondCommits(s: State, p: Profile, q: Profile)
    requires s.txs.Keys == {0, 1} && s.db.links == map[p.subject := 0] && s.txs[0].own == NO_ROWS
    requires BothTx(s.txs[1], q, Upserted, 1) && Clash(p, q)
    ensures var s' := Step(Step(s, Link(1)), Commit(1));
            s'.db.links == s.db.links && s'.txs.Keys == {0, 1} &&
            s'.txs[1].status == Committed && s'.txs[1].user == 1 && s'.txs[1].profile == q
  {
    assert !SubjectLocked(s, q.subject);
    assert DoLink(s.db, s.txs[1]).own.links == map[];
  }

  /** Whatever the two profiles are, if only the email differs the second caller is signed in
      as user 1 while the subject is, for good, linked to user 0. */
  lemma OverlapReturnsUnlinkedUser(p: Profile, q: Profile)
    requires Clash(p, q)
    ensures var s := After(Overlap(p, q));
            && Returned(s, 1) && s.txs[1].profile == q && s.txs[1].user == 1
            && q.subject in s.db.links && s.db.links[q.subject] == 0
  {
    var es := Overlap(p, q);
    var s2 := Step(Step(After([]), es[0]), es[1]);
    var s4 := Step(Step(s2, es[2]), es[3]);
    var s6 := Step(Step(s4, es[4]), es[5]);
    var s8 := Step(Step(s6, es[6]), es[7]);
    AfterPrefixes(es);
    BothBegin(After([]), p, q);
    BothLookup(s2, p, q);
    BothUpsert(s4, p, q);
    FirstCommits(s6, p, q);
    SecondCommits(s8, p, q);
  }

  lemma AfterPrefixes(es: seq<Event>)
    requires |es| == 10
    ensures var s2 := Step(Step(After([]), es[0]), es[1]);
            var s4 := Step(Step(s2, es[2]), es[3]);
            var s6 := Step(Step(s4, es[4]), es[5]);
            var s8 := Step(Step(s6, es[6]), es[7]);
            After(es) == Step(Step(s8, es[8]), es[9])
  {
    assert es[..10] == es && es[..0] == [];
    forall i | 0 <= i < 10 ensures After(es[..i + 1]) == Step(After(es[..i]), es[i]) {
      assert es[..i + 1] == es[..i] + [es[i]];
      AfterNext(es[..i], es[i]);
    }
    assert After(es[..2]) == Step(After(es[..1]), es[1]) && After(es[..1]) == Step(After(es[..0]), es[0]);
    assert After(es[..4]) == Step(After(es[..3]), es[3]) && After(es[..3]) == Step(After(es[..2]), es[2]);
    assert After(es[..6]) == Step(After(es[..5]), es[5]) && After(es[..5]) == Step(After(es[..4]), es[4]);
    assert After(es[..8]) == Step(After(es[..7]), es[7]) && After(es[..7]) == Step(After(es[..6]), es[6]);
    assert After(es[..10]) == Step(After(es[..9]), es[9]) && After(es[..9]) == Step(After(es[..8]), es[8]);
  }
}
