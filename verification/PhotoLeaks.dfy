/** Which overlapping uploads and deletions leave an object that no row refers to, when
    nothing fails. */
module PhotoLeaks {
  import opened Common
  import opened PhotoProtocol
  import opened PhotoService

  predicate Succeeds(e: Event) {
    match e
    case StartUpload(_, _, _) => true
    case StartRemoval(_, _) => true
    case ReadOld(_, ok) => ok
    case PutObject(_, ok, _) => ok
    case UpsertRow(_, outcome) => outcome.Success?
    case DeleteOld(_, ok) => ok
    case DeleteOwn(_, ok) => ok
    case DeleteRow(_, outcome) => outcome.Success?
    case PurgeObject(_, ok) => ok
    case Crash(_) => false
  }

  ghost predicate FailureFree(run: seq<Event>) {
    forall i | 0 <= i < |run| :: Succeeds(run[i])
  }

  /** Every request has ended. */
  ghost predicate AllEnded(s: State) {
    forall r | r in s.requests ::
      if s.requests[r].Uploading? then s.requests[r].at.Over? else s.requests[r].progress.Done?
  }

  /** The upsert of upload `r` overwrote the row of `k`. */
  predicate Overwrote(s: State, r: nat, k: Key) {
    r in s.requests && s.requests[r].Uploading? && s.requests[r].replaced == Some(Stored(k))
  }

  /** Upload `r` read the URL of `k` as the old one. */
  predicate ReadAsOld(s: State, r: nat, k: Key) {
    r in s.requests && s.requests[r].Uploading? && s.requests[r].prev == Some(Stored(k))
  }

  predicate Reader(s: State, r: nat, k: Key) {
    ReadAsOld(s, r, k) && s.requests[r].at.Over?
  }

  predicate Took(s: State, r: nat, k: Key) {
    r in s.requests && s.requests[r].Removing? && s.requests[r].taken == Some(Stored(k))
  }

  /** Request `r` is about to refer a row to `k`, or to delete the object of `k`. */
  predicate Holding(s: State, r: nat, k: Key) {
    && r in s.requests
    && if s.requests[r].Uploading? then s.requests[r].at.HasPut? && s.requests[r].key == k
       else s.requests[r].progress.RowGone? && s.requests[r].taken == Some(Stored(k))
  }

  predicate HeldAt(rows: map<Slot, Url>, p: Slot, k: Key) {
    p in rows && rows[p] == Stored(k)
  }

  // ---------- The invariant ----------

  /** Nothing has failed, and a request has not replaced or taken a row before its time. */
  ghost predicate Calm(s: State) {
    forall r | r in s.requests ::
      var q := s.requests[r];
      if q.Uploading? then !q.lost && !q.undone && !q.at.Refused? && (BeforeUpsert(q) ==> q.replaced.None?)
      else q.progress.Asked? ==> q.taken.None?
  }

  /** Why the object of `k` is stored. */
  ghost predicate Accounted(s: State, k: Key) {
    (exists p :: HeldAt(s.rows, p, k)) || (exists r :: Holding(s, r, k)) || (exists r :: Overwrote(s, r, k))
  }

  ghost predicate AllAccounted(s: State) {
    forall k | k in s.objects :: Accounted(s, k)
  }

  /** An upload that has ended has deleted what it read. */
  ghost predicate ReadersDone(s: State) {
    forall r, k | Reader(s, r, k) :: k !in s.objects
  }

  ghost predicate HasReader(s: State, k: Key) {
    exists r :: Reader(s, r, k)
  }

  /** Only a reader deletes what an upsert overwrote. */
  ghost predicate GoneWereRead(s: State) {
    forall r, k | Overwrote(s, r, k) && k !in s.objects :: HasReader(s, k)
  }

  /** A key leaves its row once, and for good. */
  ghost predicate LeftOnce(s: State) {
    && (forall r, k | Overwrote(s, r, k) || Took(s, r, k) :: Settled(s, k) && Nowhere(s.rows, k))
    && (forall r, q, k | Overwrote(s, r, k) :: !Took(s, q, k))
  }

  ghost predicate LeakInv(s: State) {
    Calm(s) && AllAccounted(s) && ReadersDone(s) && GoneWereRead(s) && LeftOnce(s)
  }

  // ---------- Every step without a failure keeps it ----------

  lemma RowLive(s: State, p: Slot)
    requires RowsOk(s) && Calm(s) && p in s.rows && s.rows[p].Stored?
    ensures s.rows[p].key in s.objects && Settled(s, s.rows[p].key) && OnlyAt(s.rows, s.rows[p].key, p)
  {
  }

  lemma StepCalm(s: State, e: Event)
    requires Calm(s) && Succeeds(e)
    ensures Calm(Step(s, e))
  {
  }

  /** What a request remembers, it remembers. */
  lemma StepRemembers(s: State, e: Event)
    requires Succeeds(e) && Calm(s)
    ensures forall r, k | Overwrote(s, r, k) :: Overwrote(Step(s, e), r, k)
    ensures forall r, k | Reader(s, r, k) :: Reader(Step(s, e), r, k)
  {
  }

  /** What a step remembers anew was in a row. */
  lemma NewlyLeft(s: State, e: Event, r: nat, k: Key)
    requires Succeeds(e) && (Overwrote(Step(s, e), r, k) || Took(Step(s, e), r, k))
    ensures Overwrote(s, r, k) || Took(s, r, k) || exists p :: HeldAt(s.rows, p, k)
    ensures Overwrote(s, r, k) || Took(s, r, k) || (e.r == r && (e.UpsertRow? || e.DeleteRow?))
    ensures Overwrote(Step(s, e), r, k) && Took(s, r, k) ==> false
  {
    if !(Overwrote(s, r, k) || Took(s, r, k)) {
      assert HeldAt(s.rows, s.requests[r].slot, k);
    }
  }

  /** A key that is in no row and that no upsert will write stays so. */
  lemma StaysOut(s: State, e: Event, k: Key)
    requires Settled(s, k) && Nowhere(s.rows, k)
    ensures Settled(Step(s, e), k) && Nowhere(Step(s, e).rows, k)
  {
  }

  /** A key that a step takes out of its row is then in no row. */
  lemma LeavesRow(s: State, e: Event, r: nat, k: Key)
    requires RowsOk(s) && Calm(s) && Succeeds(e)
    requires Overwrote(Step(s, e), r, k) || Took(Step(s, e), r, k)
    requires !Overwrote(s, r, k) && !Took(s, r, k)
    ensures Settled(Step(s, e), k) && Nowhere(Step(s, e).rows, k)
  {
    var p := s.requests[r].slot;
    RowLive(s, p);
  }

  lemma StepLeftOnce(s: State, e: Event)
    requires RowsOk(s) && Calm(s) && LeftOnce(s) && Succeeds(e)
    ensures LeftOnce(Step(s, e))
  {
    var s' := Step(s, e);
    forall r, k | Overwrote(s', r, k) || Took(s', r, k) ensures Settled(s', k) && Nowhere(s'.rows, k) {
      if Overwrote(s, r, k) || Took(s, r, k) { StaysOut(s, e, k); } else { LeavesRow(s, e, r, k); }
    }
    forall r, q, k | Overwrote(s', r, k) ensures !Took(s', q, k) {
      if Took(s', q, k) {
        NewlyLeft(s, e, r, k);
        NewlyLeft(s, e, q, k);
      }
    }
  }

  lemma RowAccounted(s: State, e: Event, p: Slot, k: Key)
    requires Calm(s) && Succeeds(e) && HeldAt(s.rows, p, k)
    ensures Accounted(Step(s, e), k)
  {
    var s' := Step(s, e);
    if !HeldAt(s'.rows, p, k) { assert Overwrote(s', e.r, k) || Holding(s', e.r, k); }
  }

  lemma HolderAccounted(s: State, e: Event, r: nat, k: Key)
    requires Calm(s) && Succeeds(e) && Holding(s, r, k) && k in Step(s, e).objects
    ensures Accounted(Step(s, e), k)
  {
    var s' := Step(s, e);
    if !Holding(s', r, k) { assert HeldAt(s'.rows, s.requests[r].slot, k); }
  }

  lemma StepAccounted(s: State, e: Event, k: Key)
    requires Calm(s) && Succeeds(e) && k in Step(s, e).objects && (k in s.objects ==> Accounted(s, k))
    ensures Accounted(Step(s, e), k)
  {
    if k !in s.objects {
      assert Holding(Step(s, e), e.r, k);
    } else if p :| HeldAt(s.rows, p, k) {
      RowAccounted(s, e, p, k);
    } else if r :| Holding(s, r, k) {
      HolderAccounted(s, e, r, k);
    } else {
      var r :| Overwrote(s, r, k);
      StepRemembers(s, e);
      assert Overwrote(Step(s, e), r, k);
    }
  }

  lemma StepReaders(s: State, e: Event)
    requires RequestsOk(s) && Calm(s) && ReadersDone(s) && Succeeds(e)
    ensures ReadersDone(Step(s, e))
  {
    var s' := Step(s, e);
    forall r, k | Reader(s', r, k) ensures k !in s'.objects {
      assert RequestOk(s, s.requests[r]);
      if Reader(s, r, k) { assert Settled(s, k); }
    }
  }

  /** Only a reader deletes an object that an upsert took from its row. */
  lemma Deleted(s: State, e: Event, r: nat, k: Key)
    requires Calm(s) && LeftOnce(s) && Succeeds(e) && Overwrote(s, r, k)
    requires k in s.objects && k !in Step(s, e).objects
    ensures Reader(Step(s, e), e.r, k)
  {
    assert !Took(s, e.r, k);
  }

  lemma StepGone(s: State, e: Event)
    requires RowsOk(s) && Calm(s) && LeftOnce(s) && GoneWereRead(s) && Succeeds(e)
    ensures GoneWereRead(Step(s, e))
  {
    var s' := Step(s, e);
    forall r, k | Overwrote(s', r, k) && k !in s'.objects ensures HasReader(s', k) {
      if Overwrote(s, r, k) {
        if k in s.objects {
          Deleted(s, e, r, k);
        } else {
          var v :| Reader(s, v, k);
          StepRemembers(s, e);
          assert Reader(s', v, k);
        }
      } else {
        RowLive(s, s.requests[r].slot);
      }
    }
  }

  lemma StepKeeps(s: State, e: Event)
    requires Inv(s) && LeakInv(s) && Succeeds(e)
    ensures LeakInv(Step(s, e))
  {
    StepCalm(s, e);
    StepLeftOnce(s, e);
    StepReaders(s, e);
    StepGone(s, e);
    forall k | k in Step(s, e).objects ensures Accounted(Step(s, e), k) {
      StepAccounted(s, e, k);
    }
  }

  lemma {:induction false} RunKeeps(s: State, run: seq<Event>)
    requires AtRest(s) && NoLeak(s.rows, s.objects) && FailureFree(run)
    ensures Inv(After(s, run)) && LeakInv(After(s, run))
  {
    PhotoProtocol.RunKeeps(s, run);
    if run == [] {
      forall k | k in s.objects ensures Accounted(s, k) {
        var p :| p in s.rows && s.rows[p].Stored? && s.rows[p].key == k;
        assert HeldAt(s.rows, p, k);
      }
    } else {
      var most := run[..|run| - 1];
      assert forall i | 0 <= i < |most| :: most[i] == run[i];
      RunKeeps(s, most);
      StepKeeps(After(s, most), run[|run| - 1]);
    }
  }

  // ---------- The exact condition ----------

  ghost predicate WasRead(s: State, k: Key) {
    exists v :: ReadAsOld(s, v, k)
  }

  lemma NoLeakMeansRead(s: State, r: nat, k: Key)
    requires LeakInv(s) && NoLeak(s.rows, s.objects) && Overwrote(s, r, k)
    ensures WasRead(s, k)
  {
    assert k !in s.objects;
    var v :| Reader(s, v, k);
    assert ReadAsOld(s, v, k);
  }

  lemma ReadDoesNotLeak(s: State, k: Key)
    requires LeakInv(s) && AllEnded(s) && k in s.objects
    requires forall r | Overwrote(s, r, k) :: WasRead(s, k)
    ensures k in Referenced(s.rows)
  {
    assert Accounted(s, k);
    if r :| Overwrote(s, r, k) {
      var v :| ReadAsOld(s, v, k);
      assert Reader(s, v, k);
      assert false;
    } else {
      var p :| HeldAt(s.rows, p, k);
    }
  }

  /** Let uploads and deletions of any number of requests overlap, without failures, from a
      table and store without a leak, until all have ended.  Then the stored objects are
      exactly those the rows refer to if and only if each object that an upsert took from
      its row had been read as the old one by some upload. */
  lemma NoLeakExactly(s: State, run: seq<Event>)
    requires AtRest(s) && NoLeak(s.rows, s.objects) && FailureFree(run) && AllEnded(After(s, run))
    ensures var t := After(s, run);
            NoLeak(t.rows, t.objects) <==> forall r, k | Overwrote(t, r, k) :: WasRead(t, k)
  {
    var t := After(s, run);
    RunKeeps(s, run);
    if NoLeak(t.rows, t.objects) {
      forall r, k | Overwrote(t, r, k) ensures WasRead(t, k) { NoLeakMeansRead(t, r, k); }
    }
    if forall r, k | Overwrote(t, r, k) :: WasRead(t, k) {
      forall k | k in t.objects ensures k in Referenced(t.rows) { ReadDoesNotLeak(t, k); }
      forall p | p in t.rows && t.rows[p].Stored? ensures t.rows[p].key in t.objects { RowLive(t, p); }
      forall p, q | p in t.rows && q in t.rows && t.rows[p].Stored? && t.rows[p] == t.rows[q] ensures p == q {
        RowLive(t, p);
      }
      assert t.objects == Referenced(t.rows);
    }
  }

  /** Each upsert overwrote what its upload had read. */
  ghost predicate Undisturbed(s: State) {
    forall r | r in s.requests && s.requests[r].Uploading? :: s.requests[r].replaced == s.requests[r].prev
  }

  /** In particular nothing leaks when each upsert overwrote what its upload had read. */
  lemma UndisturbedDoesNotLeak(s: State, run: seq<Event>)
    requires AtRest(s) && NoLeak(s.rows, s.objects) && FailureFree(run) && AllEnded(After(s, run))
    requires Undisturbed(After(s, run))
    ensures var t := After(s, run); NoLeak(t.rows, t.objects)
  {
    var t := After(s, run);
    forall r, k | Overwrote(t, r, k) ensures WasRead(t, k) { assert ReadAsOld(t, r, k); }
    NoLeakExactly(s, run);
  }
}
