/** Uploading and deleting profile photos: a table and an object store that share no
    transaction, used by any number of requests at once.

    A URL that `KeyFromURL` maps to a key is `Stored(key)`; module `StoreUrls` shows that
    the URLs `Put` returns for photo keys are of that kind.  As elsewhere, an event that
    cannot happen leaves the state as it is.
  */
module PhotoProtocol {
  import opened Common

  type Key = nat
  type Slot = (nat, int) // user and position

  datatype Url = Stored(key: Key) | Foreign(text: nat)

  /** How far `uploadProfilePhoto` has come. */
  datatype Upload = Started | HasRead | HasPut | HasSaved | Refused | Over

  /** How far `deleteProfilePhoto` has come. */
  datatype Removal = Asked | RowGone | Done

  /** `prev` is the URL an upload read as the old one and `replaced` the one its upsert
      overwrote; `taken` is the URL of the row a removal deleted.  `lost` marks an upload
      whose upsert took effect but was reported as an error, and `undone` one that has then
      deleted its own object. */
  datatype Request =
    | Uploading(slot: Slot, key: Key, at: Upload, prev: Option<Url>, replaced: Option<Url>, lost: bool, undone: bool)
    | Removing(slot: Slot, progress: Removal, taken: Option<Url>)

  datatype State = State(rows: map<Slot, Url>, objects: set<Key>, used: set<Key>, requests: map<nat, Request>)

  datatype Outcome = Success | Failure | LostReply

  datatype Event =
    | StartUpload(r: nat, slot: Slot, key: Key)
    | ReadOld(r: nat, ok: bool)
    | PutObject(r: nat, ok: bool, written: bool)
    | UpsertRow(r: nat, outcome: Outcome)
    | DeleteOld(r: nat, ok: bool)
    | DeleteOwn(r: nat, ok: bool)
    | StartRemoval(r: nat, slot: Slot)
    | DeleteRow(r: nat, outcome: Outcome)
    | PurgeObject(r: nat, ok: bool)
    | Crash(r: nat)

  function KeyFromURL(url: Url): Option<Key> {
    if url.Stored? then Some(url.key) else None
  }

  /** removeProfilePhotoObject; the store may fail and the error is ignored. */
  function Purge(objects: set<Key>, url: Url, ok: bool): set<Key> {
    var key := KeyFromURL(url);
    if key.Some? && ok then objects - {key.value} else objects
  }

  /** The URL stored at `slot`, if there is one. */
  function At(rows: map<Slot, Url>, slot: Slot): Option<Url> {
    if slot in rows then Some(rows[slot]) else None
  }

  function StepUpload(s: State, r: nat, e: Event): State
    requires r in s.requests && s.requests[r].Uploading?
  {
    var q := s.requests[r];
    match (q.at, e)
    case (Started, ReadOld(_, ok)) =>
      s.(requests := s.requests[r := q.(at := HasRead, prev := if ok then At(s.rows, q.slot) else None)])
    case (HasRead, PutObject(_, ok, written)) =>
      s.(objects := if ok || written then s.objects + {q.key} else s.objects,
         requests := s.requests[r := q.(at := if ok then HasPut else Over)])
    case (HasPut, UpsertRow(_, outcome)) =>
      s.(rows := if outcome.Failure? then s.rows else s.rows[q.slot := Stored(q.key)],
         requests := s.requests[r := q.(at := if outcome.Success? then HasSaved else Refused,
                                        replaced := if outcome.Failure? then None else At(s.rows, q.slot),
                                        lost := outcome.LostReply?)])
    case (HasSaved, DeleteOld(_, ok)) =>
      s.(objects := if q.prev.Some? then Purge(s.objects, q.prev.value, ok) else s.objects,
         requests := s.requests[r := q.(at := Over)])
    case (Refused, DeleteOwn(_, ok)) =>
      s.(objects := if ok then s.objects - {q.key} else s.objects,
         requests := s.requests[r := q.(at := Over, undone := ok)])
    case (_, Crash(_)) => s.(requests := s.requests[r := q.(at := Over)])
    case _ => s
  }

  function StepRemoval(s: State, r: nat, e: Event): State
    requires r in s.requests && s.requests[r].Removing?
  {
    var q := s.requests[r];
    match (q.progress, e)
    case (Asked, DeleteRow(_, outcome)) =>
      if outcome.Failure? || q.slot !in s.rows then s.(requests := s.requests[r := q.(progress := Done)])
      else
        s.(rows := map p | p in s.rows && p != q.slot :: s.rows[p],
           requests := s.requests[r := q.(progress := if outcome.Success? then RowGone else Done,
                                          taken := At(s.rows, q.slot))])
    case (RowGone, PurgeObject(_, ok)) =>
      s.(objects := if q.taken.Some? then Purge(s.objects, q.taken.value, ok) else s.objects,
         requests := s.requests[r := q.(progress := Done)])
    case (_, Crash(_)) => s.(requests := s.requests[r := q.(progress := Done)])
    case _ => s
  }

  function Step(s: State, e: Event): State {
    match e
    case StartUpload(r, slot, key) =>
      if r in s.requests || key in s.used then s
      else
        s.(used := s.used + {key},
           requests := s.requests[r := Uploading(slot, key, Started, None, None, false, false)])
    case StartRemoval(r, slot) =>
      if r in s.requests then s else s.(requests := s.requests[r := Removing(slot, Asked, None)])
    case _ =>
      if e.r !in s.requests then s
      else if s.requests[e.r].Uploading? then StepUpload(s, e.r, e) else StepRemoval(s, e.r, e)
  }

  function After(s: State, run: seq<Event>): State {
    if run == [] then s else Step(After(s, run[..|run| - 1]), run[|run| - 1])
  }

  /** A table and store at rest: each stored row has its own live object. */
  ghost predicate AtRest(s: State) {
    && s.requests == map[] && s.objects <= s.used
    && (forall p | p in s.rows && s.rows[p].Stored? :: s.rows[p].key in s.objects)
    && (forall p, q | p in s.rows && q in s.rows && s.rows[p].Stored? && s.rows[p] == s.rows[q] :: p == q)
  }

  // ---------- The invariant ----------

  predicate BeforeUpsert(q: Request) {
    q.Uploading? && (q.at.Started? || q.at.HasRead? || q.at.HasPut?)
  }

  /** No upsert will ever write `key` from now on. */
  ghost predicate Settled(s: State, key: Key) {
    key in s.used && forall r | r in s.requests && BeforeUpsert(s.requests[r]) :: s.requests[r].key != key
  }

  ghost predicate OnlyAt(rows: map<Slot, Url>, key: Key, slot: Slot) {
    forall p | p in rows && rows[p] == Stored(key) :: p == slot
  }

  ghost predicate Nowhere(rows: map<Slot, Url>, key: Key) {
    forall p | p in rows :: rows[p] != Stored(key)
  }

  /** What each request may still do is harmless: a key it will delete as the old one is in
      no row, and its own key is in no row before its upsert. */
  ghost predicate RequestOk(s: State, q: Request) {
    if q.Uploading? then
      && q.key in s.used && OnlyAt(s.rows, q.key, q.slot)
      && (BeforeUpsert(q) || (q.at.Refused? && !q.lost) ==> Nowhere(s.rows, q.key))
      && (q.at.HasPut? ==> q.key in s.objects)
      && (q.undone ==> q.key !in s.objects && q.at.Over? && (!q.lost ==> Nowhere(s.rows, q.key)))
      && (BeforeUpsert(q) ==> !q.lost)
      && (q.prev.Some? && q.prev.value.Stored? ==>
            Settled(s, q.prev.value.key) && OnlyAt(s.rows, q.prev.value.key, q.slot) &&
            (q.at.HasSaved? ==> Nowhere(s.rows, q.prev.value.key)))
    else
      q.progress.RowGone? && q.taken.Some? && q.taken.value.Stored? ==>
        Settled(s, q.taken.value.key) && Nowhere(s.rows, q.taken.value.key)
  }

  ghost predicate RequestsOk(s: State) {
    forall r | r in s.requests :: RequestOk(s, s.requests[r])
  }

  ghost predicate KeysApart(s: State) {
    forall r, q | r in s.requests && q in s.requests && s.requests[r].Uploading? && s.requests[q].Uploading? &&
                  s.requests[r].key == s.requests[q].key :: r == q
  }

  /** Upload `r` of `key` deleted its object though its row had been written. */
  predicate UndoneInError(s: State, r: nat, key: Key) {
    && r in s.requests && s.requests[r].Uploading? && s.requests[r].key == key
    && s.requests[r].lost && s.requests[r].undone
  }

  ghost predicate RowsOk(s: State) {
    forall p | p in s.rows && s.rows[p].Stored? ::
      var key := s.rows[p].key;
      && Settled(s, key) && OnlyAt(s.rows, key, p)
      && (key in s.objects || exists r :: UndoneInError(s, r, key))
  }

  ghost predicate Inv(s: State) {
    s.objects <= s.used && RequestsOk(s) && KeysApart(s) && RowsOk(s)
  }

  // ---------- Every step keeps it ----------

  lemma AtRestInv(s: State)
    requires AtRest(s)
    ensures Inv(s)
  {
  }

  lemma OwnUploadOk(s: State, r: nat, e: Event)
    requires Inv(s) && r in s.requests && s.requests[r].Uploading?
    ensures RequestOk(StepUpload(s, r, e), StepUpload(s, r, e).requests[r])
  {
    assert RequestOk(s, s.requests[r]);
  }

  lemma OtherRequestOk(s: State, r: nat, e: Event, i: nat)
    requires RequestsOk(s) && KeysApart(s) && r in s.requests && s.requests[r].Uploading? && i in s.requests && i != r
    ensures RequestOk(StepUpload(s, r, e), s.requests[i])
  {
    assert RequestOk(s, s.requests[r]) && RequestOk(s, s.requests[i]);
  }

  lemma UploadStepRequests(s: State, r: nat, e: Event)
    requires Inv(s) && r in s.requests && s.requests[r].Uploading?
    ensures RequestsOk(StepUpload(s, r, e))
  {
    var s' := StepUpload(s, r, e);
    forall i | i in s'.requests ensures RequestOk(s', s'.requests[i]) {
      if i == r { OwnUploadOk(s, r, e); } else { OtherRequestOk(s, r, e, i); }
    }
  }

  lemma UploadStepSettled(s: State, r: nat, e: Event, p: Slot)
    requires Inv(s) && r in s.requests && s.requests[r].Uploading?
    requires var s' := StepUpload(s, r, e); p in s'.rows && s'.rows[p].Stored?
    ensures var s' := StepUpload(s, r, e); Settled(s', s'.rows[p].key) && OnlyAt(s'.rows, s'.rows[p].key, p)
  {
    assert RequestOk(s, s.requests[r]);
  }

  lemma UploadStepLive(s: State, r: nat, e: Event, p: Slot)
    requires Inv(s) && r in s.requests && s.requests[r].Uploading?
    requires var s' := StepUpload(s, r, e); p in s'.rows && s'.rows[p].Stored? && s'.rows[p].key !in s'.objects
    ensures var s' := StepUpload(s, r, e); exists i :: UndoneInError(s', i, s'.rows[p].key)
  {
    var s' := StepUpload(s, r, e);
    var key := s'.rows[p].key;
    assert RequestOk(s, s.requests[r]);
    if p in s.rows && s.rows[p] == s'.rows[p] && key !in s.objects {
      var i :| UndoneInError(s, i, key);
      assert UndoneInError(s', i, key);
    } else {
      assert UndoneInError(s', r, key);
    }
  }

  lemma UploadStepRows(s: State, r: nat, e: Event)
    requires Inv(s) && r in s.requests && s.requests[r].Uploading?
    ensures RowsOk(StepUpload(s, r, e))
  {
    var s' := StepUpload(s, r, e);
    forall p | p in s'.rows && s'.rows[p].Stored?
      ensures var key := s'.rows[p].key;
              Settled(s', key) && OnlyAt(s'.rows, key, p) &&
              (key in s'.objects || exists i :: UndoneInError(s', i, key))
    {
      UploadStepSettled(s, r, e, p);
      if s'.rows[p].key !in s'.objects { UploadStepLive(s, r, e, p); }
    }
  }

  lemma UploadStepKeeps(s: State, r: nat, e: Event)
    requires Inv(s) && r in s.requests && s.requests[r].Uploading?
    ensures Inv(StepUpload(s, r, e))
  {
    UploadStepRequests(s, r, e);
    UploadStepRows(s, r, e);
    assert RequestOk(s, s.requests[r]);
  }

  lemma RemovalStepRequests(s: State, r: nat, e: Event)
    requires Inv(s) && r in s.requests && s.requests[r].Removing?
    ensures RequestsOk(StepRemoval(s, r, e)) && KeysApart(StepRemoval(s, r, e))
  {
    var s' := StepRemoval(s, r, e);
    assert RequestOk(s, s.requests[r]);
    forall i | i in s'.requests ensures RequestOk(s', s'.requests[i]) {
      assert RequestOk(s, s.requests[i]);
    }
  }

  lemma RemovalStepRows(s: State, r: nat, e: Event)
    requires Inv(s) && r in s.requests && s.requests[r].Removing?
    ensures RowsOk(StepRemoval(s, r, e))
  {
    var s' := StepRemoval(s, r, e);
    assert RequestOk(s, s.requests[r]);
    forall p | p in s'.rows && s'.rows[p].Stored?
      ensures s'.rows[p].key in s'.objects || exists i :: UndoneInError(s', i, s'.rows[p].key)
    {
      var key := s'.rows[p].key;
      if key !in s'.objects {
        var i :| UndoneInError(s, i, key);
        assert UndoneInError(s', i, key);
      }
    }
  }

  lemma RemovalStepKeeps(s: State, r: nat, e: Event)
    requires Inv(s) && r in s.requests && s.requests[r].Removing?
    ensures Inv(StepRemoval(s, r, e))
  {
    RemovalStepRequests(s, r, e);
    RemovalStepRows(s, r, e);
  }

  lemma StartRequests(s: State, e: Event)
    requires Inv(s) && (e.StartUpload? || e.StartRemoval?)
    ensures RequestsOk(Step(s, e)) && KeysApart(Step(s, e))
  {
    var s' := Step(s, e);
    forall i | i in s'.requests ensures RequestOk(s', s'.requests[i]) {
      if i in s.requests { assert RequestOk(s, s.requests[i]); }
    }
    forall i | i in s.requests ensures s.requests[i].Uploading? ==> s.requests[i].key in s.used {
      assert RequestOk(s, s.requests[i]);
    }
  }

  lemma StartRows(s: State, e: Event)
    requires Inv(s) && (e.StartUpload? || e.StartRemoval?)
    ensures RowsOk(Step(s, e))
  {
    var s' := Step(s, e);
    forall p | p in s'.rows && s'.rows[p].Stored?
      ensures s'.rows[p].key in s'.objects || exists i :: UndoneInError(s', i, s'.rows[p].key)
    {
      var key := s'.rows[p].key;
      if key !in s'.objects {
        var i :| UndoneInError(s, i, key);
        assert UndoneInError(s', i, key);
      }
    }
  }

  lemma StartKeeps(s: State, e: Event)
    requires Inv(s) && (e.StartUpload? || e.StartRemoval?)
    ensures Inv(Step(s, e))
  {
    StartRequests(s, e);
    StartRows(s, e);
  }

  lemma {:induction false} RunKeeps(s: State, run: seq<Event>)
    requires AtRest(s)
    ensures Inv(After(s, run))
  {
    if run == [] {
      AtRestInv(s);
    } else {
      var most, e := run[..|run| - 1], run[|run| - 1];
      RunKeeps(s, most);
      var t := After(s, most);
      if e.StartUpload? || e.StartRemoval? {
        StartKeeps(t, e);
      } else if e.r in t.requests {
        if t.requests[e.r].Uploading? { UploadStepKeeps(t, e.r, e); } else { RemovalStepKeeps(t, e.r, e); }
      }
    }
  }

  // ---------- What holds in every interleaving ----------

  /** Whatever uploads, deletions, failures and crashes overlap, a stored photo row is
      without its object in one case only: its upload was told that the upsert failed
      though the row had been written, and then deleted the object. */
  lemma DeadExactly(s: State, run: seq<Event>, p: Slot)
    requires AtRest(s)
    requires var t := After(s, run); p in t.rows && t.rows[p].Stored?
    ensures var t := After(s, run);
            t.rows[p].key !in t.objects <==> exists r :: UndoneInError(t, r, t.rows[p].key)
  {
    RunKeeps(s, run);
    var t := After(s, run);
    forall r | UndoneInError(t, r, t.rows[p].key) ensures t.rows[p].key !in t.objects {
      assert RequestOk(t, t.requests[r]);
    }
  }

  /** As long as an error report means that nothing was written, every row has its object. */
  lemma RowsAreLive(s: State, run: seq<Event>, p: Slot)
    requires AtRest(s) && forall i | 0 <= i < |run| && run[i].UpsertRow? :: !run[i].outcome.LostReply?
    requires var t := After(s, run); p in t.rows && t.rows[p].Stored?
    ensures After(s, run).rows[p].key in After(s, run).objects
  {
    DeadExactly(s, run, p);
    NothingLost(s, run);
  }

  predicate NoneLost(s: State) {
    forall r | r in s.requests && s.requests[r].Uploading? :: !s.requests[r].lost
  }

  lemma StepLosesNothing(s: State, e: Event)
    requires NoneLost(s) && (e.UpsertRow? ==> !e.outcome.LostReply?)
    ensures NoneLost(Step(s, e))
  {
  }

  lemma {:induction false} NothingLost(s: State, run: seq<Event>)
    requires s.requests == map[] && forall i | 0 <= i < |run| && run[i].UpsertRow? :: !run[i].outcome.LostReply?
    ensures NoneLost(After(s, run))
  {
    if run == [] {
    } else {
      var most := run[..|run| - 1];
      assert forall i | 0 <= i < |most| :: most[i] == run[i];
      NothingLost(s, most);
      StepLosesNothing(After(s, most), run[|run| - 1]);
    }
  }
}
