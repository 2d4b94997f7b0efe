/** The photo handlers as the code runs them, and what one call does when no other is open. */
module PhotoService {
  import opened Common
  import opened PhotoProtocol

  /** The keys the rows refer to. */
  function Referenced(rows: map<Slot, Url>): set<Key> {
    set p | p in rows && rows[p].Stored? :: rows[p].key
  }

  /** Nothing stored is unused and no row is without its own object. */
  ghost predicate NoLeak(rows: map<Slot, Url>, objects: set<Key>) {
    && objects == Referenced(rows)
    && (forall p, q | p in rows && q in rows && rows[p].Stored? && rows[p] == rows[q] :: p == q)
  }

  /** How the calls to the table and to the store end: `written` is whether a put that is
      reported as failed has written the object, `row` the outcome of the upsert or of the
      row's deletion. */
  datatype Luck = Luck(read: bool, put: bool, written: bool, row: Outcome, delete: bool)

  const ALL_WELL := Luck(true, true, true, Success, true)

  datatype Reply = InvalidPosition | Saved | UploadFailed | SaveFailed | Deleted | NotFound | DeleteFailed

  predicate PositionOk(position: int) {
    0 <= position <= 2
  }

  function RowsAfterUpload(rows: map<Slot, Url>, slot: Slot, key: Key, luck: Luck): map<Slot, Url> {
    if PositionOk(slot.1) && luck.put && !luck.row.Failure? then rows[slot := Stored(key)] else rows
  }

  function ObjectsAfterUpload(rows: map<Slot, Url>, objects: set<Key>, slot: Slot, key: Key, luck: Luck): set<Key> {
    if !PositionOk(slot.1) then objects
    else if !luck.put then if luck.written then objects + {key} else objects
    else if !luck.row.Success? then if luck.delete then objects + {key} - {key} else objects + {key}
    else if luck.read && slot in rows then Purge(objects + {key}, rows[slot], luck.delete)
    else objects + {key}
  }

  function RowsAfterDelete(rows: map<Slot, Url>, slot: Slot, luck: Luck): map<Slot, Url> {
    if PositionOk(slot.1) && !luck.row.Failure? then map p | p in rows && p != slot :: rows[p] else rows
  }

  function ObjectsAfterDelete(rows: map<Slot, Url>, objects: set<Key>, slot: Slot, luck: Luck): set<Key> {
    if PositionOk(slot.1) && luck.row.Success? && slot in rows then Purge(objects, rows[slot], luck.delete)
    else objects
  }

  /** One upload leaves its own row without the object exactly when the upsert took effect,
      was reported as failed, and the handler's clean-up then worked. */
  lemma UploadKillsItsRowExactly(rows: map<Slot, Url>, objects: set<Key>, slot: Slot, key: Key, luck: Luck)
    requires forall p | p in rows :: rows[p] != Stored(key)
    ensures var rows' := RowsAfterUpload(rows, slot, key, luck);
            var objects' := ObjectsAfterUpload(rows, objects, slot, key, luck);
            (slot in rows' && rows'[slot] == Stored(key) && key !in objects') <==>
            PositionOk(slot.1) && luck.put && luck.row.LostReply? && luck.delete
  {
    if slot in rows { assert rows[slot] != Stored(key); }
  }

  /** A call in which all goes well leaves no object unused and no row dead. */
  lemma UploadKeepsNoLeak(rows: map<Slot, Url>, objects: set<Key>, slot: Slot, key: Key)
    requires NoLeak(rows, objects) && key !in objects
    ensures NoLeak(RowsAfterUpload(rows, slot, key, ALL_WELL), ObjectsAfterUpload(rows, objects, slot, key, ALL_WELL))
  {
    var rows' := RowsAfterUpload(rows, slot, key, ALL_WELL);
    var objects' := ObjectsAfterUpload(rows, objects, slot, key, ALL_WELL);
    if PositionOk(slot.1) {
      forall k ensures k in objects' <==> k in Referenced(rows') {
        if k == key {
          assert rows'[slot].key == key;
        } else if k in objects {
          var p :| p in rows && rows[p] == Stored(k);
          assert p != slot ==> rows'[p] == Stored(k);
        }
      }
    }
  }

  lemma DeleteKeepsNoLeak(rows: map<Slot, Url>, objects: set<Key>, slot: Slot)
    requires NoLeak(rows, objects)
    ensures NoLeak(RowsAfterDelete(rows, slot, ALL_WELL), ObjectsAfterDelete(rows, objects, slot, ALL_WELL))
  {
    var rows' := RowsAfterDelete(rows, slot, ALL_WELL);
    var objects' := ObjectsAfterDelete(rows, objects, slot, ALL_WELL);
    forall k ensures k in objects' <==> k in Referenced(rows') {
      if k in objects {
        var p :| p in rows && rows[p] == Stored(k);
        assert p != slot && PositionOk(slot.1) ==> rows'[p] == Stored(k);
      }
    }
  }

  class PhotoStore {
    var rows: map<Slot, Url>
    var objects: set<Key>

    constructor ()
      ensures rows == map[] && objects == {} && NoLeak(rows, objects)
    {
      rows, objects := map[], {};
    }

    method RemoveProfilePhotoObject(url: Url, ok: bool)
      modifies this`objects
      ensures objects == Purge(old(objects), url, ok)
    {
      var key := KeyFromURL(url);
      if key.None? { return; }
      if ok { objects := objects - {key.value}; }
    }

    method UploadProfilePhoto(slot: Slot, key: Key, luck: Luck) returns (reply: Reply)
      modifies this
      ensures rows == RowsAfterUpload(old(rows), slot, key, luck)
      ensures objects == ObjectsAfterUpload(old(rows), old(objects), slot, key, luck)
      ensures luck == ALL_WELL && NoLeak(old(rows), old(objects)) && key !in old(objects) ==> NoLeak(rows, objects)
      ensures reply == if !PositionOk(slot.1) then InvalidPosition
                       else if !luck.put then UploadFailed
                       else if !luck.row.Success? then SaveFailed
                       else Saved
    {
      if NoLeak(rows, objects) && key !in objects { UploadKeepsNoLeak(rows, objects, slot, key); }
      if slot.1 < 0 || slot.1 > 2 { return InvalidPosition; }
      var prev := if luck.read && slot in rows then Some(rows[slot]) else None;
      if luck.put || luck.written { objects := objects + {key}; }
      if !luck.put { return UploadFailed; }
      if !luck.row.Failure? { rows := rows[slot := Stored(key)]; }
      if !luck.row.Success? {
        if luck.delete { objects := objects - {key}; }
        return SaveFailed;
      }
      if prev.Some? { RemoveProfilePhotoObject(prev.value, luck.delete); }
      return Saved;
    }

    method DeleteProfilePhoto(slot: Slot, luck: Luck) returns (reply: Reply)
      modifies this
      ensures rows == RowsAfterDelete(old(rows), slot, luck)
      ensures objects == ObjectsAfterDelete(old(rows), old(objects), slot, luck)
      ensures luck == ALL_WELL && NoLeak(old(rows), old(objects)) ==> NoLeak(rows, objects)
      ensures reply == if !PositionOk(slot.1) then InvalidPosition
                       else if !luck.row.Success? then DeleteFailed
                       else if slot !in old(rows) then NotFound
                       else Deleted
    {
      if NoLeak(rows, objects) { DeleteKeepsNoLeak(rows, objects, slot); }
      if slot.1 < 0 || slot.1 > 2 { return InvalidPosition; }
      if luck.row.Failure? { return DeleteFailed; }
      if slot !in rows {
        assert rows == map p | p in rows && p != slot :: rows[p];
        return if luck.row.Success? then NotFound else DeleteFailed;
      }
      var url := rows[slot];
      rows := map p | p in rows && p != slot :: rows[p];
      if luck.row.LostReply? { return DeleteFailed; }
      RemoveProfilePhotoObject(url, luck.delete);
      return Deleted;
    }
  }

  // ---------- Calls one after another ----------

  datatype Call = Upload(slot: Slot, key: Key) | Delete(slot: Slot)

  /** What calls in which all goes well leave of an empty table and an empty store. */
  function Served(calls: seq<Call>): (map<Slot, Url>, set<Key>) {
    if calls == [] then (map[], {})
    else
      var (rows, objects) := Served(calls[..|calls| - 1]);
      match calls[|calls| - 1]
      case Upload(slot, key) =>
        (RowsAfterUpload(rows, slot, key, ALL_WELL), ObjectsAfterUpload(rows, objects, slot, key, ALL_WELL))
      case Delete(slot) => (RowsAfterDelete(rows, slot, ALL_WELL), ObjectsAfterDelete(rows, objects, slot, ALL_WELL))
  }

  /** No two uploads draw the same key. */
  ghost predicate FreshKeys(calls: seq<Call>) {
    forall i, j | 0 <= i < j < |calls| && calls[i].Upload? && calls[j].Upload? :: calls[i].key != calls[j].key
  }

  /** In every serial run without failures the stored objects are exactly those that the
      rows refer to, each by one row. */
  lemma {:induction false} SerialRunsDoNotLeak(calls: seq<Call>)
    requires FreshKeys(calls)
    ensures var (rows, objects) := Served(calls); NoLeak(rows, objects)
    ensures forall k | k in Served(calls).1 :: exists i :: 0 <= i < |calls| && calls[i].Upload? && calls[i].key == k
  {
    if calls == [] {
    } else {
      var n := |calls| - 1;
      var most := calls[..n];
      SerialRunsDoNotLeak(most);
      var (rows, objects) := Served(most);
      match calls[n] {
        case Upload(slot, key) =>
          assert key !in objects;
          UploadKeepsNoLeak(rows, objects, slot, key);
        case Delete(slot) => DeleteKeepsNoLeak(rows, objects, slot);
      }
      forall k | k in Served(calls).1 ensures exists i :: 0 <= i < |calls| && calls[i].Upload? && calls[i].key == k {
        if k in objects {
          var i :| 0 <= i < |most| && most[i].Upload? && most[i].key == k;
          assert calls[i] == most[i];
        } else {
          assert calls[n].key == k;
        }
      }
    }
  }

  // ---------- One call is one run of the protocol ----------

  function UploadEvents(r: nat, slot: Slot, key: Key, luck: Luck): seq<Event> {
    [StartUpload(r, slot, key), ReadOld(r, luck.read), PutObject(r, luck.put, luck.written),
     UpsertRow(r, luck.row), DeleteOld(r, luck.delete), DeleteOwn(r, luck.delete)]
  }

  function DeleteEvents(r: nat, slot: Slot, luck: Luck): seq<Event> {
    [StartRemoval(r, slot), DeleteRow(r, luck.row), PurgeObject(r, luck.delete)]
  }

  lemma AfterSix(s: State, run: seq<Event>)
    requires |run| == 6
    ensures After(s, run) == Step(Step(Step(Step(Step(Step(s, run[0]), run[1]), run[2]), run[3]), run[4]), run[5])
  {
    assert run[..5][..4] == run[..4] && run[..4][..3] == run[..3] && run[..3][..2] == run[..2];
    assert run[..2][..1] == run[..1] && run[..1][..0] == [];
    assert After(s, run[..1]) == Step(s, run[0]);
    assert After(s, run[..2]) == Step(After(s, run[..1]), run[1]);
    assert After(s, run[..3]) == Step(After(s, run[..2]), run[2]);
    assert After(s, run[..4]) == Step(After(s, run[..3]), run[3]);
  }

  lemma AfterThree(s: State, run: seq<Event>)
    requires |run| == 3
    ensures After(s, run) == Step(Step(Step(s, run[0]), run[1]), run[2])
  {
    assert run[..2][..1] == run[..1] && run[..1][..0] == [];
    assert After(s, run[..1]) == Step(s, run[0]);
  }

  lemma {:induction false} AfterConcat(s: State, run: seq<Event>, more: seq<Event>)
    ensures After(s, run + more) == After(After(s, run), more)
    decreases |more|
  {
    if more == [] {
      assert run + more == run;
    } else {
      AfterConcat(s, run, more[..|more| - 1]);
      assert (run + more)[..|run + more| - 1] == run + more[..|more| - 1];
    }
  }

  /** An upload that starts, reads and puts. */
  lemma ThreeSteps(s: State, r: nat, slot: Slot, key: Key, luck: Luck)
    requires r !in s.requests && key !in s.used
    ensures var t := Step(Step(Step(s, StartUpload(r, slot, key)), ReadOld(r, luck.read)),
                          PutObject(r, luck.put, luck.written));
            var prev := if luck.read then At(s.rows, slot) else None;
            && t.rows == s.rows && t.objects == (if luck.put || luck.written then s.objects + {key} else s.objects)
            && r in t.requests
            && t.requests[r] == Uploading(slot, key, if luck.put then HasPut else Over, prev, None, false, false)
  {
  }

  /** The request after its first three events. */
  lemma UploadBegins(s: State, r: nat, slot: Slot, key: Key, luck: Luck)
    requires r !in s.requests && key !in s.used
    ensures var t := After(s, UploadEvents(r, slot, key, luck)[..3]);
            var prev := if luck.read then At(s.rows, slot) else None;
            && t.rows == s.rows && t.objects == (if luck.put || luck.written then s.objects + {key} else s.objects)
            && r in t.requests
            && t.requests[r] == Uploading(slot, key, if luck.put then HasPut else Over, prev, None, false, false)
  {
    AfterThree(s, UploadEvents(r, slot, key, luck)[..3]);
    ThreeSteps(s, r, slot, key, luck);
  }

  predicate Handled(s: State, u: State, slot: Slot, key: Key, luck: Luck) {
    && u.rows == RowsAfterUpload(s.rows, slot, key, luck)
    && u.objects == ObjectsAfterUpload(s.rows, s.objects, slot, key, luck)
  }

  /** An upload that has put its object, in a state that is otherwise that of `s`. */
  predicate Pending(s: State, t: State, r: nat, slot: Slot, key: Key, luck: Luck) {
    && t.rows == s.rows && t.objects == s.objects + {key} && r in t.requests
    && t.requests[r] ==
       Uploading(slot, key, HasPut, if luck.read then At(s.rows, slot) else None, None, false, false)
  }

  lemma SaveEnds(s: State, t: State, r: nat, slot: Slot, key: Key, luck: Luck)
    requires luck.put && PositionOk(slot.1) && Pending(s, t, r, slot, key, luck) && luck.row.Success?
    ensures var u := Step(Step(Step(t, UpsertRow(r, luck.row)), DeleteOld(r, luck.delete)), DeleteOwn(r, luck.delete));
            Handled(s, u, slot, key, luck)
  {
  }

  lemma RefusalEnds(s: State, t: State, r: nat, slot: Slot, key: Key, luck: Luck)
    requires luck.put && PositionOk(slot.1) && Pending(s, t, r, slot, key, luck) && !luck.row.Success?
    ensures var u := Step(Step(Step(t, UpsertRow(r, luck.row)), DeleteOld(r, luck.delete)), DeleteOwn(r, luck.delete));
            Handled(s, u, slot, key, luck)
  {
  }

  lemma OverIsOver(t: State, r: nat, outcome: Outcome, ok: bool)
    requires r in t.requests && t.requests[r].Uploading? && t.requests[r].at.Over?
    ensures Step(Step(Step(t, UpsertRow(r, outcome)), DeleteOld(r, ok)), DeleteOwn(r, ok)) == t
  {
    assert Step(t, UpsertRow(r, outcome)) == t && Step(t, DeleteOld(r, ok)) == t;
  }

  /** A request that runs alone does in the protocol what the handler does. */
  lemma UploadIsRun(s: State, r: nat, slot: Slot, key: Key, luck: Luck)
    requires r !in s.requests && key !in s.used && PositionOk(slot.1)
    ensures var t := After(s, UploadEvents(r, slot, key, luck));
            t.rows == RowsAfterUpload(s.rows, slot, key, luck) &&
            t.objects == ObjectsAfterUpload(s.rows, s.objects, slot, key, luck)
  {
    var es := UploadEvents(r, slot, key, luck);
    var t := After(s, es[..3]);
    UploadBegins(s, r, slot, key, luck);
    LastThree(s, es);
    if !luck.put {
      OverIsOver(t, r, luck.row, luck.delete);
    } else if luck.row.Success? {
      SaveEnds(s, t, r, slot, key, luck);
    } else {
      RefusalEnds(s, t, r, slot, key, luck);
    }
  }

  lemma LastThree(s: State, es: seq<Event>)
    requires |es| == 6
    ensures After(s, es) == Step(Step(Step(After(s, es[..3]), es[3]), es[4]), es[5])
  {
    assert es == es[..3] + es[3..];
    AfterConcat(s, es[..3], es[3..]);
    AfterThree(After(s, es[..3]), es[3..]);
  }

  lemma DeleteSteps(s: State, r: nat, slot: Slot, luck: Luck)
    requires r !in s.requests && PositionOk(slot.1)
    ensures var t := Step(Step(Step(s, StartRemoval(r, slot)), DeleteRow(r, luck.row)), PurgeObject(r, luck.delete));
            t.rows == RowsAfterDelete(s.rows, slot, luck) &&
            t.objects == ObjectsAfterDelete(s.rows, s.objects, slot, luck)
  {
    if slot !in s.rows {
      assert s.rows == map p | p in s.rows && p != slot :: s.rows[p];
    }
  }

  lemma DeleteIsRun(s: State, r: nat, slot: Slot, luck: Luck)
    requires r !in s.requests && PositionOk(slot.1)
    ensures var t := After(s, DeleteEvents(r, slot, luck));
            t.rows == RowsAfterDelete(s.rows, slot, luck) &&
            t.objects == ObjectsAfterDelete(s.rows, s.objects, slot, luck)
  {
    AfterThree(s, DeleteEvents(r, slot, luck));
    DeleteSteps(s, r, slot, luck);
  }

  /** A lost reply does kill a row: the upsert takes effect, is reported as failed, and the
      handler deletes the object the row now refers to. */
  lemma LostReplyKillsRow(slot: Slot, key: Key)
    ensures var run := [StartUpload(0, slot, key), ReadOld(0, true), PutObject(0, true, true),
                        UpsertRow(0, LostReply), DeleteOwn(0, true), Crash(0)];
            var t := After(State(map[], {}, {}, map[]), run);
            slot in t.rows && t.rows[slot] == Stored(key) && key !in t.objects
  {
    AfterSix(State(map[], {}, {}, map[]),
             [StartUpload(0, slot, key), ReadOld(0, true), PutObject(0, true, true),
              UpsertRow(0, LostReply), DeleteOwn(0, true), Crash(0)]);
  }

  /** Two uploads to an empty slot, each of which reads before the other writes. */
  function Overlap(slot: Slot, a: Key, b: Key): seq<Event> {
    [StartUpload(0, slot, a), StartUpload(1, slot, b), ReadOld(0, true), ReadOld(1, true),
     PutObject(0, true, true), PutObject(1, true, true)] +
    [UpsertRow(0, Success), UpsertRow(1, Success), DeleteOld(0, true), DeleteOld(1, true), Crash(0), Crash(1)]
  }

  /** Both uploads of `Overlap` have put their objects, and neither has read a row. */
  lemma BothPut(slot: Slot, a: Key, b: Key)
    requires a != b
    ensures var t := After(State(map[], {}, {}, map[]), Overlap(slot, a, b)[..6]);
            && t.rows == map[] && t.objects == {a, b} && t.requests.Keys == {0, 1}
            && t.requests[0] == Uploading(slot, a, HasPut, None, None, false, false)
            && t.requests[1] == Uploading(slot, b, HasPut, None, None, false, false)
  {
    AfterSix(State(map[], {}, {}, map[]), Overlap(slot, a, b)[..6]);
  }

  lemma BothSave(t: State, slot: Slot, a: Key, b: Key)
    requires t.rows == map[] && t.requests.Keys == {0, 1}
    requires t.requests[0] == Uploading(slot, a, HasPut, None, None, false, false)
    requires t.requests[1] == Uploading(slot, b, HasPut, None, None, false, false)
    ensures var u := Step(Step(t, UpsertRow(0, Success)), UpsertRow(1, Success));
            var v := Step(Step(u, DeleteOld(0, true)), DeleteOld(1, true));
            v.rows == map[slot := Stored(b)] && v.objects == t.objects
  {
  }

  lemma CrashesChangeNothing(t: State)
    ensures var u := Step(Step(t, Crash(0)), Crash(1)); u.rows == t.rows && u.objects == t.objects
  {
  }

  /** Without any failure, overlapping uploads can leave an object that no row refers to. */
  lemma OverlapLeaks(slot: Slot, a: Key, b: Key)
    requires a != b
    ensures var t := After(State(map[], {}, {}, map[]), Overlap(slot, a, b));
            t.rows == map[slot := Stored(b)] && t.objects == {a, b}
  {
    var s := State(map[], {}, {}, map[]);
    var run := Overlap(slot, a, b);
    var t := After(s, run[..6]);
    AfterConcat(s, run[..6], run[6..]);
    assert run == run[..6] + run[6..];
    BothPut(slot, a, b);
    AfterSix(t, run[6..]);
    BothSave(t, slot, a, b);
    CrashesChangeNothing(Step(Step(Step(Step(t, run[6]), run[7]), run[8]), run[9]));
  }
}
