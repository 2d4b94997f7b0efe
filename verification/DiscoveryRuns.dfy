/** Who is listed to whom after a run of the handlers, from the run's events alone. */
module DiscoveryRuns {
  import opened Common
  import opened MatchTables
  import opened Ordering
  import opened Texts
  import opened Discovery
  import opened RecordSwipe
  import Age

  function Start(users: set<Id>): State {
    State(Empty(users), map[], map[], {})
  }

  /** Every birth date that was read is a date of the calendar. */
  predicate ReadDates(run: seq<Event>) {
    forall e | e in run && e.SaveProfile? && e.birth.Day? :: Age.IsDate(e.birth.date)
  }

  // ---------- What happened last ----------

  predicate SaveAccepted(users: set<Id>, e: Event) {
    && e.SaveProfile? && e.user in users && !e.birth.Unreadable?
    && Bytes(TrimSpace(e.bio)) <= 500 && Bytes(TrimSpace(e.course)) <= 120 && Bytes(TrimSpace(e.campus)) <= 120
  }

  /** The last profile of `u` that was accepted. */
  function LastSave(users: set<Id>, run: seq<Event>, u: Id): (r: Option<Event>)
    ensures r.Some? ==> r.value in run && SaveAccepted(users, r.value) && r.value.user == u
  {
    if run == [] then None
    else
      var e := run[|run| - 1];
      if SaveAccepted(users, e) && e.user == u then Some(e) else LastSave(users, run[..|run| - 1], u)
  }

  /** `u` has a profile that names a course and a campus. */
  predicate Complete(users: set<Id>, run: seq<Event>, u: Id) {
    var r := LastSave(users, run, u);
    r.Some? && TrimSpace(r.value.course) != "" && TrimSpace(r.value.campus) != ""
  }

  /** The last request of `u` for another visibility that met a complete profile asked for it
      to be shown. */
  predicate Shown(users: set<Id>, run: seq<Event>, u: Id) {
    if run == [] then false
    else
      var before, e := run[..|run| - 1], run[|run| - 1];
      if e.SetVisible? && e.user == u && Complete(users, before, u) then e.visible else Shown(users, before, u)
  }

  /** When the profile of `u` was last saved, shown or hidden. */
  function LastTouched(users: set<Id>, run: seq<Event>, u: Id): int {
    if run == [] then 0
    else
      var before, e := run[..|run| - 1], run[|run| - 1];
      if SaveAccepted(users, e) && e.user == u then e.at
      else if e.SetVisible? && e.user == u && Complete(users, before, u) then e.at
      else LastTouched(users, before, u)
  }

  predicate PreferencesAccepted(users: set<Id>, e: Event) {
    && e.SavePreferences? && e.user in users && e.interestedIn in {"everyone", "men", "women"}
    && 18 <= e.minAge <= e.maxAge <= 99
  }

  function LastPreferences(users: set<Id>, run: seq<Event>, u: Id): (r: Option<Event>)
    ensures r.Some? ==> PreferencesAccepted(users, r.value)
  {
    if run == [] then None
    else
      var e := run[|run| - 1];
      if PreferencesAccepted(users, e) && e.user == u then Some(e) else LastPreferences(users, run[..|run| - 1], u)
  }

  predicate SwipesAt(e: Event, viewer: Id, u: Id) {
    e.Swipe? && e.actor == viewer && e.target == u
  }

  predicate SwipedBefore(users: set<Id>, run: seq<Event>, viewer: Id, u: Id) {
    && viewer != u && {viewer, u} <= users
    && exists e :: e in run && SwipesAt(e, viewer, u)
  }

  // ---------- The tables say the same ----------

  predicate RowIs(users: set<Id>, run: seq<Event>, u: Id, rows: map<Id, Profile>) {
    var r := LastSave(users, run, u);
    && (u in rows <==> r.Some?)
    && (u in rows ==>
          rows[u] == Profile(TrimSpace(r.value.bio), TrimSpace(r.value.course), TrimSpace(r.value.campus),
                             DateOf(r.value.birth), Shown(users, run, u), LastTouched(users, run, u)))
    && (Shown(users, run, u) ==> u in rows)
  }

  lemma SaveRow(users: set<Id>, run: seq<Event>, u: Id, s: State)
    requires run != [] && run[|run| - 1].SaveProfile? && s.core.users == users
    requires RowIs(users, run[..|run| - 1], u, s.profiles)
    ensures RowIs(users, run, u, Step(s, run[|run| - 1]).profiles)
  {
    var before, e := run[..|run| - 1], run[|run| - 1];
    assert SaveAccepted(users, e) <==>
      ReplyOfSave(users, e.user, e.bio, e.course, e.campus, e.birth).Saved?;
    assert Shown(users, run, u) <==> Shown(users, before, u);
  }

  lemma VisibleRow(users: set<Id>, run: seq<Event>, u: Id, s: State)
    requires run != [] && run[|run| - 1].SetVisible? && RowIs(users, run[..|run| - 1], u, s.profiles)
    ensures RowIs(users, run, u, Step(s, run[|run| - 1]).profiles)
  {
    var before, e := run[..|run| - 1], run[|run| - 1];
    assert LastSave(users, run, u) == LastSave(users, before, u);
    assert e.user == u ==> (Complete(users, before, u) <==>
      u in s.profiles && s.profiles[u].course != "" && s.profiles[u].campus != "");
  }

  lemma OtherRow(users: set<Id>, run: seq<Event>, u: Id, s: State)
    requires run != [] && !run[|run| - 1].SaveProfile? && !run[|run| - 1].SetVisible?
    requires RowIs(users, run[..|run| - 1], u, s.profiles)
    ensures RowIs(users, run, u, Step(s, run[|run| - 1]).profiles)
  {
    var before, e := run[..|run| - 1], run[|run| - 1];
    assert Step(s, e).profiles == s.profiles;
    assert LastSave(users, run, u) == LastSave(users, before, u);
    assert Shown(users, run, u) == Shown(users, before, u);
    assert LastTouched(users, run, u) == LastTouched(users, before, u);
  }

  lemma {:induction false} RowsAre(users: set<Id>, run: seq<Event>, u: Id)
    ensures RowIs(users, run, u, After(Start(users), run).profiles)
  {
    if run == [] {
    } else {
      RowsAre(users, run[..|run| - 1], u);
      BlocksAre(Start(users), run[..|run| - 1], u, u);
      var s := After(Start(users), run[..|run| - 1]);
      match run[|run| - 1] {
        case SaveProfile(_, _, _, _, _, _) => SaveRow(users, run, u, s);
        case SetVisible(_, _, _) => VisibleRow(users, run, u, s);
        case _ => OtherRow(users, run, u, s);
      }
    }
  }

  predicate PreferencesIs(users: set<Id>, run: seq<Event>, u: Id, rows: map<Id, Preferences>) {
    var r := LastPreferences(users, run, u);
    && (u in rows <==> r.Some?)
    && (u in rows ==> rows[u] == Preferences(r.value.interestedIn, r.value.minAge, r.value.maxAge))
  }

  lemma {:induction false} PreferencesAre(users: set<Id>, run: seq<Event>, u: Id)
    ensures PreferencesIs(users, run, u, After(Start(users), run).preferences)
  {
    if run == [] {
    } else {
      PreferencesAre(users, run[..|run| - 1], u);
      BlocksAre(Start(users), run[..|run| - 1], u, u);
    }
  }

  lemma StepSwipes(s: State, e: Event, viewer: Id, u: Id)
    ensures (viewer, u) in Step(s, e).core.swipes <==>
              (viewer, u) in s.core.swipes || (SwipesAt(e, viewer, u) && viewer != u && {viewer, u} <= s.core.users)
  {
  }

  lemma {:induction false} SwipesAre(users: set<Id>, run: seq<Event>, viewer: Id, u: Id)
    ensures (viewer, u) in After(Start(users), run).core.swipes <==> SwipedBefore(users, run, viewer, u)
  {
    if run == [] {
    } else {
      var before, e := run[..|run| - 1], run[|run| - 1];
      SwipesAre(users, before, viewer, u);
      BlocksAre(Start(users), before, u, u);
      StepSwipes(After(Start(users), before), e, viewer, u);
      assert run == before + [e];
    }
  }

  /** A swipe is refused for one of three causes: of oneself, of a pair swiped before, and of
      or by someone who is no user. */
  lemma RefusedExactly(users: set<Id>, run: seq<Event>, actor: Id, target: Id, action: Action, now: nat, m: Id, c: Id)
    ensures var r := Alone(After(Start(users), run).core, actor, target, action, now, m, c).1;
            && (r == Refused(SelfSwipe) <==> actor == target)
            && (r == Refused(AlreadySwiped) <==> SwipedBefore(users, run, actor, target))
            && (r == Refused(UnknownUser) <==> actor != target && !({actor, target} <= users))
  {
    SwipesAre(users, run, actor, target);
    BlocksAre(Start(users), run, actor, target);
  }

  // ---------- Ages ----------

  lemma {:induction false} BorrowedYears(b: Age.Date, i: Age.Interval)
    requires Age.IsDate(b)
    ensures Age.BorrowMonths(Age.BorrowDays(b, i)).years <= i.years
    decreases if i.days < 0 then -i.days else 0
  {
    if i.days < 0 {
      BorrowedYears(b, i.(days := i.days + Age.DaysIn(b.year, b.month), months := i.months - 1));
    } else {
      BorrowedMonths(i);
    }
  }

  lemma {:induction false} BorrowedMonths(i: Age.Interval)
    ensures Age.BorrowMonths(i).years <= i.years
    decreases if i.months < 0 then -i.months else 0
  {
    if i.months < 0 { BorrowedMonths(i.(months := i.months + 12, years := i.years - 1)); }
  }

  /** From 18 on, the years of SQL's AGE are the birthdays gone by; no one not yet born has them. */
  lemma AdultYears(b: Age.Date, today: Age.Date, low: int, high: int)
    requires Age.IsDate(b) && Age.IsDate(today) && 18 <= low
    ensures low <= Age.SqlAge(today, b).years <= high <==> low <= Age.Passed(b, today, today.year) <= high
  {
    if Age.Before(today, b) {
      BorrowedYears(b, Age.Interval(today.year - b.year, today.month - b.month, today.day - b.day));
    } else {
      Age.AgeIsSqlYear(b, today);
      Age.AgeCountsBirthdays(b, today);
    }
  }

  // ---------- Who is listed ----------

  /** One side left the age open, or `u` has as many birthdays behind as `viewer` asked for. */
  predicate AgeFits(users: set<Id>, run: seq<Event>, viewer: Id, u: Id, today: Age.Date) {
    var saved, wanted := LastSave(users, run, u), LastPreferences(users, run, viewer);
    saved.Some? && saved.value.birth.Day? && wanted.Some? ==>
      wanted.value.minAge <= Age.Passed(saved.value.birth.date, today, today.year) <= wanted.value.maxAge
  }

  lemma AgesAre(users: set<Id>, run: seq<Event>, viewer: Id, u: Id, today: Age.Date)
    requires ReadDates(run) && Age.IsDate(today) && LastSave(users, run, u).Some?
    ensures var birth := DateOf(LastSave(users, run, u).value.birth);
            && (birth.Some? ==> Age.IsDate(birth.value))
            && (AgeWanted(After(Start(users), run), viewer, birth, today) <==> AgeFits(users, run, viewer, u, today))
  {
    PreferencesAre(users, run, viewer);
    var saved, wanted := LastSave(users, run, u), LastPreferences(users, run, viewer);
    if saved.value.birth.Day? && wanted.Some? {
      AdultYears(saved.value.birth.date, today, wanted.value.minAge, wanted.value.maxAge);
    }
  }

  /** After any run from empty tables, `u` is listed to `viewer` exactly when both are different
      users, `u` chose to be shown, `viewer` has not swiped `u`, neither blocks the other, and
      the age fits. */
  lemma ListedExactly(users: set<Id>, run: seq<Event>, viewer: Id, u: Id, today: Age.Date)
    requires ReadDates(run) && Age.IsDate(today)
    ensures u in Listed(After(Start(users), run), viewer, today) <==>
              && u in users && u != viewer && Shown(users, run, u)
              && !SwipedBefore(users, run, viewer, u)
              && !StandingBlock(users, run, viewer, u) && !StandingBlock(users, run, u, viewer)
              && AgeFits(users, run, viewer, u, today)
  {
    RowsAre(users, run, u);
    SwipesAre(users, run, viewer, u);
    BlocksAre(Start(users), run, viewer, u);
    BlocksAre(Start(users), run, u, viewer);
    if LastSave(users, run, u).Some? { AgesAre(users, run, viewer, u, today); }
  }

  /** And of two listed users the one whose profile was touched later stands first. */
  lemma LaterTouchedFirst(users: set<Id>, run: seq<Event>, viewer: Id, today: Age.Date, list: seq<Id>, i: nat, j: nat)
    requires IsOrdering(list, Listed(After(Start(users), run), viewer, today), UpdatedAt(After(Start(users), run)))
    requires i < |list| && j < |list| && LastTouched(users, run, list[i]) > LastTouched(users, run, list[j])
    ensures i < j
  {
    RowsAre(users, run, list[i]);
    RowsAre(users, run, list[j]);
    assert list[i] in list && list[j] in list;
  }
}
