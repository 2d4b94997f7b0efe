/** Discovery: who is listed to whom, over serial runs of the handlers that change it. */
module Discovery {
  import opened Common
  import opened MatchTables
  import opened RecordSwipe
  import opened Ordering
  import opened Texts
  import Age

  datatype Profile = Profile(
    bio: string, course: string, campus: string, birth: Option<Age.Date>, visible: bool, updatedAt: int)

  datatype Preferences = Preferences(interestedIn: string, minAge: int, maxAge: int)

  /** What `time.Parse` makes of the birth date sent. */
  datatype BirthInput = Blank | Unreadable | Day(date: Age.Date)

  datatype SaveReply = Saved | TooLarge | InvalidBirthDate | SaveFailed

  /** `core` holds users and swipes. */
  datatype State = State(
    core: Tables,
    profiles: map<Id, Profile>,
    preferences: map<Id, Preferences>,
    blocks: set<(Id, Id)>)

  datatype Event =
    | Swipe(actor: Id, target: Id, action: Action, now: nat, matchId: Id, conversationId: Id)
    | Block(blocker: Id, blocked: Id)
    | Unblock(blocker: Id, blocked: Id)
    | SaveProfile(user: Id, bio: string, course: string, campus: string, birth: BirthInput, at: int)
    | SetVisible(user: Id, visible: bool, at: int)
    | SavePreferences(user: Id, interestedIn: string, minAge: int, maxAge: int)

  function DateOf(birth: BirthInput): Option<Age.Date> {
    if birth.Day? then Some(birth.date) else None
  }

  /** The handler limits bytes; the columns limit characters. */
  function ReplyOfSave(users: set<Id>, u: Id, bio: string, course: string, campus: string, birth: BirthInput): SaveReply
  {
    if Bytes(TrimSpace(bio)) > 500 || Bytes(TrimSpace(course)) > 120 || Bytes(TrimSpace(campus)) > 120 then TooLarge
    else if birth.Unreadable? then InvalidBirthDate
    else if u !in users then SaveFailed
    else Saved
  }

  /** The CHECKs of `profiles`. */
  predicate WithinColumns(p: Profile) {
    |p.bio| <= 500 && |p.course| <= 120 && |p.campus| <= 120
  }

  predicate PreferencesOk(interestedIn: string, minAge: int, maxAge: int) {
    (interestedIn == "everyone" || interestedIn == "men" || interestedIn == "women") && 18 <= minAge <= maxAge <= 99
  }

  function Step(s: State, e: Event): State {
    match e
    case Swipe(actor, target, action, now, m, c) =>
      s.(core := Alone(s.core, actor, target, action, now, m, c).0)
    case Block(a, b) =>
      if a == b || a !in s.core.users || b !in s.core.users then s else s.(blocks := s.blocks + {(a, b)})
    case Unblock(a, b) => s.(blocks := s.blocks - {(a, b)})
    case SaveProfile(u, bio, course, campus, birth, at) =>
      if !ReplyOfSave(s.core.users, u, bio, course, campus, birth).Saved? then s
      else
        var visible := u in s.profiles && s.profiles[u].visible;
        var row := Profile(TrimSpace(bio), TrimSpace(course), TrimSpace(campus), DateOf(birth), visible, at);
        s.(profiles := s.profiles[u := row])
    case SetVisible(u, visible, at) =>
      if u !in s.profiles || s.profiles[u].course == "" || s.profiles[u].campus == "" then s
      else s.(profiles := s.profiles[u := s.profiles[u].(visible := visible, updatedAt := at)])
    case SavePreferences(u, interestedIn, minAge, maxAge) =>
      if u !in s.core.users || !PreferencesOk(interestedIn, minAge, maxAge) then s
      else s.(preferences := s.preferences[u := Preferences(interestedIn, minAge, maxAge)])
  }

  function After(s: State, run: seq<Event>): State {
    if run == [] then s else Step(After(s, run[..|run| - 1]), run[|run| - 1])
  }

  /** The age condition: no preferences, no birth date, or an age within bounds. */
  predicate AgeWanted(s: State, viewer: Id, birth: Option<Age.Date>, today: Age.Date)
    requires birth.Some? ==> Age.IsDate(birth.value)
  {
    viewer !in s.preferences || birth.None? ||
    s.preferences[viewer].minAge <= Age.SqlAge(today, birth.value).years <= s.preferences[viewer].maxAge
  }

  /** The WHERE clause of ListDiscoveryProfiles without its NOT EXISTS on blocks. */
  predicate EligibleButBlocks(s: State, viewer: Id, u: Id, today: Age.Date) {
    && u in s.core.users && u in s.profiles && s.profiles[u].visible
    && u != viewer && (viewer, u) !in s.core.swipes
    && (s.profiles[u].birth.Some? ==> Age.IsDate(s.profiles[u].birth.value))
    && AgeWanted(s, viewer, s.profiles[u].birth, today)
  }

  predicate Eligible(s: State, viewer: Id, u: Id, today: Age.Date) {
    EligibleButBlocks(s, viewer, u, today) && (viewer, u) !in s.blocks && (u, viewer) !in s.blocks
  }

  // ---------- Swipes ----------

  /** Whoever is listed can be swiped: the call is not refused. */
  lemma ListedCanBeSwiped(s: State, viewer: Id, u: Id, today: Age.Date, action: Action, now: nat, m: Id, c: Id)
    requires viewer in s.core.users && Eligible(s, viewer, u, today)
    ensures !Alone(s.core, viewer, u, action, now, m, c).1.Refused?
    ensures (viewer, u) in Step(s, Swipe(viewer, u, action, now, m, c)).core.swipes
  {
  }

  lemma {:induction false} SwipesStay(s: State, run: seq<Event>, k: (Id, Id))
    requires k in s.core.swipes
    ensures k in After(s, run).core.swipes
  {
    if run == [] {
    } else {
      SwipesStay(s, run[..|run| - 1], k);
    }
  }

  /** And once swiped is never listed to that viewer again, whatever happens. */
  lemma SwipedNeverListedAgain(s: State, viewer: Id, u: Id, action: Action, now: nat, m: Id, c: Id,
                               run: seq<Event>, today: Age.Date, later: Age.Date)
    requires viewer in s.core.users && Eligible(s, viewer, u, today)
    ensures !Eligible(After(Step(s, Swipe(viewer, u, action, now, m, c)), run), viewer, u, later)
  {
    ListedCanBeSwiped(s, viewer, u, today, action, now, m, c);
    SwipesStay(Step(s, Swipe(viewer, u, action, now, m, c)), run, (viewer, u));
  }

  // ---------- Blocks ----------

  /** Of the blocks and unblocks of `b` by `a` in the run, the last was a block. */
  predicate StandingBlock(users: set<Id>, run: seq<Event>, a: Id, b: Id) {
    if run == [] then false
    else
      match run[|run| - 1]
      case Block(x, y) =>
        (x == a && y == b && a != b && {a, b} <= users) || StandingBlock(users, run[..|run| - 1], a, b)
      case Unblock(x, y) => !(x == a && y == b) && StandingBlock(users, run[..|run| - 1], a, b)
      case _ => StandingBlock(users, run[..|run| - 1], a, b)
  }

  lemma {:induction false} BlocksAre(s: State, run: seq<Event>, a: Id, b: Id)
    requires s.blocks == {}
    ensures (a, b) in After(s, run).blocks <==> StandingBlock(s.core.users, run, a, b)
    ensures After(s, run).core.users == s.core.users
  {
    if run == [] {
    } else {
      BlocksAre(s, run[..|run| - 1], a, b);
    }
  }

  /** A block by either side hides each from the other until every block between them is
      taken back. */
  lemma BlocksHideBoth(s: State, run: seq<Event>, a: Id, b: Id, today: Age.Date)
    requires s.blocks == {}
    ensures var blocked := StandingBlock(s.core.users, run, a, b) || StandingBlock(s.core.users, run, b, a);
            && (Eligible(After(s, run), a, b, today) <==> EligibleButBlocks(After(s, run), a, b, today) && !blocked)
            && (Eligible(After(s, run), b, a, today) <==> EligibleButBlocks(After(s, run), b, a, today) && !blocked)
  {
    BlocksAre(s, run, a, b);
    BlocksAre(s, run, b, a);
  }

  // ---------- The handlers ----------

  /** The tables behind discovery, as the handlers change them one request after another. */
  class ProfileStore {
    var core: Tables
    var profiles: map<Id, Profile>
    var preferences: map<Id, Preferences>
    var blocks: set<(Id, Id)>

    function Contents(): State
      reads this
    {
      State(core, profiles, preferences, blocks)
    }

    constructor (users: set<Id>)
      ensures Contents() == State(Empty(users), map[], map[], {})
    {
      core, profiles, preferences, blocks := Empty(users), map[], map[], {};
    }

    method BlockUser(blocker: Id, blocked: Id) returns (ok: bool)
      modifies this`blocks
      ensures ok == (blocker != blocked && {blocker, blocked} <= core.users)
      ensures Contents() == Step(old(Contents()), Block(blocker, blocked))
      ensures forall today :: ok ==>
                !Eligible(Contents(), blocker, blocked, today) && !Eligible(Contents(), blocked, blocker, today)
    {
      if blocker == blocked { return false; }
      ok := blocker in core.users && blocked in core.users;
      if ok { blocks := blocks + {(blocker, blocked)}; }
    }

    method UnblockUser(blocker: Id, blocked: Id)
      modifies this`blocks
      ensures Contents() == Step(old(Contents()), Unblock(blocker, blocked))
      ensures (blocked, blocker) in blocks <==> (blocked, blocker) in old(blocks) && blocker != blocked
    {
      blocks := blocks - {(blocker, blocked)};
    }

    /** A profile that the handler lets through breaks no CHECK of its columns. */
    method UpsertProfile(u: Id, bio: string, course: string, campus: string, birth: BirthInput, at: int)
      returns (reply: SaveReply)
      modifies this`profiles
      ensures reply == ReplyOfSave(core.users, u, bio, course, campus, birth)
      ensures Contents() == Step(old(Contents()), SaveProfile(u, bio, course, campus, birth, at))
      ensures reply.Saved? ==>
                u in profiles && WithinColumns(profiles[u]) &&
                (profiles[u].visible <==> u in old(profiles) && old(profiles)[u].visible)
    {
      var b, c, d := TrimSpace(bio), TrimSpace(course), TrimSpace(campus);
      if Bytes(b) > 500 || Bytes(c) > 120 || Bytes(d) > 120 { return TooLarge; }
      if birth.Unreadable? { return InvalidBirthDate; }
      CharsWithinBytes(b);
      CharsWithinBytes(c);
      CharsWithinBytes(d);
      if u !in core.users { return SaveFailed; }
      if u in profiles {
        var row := profiles[u].(bio := b, course := c, campus := d, birth := DateOf(birth), updatedAt := at);
        profiles := profiles[u := row];
      } else {
        profiles := profiles[u := Profile(b, c, d, DateOf(birth), false, at)];
      }
      return Saved;
    }

    method UpdateProfileVisibility(u: Id, visible: bool, at: int) returns (rows: nat)
      modifies this`profiles
      ensures rows == if u in old(profiles) && old(profiles)[u].course != "" && old(profiles)[u].campus != ""
                      then 1 else 0
      ensures Contents() == Step(old(Contents()), SetVisible(u, visible, at))
    {
      if u !in profiles || profiles[u].course == "" || profiles[u].campus == "" { return 0; }
      profiles := profiles[u := profiles[u].(visible := visible, updatedAt := at)];
      return 1;
    }

    method UpsertPreferences(u: Id, interestedIn: string, minAge: int, maxAge: int) returns (ok: bool)
      modifies this`preferences
      ensures ok == (u in core.users && PreferencesOk(interestedIn, minAge, maxAge))
      ensures Contents() == Step(old(Contents()), SavePreferences(u, interestedIn, minAge, maxAge))
    {
      ok := (interestedIn == "everyone" || interestedIn == "men" || interestedIn == "women") &&
            minAge >= 18 && maxAge <= 99 && minAge <= maxAge && u in core.users;
      if ok { preferences := preferences[u := Preferences(interestedIn, minAge, maxAge)]; }
    }
  }

  // ---------- Ages ----------

  /** The age shown for a listed user satisfies the viewer's preferences. */
  lemma ShownAgeIsWanted(s: State, viewer: Id, u: Id, today: Age.Date)
    requires Eligible(s, viewer, u, today) && viewer in s.preferences && Age.IsDate(today)
    requires s.profiles[u].birth.Some? && !Age.Before(today, s.profiles[u].birth.value)
    ensures var age := Age.CalcAge(s.profiles[u].birth, today);
            age.Some? && s.preferences[viewer].minAge <= age.value <= s.preferences[viewer].maxAge
  {
    Age.AgeIsSqlYear(s.profiles[u].birth.value, today);
  }

  // ---------- Pages ----------

  function Listed(s: State, viewer: Id, today: Age.Date): set<Id> {
    set u | u in s.core.users && Eligible(s, viewer, u, today)
  }

  function UpdatedAt(s: State): Id -> int {
    (u: Id) => if u in s.profiles then s.profiles[u].updatedAt else 0
  }

  /** The OFFSET and LIMIT of one query; `list` is the order that query happened to produce. */
  function Page(list: seq<Id>, limit: nat, offset: nat): seq<Id> {
    if offset >= |list| then []
    else if offset + limit >= |list| then list[offset..]
    else list[offset..offset + limit]
  }

  /** Pages asked for one after another on unchanged tables, each from its own query and
      each starting where the ones before ended. */
  ghost predicate IsPageAt(s: State, viewer: Id, today: Age.Date, limit: nat, offset: nat, page: seq<Id>) {
    exists list :: IsOrdering(list, Listed(s, viewer, today), UpdatedAt(s)) && page == Page(list, limit, offset)
  }

  ghost predicate PageRun(s: State, viewer: Id, today: Age.Date, limits: seq<nat>, pages: seq<seq<Id>>) {
    && |limits| == |pages|
    && (forall i | 0 <= i < |pages| :: 1 <= limits[i] <= 100)
    && (forall i | 0 <= i < |pages| :: IsPageAt(s, viewer, today, limits[i], |Concat(pages[..i])|, pages[i]))
  }

  function Concat(pages: seq<seq<Id>>): seq<Id> {
    if pages == [] then [] else Concat(pages[..|pages| - 1]) + pages[|pages| - 1]
  }

  lemma PageExtends(list: seq<Id>, limit: nat, offset: nat)
    requires offset <= |list|
    ensures var page := Page(list, limit, offset);
            offset + |page| <= |list| && list[..offset] + page == list[..offset + |page|]
            && (|page| < limit ==> offset + |page| == |list|)
  {
  }

  /** No two listed profiles share a timestamp. */
  ghost predicate NoTies(s: State, viewer: Id, today: Age.Date) {
    forall u, v | u in Listed(s, viewer, today) && v in Listed(s, viewer, today) &&
                  UpdatedAt(s)(u) == UpdatedAt(s)(v) :: u == v
  }

  lemma OnePage(s: State, viewer: Id, today: Age.Date, limit: nat, offset: nat, page: seq<Id>, list: seq<Id>)
    requires IsPageAt(s, viewer, today, limit, offset, page) && NoTies(s, viewer, today)
    requires IsOrdering(list, Listed(s, viewer, today), UpdatedAt(s))
    ensures page == Page(list, limit, offset)
  {
    var l :| IsOrdering(l, Listed(s, viewer, today), UpdatedAt(s)) && page == Page(l, limit, offset);
    Unique(l, list, Listed(s, viewer, today), UpdatedAt(s));
  }

  /** When no two profiles share a timestamp, the pages partition the eligible users: joined
      they are a prefix of the one order there is, and a page short of its limit ends it. */
  lemma {:induction false} PagesPartition(s: State, viewer: Id, today: Age.Date, limits: seq<nat>,
                                           pages: seq<seq<Id>>, list: seq<Id>)
    requires PageRun(s, viewer, today, limits, pages) && NoTies(s, viewer, today)
    requires IsOrdering(list, Listed(s, viewer, today), UpdatedAt(s))
    ensures |Concat(pages)| <= |list| && Concat(pages) == list[..|Concat(pages)|]
    ensures pages != [] && |pages[|pages| - 1]| < limits[|pages| - 1] ==> Concat(pages) == list
    decreases |pages|
  {
    if pages == [] {
    } else {
      var n := |pages| - 1;
      forall i | 0 <= i < n
        ensures IsPageAt(s, viewer, today, limits[..n][i], |Concat(pages[..n][..i])|, pages[..n][i])
      {
        assert pages[..n][..i] == pages[..i];
      }
      PagesPartition(s, viewer, today, limits[..n], pages[..n], list);
      var offset := |Concat(pages[..n])|;
      assert IsPageAt(s, viewer, today, limits[n], offset, pages[n]);
      OnePage(s, viewer, today, limits[n], offset, pages[n], list);
      PageExtends(list, limits[n], offset);
    }
  }
}
