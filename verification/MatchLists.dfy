/** `ListMatchesForUser` and `ListConversationsForUser`: two joins that reach the partner
    by different tables.

    Both read the partner's name, birth date and first photo by the partner's id; the unread
    count is a column of the conversations alone.
  */
module MatchLists {
  import opened Common
  import opened MatchTables
  import opened Messages
  import opened Ordering

  /** `display_name`, `birth_date` and the URL of the first photo, empty if there is none. */
  datatype Card = Card(name: string, birthDate: Option<int>, photo: string)

  /** What both queries read besides the match tables. */
  datatype Data = Data(messages: set<Message>, card: Id -> Card)

  /** The columns both lists return. */
  datatype Row = Row(matchId: Id, conversationId: Id, createdAt: nat, partner: Id, card: Card, last: Last)

  /** What identifies a row of either join. */
  function Key(r: Row): (Id, Id) {
    (r.conversationId, r.partner)
  }

  /** The same row but for ties among newest messages. */
  predicate SameButLast(r: Row, s: Row) {
    r.(last := NoMessage) == s.(last := NoMessage)
  }

  /** ORDER BY COALESCE(msg.created_at, created_at). */
  function Recency(r: Row): int {
    if r.last.Last? then r.last.at else r.createdAt
  }

  /** `r` can be a row of ListMatchesForUser($1 = u). */
  ghost predicate MatchRow(t: Tables, d: Data, u: Id, r: Row) {
    && r.matchId in t.matches
    && IsConversationOf(t.conversations, r.conversationId, r.matchId)
    && r.partner in t.users && r.card == d.card(r.partner)
    && (var m := t.matches[r.matchId];
        && ((m.low == u && r.partner == m.high) || (m.high == u && r.partner == m.low))
        && (m.low == u || m.high == u)
        && r.createdAt == m.createdAt)
    && IsLast(d.messages, r.conversationId, r.last)
  }

  /** `r` can be a row of ListConversationsForUser($1 = u). */
  ghost predicate ConversationRow(t: Tables, d: Data, u: Id, r: Row) {
    && IsConversationOf(t.conversations, r.conversationId, r.matchId)
    && (r.conversationId, u) in t.members
    && (r.conversationId, r.partner) in t.members && r.partner != u
    && r.partner in t.users && r.card == d.card(r.partner)
    && r.createdAt == t.conversations[r.conversationId].createdAt
    && IsLast(d.messages, r.conversationId, r.last)
  }

  /** The rows of one conversation and its match. */
  lemma SameRowsOf(t: Tables, d: Data, u: Id, r: Row, m: Match)
    requires r.conversationId in t.conversations
    requires var c := t.conversations[r.conversationId];
             c.matchId in t.matches && t.matches[c.matchId] == m && c.createdAt == m.createdAt
    requires m.low < m.high && MembersAre(t.members, r.conversationId, m)
    ensures MatchRow(t, d, u, r) <==> ConversationRow(t, d, u, r)
  {
  }

  /** Under the tables' invariant the two joins yield the same rows. */
  lemma SameRows(t: Tables, d: Data, u: Id, r: Row)
    requires Consistent(t)
    ensures MatchRow(t, d, u, r) <==> ConversationRow(t, d, u, r)
  {
    if r.conversationId in t.conversations {
      SameRowsOf(t, d, u, r, t.matches[t.conversations[r.conversationId].matchId]);
    }
  }

  /** Each match of `u` has a row. */
  lemma EveryMatchListed(t: Tables, d: Data, u: Id, m: Id) returns (r: Row)
    requires Consistent(t) && m in t.matches && (t.matches[m].low == u || t.matches[m].high == u)
    ensures MatchRow(t, d, u, r) && r.matchId == m
  {
    var c :| IsConversationOf(t.conversations, c, m);
    var last := LastExists(d.messages, c);
    var row := t.matches[m];
    assert (row.low, row.high) in t.swipes;
    var partner := if row.low == u then row.high else row.low;
    r := Row(m, c, row.createdAt, partner, d.card(partner), last);
  }

  /** And only one: its match decides every column but the tie among newest messages. */
  lemma OneRowPerMatch(t: Tables, d: Data, u: Id, r: Row, s: Row)
    requires Consistent(t) && MatchRow(t, d, u, r) && MatchRow(t, d, u, s)
    ensures r.matchId == s.matchId <==> Key(r) == Key(s)
    ensures r.matchId == s.matchId ==> SameButLast(r, s) && Recency(r) == Recency(s)
  {
    if r.matchId == s.matchId || Key(r) == Key(s) { LastAgrees(d.messages, r.conversationId, r.last, s.last); }
  }

  ghost predicate Sound(out: seq<Row>, row: Row -> bool) {
    forall i | 0 <= i < |out| :: row(out[i])
  }

  ghost predicate Covers(out: seq<Row>, row: Row -> bool) {
    forall r | row(r) :: exists i :: 0 <= i < |out| && Key(out[i]) == Key(r)
  }

  ghost predicate OnceEachNewestFirst(out: seq<Row>) {
    forall i, j | 0 <= i < j < |out| :: Key(out[i]) != Key(out[j]) && Recency(out[i]) >= Recency(out[j])
  }

  /** `out` is an answer of a query whose possible rows satisfy `row`: every key that joins
      once, newest first. */
  ghost predicate Answer(out: seq<Row>, row: Row -> bool) {
    Sound(out, row) && Covers(out, row) && OnceEachNewestFirst(out)
  }

  ghost function MatchQuery(t: Tables, d: Data, u: Id): Row -> bool {
    (r: Row) => MatchRow(t, d, u, r)
  }

  ghost function ConversationQuery(t: Tables, d: Data, u: Id): Row -> bool {
    (r: Row) => ConversationRow(t, d, u, r)
  }

  /** Any answer of one query is an answer of the other. */
  lemma SameAnswers(t: Tables, d: Data, u: Id, out: seq<Row>)
    requires Consistent(t)
    ensures Answer(out, MatchQuery(t, d, u)) <==> Answer(out, ConversationQuery(t, d, u))
  {
    forall r: Row ensures MatchQuery(t, d, u)(r) <==> ConversationQuery(t, d, u)(r) {
      SameRows(t, d, u, r);
    }
  }

  // ---------- What an answer holds, and in what order ----------

  /** Each row of an answer is of a match of `u` and of the user `u` is matched with. */
  lemma RowsAreMatches(t: Tables, d: Data, u: Id, out: seq<Row>, i: nat)
    requires Consistent(t) && (Answer(out, MatchQuery(t, d, u)) || Answer(out, ConversationQuery(t, d, u)))
    requires i < |out|
    ensures out[i].matchId in t.matches && IsConversationOf(t.conversations, out[i].conversationId, out[i].matchId)
    ensures var m := t.matches[out[i].matchId]; {u, out[i].partner} == {m.low, m.high} && out[i].partner != u
  {
    SameAnswers(t, d, u, out);
    assert MatchQuery(t, d, u)(out[i]);
  }

  lemma MatchInAnswer(t: Tables, d: Data, u: Id, out: seq<Row>, r: Row) returns (i: nat)
    requires Consistent(t) && MatchRow(t, d, u, r)
    requires Sound(out, MatchQuery(t, d, u)) && Covers(out, MatchQuery(t, d, u))
    ensures i < |out| && out[i].matchId == r.matchId
  {
    assert MatchQuery(t, d, u)(r);
    i :| 0 <= i < |out| && Key(out[i]) == Key(r);
    assert MatchQuery(t, d, u)(out[i]);
    OneRowPerMatch(t, d, u, out[i], r);
  }

  lemma MatchesApart(t: Tables, d: Data, u: Id, out: seq<Row>, i: nat, j: nat)
    requires Consistent(t) && Sound(out, MatchQuery(t, d, u)) && OnceEachNewestFirst(out) && i < j < |out|
    ensures out[i].matchId != out[j].matchId
  {
    assert MatchQuery(t, d, u)(out[i]) && MatchQuery(t, d, u)(out[j]);
    OneRowPerMatch(t, d, u, out[i], out[j]);
  }

  /** In every answer each match of `u` has exactly one row. */
  lemma EveryMatchOnce(t: Tables, d: Data, u: Id, out: seq<Row>, m: Id)
    requires Consistent(t) && (Answer(out, MatchQuery(t, d, u)) || Answer(out, ConversationQuery(t, d, u)))
    requires m in t.matches && (t.matches[m].low == u || t.matches[m].high == u)
    ensures exists i :: 0 <= i < |out| && out[i].matchId == m
    ensures forall i, j | 0 <= i < j < |out| :: out[i].matchId != out[j].matchId
  {
    SameAnswers(t, d, u, out);
    var r := EveryMatchListed(t, d, u, m);
    var i := MatchInAnswer(t, d, u, out, r);
    forall i, j | 0 <= i < j < |out| ensures out[i].matchId != out[j].matchId {
      MatchesApart(t, d, u, out, i, j);
    }
  }

  predicate InConversation(d: Data, c: Id, m: Message) {
    m in d.messages && m.conversation == c
  }

  ghost predicate IsEmpty(d: Data, c: Id) {
    forall m :: !InConversation(d, c, m)
  }

  /** The time of the newest message of `c`, or of the conversation itself if it is empty. */
  ghost predicate LastActive(t: Tables, d: Data, c: Id, x: nat) {
    && c in t.conversations
    && (forall m | InConversation(d, c, m) :: m.createdAt <= x)
    && ((exists m :: InConversation(d, c, m) && m.createdAt == x) ||
        (x == t.conversations[c].createdAt && IsEmpty(d, c)))
  }

  /** All there is of conversation `b`, its messages or else itself, is older than `x`. */
  ghost predicate OlderThan(t: Tables, d: Data, b: Id, x: nat) {
    && b in t.conversations
    && (forall n | InConversation(d, b, n) :: n.createdAt < x)
    && (IsEmpty(d, b) ==> t.conversations[b].createdAt < x)
  }

  /** Conversation `a` has been active after `b`: one of its messages, or itself if it is
      empty, is newer than all there is of `b`. */
  ghost predicate ActiveAfter(t: Tables, d: Data, a: Id, b: Id) {
    && a in t.conversations
    && ((exists m :: InConversation(d, a, m) && OlderThan(t, d, b, m.createdAt)) ||
        (IsEmpty(d, a) && OlderThan(t, d, b, t.conversations[a].createdAt)))
  }

  lemma CreatedTogether(t: Tables, d: Data, u: Id, r: Row)
    requires ConversationsOk(t.matches, t.conversations, t.members) && MatchRow(t, d, u, r)
    ensures r.conversationId in t.conversations && r.createdAt == t.conversations[r.conversationId].createdAt
    ensures IsLast(d.messages, r.conversationId, r.last)
  {
  }

  lemma RecencyOf(t: Tables, d: Data, r: Row, x: nat)
    requires LastActive(t, d, r.conversationId, x) && IsLast(d.messages, r.conversationId, r.last)
    requires r.createdAt == t.conversations[r.conversationId].createdAt
    ensures Recency(r) == x
  {
    if r.last.Last? {
      var n :| IsNewest(d.messages, r.conversationId, n) && r.last == Last.Last(n.body, n.sender, n.createdAt);
      assert InConversation(d, r.conversationId, n);
    } else {
      assert IsEmpty(d, r.conversationId);
    }
  }

  lemma RecencyIs(t: Tables, d: Data, u: Id, r: Row, x: nat)
    requires Consistent(t) && MatchRow(t, d, u, r) && LastActive(t, d, r.conversationId, x)
    ensures Recency(r) == x
  {
    CreatedTogether(t, d, u, r);
    RecencyOf(t, d, r, x);
  }

  lemma LastActiveExists(t: Tables, d: Data, c: Id) returns (x: nat)
    requires c in t.conversations
    ensures LastActive(t, d, c, x)
  {
    var last := LastExists(d.messages, c);
    if last.Last? {
      var n :| IsNewest(d.messages, c, n) && last == Last.Last(n.body, n.sender, n.createdAt);
      x := n.createdAt;
      assert InConversation(d, c, n);
    } else {
      x := t.conversations[c].createdAt;
      assert IsEmpty(d, c);
    }
  }

  /** Rows stand in the order of when their conversations were last active. */
  lemma OrderIsActivity(t: Tables, d: Data, u: Id, out: seq<Row>, i: nat, j: nat, x: nat, y: nat)
    requires Consistent(t) && Answer(out, MatchQuery(t, d, u)) && i < j < |out|
    requires LastActive(t, d, out[i].conversationId, x) && LastActive(t, d, out[j].conversationId, y)
    ensures x >= y
  {
    assert MatchQuery(t, d, u)(out[i]) && MatchQuery(t, d, u)(out[j]);
    RecencyIs(t, d, u, out[i], x);
    RecencyIs(t, d, u, out[j], y);
  }

  lemma ActiveAfterIsLater(t: Tables, d: Data, a: Id, b: Id, x: nat, y: nat)
    requires LastActive(t, d, a, x) && LastActive(t, d, b, y)
    ensures ActiveAfter(t, d, a, b) <==> x > y
  {
    if x > y {
      assert OlderThan(t, d, b, x);
    }
  }

  /** In every answer of either query, a conversation that has been active after another
      stands before it. */
  lemma LaterActivityFirst(t: Tables, d: Data, u: Id, out: seq<Row>, i: nat, j: nat)
    requires Consistent(t) && (Answer(out, MatchQuery(t, d, u)) || Answer(out, ConversationQuery(t, d, u)))
    requires i < |out| && j < |out| && ActiveAfter(t, d, out[i].conversationId, out[j].conversationId)
    ensures i < j
  {
    SameAnswers(t, d, u, out);
    var x := LastActiveExists(t, d, out[i].conversationId);
    var y := LastActiveExists(t, d, out[j].conversationId);
    ActiveAfterIsLater(t, d, out[i].conversationId, out[j].conversationId, x, y);
    if j < i { OrderIsActivity(t, d, u, out, j, i, y, x); }
  }

  /** What a list shows of a row's place: the key and what it is ordered by. */
  datatype Line = Line(key: (Id, Id), recency: int)

  function Lines(out: seq<Row>): (lines: seq<Line>)
    ensures |lines| == |out| && forall i | 0 <= i < |out| :: lines[i] == Line(Key(out[i]), Recency(out[i]))
  {
    seq(|out|, i requires 0 <= i < |out| => Line(Key(out[i]), Recency(out[i])))
  }

  lemma LinesOrdered(out: seq<Row>)
    requires OnceEachNewestFirst(out)
    ensures Distinct(Lines(out)) && Descending(Lines(out), (l: Line) => l.recency)
  {
    var lines := Lines(out);
    forall i, j | 0 <= i < j < |lines| ensures lines[i] != lines[j] && lines[i].recency >= lines[j].recency {
      assert Key(out[i]) != Key(out[j]) && Recency(out[i]) >= Recency(out[j]);
    }
  }

  /** Every line of one answer is a line of any other answer of the query. */
  lemma LinesShared(t: Tables, d: Data, u: Id, a: seq<Row>, b: seq<Row>)
    requires Consistent(t)
    requires Sound(a, MatchQuery(t, d, u))
    requires Sound(b, MatchQuery(t, d, u)) && Covers(b, MatchQuery(t, d, u))
    ensures forall i | 0 <= i < |Lines(a)| :: Lines(a)[i] in Lines(b)
  {
    forall i | 0 <= i < |a| ensures Lines(a)[i] in Lines(b) {
      assert MatchQuery(t, d, u)(a[i]);
      var j :| 0 <= j < |b| && Key(b[j]) == Key(a[i]);
      assert MatchQuery(t, d, u)(b[j]);
      OneRowPerMatch(t, d, u, a[i], b[j]);
      assert Lines(b)[j] == Lines(a)[i];
    }
  }

  /** Both lists show the same matches with the same recency at every position: the order
      is the same up to ties. */
  lemma SameOrder(t: Tables, d: Data, u: Id, a: seq<Row>, b: seq<Row>)
    requires Consistent(t)
    requires Answer(a, MatchQuery(t, d, u)) && Answer(b, ConversationQuery(t, d, u))
    ensures |a| == |b| && SameElements(Lines(a), Lines(b))
    ensures forall i | 0 <= i < |a| :: Recency(a[i]) == Recency(b[i])
  {
    var query := MatchQuery(t, d, u);
    assert Answer(b, query) by { SameAnswers(t, d, u, b); }
    LinesOrdered(a);
    LinesOrdered(b);
    LinesShared(t, d, u, a, b);
    LinesShared(t, d, u, b, a);
    SameKeys(Lines(a), Lines(b), (l: Line) => l.recency);
    forall i | 0 <= i < |a| ensures Recency(a[i]) == Recency(b[i]) {
      assert Lines(a)[i].recency == Lines(b)[i].recency;
    }
  }

  ghost predicate NoTies(a: seq<Row>) {
    forall i, j | 0 <= i < j < |a| :: Recency(a[i]) != Recency(a[j])
  }

  /** The two lists are the same but for ties among newest messages. */
  ghost predicate SameRowByRow(a: seq<Row>, b: seq<Row>) {
    |a| == |b| && forall i | 0 <= i < |a| :: SameButLast(a[i], b[i])
  }

  /** Without ties the two lists name the same match, conversation and partner line by line. */
  lemma SameLines(t: Tables, d: Data, u: Id, a: seq<Row>, b: seq<Row>)
    requires Consistent(t)
    requires Answer(a, MatchQuery(t, d, u)) && Answer(b, ConversationQuery(t, d, u))
    requires NoTies(a)
    ensures SameRowByRow(a, b)
  {
    SameOrder(t, d, u, a, b);
    assert Sound(b, MatchQuery(t, d, u)) by { SameAnswers(t, d, u, b); }
    forall i | 0 <= i < |a| ensures SameButLast(a[i], b[i]) {
      SameLine(t, d, u, a, b, i);
    }
  }

  lemma SameLine(t: Tables, d: Data, u: Id, a: seq<Row>, b: seq<Row>, i: nat)
    requires Consistent(t) && Sound(a, MatchQuery(t, d, u)) && Sound(b, MatchQuery(t, d, u))
    requires |a| == |b| && i < |a| && Recency(a[i]) == Recency(b[i]) && SameElements(Lines(a), Lines(b))
    requires NoTies(a)
    ensures SameButLast(a[i], b[i])
  {
    SameKey(a, b, i);
    assert MatchQuery(t, d, u)(a[i]) && MatchQuery(t, d, u)(b[i]);
    OneRowPerMatch(t, d, u, a[i], b[i]);
  }

  /** The recency of a line tells which line it is. */
  lemma SameKey(a: seq<Row>, b: seq<Row>, i: nat)
    requires |a| == |b| && i < |a| && Recency(a[i]) == Recency(b[i]) && SameElements(Lines(a), Lines(b))
    requires NoTies(a)
    ensures Key(a[i]) == Key(b[i])
  {
    assert Lines(b)[i] in Lines(a);
    var j :| 0 <= j < |a| && Lines(a)[j] == Lines(b)[i];
    assert j == i;
  }

  /** Without ties among messages either, the two answers are the same list. */
  lemma SameLists(t: Tables, d: Data, u: Id, a: seq<Row>, b: seq<Row>)
    requires Consistent(t)
    requires Answer(a, MatchQuery(t, d, u)) && Answer(b, ConversationQuery(t, d, u))
    requires NoTies(a)
    requires forall m, n | m in d.messages && n in d.messages &&
                           m.conversation == n.conversation && m.createdAt == n.createdAt :: m == n
    ensures a == b
  {
    SameLines(t, d, u, a, b);
    assert Sound(a, MatchQuery(t, d, u)) && Sound(b, ConversationQuery(t, d, u));
    forall i | 0 <= i < |a| ensures a[i] == b[i] {
      assert MatchQuery(t, d, u)(a[i]) && ConversationQuery(t, d, u)(b[i]);
      assert SameButLast(a[i], b[i]);
      LastAgrees(d.messages, a[i].conversationId, a[i].last, b[i].last);
    }
  }
}
