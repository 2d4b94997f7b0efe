/** Sending and reading messages: the `is_read` flag, unread counts and the cached
    `conversations.last_message_at`, over serial runs. */
module Reading {
  import opened Common
  import opened Messages

  /** What a run of sends and reads is made of, in the order they take effect. */
  datatype Event =
    | Sent(id: Id, conversation: Id, sender: Id, body: string, createdAt: nat)
    | Marked(conversation: Id, reader: Id)

  /** `messages` in insertion order, and the column the trigger maintains; a conversation
      whose `last_message_at` is null is not a key. */
  datatype Box = Box(messages: seq<Message>, lastMessageAt: map<Id, nat>)

  const EMPTY_BOX := Box([], map[])

  /** The row that MarkMessagesRead leaves of `m`. */
  function MarkRow(m: Message, conversation: Id, reader: Id): Message {
    if m.conversation == conversation && m.sender != reader then m.(isRead := true) else m
  }

  function MarkRows(rows: seq<Message>, conversation: Id, reader: Id): (marked: seq<Message>)
    ensures |marked| == |rows| && forall i | 0 <= i < |rows| :: marked[i] == MarkRow(rows[i], conversation, reader)
  {
    seq(|rows|, i requires 0 <= i < |rows| => MarkRow(rows[i], conversation, reader))
  }

  /** CreateMessage with its AFTER INSERT trigger, and MarkMessagesRead. */
  function Step(b: Box, e: Event): Box {
    match e
    case Sent(id, c, sender, body, at) =>
      Box(b.messages + [Message(id, c, sender, body, false, at)], b.lastMessageAt[c := at])
    case Marked(c, reader) => b.(messages := MarkRows(b.messages, c, reader))
  }

  function After(run: seq<Event>): Box {
    if run == [] then EMPTY_BOX else Step(After(run[..|run| - 1]), run[|run| - 1])
  }

  // ---------- Unread counts ----------

  predicate IsUnread(m: Message, c: Id, u: Id) {
    m.conversation == c && m.sender != u && !m.isRead
  }

  /** The subquery of ListConversationsForUser that counts unread messages. */
  function Unread(rows: seq<Message>, c: Id, u: Id): nat {
    if rows == [] then 0
    else Unread(rows[..|rows| - 1], c, u) + if IsUnread(rows[|rows| - 1], c, u) then 1 else 0
  }

  /** What the count is for: messages of others in `c` since `u` last read it. */
  function SinceRead(run: seq<Event>, c: Id, u: Id): nat {
    if run == [] then 0
    else
      var before := SinceRead(run[..|run| - 1], c, u);
      match run[|run| - 1]
      case Sent(_, d, sender, _, _) => if d == c && sender != u then before + 1 else before
      case Marked(d, reader) => if d == c && reader == u then 0 else before
  }

  /** Only members send to and read a conversation; both handlers check. */
  ghost predicate ByMembers(run: seq<Event>, c: Id, members: set<Id>) {
    forall i | 0 <= i < |run| && run[i].conversation == c ::
      (if run[i].Sent? then run[i].sender else run[i].reader) in members
  }

  predicate SentBy(rows: seq<Message>, c: Id, members: set<Id>) {
    forall i | 0 <= i < |rows| && rows[i].conversation == c :: rows[i].sender in members
  }

  lemma {:induction false} SendersAreMembers(run: seq<Event>, c: Id, members: set<Id>)
    requires ByMembers(run, c, members)
    ensures SentBy(After(run).messages, c, members)
  {
    if run == [] {
    } else {
      SendersAreMembers(run[..|run| - 1], c, members);
    }
  }

  /** Reading by `reader` clears the count of `reader` and, if nobody else's messages are in
      the way, leaves the count of `u` alone. */
  lemma {:induction false} MarkChanges(rows: seq<Message>, c: Id, reader: Id, d: Id, u: Id)
    requires c == d && reader != u ==>
               forall i | 0 <= i < |rows| && rows[i].conversation == c ::
                 rows[i].sender == reader || rows[i].sender == u
    ensures Unread(MarkRows(rows, c, reader), d, u) == if c == d && reader == u then 0 else Unread(rows, d, u)
  {
    if rows == [] {
    } else {
      var n := |rows| - 1;
      MarkChanges(rows[..n], c, reader, d, u);
      assert MarkRows(rows, c, reader)[..n] == MarkRows(rows[..n], c, reader);
    }
  }

  /** The pair of conversation `c`: any member other than `u` is `p`. */
  ghost predicate AtMostTwo(members: set<Id>) {
    forall u, p, q | u in members && p in members && q in members && p != u && q != u :: p == q
  }

  lemma {:induction false} UnreadIsSinceRead(run: seq<Event>, c: Id, members: set<Id>, u: Id)
    requires ByMembers(run, c, members) && AtMostTwo(members) && u in members
    ensures Unread(After(run).messages, c, u) == SinceRead(run, c, u)
  {
    if run == [] {
    } else {
      var most, e := run[..|run| - 1], run[|run| - 1];
      UnreadIsSinceRead(most, c, members, u);
      SendersAreMembers(most, c, members);
      var rows := After(most).messages;
      match e
      case Sent(id, d, sender, body, at) =>
        assert After(run).messages[..|rows|] == rows;
      case Marked(d, reader) =>
        MarkChanges(rows, d, reader, c, u);
    }
  }

  /** With three members, one member's reading clears another's count. */
  lemma ThirdMemberLosesCount(c: Id, p: Id, q: Id, u: Id)
    requires p != q && p != u && q != u
    ensures var run := [Sent(0, c, p, "oi", 0), Marked(c, q)];
            Unread(After(run).messages, c, u) == 0 && SinceRead(run, c, u) == 1
  {
    var run := [Sent(0, c, p, "oi", 0), Marked(c, q)];
    assert run[..1] == [run[0]] && run[..1][..0] == [];
    assert After(run[..1]) == Step(EMPTY_BOX, run[0]);
    assert After(run).messages == [Message(0, c, p, "oi", true, 0)];
    assert SinceRead(run[..1], c, u) == 1;
  }

  /** One flag a message gives every member the right count in every run exactly when the
      conversation has at most two members, as a match's conversation has. */
  lemma OneFlagEnough(c: Id, members: set<Id>)
    ensures (forall run, u | ByMembers(run, c, members) && u in members ::
               Unread(After(run).messages, c, u) == SinceRead(run, c, u))
            <==> AtMostTwo(members)
  {
    if AtMostTwo(members) {
      forall run, u | ByMembers(run, c, members) && u in members
        ensures Unread(After(run).messages, c, u) == SinceRead(run, c, u)
      {
        UnreadIsSinceRead(run, c, members, u);
      }
    } else {
      var u, p, q :| u in members && p in members && q in members && p != u && q != u && p != q;
      ThirdMemberLosesCount(c, p, q, u);
      assert ByMembers([Sent(0, c, p, "oi", 0), Marked(c, q)], c, members);
    }
  }

  /** A message stays as it was sent but for its flag, which is never cleared. */
  lemma {:induction false} FlagsNeverRevert(run: seq<Event>, more: seq<Event>, i: nat)
    requires i < |After(run).messages|
    ensures i < |After(run + more).messages|
    ensures var m, m' := After(run).messages[i], After(run + more).messages[i];
            m'.(isRead := m.isRead) == m && (m.isRead ==> m'.isRead)
    decreases |more|
  {
    if more == [] {
      assert run + more == run;
    } else {
      FlagsNeverRevert(run, more[..|more| - 1], i);
      assert (run + more)[..|run + more| - 1] == run + more[..|more| - 1];
    }
  }

  // ---------- The cached last_message_at ----------

  function Rows(b: Box): set<Message> {
    set m | m in b.messages
  }

  /** The cache says what the LATERAL subquery would find, null included. */
  ghost predicate CacheExact(b: Box, c: Id) {
    forall last | IsLast(Rows(b), c, last) ::
      if last.NoMessage? then c !in b.lastMessageAt else c in b.lastMessageAt && b.lastMessageAt[c] == last.at
  }

  /** Inserts into `c` take effect in the order of their `created_at`. */
  ghost predicate InOrder(run: seq<Event>, c: Id) {
    forall i, j | 0 <= i < j < |run| && run[i].Sent? && run[j].Sent? &&
                  run[i].conversation == c && run[j].conversation == c ::
      run[i].createdAt <= run[j].createdAt
  }

  /** The cached value, or -1 for null. */
  function Cached(run: seq<Event>, c: Id): int {
    var at := After(run).lastMessageAt;
    if c in at then at[c] else -1
  }

  /** The largest `created_at` sent to `c`, or -1. */
  function Newest(run: seq<Event>, c: Id): int {
    if run == [] then -1
    else
      var e, before := run[|run| - 1], Newest(run[..|run| - 1], c);
      if e.Sent? && e.conversation == c && e.createdAt > before then e.createdAt else before
  }

  lemma {:induction false} NewestOfRows(run: seq<Event>, c: Id)
    ensures forall m | m in After(run).messages && m.conversation == c :: m.createdAt <= Newest(run, c)
    ensures Newest(run, c) >= 0 ==>
              exists m :: m in After(run).messages && m.conversation == c && m.createdAt == Newest(run, c)
    ensures Newest(run, c) >= -1
  {
    if run == [] {
    } else {
      var most, e := run[..|run| - 1], run[|run| - 1];
      NewestOfRows(most, c);
      var rows, rows' := After(most).messages, After(run).messages;
      if Newest(most, c) >= 0 {
        var m :| m in rows && m.conversation == c && m.createdAt == Newest(most, c);
        var i :| 0 <= i < |rows| && rows[i] == m;
        assert rows'[i] in rows' && rows'[i].createdAt == m.createdAt && rows'[i].conversation == c;
      }
      if e.Sent? { assert rows'[|rows|] in rows'; }
    }
  }

  lemma CacheExactMeans(run: seq<Event>, c: Id)
    ensures CacheExact(After(run), c) <==> Cached(run, c) == Newest(run, c)
  {
    NewestOfRows(run, c);
    var last := LastExists(Rows(After(run)), c);
    forall l | IsLast(Rows(After(run)), c, l)
      ensures l.NoMessage? <==> Newest(run, c) == -1
      ensures l.Last? ==> l.at == Newest(run, c)
    {
      if l.Last? {
        var m :| IsNewest(Rows(After(run)), c, m) && l == Last.Last(m.body, m.sender, m.createdAt);
        assert m in After(run).messages;
      }
    }
  }

  lemma {:induction false} NewestBounds(run: seq<Event>, c: Id, x: nat)
    ensures Newest(run, c) <= x <==>
            forall i | 0 <= i < |run| && run[i].Sent? && run[i].conversation == c :: run[i].createdAt <= x
  {
    if run == [] {
    } else {
      var most := run[..|run| - 1];
      NewestBounds(most, c, x);
      assert forall i | 0 <= i < |most| :: most[i] == run[i];
    }
  }

  lemma InOrderSnoc(run: seq<Event>, c: Id)
    requires run != []
    ensures var most, e := run[..|run| - 1], run[|run| - 1];
            InOrder(run, c) <==>
            InOrder(most, c) && (e.Sent? && e.conversation == c ==> Newest(most, c) <= e.createdAt)
  {
    var most, e := run[..|run| - 1], run[|run| - 1];
    if e.Sent? && e.conversation == c { NewestBounds(most, c, e.createdAt); }
    assert forall i | 0 <= i < |most| :: most[i] == run[i];
  }

  predicate Agrees(run: seq<Event>, c: Id) {
    Cached(run, c) == Newest(run, c)
  }

  lemma {:induction false} InOrderMeans(run: seq<Event>, c: Id)
    ensures InOrder(run, c) <==> forall k | 0 <= k <= |run| :: Agrees(run[..k], c)
  {
    assert run[..|run|] == run;
    if run == [] {
    } else {
      var most := run[..|run| - 1];
      InOrderMeans(most, c);
      InOrderSnoc(run, c);
      assert forall k | 0 <= k <= |most| :: most[..k] == run[..k];
      assert Agrees(most, c) <== InOrder(most, c) by { assert most[..|most|] == most; }
    }
  }

  /** `last_message_at` agrees with the newest row at every point of a run exactly when
      inserts take effect in the order of their timestamps. */
  lemma CacheExactInOrder(run: seq<Event>, c: Id)
    ensures (forall k | 0 <= k <= |run| :: CacheExact(After(run[..k]), c)) <==> InOrder(run, c)
  {
    InOrderMeans(run, c);
    forall k | 0 <= k <= |run| ensures CacheExact(After(run[..k]), c) <==> Agrees(run[..k], c) {
      CacheExactMeans(run[..k], c);
    }
  }

  /** Two sends out of the order of their timestamps leave the cache behind the newest. */
  lemma OutOfOrderIsStale(c: Id, p: Id, q: Id)
    ensures var run := [Sent(0, c, p, "oi", 2), Sent(1, c, q, "oi", 1)];
            !CacheExact(After(run), c) && Cached(run, c) == 1 && Newest(run, c) == 2
  {
    var run := [Sent(0, c, p, "oi", 2), Sent(1, c, q, "oi", 1)];
    assert run[..1] == [run[0]] && run[..1][..0] == [];
    assert After(run[..1]) == Step(EMPTY_BOX, run[0]);
    assert Newest(run[..1], c) == 2;
    CacheExactMeans(run, c);
  }
}
