/** `createMessage` running beside `recordSwipe`: the membership check, the insert, the list
    of recipients and each publication are separate steps, with any other step between. */
module ChatSafety {
  import opened Common
  import opened MatchTables
  import SwipeProtocol

  datatype Phase =
    | Checked
    | Stored(message: Id)
    | Publishing(message: Id, pending: set<Id>, failed: set<Id>)

  /** One call of `createMessage` that passed the membership check. */
  datatype Send = Send(sender: Id, conversation: Id, phase: Phase)

  /** A stored message, as far as safety is concerned. */
  datatype Stored = Row(conversation: Id, sender: Id)

  /** `published` counts the events that reached the channel of a user. */
  datatype State = State(
    core: SwipeProtocol.State,
    sends: map<nat, Send>,
    messages: map<Id, Stored>,
    published: multiset<(Id, Id)>)

  datatype Event =
    | Core(step: SwipeProtocol.Event)
    | Check(request: nat, sender: Id, conversation: Id)
    | Insert(request: nat, newId: Id)
    | ListMembers(request: nat)
    | Publish(request: nat, recipient: Id, delivered: bool)

  function Init(users: set<Id>): State {
    State(SwipeProtocol.Init(users), map[], map[], multiset{})
  }

  predicate Enabled(s: State, e: Event) {
    match e
    case Core(_) => true
    case Check(r, sender, c) => r !in s.sends && (c, sender) in s.core.db.members
    case Insert(r, m) => r in s.sends && s.sends[r].phase.Checked? && m !in s.messages
    case ListMembers(r) => r in s.sends && s.sends[r].phase.Stored?
    case Publish(r, u, _) => r in s.sends && s.sends[r].phase.Publishing? && u in s.sends[r].phase.pending
  }

  ghost function Step(s: State, e: Event): State {
    if !Enabled(s, e) then s
    else
      match e
      case Core(step) => s.(core := SwipeProtocol.Step(s.core, step))
      case Check(r, sender, c) => s.(sends := s.sends[r := Send(sender, c, Checked)])
      case Insert(r, m) =>
        var send := s.sends[r];
        s.(sends := s.sends[r := send.(phase := Phase.Stored(m))],
           messages := s.messages[m := Row(send.conversation, send.sender)])
      case ListMembers(r) =>
        var send := s.sends[r];
        var to := MembersIn(s.core.db.members, send.conversation);
        s.(sends := s.sends[r := send.(phase := Publishing(send.phase.message, to, {}))])
      case Publish(r, u, delivered) =>
        var send := s.sends[r];
        var p := send.phase;
        var p' := p.(pending := p.pending - {u}, failed := if delivered then p.failed else p.failed + {u});
        s.(sends := s.sends[r := send.(phase := p')],
           published := if delivered then s.published + multiset{(u, p.message)} else s.published)
  }

  ghost function After(users: set<Id>, run: seq<Event>): State {
    if run == [] then Init(users) else Step(After(users, run[..|run| - 1]), run[|run| - 1])
  }

  // ---------- The invariant ----------

  /** What the channels have received of the message of send `x`. */
  ghost predicate SendOk(db: Tables, messages: map<Id, Stored>, published: multiset<(Id, Id)>, x: Send) {
    && (x.conversation, x.sender) in db.members
    && match x.phase
       case Checked => true
       case Stored(m) =>
         m in messages && messages[m] == Row(x.conversation, x.sender) && forall u :: published[(u, m)] == 0
       case Publishing(m, pending, failed) =>
         && m in messages && messages[m] == Row(x.conversation, x.sender)
         && pending !! failed && pending + failed <= MembersIn(db.members, x.conversation)
         && forall u :: published[(u, m)] ==
                        if u in MembersIn(db.members, x.conversation) - pending - failed then 1 else 0
  }

  predicate CarriedBy(sends: map<nat, Send>, r: nat, m: Id) {
    r in sends && !sends[r].phase.Checked? && sends[r].phase.message == m
  }

  ghost predicate SendsOk(s: State) {
    forall r | r in s.sends :: SendOk(s.core.db, s.messages, s.published, s.sends[r])
  }

  /** Each message has the one send that stored it, and nothing is published of others. */
  ghost predicate Carried(sends: map<nat, Send>, messages: map<Id, Stored>, published: multiset<(Id, Id)>) {
    && (forall r, q, m | CarriedBy(sends, r, m) && CarriedBy(sends, q, m) :: r == q)
    && (forall m | m in messages :: exists r :: CarriedBy(sends, r, m))
    && (forall u, m | m !in messages :: published[(u, m)] == 0)
  }

  ghost predicate Inv(s: State) {
    SwipeProtocol.Inv(s.core) && SendsOk(s) && Carried(s.sends, s.messages, s.published)
  }

  /** A conversation that exists keeps its members whatever else commits. */
  lemma MembersFixed(t: Tables, t': Tables, c: Id, u: Id)
    requires Consistent(t) && Consistent(t') && Grows(t, t') && (c, u) in t.members
    ensures MembersIn(t.members, c) == MembersIn(t'.members, c)
  {
    MembersOfMatch(t, c, u);
    MembersOfMatch(t', c, u);
  }

  /** The members of a conversation are the users of its match. */
  lemma MembersOfMatch(t: Tables, c: Id, u: Id)
    requires ConversationsOk(t.matches, t.conversations, t.members) && (c, u) in t.members
    ensures c in t.conversations && t.conversations[c].matchId in t.matches
    ensures var m := t.matches[t.conversations[c].matchId]; MembersIn(t.members, c) == {m.low, m.high}
  {
    assert (c, u).0 in t.conversations;
    var m := t.matches[t.conversations[c].matchId];
    assert MembersAre(t.members, c, m);
    TwoMembers(t, c, m.low, m.high);
  }

  lemma SendsUnderCommit(s: State, t': Tables)
    requires SendsOk(s) && Consistent(s.core.db) && Consistent(t') && Grows(s.core.db, t')
    ensures forall r | r in s.sends :: SendOk(t', s.messages, s.published, s.sends[r])
  {
    forall r | r in s.sends ensures SendOk(t', s.messages, s.published, s.sends[r]) {
      var x := s.sends[r];
      assert SendOk(s.core.db, s.messages, s.published, x);
      MembersFixed(s.core.db, t', x.conversation, x.sender);
    }
  }

  lemma CoreKeeps(s: State, step: SwipeProtocol.Event)
    requires Inv(s)
    ensures Inv(Step(s, Core(step)))
  {
    var core' := SwipeProtocol.Step(s.core, step);
    SwipeProtocol.StepKeeps(s.core, step);
    assert Grows(s.core.db, core'.db) by { SwipeProtocol.StepGrows(s.core, step); }
    SendsUnderCommit(s, core'.db);
  }

  predicate IsOf(x: Send, m: Id) {
    !x.phase.Checked? && x.phase.message == m
  }

  /** A new message, or an event of another message, leaves a send as it was. */
  lemma OthersOk(db: Tables, messages: map<Id, Stored>, published: multiset<(Id, Id)>, x: Send,
                 u: Id, m: Id, row: Stored)
    requires SendOk(db, messages, published, x) && !IsOf(x, m)
    ensures SendOk(db, messages[m := row], published, x)
    ensures SendOk(db, messages, published + multiset{(u, m)}, x)
  {
  }

  lemma InsertOk(db: Tables, messages: map<Id, Stored>, published: multiset<(Id, Id)>, x: Send, m: Id)
    requires SendOk(db, messages, published, x) && forall u :: published[(u, m)] == 0
    ensures SendOk(db, messages[m := Row(x.conversation, x.sender)], published, x.(phase := Phase.Stored(m)))
  {
  }

  lemma ListOk(db: Tables, messages: map<Id, Stored>, published: multiset<(Id, Id)>, x: Send)
    requires SendOk(db, messages, published, x) && x.phase.Stored?
    ensures SendOk(db, messages, published,
                   x.(phase := Publishing(x.phase.message, MembersIn(db.members, x.conversation), {})))
  {
  }

  lemma PublishOk(db: Tables, messages: map<Id, Stored>, published: multiset<(Id, Id)>, x: Send, u: Id)
    requires SendOk(db, messages, published, x) && x.phase.Publishing? && u in x.phase.pending
    ensures var p := x.phase;
            && SendOk(db, messages, published + multiset{(u, p.message)}, x.(phase := p.(pending := p.pending - {u})))
            && SendOk(db, messages, published,
                      x.(phase := p.(pending := p.pending - {u}, failed := p.failed + {u})))
  {
  }

  /** The steps of send `r` keep it, and leave every other send as it was. */
  lemma SendStepOk(s: State, e: Event, q: nat)
    requires SendsOk(s) && Carried(s.sends, s.messages, s.published)
    requires Enabled(s, e) && !e.Core? && q in Step(s, e).sends
    ensures var s' := Step(s, e); SendOk(s.core.db, s'.messages, s'.published, s'.sends[q])
  {
    if q in s.sends {
      assert SendOk(s.core.db, s.messages, s.published, s.sends[q]);
      if q == e.request { OwnStepOk(s, e); } else { OtherStepOk(s, e, q); }
    }
  }

  lemma OwnStepOk(s: State, e: Event)
    requires Carried(s.sends, s.messages, s.published)
    requires Enabled(s, e) && !e.Core? && e.request in s.sends
    requires SendOk(s.core.db, s.messages, s.published, s.sends[e.request])
    ensures var s' := Step(s, e); SendOk(s.core.db, s'.messages, s'.published, s'.sends[e.request])
  {
    var db, x := s.core.db, s.sends[e.request];
    match e
    case Insert(_, m) => InsertOk(db, s.messages, s.published, x, m);
    case ListMembers(_) => ListOk(db, s.messages, s.published, x);
    case Publish(_, u, _) => PublishOk(db, s.messages, s.published, x, u);
  }

  lemma OtherStepOk(s: State, e: Event, q: nat)
    requires Carried(s.sends, s.messages, s.published)
    requires Enabled(s, e) && !e.Core? && q in s.sends && q != e.request
    requires SendOk(s.core.db, s.messages, s.published, s.sends[q])
    ensures var s' := Step(s, e); SendOk(s.core.db, s'.messages, s'.published, s'.sends[q])
  {
    var db, x := s.core.db, s.sends[q];
    if e.Insert? {
      var own := s.sends[e.request];
      OthersOk(db, s.messages, s.published, x, 0, e.newId, Row(own.conversation, own.sender));
    } else if e.Publish? {
      var m := s.sends[e.request].phase.message;
      assert IsOf(x, m) ==> CarriedBy(s.sends, q, m) && CarriedBy(s.sends, e.request, m);
      OthersOk(db, s.messages, s.published, x, e.recipient, m, Row(0, 0));
    }
  }

  lemma SendStepCarries(s: State, e: Event, m: Id)
    requires Carried(s.sends, s.messages, s.published) && Enabled(s, e) && !e.Core? && m in Step(s, e).messages
    ensures exists q :: CarriedBy(Step(s, e).sends, q, m)
  {
    var s' := Step(s, e);
    if e.Insert? && m == e.newId {
      assert CarriedBy(s'.sends, e.request, m);
    } else {
      var q :| CarriedBy(s.sends, q, m);
      assert CarriedBy(s'.sends, q, m);
    }
  }

  lemma SendStepSilent(s: State, e: Event)
    requires Carried(s.sends, s.messages, s.published) && SendsOk(s) && Enabled(s, e) && !e.Core?
    ensures var s' := Step(s, e); forall u, m | m !in s'.messages :: s'.published[(u, m)] == 0
  {
    if e.Publish? { assert SendOk(s.core.db, s.messages, s.published, s.sends[e.request]); }
  }

  lemma SendStepCarried(s: State, e: Event)
    requires Carried(s.sends, s.messages, s.published) && SendsOk(s) && Enabled(s, e) && !e.Core?
    ensures var s' := Step(s, e); Carried(s'.sends, s'.messages, s'.published)
  {
    var s' := Step(s, e);
    SendStepSilent(s, e);
    forall m | m in s'.messages ensures exists q :: CarriedBy(s'.sends, q, m) { SendStepCarries(s, e, m); }
    forall q, p, m | CarriedBy(s'.sends, q, m) && CarriedBy(s'.sends, p, m) ensures q == p {
      NotYetCarried(s, e, m, q);
      NotYetCarried(s, e, m, p);
    }
  }

  lemma NotYetCarried(s: State, e: Event, m: Id, q: nat)
    requires SendsOk(s) && Enabled(s, e) && !e.Core? && CarriedBy(Step(s, e).sends, q, m)
    ensures CarriedBy(s.sends, q, m) || (e.Insert? && q == e.request && m == e.newId)
    ensures CarriedBy(s.sends, q, m) ==> m in s.messages
  {
    if q in s.sends { assert SendOk(s.core.db, s.messages, s.published, s.sends[q]); }
  }

  lemma StepKeeps(s: State, e: Event)
    requires Inv(s)
    ensures Inv(Step(s, e))
  {
    if e.Core? {
      CoreKeeps(s, e.step);
    } else if Enabled(s, e) {
      SendStepCarried(s, e);
      forall q | q in Step(s, e).sends
        ensures SendOk(s.core.db, Step(s, e).messages, Step(s, e).published, Step(s, e).sends[q])
      {
        SendStepOk(s, e, q);
      }
    }
  }

  lemma {:induction false} RunKeeps(users: set<Id>, run: seq<Event>)
    ensures Inv(After(users, run))
  {
    if run == [] {
    } else {
      RunKeeps(users, run[..|run| - 1]);
      StepKeeps(After(users, run[..|run| - 1]), run[|run| - 1]);
    }
  }

  // ---------- What holds in every interleaving ----------

  lemma SenderIsMember(s: State, m: Id)
    requires SendsOk(s) && Carried(s.sends, s.messages, s.published) && m in s.messages
    ensures (s.messages[m].conversation, s.messages[m].sender) in s.core.db.members
  {
    var r :| CarriedBy(s.sends, r, m);
    assert SendOk(s.core.db, s.messages, s.published, s.sends[r]);
  }

  lemma TwoMembers(db: Tables, c: Id, a: Id, b: Id)
    requires forall v :: (c, v) in db.members <==> v == a || v == b
    ensures MembersIn(db.members, c) == {a, b}
  {
    assert (c, a) in db.members && (c, b) in db.members;
  }

  /** The sender of a stored message and its one other member have committed mutual likes. */
  lemma MessagesBetweenMutualLikes(users: set<Id>, run: seq<Event>, m: Id) returns (partner: Id)
    requires m in After(users, run).messages
    ensures var s := After(users, run); var row := s.messages[m];
            && partner != row.sender && MembersIn(s.core.db.members, row.conversation) == {row.sender, partner}
            && Likes(s.core.db.swipes, row.sender, partner) && Likes(s.core.db.swipes, partner, row.sender)
  {
    var s := After(users, run);
    var row := s.messages[m];
    assert Consistent(s.core.db) && (row.conversation, row.sender) in s.core.db.members by {
      RunKeeps(users, run);
      SenderIsMember(s, m);
    }
    partner := MembersLikeEachOther(s.core.db, row.conversation, row.sender);
    TwoMembers(s.core.db, row.conversation, row.sender, partner);
  }

  /** An event reaches a channel at most once, and only a member's. */
  lemma PublishedToMembersOnce(users: set<Id>, run: seq<Event>, u: Id, m: Id)
    ensures var s := After(users, run);
            && s.published[(u, m)] <= 1
            && (s.published[(u, m)] == 1 ==>
                  m in s.messages && u in MembersIn(s.core.db.members, s.messages[m].conversation))
  {
    RunKeeps(users, run);
    OnceAndToMembers(After(users, run), u, m);
  }

  lemma OnceAndToMembers(s: State, u: Id, m: Id)
    requires SendsOk(s) && Carried(s.sends, s.messages, s.published)
    ensures s.published[(u, m)] <= 1
    ensures s.published[(u, m)] == 1 ==>
              m in s.messages && u in MembersIn(s.core.db.members, s.messages[m].conversation)
  {
    if m in s.messages {
      var r :| CarriedBy(s.sends, r, m);
      assert SendOk(s.core.db, s.messages, s.published, s.sends[r]);
    }
  }

  /** Once a send has gone through its recipients, each of the two members has the event
      exactly once unless its publication failed. */
  lemma PublishedWhenDone(users: set<Id>, run: seq<Event>, r: nat, u: Id)
    requires var s := After(users, run); r in s.sends && s.sends[r].phase.Publishing? && s.sends[r].phase.pending == {}
    ensures var s := After(users, run); var x := s.sends[r];
            s.published[(u, x.phase.message)] ==
            if u in MembersIn(s.core.db.members, x.conversation) - x.phase.failed then 1 else 0
  {
    var s := After(users, run);
    assert SendsOk(s) by { RunKeeps(users, run); }
    assert SendOk(s.core.db, s.messages, s.published, s.sends[r]);
  }
}
