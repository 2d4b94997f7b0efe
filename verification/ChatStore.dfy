/** The `createMessage` and `messages` handlers as the code runs them, one request after
    another. */
module ChatStore {
  import opened Common
  import opened Texts
  import opened Messages
  import opened Reading
  import MessagePages

  function PostsOf(page: seq<Message>): (posts: seq<Post>)
    ensures |posts| == |page| && forall i | 0 <= i < |page| :: posts[i] == PostOf(page[i])
  {
    seq(|page|, i requires 0 <= i < |page| => PostOf(page[i]))
  }

  /** `page` is an answer of ListMessagesPaginated over `rows`. */
  ghost predicate IsAnswer(rows: seq<Message>, c: Id, before: Option<nat>, limit: nat,
                           page: seq<Message>)
  {
    && (forall i | 0 <= i < |page| :: page[i] in rows)
    && MessagePages.IsPage(set m | m in rows :: PostOf(m), c, before, limit, PostsOf(page))
  }

  datatype Reply = Stored | Refused(error: PayloadError) | NotMember

  /** Every stored text may be there. */
  ghost predicate BodiesOk(rows: seq<Message>) {
    forall i | 0 <= i < |rows| :: BodyOk(rows[i].body)
  }

  /** Reversed, an answer is in reading order. */
  lemma ReadingOrder(rows: seq<Message>, c: Id, before: Option<nat>, limit: nat, page: seq<Message>)
    requires IsAnswer(rows, c, before, limit, page)
    ensures var shown := MessagePages.Reversed(page);
            forall i, j | 0 <= i < j < |shown| :: shown[i].createdAt <= shown[j].createdAt
  {
    assert forall i, j | 0 <= i < j < |page| :: PostsOf(page)[i].createdAt >= PostsOf(page)[j].createdAt;
  }

  lemma NextByMembers(run: seq<Event>, e: Event, c: Id, members: set<Id>)
    requires ByMembers(run, c, members)
    requires e.conversation == c ==> (if e.Sent? then e.sender else e.reader) in members
    ensures ByMembers(run + [e], c, members)
  {
  }

  class Chat {
    /** Rows of `conversation_members`; a conversation has the two users of its match. */
    const members: set<(Id, Id)>
    var box: Box
    /** The sends and reads so far that took effect. */
    ghost var run: seq<Event>

    ghost predicate Valid()
      reads this
    {
      && box == After(run) && BodiesOk(box.messages)
      && forall c :: AtMostTwo(MembersIn(members, c)) && ByMembers(run, c, MembersIn(members, c))
    }

    constructor (members: set<(Id, Id)>)
      requires forall c :: AtMostTwo(MembersIn(members, c))
      ensures Valid() && this.members == members && box == EMPTY_BOX && run == []
    {
      this.members := members;
      box := EMPTY_BOX;
      run := [];
    }

    /** One more event by a member. */
    ghost method Record(e: Event)
      requires Valid()
      requires (e.conversation, if e.Sent? then e.sender else e.reader) in members
      modifies this`run
      ensures run == old(run) + [e] && After(run) == Step(box, e)
      ensures forall c :: ByMembers(run, c, MembersIn(members, c))
    {
      forall c ensures ByMembers(run + [e], c, MembersIn(members, c)) {
        NextByMembers(run, e, c, MembersIn(members, c));
      }
      assert (run + [e])[..|run|] == run;
      run := run + [e];
    }

    /** A member's message is stored, without the spaces around it, and moves the
        conversation's `last_message_at`; a payload that may not be stored is refused first. */
    method CreateMessage(sender: Id, c: Id, text: string, newId: Id, now: nat) returns (reply: Reply)
      requires Valid()
      modifies this
      ensures Valid()
      ensures reply.Stored? <==> c != 0 && BodyOk(TrimSpace(text)) && (c, sender) in members
      ensures reply.Refused? ==> Some(reply.error) == PayloadErrorOf(c, text)
      ensures reply.NotMember? ==> PayloadErrorOf(c, text).None?
      ensures run == if reply.Stored? then old(run) + [Sent(newId, c, sender, TrimSpace(text), now)] else old(run)
      ensures reply.Stored? ==>
                && box.messages == old(box.messages) + [Message(newId, c, sender, TrimSpace(text), false, now)]
                && box.lastMessageAt == old(box.lastMessageAt)[c := now]
      ensures !reply.Stored? ==> box == old(box)
    {
      PayloadOkExactly(c, text);
      var error := PayloadErrorOf(c, text);
      if error.Some? { return Refused(error.value); }
      if (c, sender) !in members { return NotMember; }
      var body := TrimSpace(text);
      Record(Sent(newId, c, sender, body, now));
      box := Box(box.messages + [Message(newId, c, sender, body, false, now)], box.lastMessageAt[c := now]);
      return Stored;
    }

    /** UPDATE messages SET is_read = true. */
    method MarkMessagesRead(c: Id, reader: Id)
      requires Valid() && (c, reader) in members
      modifies this
      ensures Valid() && run == old(run) + [Marked(c, reader)]
      ensures box == old(box).(messages := MarkRows(old(box).messages, c, reader))
      ensures Unread(box.messages, c, reader) == 0
    {
      Record(Marked(c, reader));
      MarkChanges(box.messages, c, reader, c, reader);
      box := box.(messages := MarkRows(box.messages, c, reader));
    }

    /** Shows a page to a member in reading order, and marks what others sent as read unless
        that statement fails.  `rows` holds what ListMessagesPaginated answered; the shown
        rows carry the flags from before the marking. */
    method ShowMessages(user: Id, c: Id, before: Option<nat>, limit: nat, rows: array<Message>,
                        marked: bool)
      returns (ok: bool)
      requires Valid() && IsAnswer(box.messages, c, before, limit, rows[..])
      modifies this, rows
      ensures Valid() && ok == ((c, user) in members)
      ensures run == if ok && marked then old(run) + [Marked(c, user)] else old(run)
      ensures !ok ==> box == old(box) && rows[..] == old(rows[..])
      ensures ok ==> rows[..] == MessagePages.Reversed(old(rows[..]))
      ensures ok ==> forall i, j | 0 <= i < j < rows.Length :: rows[i].createdAt <= rows[j].createdAt
      ensures ok && marked ==> Unread(box.messages, c, user) == 0
    {
      ok := (c, user) in members;
      if !ok { return; }
      ReadingOrder(box.messages, c, before, limit, rows[..]);
      if marked { MarkMessagesRead(c, user); }
      MessagePages.ReverseInPlace(rows);
    }

    /** No stored message holds the beginning of a link, in letters of either case. */
    lemma NoStoredLinks(i: nat)
      requires Valid() && i < |box.messages|
      ensures !LinkStandsIn(box.messages[i].body) && 0 < |box.messages[i].body| <= 1000
    {
      assert BodyOk(box.messages[i].body);
      HasLinkExactly(box.messages[i].body);
    }

    /** The unread count a member is shown is the number of messages from the other member
        since it last read the conversation. */
    lemma UnreadCountIsSinceRead(u: Id, c: Id)
      requires Valid() && (c, u) in members
      ensures Unread(box.messages, c, u) == SinceRead(run, c, u)
    {
      UnreadIsSinceRead(run, c, MembersIn(members, c), u);
    }
  }
}
