/** Rows of `messages`, and the last one of a conversation. */
module Messages {
  import opened Common

  datatype Message = Message(id: Id, conversation: Id, sender: Id, body: string, isRead: bool, createdAt: nat)

  /** A row as paging sees it: without `is_read`, which neither filter nor order uses. */
  datatype Post = Post(id: Id, conversation: Id, sender: Id, body: string, createdAt: nat)

  function PostOf(m: Message): Post {
    Post(m.id, m.conversation, m.sender, m.body, m.createdAt)
  }

  /** The columns that the LATERAL subquery of both lists contributes. */
  datatype Last = NoMessage | Last(body: string, sender: Id, at: nat)

  /** ORDER BY created_at DESC LIMIT 1: one of the rows with the largest `created_at`. */
  ghost predicate IsNewest(rows: set<Message>, c: Id, m: Message) {
    m in rows && m.conversation == c && forall n | n in rows && n.conversation == c :: n.createdAt <= m.createdAt
  }

  ghost predicate IsLast(rows: set<Message>, c: Id, last: Last) {
    if last.NoMessage? then forall m | m in rows :: m.conversation != c
    else exists m :: IsNewest(rows, c, m) && last == Last(m.body, m.sender, m.createdAt)
  }

  lemma {:induction false} LastExists(rows: set<Message>, c: Id) returns (last: Last)
    ensures IsLast(rows, c, last)
  {
    if m :| m in rows && m.conversation == c {
      var rest := rows - {m};
      var l := LastExists(rest, c);
      if l.Last? {
        var n :| IsNewest(rest, c, n) && l == Last(n.body, n.sender, n.createdAt);
        var best := if n.createdAt < m.createdAt then m else n;
        assert IsNewest(rows, c, best);
        last := Last(best.body, best.sender, best.createdAt);
      } else {
        assert IsNewest(rows, c, m);
        last := Last(m.body, m.sender, m.createdAt);
      }
    } else {
      last := NoMessage;
    }
  }

  /** Whichever newest row is taken, its timestamp is the same. */
  lemma LastAgrees(rows: set<Message>, c: Id, k: Last, l: Last)
    requires IsLast(rows, c, k) && IsLast(rows, c, l)
    ensures k.NoMessage? <==> l.NoMessage?
    ensures k.Last? ==> k.at == l.at
  {
  }
}
