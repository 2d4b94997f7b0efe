/** What several modules share. */
module Common {
  datatype Option<T> = None | Some(value: T)

  /** A UUID, as its 128-bit big-endian value; module `Uuids` proves that this order is the
      order of the bytes and of the text form. */
  type Id = nat

  /** The users that rows of `conversation_members` give conversation `c`. */
  function MembersIn(members: set<(Id, Id)>, c: Id): set<Id> {
    set p | p in members && p.0 == c :: p.1
  }
}
