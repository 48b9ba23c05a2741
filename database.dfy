/** The database session the services receive as `db`: the three tables, updated in place. */
module Database {
  import opened Models

  class Db {
    var users: map<Id, User>
    var conversations: map<Id, Conversation>
    var messages: seq<Message>
    var clock: Timestamp
    var nextId: Id

    /** The committed contents of the tables. */
    function Snapshot(): Tables
      reads this
    {
      Tables(users, conversations, messages, clock, nextId)
    }

    ghost predicate Valid()
      reads this
    {
      WellFormed(Snapshot())
    }

    constructor ()
      ensures Valid() && Snapshot() == EmptyTables()
    {
      users, conversations, messages := map[], map[], [];
      clock, nextId := 0, 0;
    }
  }
}
