/** The rows of the `users`, `conversations` and `messages` tables and the constraints the schema declares. */
module Models {
  import opened Errors

  /** A UUID primary key; fresh keys come from a counter. */
  type Id = nat
  /** A value of the backend's clock, which only moves forward. */
  type Timestamp = nat

  datatype User = User(
    id: Id,
    email: string,
    hashedPassword: string,
    isActive: bool,
    isAdmin: bool,
    createdAt: Timestamp,
    credits: int)

  /** The `credits` column is a PostgreSQL INTEGER: 32 bits, signed. */
  const CreditsMin := -0x8000_0000
  const CreditsMax := 0x7FFF_FFFF

  /** A balance the `credits` column can hold. */
  predicate FitsCreditsColumn(n: int)
  {
    CreditsMin <= n <= CreditsMax
  }

  datatype Conversation = Conversation(
    id: Id,
    userId: Id,
    title: string,
    summary: Option<string>,
    createdAt: Timestamp,
    updatedAt: Timestamp)

  datatype Message = Message(
    id: Id,
    conversationId: Id,
    role: string,
    content: string,
    createdAt: Timestamp)

  /** The contents of the three tables, the clock and the source of fresh keys. Messages are kept in insertion order. */
  datatype Tables = Tables(
    users: map<Id, User>,
    conversations: map<Id, Conversation>,
    messages: seq<Message>,
    clock: Timestamp,
    nextId: Id)

  /** The new state of the tables and what the operation returned or raised. */
  datatype Step<+T> = Step(tables: Tables, result: Result<T>)

  /** A users row created with the column defaults: inactive, not an administrator, no credits. */
  function NewUser(id: Id, email: string, hashedPassword: string, createdAt: Timestamp): User
  {
    User(id, email, hashedPassword, false, false, createdAt, 0)
  }

  /** Primary keys match their rows and are below the fresh-key counter; emails are unique;
      every conversation belongs to a stored user and every message to a stored conversation
      (the FOREIGN KEY clauses); stored times are in the past; messages are stored in creation order. */
  ghost predicate WellFormed(t: Tables)
  {
    (forall id :: id in t.users ==> t.users[id].id == id && id < t.nextId && t.users[id].createdAt < t.clock) &&
    (forall a, b :: a in t.users && b in t.users && t.users[a].email == t.users[b].email ==> a == b) &&
    (forall id :: id in t.conversations ==>
       && t.conversations[id].id == id
       && id < t.nextId
       && t.conversations[id].userId in t.users
       && t.conversations[id].createdAt < t.clock
       && t.conversations[id].updatedAt < t.clock) &&
    (forall i :: 0 <= i < |t.messages| ==>
       && t.messages[i].conversationId in t.conversations
       && t.messages[i].id < t.nextId
       && t.messages[i].createdAt < t.clock) &&
    StoredInOrder(t.messages)
  }

  /** Messages stored in creation order, which also orders their keys. */
  ghost predicate StoredInOrder(msgs: seq<Message>)
  {
    forall i, j :: 0 <= i < j < |msgs| ==> msgs[i].createdAt < msgs[j].createdAt && msgs[i].id < msgs[j].id
  }

  /** A message created and keyed after every stored one can be appended in order. */
  lemma AppendInOrder(msgs: seq<Message>, last: Message)
    requires StoredInOrder(msgs)
    requires forall i :: 0 <= i < |msgs| ==> msgs[i].createdAt < last.createdAt && msgs[i].id < last.id
    ensures StoredInOrder(msgs + [last])
  {
    var w := msgs + [last];
    forall i, j | 0 <= i < j < |w| ensures w[i].createdAt < w[j].createdAt && w[i].id < w[j].id {
      assert w[i] == msgs[i];
      if j < |msgs| {
        assert w[j] == msgs[j];
      }
    }
  }

  /** The empty database. */
  function EmptyTables(): (t: Tables)
    ensures WellFormed(t)
  {
    Tables(map[], map[], [], 0, 0)
  }

  /** Rewriting a user row without touching its key, email or creation time keeps the store well formed. */
  lemma UpdateUserWellFormed(t: Tables, userId: Id, u: User)
    requires WellFormed(t) && userId in t.users
    requires u.id == userId && u.email == t.users[userId].email && u.createdAt == t.users[userId].createdAt
    ensures WellFormed(t.(users := t.users[userId := u]))
  {
    var n := t.(users := t.users[userId := u]);
    assert n.users.Keys == t.users.Keys;
    forall a, b | a in n.users && b in n.users && n.users[a].email == n.users[b].email ensures a == b {
      assert n.users[a].email == t.users[a].email && n.users[b].email == t.users[b].email;
    }
  }
}
