/** Reading and appending the messages of a conversation (app/services/messages_service.py). */
module MessagesService {
  import opened Errors
  import opened PyText
  import opened Models
  import opened Database

  /** `datetime.isoformat()`. The model renders the abstract clock value in decimal. */
  function IsoFormat(t: Timestamp): string
  {
    NatToString(t)
  }

  /** The dictionary `get_conversation_messages` returns for one message. */
  datatype MessageRecord = MessageRecord(id: Id, content: string, role: string, createdAt: string)

  /** The dictionary `send_message_to_conversation` returns for the stored message. */
  datatype SentMessage = SentMessage(id: Id, conversationId: Id, content: string, role: string, createdAt: string)

  function ToRecord(m: Message): MessageRecord
  {
    MessageRecord(m.id, m.content, m.role, IsoFormat(m.createdAt) + "Z")
  }

  function ToRecords(ms: seq<Message>): (rs: seq<MessageRecord>)
    ensures |rs| == |ms|
  {
    seq(|ms|, i requires 0 <= i < |ms| => ToRecord(ms[i]))
  }

  /** The rows of `messages` whose conversation_id is the given one, in table order. */
  function ConversationMessages(msgs: seq<Message>, conversationId: Id): seq<Message>
    decreases |msgs|
  {
    if msgs == [] then []
    else
      var last := msgs[|msgs| - 1];
      ConversationMessages(msgs[..|msgs| - 1], conversationId) + (if last.conversationId == conversationId then [last] else [])
  }

  /** The stored messages are ordered by creation time. */
  ghost predicate CreatedInOrder(msgs: seq<Message>)
  {
    forall i, j :: 0 <= i < j < |msgs| ==> msgs[i].createdAt < msgs[j].createdAt
  }

  /** `get_conversation_messages`: the conversation's messages ordered by created_at ascending.
      `userId` takes no part in the query. A database error propagates. */
  function GetConversationMessages(t: Tables, conversationId: Id, userId: Id, fault: bool): Result<seq<MessageRecord>>
  {
    if fault then Err(DbErr(DbUnavailable))
    else Ok(ToRecords(ConversationMessages(t.messages, conversationId)))
  }

  /** `send_message_to_conversation` as a transition of the tables: one new row with the given role and
      content, stamped with the clock. The FOREIGN KEY on conversation_id rejects an unknown conversation. */
  function AppendMessage(t: Tables, conversationId: Id, role: string, content: string, fault: bool): Step<SentMessage>
  {
    if fault then Step(t, Err(DbErr(DbUnavailable)))
    else if conversationId !in t.conversations then Step(t, Err(DbErr(ForeignKeyViolation)))
    else
      var m := Message(t.nextId, conversationId, role, content, t.clock);
      Step(t.(messages := t.messages + [m], clock := t.clock + 1, nextId := t.nextId + 1), Ok(Sent(m)))
  }

  function Sent(m: Message): SentMessage
  {
    SentMessage(m.id, m.conversationId, m.content, m.role, IsoFormat(m.createdAt) + "Z")
  }

  const DefaultPreviousMessages := 5

  /** `process_previous_messages`: `messages[-k_messages:]` of the conversation's messages. */
  function ProcessPreviousMessages(t: Tables, conversationId: Id, userId: Id, fault: bool,
                                   kMessages: int := DefaultPreviousMessages): Result<seq<MessageRecord>>
  {
    var all := GetConversationMessages(t, conversationId, userId, fault);
    if all.Err? then all else Ok(PySuffix(all.value, -kMessages))
  }

  /** The imperative `send_message_to_conversation`: adds and commits one row. */
  method SendMessageToConversation(db: Db, conversationId: Id, role: string, content: string, fault: bool)
    returns (r: Result<SentMessage>)
    requires db.Valid()
    modifies db
    ensures db.Valid()
    ensures Step(db.Snapshot(), r) == AppendMessage(old(db.Snapshot()), conversationId, role, content, fault)
  {
    if fault {
      return Err(DbErr(DbUnavailable));
    }
    if conversationId !in db.conversations {
      return Err(DbErr(ForeignKeyViolation));
    }
    ghost var s := AppendMessage(db.Snapshot(), conversationId, role, content, fault);
    AppendMessageWellFormed(db.Snapshot(), conversationId, role, content, fault);
    var message := Message(db.nextId, conversationId, role, content, db.clock);
    r := Ok(Sent(message));
    assert r == s.result;
    db.messages, db.clock, db.nextId := db.messages + [message], db.clock + 1, db.nextId + 1;
    assert db.Snapshot() == s.tables;
  }

  // ---------------------------------------------------------------- lemmas

  /** The query returns exactly the rows of that conversation, each once, in ascending creation order. */
  lemma {:induction false} ConversationMessagesExact(msgs: seq<Message>, conversationId: Id)
    requires CreatedInOrder(msgs)
    ensures forall m :: m in ConversationMessages(msgs, conversationId) <==> m in msgs && m.conversationId == conversationId
    ensures CreatedInOrder(ConversationMessages(msgs, conversationId))
    decreases |msgs|
  {
    if msgs != [] {
      var front := msgs[..|msgs| - 1];
      var last := msgs[|msgs| - 1];
      SplitLast(msgs);
      assert CreatedInOrder(front);
      ConversationMessagesExact(front, conversationId);
      var prev := ConversationMessages(front, conversationId);
      forall m | m in prev ensures m.createdAt < last.createdAt {
        var i :| 0 <= i < |front| && front[i] == m;
        assert msgs[i] == m;
      }
    }
  }

  /** Appending a message of conversation `c` extends `c`'s history by that message and leaves the others alone. */
  lemma {:induction false} ConversationMessagesAppend(msgs: seq<Message>, m: Message, c: Id)
    ensures ConversationMessages(msgs + [m], c) ==
            ConversationMessages(msgs, c) + (if m.conversationId == c then [m] else [])
  {
    assert (msgs + [m])[..|msgs + [m]| - 1] == msgs;
  }

  /** `get_conversation_messages` on a well-formed store: every record is a message of the conversation, none is
      missing, and they come in ascending creation order; the user id plays no part. */
  lemma GetConversationMessagesSpec(t: Tables, conversationId: Id, userId: Id, otherUser: Id)
    requires WellFormed(t)
    ensures GetConversationMessages(t, conversationId, userId, true) == Err(DbErr(DbUnavailable))
    ensures var r := GetConversationMessages(t, conversationId, userId, false);
            && r.Ok?
            && r == GetConversationMessages(t, conversationId, otherUser, false)
            && exists ms :: && r.value == ToRecords(ms)
                            && CreatedInOrder(ms)
                            && (forall m :: m in ms <==> m in t.messages && m.conversationId == conversationId)
  {
    var ms := ConversationMessages(t.messages, conversationId);
    ConversationMessagesExact(t.messages, conversationId);
    assert GetConversationMessages(t, conversationId, userId, false).value == ToRecords(ms);
  }

  /** Every record carries the creation time with a "Z" appended. */
  lemma RecordsCarryZulu(ms: seq<Message>, i: nat)
    requires i < |ms|
    ensures var rec := ToRecords(ms)[i];
            rec.id == ms[i].id && rec.content == ms[i].content && rec.role == ms[i].role &&
            |rec.createdAt| > 0 && rec.createdAt[|rec.createdAt| - 1] == 'Z'
  {
  }

  /** Sending keeps the store well formed. */
  lemma AppendMessageWellFormed(t: Tables, conversationId: Id, role: string, content: string, fault: bool)
    requires WellFormed(t)
    ensures WellFormed(AppendMessage(t, conversationId, role, content, fault).tables)
  {
    var s := AppendMessage(t, conversationId, role, content, fault);
    if !fault && conversationId in t.conversations {
      var m := Message(t.nextId, conversationId, role, content, t.clock);
      var n := s.tables;
      assert n.messages == t.messages + [m];
      AppendInOrder(t.messages, m);
    }
  }

  /** `send_message_to_conversation` appends one message with the role and content verbatim, after every earlier
      row, which stays as it was; it fails without effect exactly when the database fails or the conversation
      does not exist. */
  lemma AppendMessageSpec(t: Tables, conversationId: Id, role: string, content: string, fault: bool)
    ensures var s := AppendMessage(t, conversationId, role, content, fault);
            && (s.result.Err? <==> fault || conversationId !in t.conversations)
            && (s.result.Err? ==> s.tables == t)
            && (s.result.Ok? ==>
                  && |s.tables.messages| == |t.messages| + 1
                  && s.tables.messages[..|t.messages|] == t.messages
                  && s.tables.users == t.users && s.tables.conversations == t.conversations
                  && (forall c :: c != conversationId ==>
                       ConversationMessages(s.tables.messages, c) == ConversationMessages(t.messages, c))
                  && (var m := s.tables.messages[|t.messages|];
                      && m.conversationId == conversationId && m.role == role && m.content == content
                      && m.createdAt == t.clock
                      && s.result.value == SentMessage(m.id, conversationId, content, role, IsoFormat(t.clock) + "Z")
                      && ConversationMessages(s.tables.messages, conversationId) ==
                         ConversationMessages(t.messages, conversationId) + [m]))
  {
    var s := AppendMessage(t, conversationId, role, content, fault);
    if s.result.Ok? {
      var m := s.tables.messages[|t.messages|];
      assert s.tables.messages == t.messages + [m];
      ConversationMessagesAppend(t.messages, m, conversationId);
      forall c | c != conversationId
        ensures ConversationMessages(s.tables.messages, c) == ConversationMessages(t.messages, c)
      {
        ConversationMessagesAppend(t.messages, m, c);
      }
    }
  }

  /** `process_previous_messages` keeps the last k records in order (all of them when there are fewer); with
      k = 0 Python's `messages[-0:]` is the whole list, and a negative k drops the first |k| records. */
  lemma ProcessPreviousMessagesSpec(t: Tables, conversationId: Id, userId: Id, kMessages: int)
    ensures var all := GetConversationMessages(t, conversationId, userId, false).value;
            var r := ProcessPreviousMessages(t, conversationId, userId, false, kMessages);
            && r.Ok?
            && (kMessages > 0 ==> r.value == all[|all| - Min(kMessages, |all|)..])
            && (kMessages == 0 ==> r.value == all)
            && (kMessages < 0 ==> r.value == all[Min(-kMessages, |all|)..])
  {
  }
}
