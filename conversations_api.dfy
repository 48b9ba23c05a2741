/** The conversation endpoints and the chat turn of `send_message` (app/api/conversations.py). */
module ConversationsApi {
  import opened Errors
  import opened Models
  import opened Database
  import opened MessagesService
  import opened ConversationService
  import opened CreditService
  import opened Processor

  const InvalidConversationId := HttpExc(400, "Invalid conversation ID format")
  const InternalError := HttpExc(500, "Internal Server Error")
  const UserSaveFailed := HttpExc(500, "Error al guardar el mensaje del usuario")
  const AgentStepFailed := HttpExc(500, "Error al procesar el mensaje con el agente")
  const AssistantSaveFailed := HttpExc(500, "Error al guardar la respuesta del asistente")
  const NoResponse := "No se pudo generar una respuesta"
  const DefaultTitle := "New Conversation"

  /** Which of the turn's database accesses fail. */
  datatype TurnFaults = TurnFaults(
    saveUser: bool,
    readConversation: bool,
    readMessages: bool,
    saveAssistant: bool,
    deduct: bool)

  /** What the agent's `ainvoke` does: it raises, or returns its final `messages` list (for each element, its
      `content` if it has that attribute) and the summary it kept. */
  datatype AgentRun =
    | AgentFailed(msg: string)
    | AgentFinished(state: seq<Option<string>>, summary: Option<string>)

  /** The reply of a turn: the stored assistant message and the boolean `deduct_credits` returned. */
  datatype TurnReply = TurnReply(message: SentMessage, creditsRemaining: bool)

  /** The last element's content, or the fixed fallback when the state is empty or its last element has none. */
  function AssistantReply(state: seq<Option<string>>): string
  {
    if |state| > 0 && state[|state| - 1].Some? then state[|state| - 1].value else NoResponse
  }

  /** The history `process_message` builds once the user message is stored. */
  function AgentInput(t: Tables, conversationId: Id, userId: Id, content: string, faults: TurnFaults): Result<seq<ChatEntry>>
  {
    ProcessOutcome(t, userId, conversationId, content, faults.readConversation, faults.readMessages)
  }

  /** The last block of the turn: store the assistant message, then deduct one credit. */
  function Reply(t: Tables, conversationId: Id, userId: Id, response: string, faults: TurnFaults): Step<TurnReply>
  {
    var stored := AppendMessage(t, conversationId, "assistant", response, faults.saveAssistant);
    if stored.result.Err? then Step(stored.tables, Err(AssistantSaveFailed))
    else
      var deducted := DeductStep(stored.tables, userId, 1, faults.deduct);
      if deducted.result.Err? then Step(deducted.tables, Err(AssistantSaveFailed))
      else Step(deducted.tables, Ok(TurnReply(stored.result.value, deducted.result.value)))
  }

  /** `send_message` as a transition: parse the id, store the user message, build the history and run the
      agent, store the reply and deduct. A failing step ends the turn and keeps what earlier steps committed. */
  function Turn(t: Tables, conversationText: string, userId: Id, content: string,
                parseUuid: string -> Option<Id>, agent: seq<ChatEntry> -> AgentRun, faults: TurnFaults): Step<TurnReply>
  {
    var parsed := parseUuid(conversationText);
    if parsed.None? then Step(t, Err(InvalidConversationId))
    else
      var conversationId := parsed.value;
      var saved := AppendMessage(t, conversationId, "user", content, faults.saveUser);
      if saved.result.Err? then Step(saved.tables, Err(UserSaveFailed))
      else
        var history := AgentInput(saved.tables, conversationId, userId, content, faults);
        if history.Err? then Step(saved.tables, Err(AgentStepFailed))
        else
          var run := agent(history.value);
          if run.AgentFailed? then Step(saved.tables, Err(AgentStepFailed))
          else Reply(saved.tables, conversationId, userId, AssistantReply(run.state), faults)
  }

  method SendMessage(db: Db, conversationText: string, userId: Id, content: string,
                     parseUuid: string -> Option<Id>, agent: seq<ChatEntry> -> AgentRun, faults: TurnFaults)
    returns (r: Result<TurnReply>)
    requires db.Valid()
    modifies db
    ensures db.Valid()
    ensures Step(db.Snapshot(), r) == Turn(old(db.Snapshot()), conversationText, userId, content, parseUuid, agent, faults)
  {
    var parsed := parseUuid(conversationText);
    if parsed.None? {
      return Err(InvalidConversationId);
    }
    var conversationId := parsed.value;
    ghost var t0 := db.Snapshot();
    var userMessage := SendMessageToConversation(db, conversationId, "user", content, faults.saveUser);
    if userMessage.Err? {
      return Err(UserSaveFailed);
    }
    ghost var t1 := db.Snapshot();
    assert t1 == AppendMessage(t0, conversationId, "user", content, faults.saveUser).tables;
    var messages := ProcessMessage(db, userId, conversationId, content, faults.readConversation, faults.readMessages);
    assert messages == AgentInput(t1, conversationId, userId, content, faults);
    if messages.Err? {
      return Err(AgentStepFailed);
    }
    var result := agent(messages.value);
    if result.AgentFailed? {
      return Err(AgentStepFailed);
    }
    var fullState := result.state;
    var assistantResponse: string;
    if |fullState| > 0 && fullState[|fullState| - 1].Some? {
      assistantResponse := fullState[|fullState| - 1].value;
    } else {
      assistantResponse := NoResponse;
    }
    assert assistantResponse == AssistantReply(result.state);
    r := SaveReply(db, conversationId, userId, assistantResponse, faults);
  }

  /** The last block of `send_message`: store the assistant message, then deduct one credit. */
  method SaveReply(db: Db, conversationId: Id, userId: Id, response: string, faults: TurnFaults)
    returns (r: Result<TurnReply>)
    requires db.Valid()
    modifies db
    ensures db.Valid()
    ensures Step(db.Snapshot(), r) == Reply(old(db.Snapshot()), conversationId, userId, response, faults)
  {
    var assistantMessage := SendMessageToConversation(db, conversationId, "assistant", response, faults.saveAssistant);
    if assistantMessage.Err? {
      return Err(AssistantSaveFailed);
    }
    var creditsDeducted := DeductCredits(db, userId, 1, faults.deduct);
    if creditsDeducted.Err? {
      return Err(AssistantSaveFailed);
    }
    r := Ok(TurnReply(assistantMessage.value, creditsDeducted.value));
  }

  /** `retrieve_conversation_messages`: 400 for an unparsable id, 500 for any other failure. */
  function RetrieveConversationMessages(t: Tables, conversationText: string, userId: Id,
                                        parseUuid: string -> Option<Id>, fault: bool): Result<seq<MessageRecord>>
  {
    var parsed := parseUuid(conversationText);
    if parsed.None? then Err(InvalidConversationId)
    else
      var read := GetConversationMessages(t, parsed.value, userId, fault);
      if read.Err? then Err(InternalError) else read
  }

  /** `delete_conversation` as a transition: 400 for an unparsable id, 500 for every failure of the service. */
  function DeleteRequest(t: Tables, conversationText: string, userId: Id,
                         parseUuid: string -> Option<Id>, fault: bool): Step<bool>
  {
    var parsed := parseUuid(conversationText);
    if parsed.None? then Step(t, Err(InvalidConversationId))
    else
      var deleted := DeleteConversationStep(t, parsed.value, userId, fault);
      if deleted.result.Err? then Step(deleted.tables, Err(InternalError)) else deleted
  }

  method DeleteConversation(db: Db, conversationText: string, userId: Id, parseUuid: string -> Option<Id>, fault: bool)
    returns (r: Result<bool>)
    requires db.Valid()
    modifies db
    ensures db.Valid()
    ensures Step(db.Snapshot(), r) == DeleteRequest(old(db.Snapshot()), conversationText, userId, parseUuid, fault)
  {
    var parsed := parseUuid(conversationText);
    if parsed.None? {
      return Err(InvalidConversationId);
    }
    var deleted := DeleteConversationService(db, parsed.value, userId, fault);
    if deleted.Err? {
      return Err(InternalError);
    }
    r := Ok(true);
  }

  /** `get_conversations`: the first page (50 rows, no offset) of the user's conversations, newest first. */
  method GetConversations(db: Db, userId: Id, fault: bool)
    returns (r: Result<seq<ConversationRecord>>, ghost ordered: seq<Conversation>)
    requires db.Valid()
    ensures fault ==> r == Err(InternalError)
    ensures !fault ==>
      && r.Ok?
      && NewestFirst(ordered)
      && (forall c :: c in ordered <==> c in db.conversations.Values && c.userId == userId)
      && r.value == ToConversationRecords(Page(ordered, DefaultOffset, DefaultLimit))
  {
    var conversations;
    conversations, ordered := GetUserConversations(db, userId, DefaultLimit, DefaultOffset, fault);
    if conversations.Err? {
      return Err(InternalError), ordered;
    }
    r := conversations;
  }

  /** `new_conversation`: the service's result, with any failure reported as 500 "Internal Server Error". */
  method NewConversation(db: Db, userId: Id, title: string, fault: bool) returns (r: Result<CreatedConversation>)
    requires db.Valid()
    modifies db
    ensures db.Valid()
    ensures var s := CreateConversationStep(old(db.Snapshot()), userId, title, fault);
            db.Snapshot() == s.tables && r == (if s.result.Err? then Err(InternalError) else s.result)
  {
    var conversation := CreateConversation(db, userId, title, fault);
    if conversation.Err? {
      return Err(InternalError);
    }
    r := conversation;
  }

  // ---------------------------------------------------------------- lemmas

  /** The reply is the last element's content when it has one, and the fallback text otherwise. */
  lemma AssistantReplySpec(state: seq<Option<string>>)
    ensures |state| == 0 ==> AssistantReply(state) == "No se pudo generar una respuesta"
    ensures |state| > 0 && state[|state| - 1].None? ==> AssistantReply(state) == "No se pudo generar una respuesta"
    ensures forall c :: AssistantReply(state + [Some(c)]) == c
    ensures AssistantReply(state + [None]) == "No se pudo generar una respuesta"
  {
  }

  /** An unparsable conversation id yields 400 before anything is written. */
  lemma InvalidIdWritesNothing(t: Tables, text: string, userId: Id, content: string,
                               parseUuid: string -> Option<Id>, agent: seq<ChatEntry> -> AgentRun, faults: TurnFaults)
    requires parseUuid(text).None?
    ensures Turn(t, text, userId, content, parseUuid, agent, faults) == Step(t, Err(HttpExc(400, "Invalid conversation ID format")))
  {
  }

  /** When the user message cannot be stored the turn ends with 500 and no effect, whatever the agent would do. */
  lemma UserSaveFailureStops(t: Tables, text: string, userId: Id, content: string,
                             parseUuid: string -> Option<Id>, agent: seq<ChatEntry> -> AgentRun, faults: TurnFaults)
    requires parseUuid(text).Some?
    requires faults.saveUser || parseUuid(text).value !in t.conversations
    ensures Turn(t, text, userId, content, parseUuid, agent, faults) ==
            Step(t, Err(HttpExc(500, "Error al guardar el mensaje del usuario")))
  {
  }

  /** The user message the turn stores. */
  function UserMessage(t: Tables, conversationId: Id, content: string): Message
  {
    Message(t.nextId, conversationId, "user", content, t.clock)
  }

  /** When building the history or running the agent fails, the result is 500, the user message stays stored,
      and no assistant message is stored and no credit deducted. */
  lemma AgentFailureKeepsUserMessage(t: Tables, text: string, userId: Id, content: string,
                                     parseUuid: string -> Option<Id>, agent: seq<ChatEntry> -> AgentRun, faults: TurnFaults)
    requires parseUuid(text).Some?
    requires !faults.saveUser && parseUuid(text).value in t.conversations
    requires var t1 := AppendMessage(t, parseUuid(text).value, "user", content, false).tables;
             var h := AgentInput(t1, parseUuid(text).value, userId, content, faults);
             h.Err? || agent(h.value).AgentFailed?
    ensures var s := Turn(t, text, userId, content, parseUuid, agent, faults);
            && s.result == Err(HttpExc(500, "Error al procesar el mensaje con el agente"))
            && s.tables.messages == t.messages + [UserMessage(t, parseUuid(text).value, content)]
            && s.tables.users == t.users
  {
  }

  /** On a well-formed store and an owned conversation, the history the agent receives ends with the new user
      message: it reaches the agent only by being read back from the store. */
  lemma AgentSeesUserMessageLast(t: Tables, conversationId: Id, userId: Id, content: string, faults: TurnFaults)
    requires WellFormed(t)
    requires conversationId in t.conversations && t.conversations[conversationId].userId == userId
    requires !faults.readConversation && !faults.readMessages
    ensures var t1 := AppendMessage(t, conversationId, "user", content, false).tables;
            var h := AgentInput(t1, conversationId, userId, content, faults);
            h.Ok? && |h.value| > 0 && h.value[|h.value| - 1] == ChatEntry("user", content)
  {
    var m := UserMessage(t, conversationId, content);
    var t1 := AppendMessage(t, conversationId, "user", content, false).tables;
    assert t1.messages == t.messages + [m] && t1.conversations == t.conversations;
    assert t.conversations[conversationId].id == conversationId;
    ConversationMessagesAppend(t.messages, m, conversationId);
    var ms := ConversationMessages(t1.messages, conversationId);
    assert ms[|ms| - 1] == m;
    var h := History(t.conversations[conversationId].summary, ToRecords(ms));
    assert AgentInput(t1, conversationId, userId, content, faults) == Ok(h);
    assert h[|h| - 1] == Entry(ToRecord(m));
  }

  /** A successful turn stores exactly the user message and then the assistant reply, returns the stored reply,
      and reports in `credits_remaining` whether one credit could be deducted; a short balance is left as it was. */
  lemma SuccessfulTurnShape(t: Tables, text: string, userId: Id, content: string,
                            parseUuid: string -> Option<Id>, agent: seq<ChatEntry> -> AgentRun, faults: TurnFaults)
    ensures var s := Turn(t, text, userId, content, parseUuid, agent, faults);
            s.result.Ok? ==>
              && parseUuid(text).Some?
              && var cid := parseUuid(text).value;
              && var h := AgentInput(AppendMessage(t, cid, "user", content, false).tables, cid, userId, content, faults);
              && h.Ok? && agent(h.value).AgentFinished?
              && var reply := AssistantReply(agent(h.value).state);
              && var a := Message(t.nextId + 1, cid, "assistant", reply, t.clock + 1);
              && s.tables.messages == t.messages + [UserMessage(t, cid, content), a]
              && s.result.value.message == Sent(a)
              && userId in t.users
              && s.result.value.creditsRemaining == (t.users[userId].credits >= 1)
              && s.tables.users[userId].credits ==
                 t.users[userId].credits - (if s.result.value.creditsRemaining then 1 else 0)
  {
  }

  /** A failure to store the reply or to deduct gives 500; a reply already stored stays stored. */
  lemma LateFailureKeepsReply(t: Tables, text: string, userId: Id, content: string,
                              parseUuid: string -> Option<Id>, agent: seq<ChatEntry> -> AgentRun, faults: TurnFaults)
    requires parseUuid(text).Some?
    requires var cid := parseUuid(text).value;
             && !faults.saveUser && cid in t.conversations
             && var h := AgentInput(AppendMessage(t, cid, "user", content, false).tables, cid, userId, content, faults);
             && h.Ok? && agent(h.value).AgentFinished?
    requires faults.saveAssistant || faults.deduct
    ensures var s := Turn(t, text, userId, content, parseUuid, agent, faults);
            var cid := parseUuid(text).value;
            && s.result == Err(HttpExc(500, "Error al guardar la respuesta del asistente"))
            && s.tables.users == t.users
            && (faults.saveAssistant ==> s.tables.messages == t.messages + [UserMessage(t, cid, content)])
            && (!faults.saveAssistant ==>
                  |s.tables.messages| == |t.messages| + 2 && s.tables.messages[|t.messages| + 1].role == "assistant")
  {
  }

  /** The turn never writes the conversations table: the summary the agent keeps is dropped. */
  lemma TurnNeverWritesConversations(t: Tables, text: string, userId: Id, content: string,
                                     parseUuid: string -> Option<Id>, agent: seq<ChatEntry> -> AgentRun, faults: TurnFaults)
    ensures Turn(t, text, userId, content, parseUuid, agent, faults).tables.conversations == t.conversations
  {
  }

  /** Posting to another user's conversation stores the message there before ownership is checked, then fails. */
  lemma ForeignConversationKeepsMessage(t: Tables, text: string, userId: Id, content: string,
                                        parseUuid: string -> Option<Id>, agent: seq<ChatEntry> -> AgentRun, faults: TurnFaults)
    requires parseUuid(text).Some? && !faults.saveUser
    requires var cid := parseUuid(text).value;
             cid in t.conversations && t.conversations[cid].userId != userId
    ensures var s := Turn(t, text, userId, content, parseUuid, agent, faults);
            && s.result == Err(HttpExc(500, "Error al procesar el mensaje con el agente"))
            && s.tables.messages == t.messages + [UserMessage(t, parseUuid(text).value, content)]
  {
  }

  /** A turn keeps the store well formed. */
  lemma TurnWellFormed(t: Tables, text: string, userId: Id, content: string,
                       parseUuid: string -> Option<Id>, agent: seq<ChatEntry> -> AgentRun, faults: TurnFaults)
    requires WellFormed(t)
    ensures WellFormed(Turn(t, text, userId, content, parseUuid, agent, faults).tables)
  {
    var parsed := parseUuid(text);
    if parsed.Some? {
      var cid := parsed.value;
      var saved := AppendMessage(t, cid, "user", content, faults.saveUser);
      AppendMessageWellFormed(t, cid, "user", content, faults.saveUser);
      var h := AgentInput(saved.tables, cid, userId, content, faults);
      if saved.result.Ok? && h.Ok? && agent(h.value).AgentFinished? {
        var reply := AssistantReply(agent(h.value).state);
        ReplyWellFormed(saved.tables, cid, userId, reply, faults);
        assert Turn(t, text, userId, content, parseUuid, agent, faults) == Reply(saved.tables, cid, userId, reply, faults);
      } else {
        assert Turn(t, text, userId, content, parseUuid, agent, faults).tables == saved.tables;
      }
    }
  }

  lemma ReplyWellFormed(t: Tables, conversationId: Id, userId: Id, response: string, faults: TurnFaults)
    requires WellFormed(t)
    ensures WellFormed(Reply(t, conversationId, userId, response, faults).tables)
  {
    var stored := AppendMessage(t, conversationId, "assistant", response, faults.saveAssistant);
    AppendMessageWellFormed(t, conversationId, "assistant", response, faults.saveAssistant);
    DeductWellFormed(stored.tables, userId, 1, faults.deduct);
  }

  /** The messages endpoint does not check ownership: any signed-in user reads any conversation. */
  lemma RetrieveIgnoresOwner(t: Tables, text: string, userId: Id, otherUser: Id, parseUuid: string -> Option<Id>, fault: bool)
    ensures RetrieveConversationMessages(t, text, userId, parseUuid, fault) ==
            RetrieveConversationMessages(t, text, otherUser, parseUuid, fault)
    ensures parseUuid(text).None? ==> RetrieveConversationMessages(t, text, userId, parseUuid, fault) == Err(InvalidConversationId)
    ensures parseUuid(text).Some? && fault ==> RetrieveConversationMessages(t, text, userId, parseUuid, fault) == Err(InternalError)
  {
  }

  /** Deleting an absent or foreign conversation through the endpoint gives 500, not 404, and deletes nothing. */
  lemma DeleteForeignIs500(t: Tables, text: string, userId: Id, parseUuid: string -> Option<Id>)
    requires parseUuid(text).Some?
    requires var cid := parseUuid(text).value;
             !(cid in t.conversations && t.conversations[cid].userId == userId)
    ensures DeleteRequest(t, text, userId, parseUuid, false) == Step(t, Err(HttpExc(500, "Internal Server Error")))
  {
  }
}
