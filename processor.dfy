/** The chat history handed to the agent (app/chat/processor.py). */
module Processor {
  import opened Errors
  import opened Models
  import opened Database
  import opened MessagesService
  import opened ConversationService

  /** One `{"role": …, "content": …}` entry of the history. */
  datatype ChatEntry = ChatEntry(role: string, content: string)

  const SummaryPrefix := "Resumen hasta ahora: "
  const ProcessingFailed := HttpExc(500, "Error processing message")

  /** The leading system entry, present when the conversation's summary is truthy (neither None nor ""). */
  function SummaryEntries(summary: Option<string>): seq<ChatEntry>
  {
    if summary.Some? && summary.value != "" then [ChatEntry("system", SummaryPrefix + summary.value)] else []
  }

  function Entry(rec: MessageRecord): ChatEntry
  {
    ChatEntry(rec.role, rec.content)
  }

  /** The history `build_conversation_history` returns for a summary and the stored message records. */
  function History(summary: Option<string>, records: seq<MessageRecord>): seq<ChatEntry>
  {
    SummaryEntries(summary) + seq(|records|, i requires 0 <= i < |records| => Entry(records[i]))
  }

  /** What `build_conversation_history` computes on the tables: the history, or the read error re-raised. */
  function HistoryOf(t: Tables, conversation: Conversation, userId: Id, fault: bool): Result<seq<ChatEntry>>
  {
    var read := GetConversationMessages(t, conversation.id, userId, fault);
    if read.Err? then Err(read.exc) else Ok(History(conversation.summary, read.value))
  }

  /** What `process_message` computes: the history of an owned conversation; every failure, including the
      404 for a missing or foreign conversation raised inside the `try`, leaves as 500. `new_input` is only logged. */
  function ProcessOutcome(t: Tables, userId: Id, conversationId: Id, newInput: string,
                          conversationFault: bool, messagesFault: bool): Result<seq<ChatEntry>>
  {
    var found := GetConversationById(t, conversationId, userId, conversationFault);
    if found.Err? || found.value.None? then Err(ProcessingFailed)
    else
      var history := HistoryOf(t, found.value.value, userId, messagesFault);
      if history.Err? then Err(ProcessingFailed) else history
  }

  /** `build_conversation_history`: appends the summary entry, then one entry per stored message. */
  method BuildConversationHistory(db: Db, conversation: Conversation, userId: Id, fault: bool)
    returns (r: Result<seq<ChatEntry>>)
    ensures r == HistoryOf(db.Snapshot(), conversation, userId, fault)
  {
    var messages: seq<ChatEntry> := [];
    if conversation.summary.Some? && conversation.summary.value != "" {
      messages := messages + [ChatEntry("system", SummaryPrefix + conversation.summary.value)];
    }
    var read := GetConversationMessages(db.Snapshot(), conversation.id, userId, fault);
    if read.Err? {
      return Err(read.exc);
    }
    var lastMessages := read.value;
    ghost var head := messages;
    for i := 0 to |lastMessages|
      invariant |messages| == |head| + i
      invariant messages[..|head|] == head
      invariant forall k :: 0 <= k < i ==> messages[|head| + k] == Entry(lastMessages[k])
    {
      messages := messages + [ChatEntry(lastMessages[i].role, lastMessages[i].content)];
    }
    assert messages == History(conversation.summary, lastMessages);
    r := Ok(messages);
  }

  /** `process_message` */
  method ProcessMessage(db: Db, userId: Id, conversationId: Id, newInput: string,
                        conversationFault: bool, messagesFault: bool)
    returns (r: Result<seq<ChatEntry>>)
    ensures r == ProcessOutcome(db.Snapshot(), userId, conversationId, newInput, conversationFault, messagesFault)
  {
    var found := GetConversationById(db.Snapshot(), conversationId, userId, conversationFault);
    if found.Err? || found.value.None? {
      return Err(ProcessingFailed);
    }
    var messages := BuildConversationHistory(db, found.value.value, userId, messagesFault);
    if messages.Err? {
      return Err(ProcessingFailed);
    }
    r := messages;
  }

  // ---------------------------------------------------------------- lemmas

  /** The history is the optional summary entry followed by one entry per record, in order, and nothing else. */
  lemma HistorySpec(summary: Option<string>, records: seq<MessageRecord>)
    ensures var h := History(summary, records);
            var truthy := summary.Some? && summary.value != "";
            var offset := if truthy then 1 else 0;
            && |h| == |records| + offset
            && (truthy ==> h[0] == ChatEntry("system", "Resumen hasta ahora: " + summary.value))
            && (forall i :: 0 <= i < |records| ==> h[offset + i] == ChatEntry(records[i].role, records[i].content))
  {
  }

  /** `process_message` succeeds exactly when both reads succeed and the user owns the conversation; then the
      entries after the optional summary are the conversation's stored messages, each once, in creation order.
      Otherwise the error is always 500, also for a missing or foreign conversation. */
  lemma ProcessOutcomeSpec(t: Tables, userId: Id, conversationId: Id, newInput: string,
                           conversationFault: bool, messagesFault: bool)
    requires WellFormed(t)
    ensures var r := ProcessOutcome(t, userId, conversationId, newInput, conversationFault, messagesFault);
            var owned := conversationId in t.conversations && t.conversations[conversationId].userId == userId;
            && (r.Ok? <==> !conversationFault && owned && !messagesFault)
            && (r.Err? ==> r.exc == HttpExc(500, "Error processing message"))
            && (r.Ok? ==>
                  var c := t.conversations[conversationId];
                  var ms := ConversationMessages(t.messages, conversationId);
                  var offset := |SummaryEntries(c.summary)|;
                  && r.value[..offset] == SummaryEntries(c.summary)
                  && |r.value| == offset + |ms|
                  && CreatedInOrder(ms)
                  && (forall m :: m in ms <==> m in t.messages && m.conversationId == conversationId)
                  && (forall i :: 0 <= i < |ms| ==> r.value[offset + i] == ChatEntry(ms[i].role, ms[i].content)))
  {
    ConversationMessagesExact(t.messages, conversationId);
  }

  /** The text of the new user input does not reach the history. */
  lemma NewInputUnused(t: Tables, userId: Id, conversationId: Id, a: string, b: string, cf: bool, mf: bool)
    ensures ProcessOutcome(t, userId, conversationId, a, cf, mf) == ProcessOutcome(t, userId, conversationId, b, cf, mf)
  {
  }
}
