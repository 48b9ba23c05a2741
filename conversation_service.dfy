/** Listing, reading, creating, summarising and deleting conversations (app/services/conversation_service.py). */
module ConversationService {
  import opened Errors
  import opened PyText
  import opened Models
  import opened Database
  import opened MessagesService

  /** One element of the list `get_user_conversations` returns. */
  datatype ConversationRecord = ConversationRecord(id: Id, title: string, summary: Option<string>, createdAt: string, updatedAt: string)

  /** The dictionary `create_conversation` returns; it has no summary key. */
  datatype CreatedConversation = CreatedConversation(id: Id, title: string, createdAt: string, updatedAt: string)

  /** The dictionary `update_conversation_summary` returns. */
  datatype SummaryRecord = SummaryRecord(id: Id, title: string, summary: Option<string>, updatedAt: string)

  const DefaultLimit: nat := 50
  const DefaultOffset: nat := 0

  function ToConversationRecord(c: Conversation): ConversationRecord
  {
    ConversationRecord(c.id, c.title, c.summary, IsoFormat(c.createdAt) + "Z", IsoFormat(c.updatedAt) + "Z")
  }

  function ToConversationRecords(cs: seq<Conversation>): (rs: seq<ConversationRecord>)
    ensures |rs| == |cs|
  {
    seq(|cs|, i requires 0 <= i < |cs| => ToConversationRecord(cs[i]))
  }

  /** ORDER BY updated_at DESC */
  ghost predicate NewestFirst(cs: seq<Conversation>)
  {
    forall i, j :: 0 <= i < j < |cs| ==> cs[i].updatedAt >= cs[j].updatedAt
  }

  ghost predicate DistinctIds(cs: seq<Conversation>)
  {
    forall i, j :: 0 <= i < j < |cs| ==> cs[i].id != cs[j].id
  }

  /** OFFSET offset LIMIT limit */
  function Page<T>(s: seq<T>, offset: nat, limit: nat): (r: seq<T>)
    ensures |r| == Min(limit, |s| - Min(offset, |s|))
    ensures forall i :: 0 <= i < |r| ==> r[i] == s[Min(offset, |s|) + i]
  {
    var start := Min(offset, |s|);
    s[start..][..Min(limit, |s| - start)]
  }

  /** The user's conversations that the owned-by filter selects. */
  function OwnedIds(t: Tables, userId: Id): set<Id>
  {
    set id | id in t.conversations && t.conversations[id].userId == userId
  }

  /** The database's `ORDER BY updated_at DESC` over the selected rows: a selection of the most recently
      updated remaining row, repeated. Rows with equal updated_at may come in either order. */
  method OrderByNewest(rows: map<Id, Conversation>, ids: set<Id>) returns (sorted: seq<Conversation>)
    requires ids <= rows.Keys
    requires forall id :: id in rows ==> rows[id].id == id
    ensures NewestFirst(sorted) && DistinctIds(sorted)
    ensures forall c :: c in sorted <==> c.id in ids && rows[c.id] == c
  {
    var pending := ids;
    sorted := [];
    ghost var position: map<Id, nat> := map[];
    while pending != {}
      invariant pending <= ids
      invariant forall i :: 0 <= i < |sorted| ==>
                  sorted[i].id in ids && sorted[i].id !in pending && rows[sorted[i].id] == sorted[i]
      invariant forall id :: id in ids && id !in pending ==>
                  id in position && position[id] < |sorted| && sorted[position[id]].id == id
      invariant NewestFirst(sorted) && DistinctIds(sorted)
      invariant forall i, id :: 0 <= i < |sorted| && id in pending ==> rows[id].updatedAt <= sorted[i].updatedAt
      decreases |pending|
    {
      NewestExists(pending, rows);
      var id :| id in pending && forall o :: o in pending ==> rows[o].updatedAt <= rows[id].updatedAt;
      position := position[id := |sorted|];
      AppendNewest(sorted, rows[id], pending, rows);
      sorted := sorted + [rows[id]];
      pending := pending - {id};
    }
    forall c: Conversation | c.id in ids && rows[c.id] == c ensures c in sorted {
      assert sorted[position[c.id]] == c;
    }
  }

  /** Appending the newest pending row keeps the order and the distinctness of ids. */
  lemma AppendNewest(sorted: seq<Conversation>, c: Conversation, pending: set<Id>, rows: map<Id, Conversation>)
    requires pending <= rows.Keys && c.id in pending
    requires NewestFirst(sorted) && DistinctIds(sorted)
    requires forall i :: 0 <= i < |sorted| ==> sorted[i].id !in pending
    requires forall i :: 0 <= i < |sorted| ==> rows[c.id].updatedAt <= sorted[i].updatedAt
    requires rows[c.id] == c
    ensures NewestFirst(sorted + [c]) && DistinctIds(sorted + [c])
  {
  }

  /** `get_user_conversations`: the user's conversations, most recently updated first, `offset` skipped and
      at most `limit` kept, each turned into a record. `ordered` is the full ordered query result. */
  method GetUserConversations(db: Db, userId: Id, limit: nat, offset: nat, fault: bool)
    returns (r: Result<seq<ConversationRecord>>, ghost ordered: seq<Conversation>)
    requires db.Valid()
    ensures fault ==> r == Err(HttpExc(500, "Failed to fetch conversations"))
    ensures !fault ==>
      && r.Ok?
      && NewestFirst(ordered)
      && DistinctIds(ordered)
      && (forall c :: c in ordered <==> c in db.conversations.Values && c.userId == userId)
      && r.value == ToConversationRecords(Page(ordered, offset, limit))
  {
    if fault {
      return Err(HttpExc(500, "Failed to fetch conversations")), [];
    }
    var owned := set id | id in db.conversations && db.conversations[id].userId == userId;
    var sorted := OrderByNewest(db.conversations, owned);
    forall c: Conversation ensures c in sorted <==> c in db.conversations.Values && c.userId == userId {
      if c in db.conversations.Values {
        var id :| id in db.conversations && db.conversations[id] == c;
        assert c.id == id;
      }
    }
    var page := Page(sorted, offset, limit);
    var json: seq<ConversationRecord> := [];
    for i := 0 to |page|
      invariant |json| == i
      invariant forall k :: 0 <= k < i ==> json[k] == ToConversationRecord(page[k])
    {
      json := json + [ToConversationRecord(page[i])];
    }
    r, ordered := Ok(json), sorted;
  }

  /** `get_conversation_by_id`: the row when it exists and belongs to the user, `None` otherwise. */
  function GetConversationById(t: Tables, conversationId: Id, userId: Id, fault: bool): Result<Option<Conversation>>
  {
    if fault then Err(DbErr(DbUnavailable))
    else if conversationId in t.conversations && t.conversations[conversationId].userId == userId
    then Ok(Some(t.conversations[conversationId]))
    else Ok(None)
  }

  /** `create_conversation` as a transition: a new row with the title, the owner and no summary; `now()` is
      read twice. The FOREIGN KEY on user_id rejects an unknown user; any failure is rolled back and reported as 500. */
  function CreateConversationStep(t: Tables, userId: Id, title: string, fault: bool): Step<CreatedConversation>
  {
    if fault || userId !in t.users then Step(t, Err(HttpExc(500, "Failed to create conversation")))
    else
      var c := Conversation(t.nextId, userId, title, None, t.clock, t.clock + 1);
      Step(t.(conversations := t.conversations[c.id := c], clock := t.clock + 2, nextId := t.nextId + 1),
           Ok(CreatedConversation(c.id, title, IsoFormat(c.createdAt) + "Z", IsoFormat(c.updatedAt) + "Z")))
  }

  /** `update_conversation_summary` as a transition: the 404 for an absent or foreign conversation and database
      errors propagate unchanged; otherwise summary and updated_at are set. */
  function UpdateSummaryStep(t: Tables, conversationId: Id, userId: Id, summary: string, fault: bool): Step<SummaryRecord>
  {
    if fault then Step(t, Err(DbErr(DbUnavailable)))
    else if !(conversationId in t.conversations && t.conversations[conversationId].userId == userId)
    then Step(t, Err(HttpExc(404, "Conversation not found")))
    else
      var c := t.conversations[conversationId].(summary := Some(summary), updatedAt := t.clock);
      Step(t.(conversations := t.conversations[conversationId := c], clock := t.clock + 1),
           Ok(SummaryRecord(c.id, c.title, c.summary, IsoFormat(c.updatedAt) + "Z")))
  }

  /** The message rows that do not belong to the conversation, in table order. */
  function WithoutConversation(msgs: seq<Message>, conversationId: Id): seq<Message>
    decreases |msgs|
  {
    if msgs == [] then []
    else
      var last := msgs[|msgs| - 1];
      WithoutConversation(msgs[..|msgs| - 1], conversationId) + (if last.conversationId != conversationId then [last] else [])
  }

  /** `delete_conversation_service` as a transition: the conversation's messages are deleted, then the row. The
      404 for an absent or foreign conversation is raised inside the `try` and, like any other error, leaves as
      500 with the transaction rolled back. */
  function DeleteConversationStep(t: Tables, conversationId: Id, userId: Id, fault: bool): Step<bool>
  {
    if fault || !(conversationId in t.conversations && t.conversations[conversationId].userId == userId)
    then Step(t, Err(HttpExc(500, "Failed to delete conversation")))
    else Step(t.(messages := WithoutConversation(t.messages, conversationId),
                 conversations := t.conversations - {conversationId}), Ok(true))
  }

  method CreateConversation(db: Db, userId: Id, title: string, fault: bool) returns (r: Result<CreatedConversation>)
    requires db.Valid()
    modifies db
    ensures db.Valid()
    ensures Step(db.Snapshot(), r) == CreateConversationStep(old(db.Snapshot()), userId, title, fault)
  {
    if fault || userId !in db.users {
      return Err(HttpExc(500, "Failed to create conversation"));
    }
    ghost var s := CreateConversationStep(db.Snapshot(), userId, title, fault);
    CreateConversationWellFormed(db.Snapshot(), userId, title);
    var createdAt := db.clock;
    var updatedAt := db.clock + 1;
    var conversation := Conversation(db.nextId, userId, title, None, createdAt, updatedAt);
    r := Ok(CreatedConversation(conversation.id, title, IsoFormat(createdAt) + "Z", IsoFormat(updatedAt) + "Z"));
    assert r == s.result;
    db.conversations, db.clock, db.nextId := db.conversations[conversation.id := conversation], db.clock + 2, db.nextId + 1;
    assert db.Snapshot() == s.tables;
  }

  method UpdateConversationSummary(db: Db, conversationId: Id, userId: Id, summary: string, fault: bool)
    returns (r: Result<SummaryRecord>)
    requires db.Valid()
    modifies db
    ensures db.Valid()
    ensures Step(db.Snapshot(), r) == UpdateSummaryStep(old(db.Snapshot()), conversationId, userId, summary, fault)
  {
    if fault {
      return Err(DbErr(DbUnavailable));
    }
    if !(conversationId in db.conversations && db.conversations[conversationId].userId == userId) {
      return Err(HttpExc(404, "Conversation not found"));
    }
    ghost var s := UpdateSummaryStep(db.Snapshot(), conversationId, userId, summary, fault);
    UpdateSummaryWellFormed(db.Snapshot(), conversationId, userId, summary);
    var conversation := db.conversations[conversationId];
    conversation := conversation.(summary := Some(summary));
    conversation := conversation.(updatedAt := db.clock);
    r := Ok(SummaryRecord(conversation.id, conversation.title, conversation.summary, IsoFormat(conversation.updatedAt) + "Z"));
    assert r == s.result;
    db.clock, db.conversations := db.clock + 1, db.conversations[conversationId := conversation];
    assert db.Snapshot() == s.tables;
  }

  method DeleteConversationService(db: Db, conversationId: Id, userId: Id, fault: bool) returns (r: Result<bool>)
    requires db.Valid()
    modifies db
    ensures db.Valid()
    ensures Step(db.Snapshot(), r) == DeleteConversationStep(old(db.Snapshot()), conversationId, userId, fault)
  {
    if fault || !(conversationId in db.conversations && db.conversations[conversationId].userId == userId) {
      return Err(HttpExc(500, "Failed to delete conversation"));
    }
    ghost var s := DeleteConversationStep(db.Snapshot(), conversationId, userId, fault);
    DeleteConversationWellFormed(db.Snapshot(), conversationId, userId);
    r := Ok(true);
    assert r == s.result;
    db.messages, db.conversations := WithoutConversation(db.messages, conversationId), db.conversations - {conversationId};
    assert db.Snapshot() == s.tables;
  }

  // ---------------------------------------------------------------- lemmas

  /** A finite non-empty set of conversations has a most recently updated one. */
  lemma {:induction false} NewestExists(ids: set<Id>, cs: map<Id, Conversation>)
    requires ids != {} && ids <= cs.Keys
    ensures exists id :: id in ids && forall o :: o in ids ==> cs[o].updatedAt <= cs[id].updatedAt
    decreases |ids|
  {
    var x :| x in ids;
    if ids != {x} {
      var rest := ids - {x};
      NewestExists(rest, cs);
      var y :| y in rest && forall o :: o in rest ==> cs[o].updatedAt <= cs[y].updatedAt;
      if cs[x].updatedAt <= cs[y].updatedAt {
        assert forall o :: o in ids ==> o == x || o in rest;
      } else {
        assert forall o :: o in ids ==> o == x || o in rest;
      }
    }
  }

  /** `get_conversation_by_id` finds a conversation exactly when it exists and the user owns it. */
  lemma GetConversationByIdSpec(t: Tables, conversationId: Id, userId: Id)
    ensures var r := GetConversationById(t, conversationId, userId, false);
            && r.Ok?
            && (r.value.Some? <==> conversationId in t.conversations && t.conversations[conversationId].userId == userId)
            && (r.value.Some? ==> r.value.value == t.conversations[conversationId])
    ensures GetConversationById(t, conversationId, userId, true).Err?
  {
  }

  /** The remaining messages are exactly those of other conversations, still in order. */
  lemma {:induction false} WithoutConversationExact(msgs: seq<Message>, conversationId: Id)
    requires StoredInOrder(msgs)
    ensures var w := WithoutConversation(msgs, conversationId);
            && (forall m :: m in w <==> m in msgs && m.conversationId != conversationId)
            && StoredInOrder(w)
    decreases |msgs|
  {
    if msgs != [] {
      var front := msgs[..|msgs| - 1];
      var last := msgs[|msgs| - 1];
      SplitLast(msgs);
      assert StoredInOrder(front) by {
        forall i, j | 0 <= i < j < |front| ensures front[i].createdAt < front[j].createdAt && front[i].id < front[j].id {
          assert front[i] == msgs[i] && front[j] == msgs[j];
        }
      }
      WithoutConversationExact(front, conversationId);
      var prev := WithoutConversation(front, conversationId);
      forall k | 0 <= k < |prev| ensures prev[k].createdAt < last.createdAt && prev[k].id < last.id {
        assert prev[k] in prev;
        var i :| 0 <= i < |front| && front[i] == prev[k];
        assert msgs[i] == prev[k];
      }
      if last.conversationId != conversationId {
        assert WithoutConversation(msgs, conversationId) == prev + [last];
        AppendInOrder(prev, last);
      } else {
        assert WithoutConversation(msgs, conversationId) == prev;
      }
    }
  }

  /** Removing another conversation's messages does not change a conversation's history. */
  lemma {:induction false} WithoutConversationKeeps(msgs: seq<Message>, removed: Id, c: Id)
    ensures ConversationMessages(WithoutConversation(msgs, removed), c) ==
            (if c == removed then [] else ConversationMessages(msgs, c))
    decreases |msgs|
  {
    if msgs != [] {
      var front := msgs[..|msgs| - 1];
      var last := msgs[|msgs| - 1];
      SplitLast(msgs);
      WithoutConversationKeeps(front, removed, c);
      ConversationMessagesAppend(front, last, c);
      var kept := WithoutConversation(front, removed);
      if last.conversationId != removed {
        assert WithoutConversation(msgs, removed) == kept + [last];
        ConversationMessagesAppend(kept, last, c);
      } else {
        assert WithoutConversation(msgs, removed) == kept;
      }
    }
  }

  lemma CreateConversationWellFormed(t: Tables, userId: Id, title: string)
    requires WellFormed(t) && userId in t.users
    ensures WellFormed(CreateConversationStep(t, userId, title, false).tables)
  {
  }

  lemma UpdateSummaryWellFormed(t: Tables, conversationId: Id, userId: Id, summary: string)
    requires WellFormed(t)
    ensures WellFormed(UpdateSummaryStep(t, conversationId, userId, summary, false).tables)
  {
  }

  lemma DeleteConversationWellFormed(t: Tables, conversationId: Id, userId: Id)
    requires WellFormed(t)
    ensures WellFormed(DeleteConversationStep(t, conversationId, userId, false).tables)
  {
    var s := DeleteConversationStep(t, conversationId, userId, false);
    if s.result.Ok? {
      WithoutConversationExact(t.messages, conversationId);
      var w := s.tables.messages;
      forall i | 0 <= i < |w|
        ensures w[i].conversationId in s.tables.conversations && w[i].id < t.nextId && w[i].createdAt < t.clock
      {
        assert w[i] in w;
        var k :| 0 <= k < |t.messages| && t.messages[k] == w[i];
      }
    }
  }

  /** `create_conversation` stores a conversation with the given owner and title and no summary under a fresh
      id, returns that id and title, and changes nothing else; it fails without effect exactly when the
      database fails or the owner does not exist. */
  lemma CreateConversationSpec(t: Tables, userId: Id, title: string, fault: bool)
    requires WellFormed(t)
    ensures var s := CreateConversationStep(t, userId, title, fault);
            && (s.result.Err? <==> fault || userId !in t.users)
            && (s.result.Err? ==> s.tables == t && s.result.exc == HttpExc(500, "Failed to create conversation"))
            && (s.result.Ok? ==>
                  var id := s.result.value.id;
                  && id !in t.conversations
                  && s.result.value.title == title
                  && GetConversationById(s.tables, id, userId, false) ==
                     Ok(Some(Conversation(id, userId, title, None, t.clock, t.clock + 1)))
                  && s.tables.conversations == t.conversations[id := s.tables.conversations[id]]
                  && s.tables.messages == t.messages && s.tables.users == t.users)
  {
  }

  /** `update_conversation_summary` raises 404 without effect for an absent or foreign conversation; on success
      only that conversation's summary and updated_at change. */
  lemma UpdateSummarySpec(t: Tables, conversationId: Id, userId: Id, summary: string, fault: bool)
    ensures var s := UpdateSummaryStep(t, conversationId, userId, summary, fault);
            var owned := conversationId in t.conversations && t.conversations[conversationId].userId == userId;
            && (!fault && !owned ==> s == Step(t, Err(HttpExc(404, "Conversation not found"))))
            && (fault ==> s.tables == t && s.result.Err?)
            && (!fault && owned ==>
                  && s.result.Ok?
                  && s.result.value.summary == Some(summary)
                  && s.tables.users == t.users && s.tables.messages == t.messages
                  && s.tables.conversations.Keys == t.conversations.Keys
                  && (forall c :: c in t.conversations && c != conversationId ==>
                        s.tables.conversations[c] == t.conversations[c])
                  && s.tables.conversations[conversationId] ==
                     t.conversations[conversationId].(summary := Some(summary), updatedAt := t.clock))
  {
  }

  /** Deleting removes every message of the conversation and then the conversation, and leaves every other
      conversation and its history as it was; an absent or foreign conversation gives 500 and deletes nothing. */
  lemma DeleteConversationSpec(t: Tables, conversationId: Id, userId: Id, fault: bool)
    requires WellFormed(t)
    ensures var s := DeleteConversationStep(t, conversationId, userId, fault);
            var owned := conversationId in t.conversations && t.conversations[conversationId].userId == userId;
            && (!fault && !owned ==> s == Step(t, Err(HttpExc(500, "Failed to delete conversation"))))
            && (fault ==> s.tables == t)
            && (!fault && owned ==>
                  && s.result == Ok(true)
                  && conversationId !in s.tables.conversations
                  && ConversationMessages(s.tables.messages, conversationId) == []
                  && (forall u :: GetConversationById(s.tables, conversationId, u, false) == Ok(None))
                  && (forall c :: c != conversationId ==>
                        && (c in s.tables.conversations <==> c in t.conversations)
                        && (c in t.conversations ==> s.tables.conversations[c] == t.conversations[c])
                        && ConversationMessages(s.tables.messages, c) == ConversationMessages(t.messages, c))
                  && s.tables.users == t.users)
  {
    var s := DeleteConversationStep(t, conversationId, userId, fault);
    if s.result.Ok? {
      WithoutConversationKeeps(t.messages, conversationId, conversationId);
      forall c | c != conversationId
        ensures ConversationMessages(s.tables.messages, c) == ConversationMessages(t.messages, c)
      {
        WithoutConversationKeeps(t.messages, conversationId, c);
      }
    }
  }

  /** The page has `limit` elements at most and starts `offset` elements into the ordered list. */
  lemma PageSpec<T>(s: seq<T>, offset: nat, limit: nat)
    ensures |Page(s, offset, limit)| <= limit
    ensures offset >= |s| ==> Page(s, offset, limit) == []
    ensures offset + limit <= |s| ==> Page(s, offset, limit) == s[offset..offset + limit]
  {
  }
}
