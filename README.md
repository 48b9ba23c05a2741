# docs_agent_backend in Dafny

A model of the backend of a document-assistant chat service. A signed-in user owns conversations and posts messages to
them. Each turn stores the user's message, reads the conversation's history back from the database, and hands it to a
tool-using language-model agent. The reply is stored and one credit is deducted from the user's balance. Around this
chat turn the model covers:

- the stores the turn uses: messages, conversations and credits;
- account registration, password login, Google sign-in and password change;
- bearer-token handling;
- the agent's summarisation hook and the history builder;
- the retrieval helpers: PDF chunking, vector search formatting and document upload;
- the masking applied to everything that is logged.

The database is a value `Models.Tables`, holding the `users`, `conversations` and `messages` tables, a clock and a
fresh-key counter. `Models.WellFormed` states what the schema declares:

- primary keys match their rows;
- emails are unique;
- the foreign keys hold;
- stored times lie in the past;
- messages are kept in creation order.

The session the services receive is the class `Database.Db`, whose fields the services update in place. Each store
operation is written twice:

- a pure transition function on `Tables`, returning a `Step`: the new tables and the value returned or the exception
  raised;
- an imperative method on `Db`, which modifies the session and ensures that its new snapshot and its result are what
  the transition function gives for the old snapshot.

The properties are lemmas about the transition functions. Every transition keeps `WellFormed`, and each `Db` method
therefore keeps `Db.Valid()`.

The following outside services are parameters of the model:

- the database failing: a `fault` flag per call, after which the transaction is rolled back;
- UUID parsing and printing;
- bcrypt hashing and checking;
- JOSE encoding and decoding;
- the clock used for token expiry;
- the agent and the summariser;
- the tokenizer and the PDF reader's page texts;
- the embedding model and the vector store;
- the OAuth provider's user info.

Where the code and its documentation disagree, the model follows the code:

- A message posted to a conversation is stored before ownership is checked. A post to another user's conversation
  therefore leaves the message there and then fails.
- Deleting an absent or foreign conversation answers 500, not 404, because the 404 is raised inside a `try` whose
  catch-all re-raises 500. The same re-wrapping happens in the following places:
  - `process_message`: 404 becomes 500;
  - password login with a wrong password: 401 becomes 500;
  - `get_current_user`: the 403 for an inactive user and the 401 for an unknown one both become 401 "Invalid token".
- Vector search does not catch errors of the embedding model or the store.
- The summary prefixes differ. The history builder uses "Resumen hasta ahora: " and the agent hook uses
  "Summary so far: ".
- `process_previous_messages` with k = 0 returns every message, since `messages[-0:]` is the whole list.
- The chat turn's `credits_remaining` is the boolean outcome of the deduction, not a balance.
- The turn never writes the agent's summary back to the conversation.
- `mask_email` keeps three characters of the local part, not two.

## Model

| member | source | states |
|---|---|---|
| Models.EmptyTables | app/core/models.py:8-49 | the empty database satisfies every constraint the schema declares |
| Models.UpdateUserWellFormed | app/core/models.py:8-21 | rewriting a user row without changing its key, email or creation time keeps the unique-email and foreign-key constraints |
| MessagesService.GetConversationMessagesSpec | app/services/messages_service.py:11-40 | the records are exactly the conversation's messages, each once, in ascending creation order; the user id plays no part; a database error propagates |
| MessagesService.ConversationMessagesExact | app/services/messages_service.py:20-25 | the conversation filter keeps a message iff it belongs to the conversation, and keeps the creation order |
| MessagesService.ConversationMessagesAppend | app/services/messages_service.py:52-60 | appending a message extends only its own conversation's history, by that message |
| MessagesService.RecordsCarryZulu | app/services/messages_service.py:29-36 | each record carries the message's id, content and role and a creation time ending in "Z" |
| MessagesService.AppendMessageSpec | app/services/messages_service.py:42-73 | sending fails without effect iff the database fails or the conversation does not exist; otherwise exactly one message with the given role and content, stamped with the clock, is added after every earlier row, which stays unchanged, and no other conversation's history changes |
| MessagesService.AppendMessageWellFormed | app/services/messages_service.py:52-60 | sending a message keeps the store well formed |
| MessagesService.SendMessageToConversation | app/services/messages_service.py:42-73 | the session's new tables and the result are those of the append transition |
| MessagesService.ProcessPreviousMessagesSpec | app/services/messages_service.py:75-87 | the last k messages in order, all of them when there are fewer, all of them for k = 0, and all but the first -k for a negative k; k defaults to 5 |
| ConversationService.OrderByNewest | app/services/conversation_service.py:32-37 | the selected rows, each once, most recently updated first |
| ConversationService.GetUserConversations | app/services/conversation_service.py:11-57 | exactly the user's conversations, newest first, then `offset` skipped and at most `limit` kept; any failure is 500 |
| ConversationService.Page | app/services/conversation_service.py:32-37 | OFFSET/LIMIT: the page has min(limit, remaining) elements, starting `offset` elements in |
| ConversationService.PageSpec | app/services/conversation_service.py:32-37 | a page never exceeds the limit, is empty past the end, and is the plain slice when it fits |
| ConversationService.GetConversationByIdSpec | app/services/conversation_service.py:59-94 | a conversation is found iff it exists and the user owns it, and then it is the stored row; a database error propagates |
| ConversationService.CreateConversationSpec | app/services/conversation_service.py:96-138 | creation fails with 500 and no effect iff the database fails or the owner is unknown; otherwise one conversation with that owner and title and no summary is stored under a fresh id, and nothing else changes |
| ConversationService.CreateConversationWellFormed | app/services/conversation_service.py:96-138 | creating a conversation for a stored user keeps the store well formed |
| ConversationService.CreateConversation | app/services/conversation_service.py:96-138 | the session's new tables and the result are those of the creation transition |
| ConversationService.UpdateSummarySpec | app/services/conversation_service.py:140-186 | an absent or foreign conversation is 404 with no effect; otherwise only that conversation's summary and updated_at change |
| ConversationService.UpdateSummaryWellFormed | app/services/conversation_service.py:140-186 | a summary update keeps the store well formed |
| ConversationService.UpdateConversationSummary | app/services/conversation_service.py:140-186 | the session's new tables and the result are those of the update transition |
| ConversationService.WithoutConversationExact | app/services/conversation_service.py:221 | deleting a conversation's messages leaves exactly the other conversations' messages, still in order |
| ConversationService.WithoutConversationKeeps | app/services/conversation_service.py:221 | deleting one conversation's messages leaves every other conversation's history unchanged |
| ConversationService.DeleteConversationSpec | app/services/conversation_service.py:188-234 | an absent or foreign conversation is 500 and nothing is deleted; otherwise all its messages and then the conversation go, and every other conversation and history stays |
| ConversationService.DeleteConversationWellFormed | app/services/conversation_service.py:221-226 | the deletion order (messages, then their conversation) keeps the foreign keys |
| ConversationService.DeleteConversationService | app/services/conversation_service.py:188-234 | the session's new tables and the result are those of the delete transition |
| CreditService.DeductSpec | app/services/credit_service.py:10-50 | an unknown user is 404; a short balance is `False` with no effect; a new balance beyond the 32-bit column is the commit's error with no effect, which a non-negative amount never causes; otherwise `True`, and the balance drops by exactly `amount`, reaching 0 when equal; only that user changes |
| CreditService.DeductNeverNegative | app/services/credit_service.py:37-46 | no non-negative balance becomes negative through a deduction |
| CreditService.DeductWellFormed | app/services/credit_service.py:41-46 | a deduction keeps the store well formed |
| CreditService.DeductCredits | app/services/credit_service.py:10-50 | the session's new tables and the result are those of the deduction transition |
| CreditService.AddCreditsSpec | app/services/credit_service.py:52-88 | an unknown user is 404; a total beyond the 32-bit column is the commit's error with no effect; otherwise the balance grows by exactly `amount`, the new total is reported, and no other user changes |
| CreditService.TopUpNeverLowers | app/schemas/credits_schema.py:4 | a top-up the request schema allows never lowers a balance |
| CreditService.AddThenDeduct | app/services/credit_service.py:10-88 | when the top-up of a non-negative balance commits, deducting the same amount succeeds and restores the store |
| CreditService.AddCreditsWellFormed | app/services/credit_service.py:74-84 | adding credits keeps the store well formed |
| CreditService.AddCredits | app/services/credit_service.py:52-88 | the session's new tables and the result are those of the top-up transition |
| CreditService.CreditsStayInColumn | app/core/models.py:18 | neither credit operation ever stores a balance the 32-bit INTEGER column cannot hold, whatever the amount |
| Processor.HistorySpec | app/chat/processor.py:12-39 | the history is the system summary entry when the summary is truthy, then one entry per stored message in order, and nothing else |
| Processor.BuildConversationHistory | app/chat/processor.py:12-39 | the loop builds the history of the conversation's stored messages, or re-raises the read error |
| Processor.ProcessOutcomeSpec | app/chat/processor.py:41-63 | success iff both reads succeed and the user owns the conversation, and then the summary entry followed by the conversation's messages in creation order; every failure is 500 |
| Processor.ProcessMessage | app/chat/processor.py:41-63 | the guarded reads compute the outcome above |
| Processor.NewInputUnused | app/chat/processor.py:41-63 | the new input's text has no influence on the result |
| ConversationsApi.InvalidIdWritesNothing | app/api/conversations.py:80-84 | an unparsable conversation id is 400 and nothing is written |
| ConversationsApi.UserSaveFailureStops | app/api/conversations.py:86-98 | if the user message cannot be stored, the turn is 500 with no effect, whatever the agent would do |
| ConversationsApi.AgentFailureKeepsUserMessage | app/api/conversations.py:100-125 | a failing history build or agent run is 500; the user message stays stored and no reply or deduction happens |
| ConversationsApi.AgentSeesUserMessageLast | app/api/conversations.py:86-107 | the history the agent receives ends with the new user message, which it gets only by reading the store back |
| ConversationsApi.AssistantReplySpec | app/api/conversations.py:115-119 | the reply is the last state element's content, and the fixed fallback text when the state is empty or that content is missing |
| ConversationsApi.SuccessfulTurnShape | app/api/conversations.py:71-142 | a successful turn stores exactly the user message, then the assistant reply, returns the stored reply, and `credits_remaining` says whether one credit could be deducted |
| ConversationsApi.LateFailureKeepsReply | app/api/conversations.py:127-142 | a failure to store the reply or to deduct is 500, and a reply already stored stays |
| ConversationsApi.TurnNeverWritesConversations | app/api/conversations.py:112-138 | the turn never writes the conversations table, so the agent's summary is dropped |
| ConversationsApi.ForeignConversationKeepsMessage | app/api/conversations.py:86-98 | posting to another user's conversation stores the message there and then fails with 500 |
| ConversationsApi.TurnWellFormed | app/api/conversations.py:71-142 | a turn keeps the store well formed |
| ConversationsApi.ReplyWellFormed | app/api/conversations.py:127-142 | storing the reply and deducting one credit keeps the store well formed |
| ConversationsApi.SaveReply | app/api/conversations.py:127-142 | the session's new tables and the result are those of storing the reply and then deducting one credit |
| ConversationsApi.SendMessage | app/api/conversations.py:71-142 | the session's new tables and the result are those of the turn transition |
| ConversationsApi.RetrieveIgnoresOwner | app/api/conversations.py:49-68 | reading messages does not depend on who asks; a bad id is 400 and a failure 500 |
| ConversationsApi.DeleteForeignIs500 | app/api/conversations.py:145-163 | deleting an absent or foreign conversation through the endpoint is 500 and deletes nothing |
| ConversationsApi.DeleteConversation | app/api/conversations.py:145-163 | the session's new tables and the result are those of the delete request |
| ConversationsApi.GetConversations | app/api/conversations.py:20-30 | the first 50 of the user's conversations, newest first; a failure is 500 |
| ConversationsApi.NewConversation | app/api/conversations.py:33-46 | the service's creation, with any failure reported as 500 |
| GraphWorkflow.NoUpdateIff | app/chat/graph_workflow.py:39-52 | the hook changes nothing iff there are at most ten messages |
| GraphWorkflow.UpdateShape | app/chat/graph_workflow.py:39-50 | above ten: six messages, a system message "Summary so far: " + summary, then the last five unchanged in order; the summary is of the last ten contents joined by newlines and is also returned |
| GraphWorkflow.ReadsOnlyLastTen | app/chat/graph_workflow.py:43-47 | messages before the last ten never affect the update |
| GraphWorkflow.HookIdempotent | app/chat/graph_workflow.py:39-52 | applying the hook to its own output changes nothing |
| ChatUtils.RoleMapping | app/utils/chat.py:14-38 | AI is assistant and human is user, both keeping tool calls; system and tool keep their role with no tool calls; for all four a missing content becomes "" and any other content is kept |
| ChatUtils.DictConversion | app/utils/chat.py:40-55 | a dict with role and content becomes that message; one without becomes the assistant error message |
| ChatUtils.ConvertIdempotent | app/utils/chat.py:8-55 | converting a converted message again returns it unchanged |
| PdfChunker.PdfToChunks | app/tools/rag/pdf_chunker.py:8-42 | the loop returns the greedy chunking of the words of the first `max_pages` pages; `max_pages` defaults to 15 and the token limit to 650 |
| PdfChunker.GroupsFlatten | app/tools/rag/pdf_chunker.py:25-40 | the chunks' words, concatenated in order, are the words of the text |
| PdfChunker.RunBound | app/tools/rag/pdf_chunker.py:30-37 | every chunk fits the token limit unless it is a single overlong word or an empty first chunk |
| PdfChunker.RunGreedy | app/tools/rag/pdf_chunker.py:32-35 | a chunk closes only because the next word would push it over the limit |
| PdfChunker.RunLeadingEmpty | app/tools/rag/pdf_chunker.py:27-34 | an empty first chunk appears iff the first word alone exceeds the limit |
| PdfChunker.ChunkingSpec | app/tools/rag/pdf_chunker.py:8-42 | the chunking gives back its words in order, respects the limit, closes greedily, leads with "" exactly when the first word is too long, ends with a non-empty chunk, and is empty iff the text has no words |
| PdfChunker.ChunkResplits | app/tools/rag/pdf_chunker.py:37-40 | splitting a chunk's text again gives back that chunk's words |
| RagSearch.ContributingExact | app/tools/rag/search.py:25-29 | exactly the hits with non-empty text contribute |
| RagSearch.ContributingAppend | app/tools/rag/search.py:25-29 | filtering keeps the store's order |
| RagSearch.FormatSpec | app/tools/rag/search.py:25-34 | with no text the result is the sentinel, otherwise the texts joined by blank lines |
| RagSearch.SearchPropagates | app/tools/rag/search.py:13-34 | embedding and store errors come out unchanged; the store is asked for `top_k` hits, 5 by default |
| RagSearch.VariantsAgree | app/tools/rag/search.py:40-74 | the deprecated variant differs only in its English sentinel |
| AddDocuments.EmptyRefused | app/tools/rag/add_documents.py:43-45 | an empty list is refused without calling the embedding model or the store |
| AddDocuments.PointsSpec | app/tools/rag/add_documents.py:53-56 | the points pair documents with vectors by position, as many as the shorter list, each with its own drawn id, distinct when the generator never repeats |
| AddDocuments.AddOutcomeSpec | app/tools/rag/add_documents.py:27-69 | a successful upsert reports the number of points and the collection; every failure becomes its error text and nothing is raised |
| LoggingUtils.MaskUuidSpec | app/utils/logging_utils.py:13-17 | empty stays empty; otherwise at most the first eight characters followed by "***" |
| LoggingUtils.MaskEmailSpec | app/utils/logging_utils.py:20-25 | `local@domain` keeps at most three characters of the local part, then "***@" and the whole domain |
| LoggingUtils.MaskEmailHides | app/utils/logging_utils.py:22-23 | an address without "@" is fully hidden |
| LoggingUtils.MaskTokenSpec | app/utils/logging_utils.py:28-37 | an empty token stays empty; any other token keeps at most ten characters followed by "***"; every password masks to the same constant |
| LoggingUtils.MaskMessageContentSpec | app/utils/logging_utils.py:40-46 | content within the limit is unchanged, longer content is cut to the limit plus "...", never over the limit by more than three |
| LoggingUtils.SanitizeData | app/utils/logging_utils.py:49-71 | the loops compute the recursive sanitisation |
| LoggingUtils.SanitizeField | app/utils/logging_utils.py:54-64 | the branch of the dict loop computes the sanitised value of one field |
| LoggingUtils.SanitizedShape | app/utils/logging_utils.py:51-67 | a dict keeps its keys in order with sensitive keys masked; a list keeps its length with each item sanitised on its own |
| LoggingUtils.FieldRules | app/utils/logging_utils.py:55-64 | the key rules apply in order: sensitive words, then email, then id for a string or UUID value, then content for a string value (cut to 50 characters), otherwise recursion into the value, also for id and content keys holding other values |
| LoggingUtils.PasswordKeysSensitive | app/utils/logging_utils.py:54-56 | a key containing "password" in any ASCII letter case, with anything around it, is masked |
| LoggingUtils.ScalarRules | app/utils/logging_utils.py:68-71 | a bare 36-character string or UUID is uuid-masked, other scalars are unchanged |
| JwtService.ExpirySpec | app/services/jwt_service.py:10-23 | without a non-zero delta a token expires in 60 minutes, otherwise after exactly the delta |
| JwtService.ClaimsSpec | app/services/jwt_service.py:16-23 | the encoded claims are the caller's claims with "exp" set, every other claim kept |
| JwtService.CreateAccessTokenSpec | app/services/jwt_service.py:12-31 | creation fails iff encoding fails, and then with a ValueError saying so |
| JwtService.DecodeVerifyAgree | app/services/jwt_service.py:33-55 | verification is `True` iff decoding yields a payload and `False` iff decoding raises its ValueError; other exceptions are the same for both |
| JwtService.ExtractTokenSpec | app/services/jwt_service.py:57-72 | the header must start with "Bearer "; the token is the header with every "Bearer " removed and stripped, non-empty, without surrounding whitespace, and shorter than the header by at least the prefix |
| JwtService.BearerRoundTrip | app/services/jwt_service.py:57-72 | extraction inverts prefixing "Bearer " for a token without surrounding whitespace or "Bearer " inside |
| JwtService.JwtRoundTrip | app/services/jwt_service.py:57-72 | every token without whitespace survives the header round trip |
| AuthService.UserWithEmail | app/services/auth_service.py:20 | the email lookup returns a stored user with that email |
| AuthService.EmailIdentifies | app/core/models.py:13 | in a well-formed store an email names one user, so the lookup returns it |
| AuthService.RegisterDuplicate | app/services/auth_service.py:20-26 | a taken email is 400 and nothing is stored |
| AuthService.RegisterSpec | app/services/auth_service.py:14-53 | a successful registration adds exactly one user under a fresh key, with the email and the password's hash, inactive, not an administrator, no credits; a failed hash or commit is 500 and stores nothing |
| AuthService.RegisterWellFormed | app/services/auth_service.py:37-49 | registration keeps the store well formed and emails unique |
| AuthService.RegisterUser | app/services/auth_service.py:14-53 | the session's new tables and the result are those of the registration transition |
| AuthService.LoginUnknownEmail | app/services/auth_service.py:61-67 | login with an unknown email is 401 |
| AuthService.LoginSpec | app/services/auth_service.py:55-111 | a Google account is 400 before any check; a wrong or failing check is 500; a correct password on an inactive account is 403; otherwise a bearer token for the five session claims with auth_method "password" |
| AuthService.GoogleAccountNeverChecked | app/services/auth_service.py:70-75 | the Google-account answer does not depend on the password check |
| AuthService.RegisteredUserAwaitsActivation | app/services/auth_service.py:38-95 | a freshly registered account, though its password checks, is refused with 403 until activated |
| AuthService.LoginUser | app/services/auth_service.py:55-111 | the guard chain on the session computes the login outcome |
| AuthService.PayloadSpec | app/services/auth_service.py:124-137 | a payload passes iff the token decodes and carries a truthy "id"; a decoding error is 401 with its message; a missing "id" is 401 |
| AuthService.CurrentUserSpec | app/services/auth_service.py:139-163 | the result is the stored, active user the "id" claim names, and otherwise always 401 "Invalid token" |
| AuthService.ActiveCheckRedundant | app/services/auth_service.py:165-170 | the active-user guard never fires after `get_current_user` succeeded |
| AuthService.AdminSpec | app/services/auth_service.py:172-177 | only administrators pass the admin guard; everyone else is 403 |
| AuthService.CurrentUserChain | app/services/auth_service.py:115-163 | a request resolves to a user only through a "Bearer " header whose token decodes to a payload naming a stored, active user |
| OAuthService.MissingEmail | app/services/oauth_service.py:23-26 | without an email the answer is 400 "OAuth authentication failed: 400: Email not provided by Google" and nothing is stored |
| OAuthService.EmailNotProvidedText | app/services/oauth_service.py:26 | the callback's own exception prints as "400: Email not provided by Google" |
| OAuthService.NewGoogleAccount | app/services/oauth_service.py:31-41 | an unknown email creates one account under a fresh key with no password hash, active, not an administrator, ten credits |
| OAuthService.ExistingGoogleAccount | app/services/oauth_service.py:43-47 | a known inactive account is activated with nothing else changed; a known active one is left exactly as it was |
| OAuthService.GoogleLoginReply | app/services/oauth_service.py:50-68 | a successful sign-in reports the stored active account with the provider's email, and its token encodes the session claims with auth_method "oauth" |
| OAuthService.FindOrCreateWellFormed | app/services/oauth_service.py:31-47 | find-or-create keeps the store well formed |
| OAuthService.GoogleLoginWellFormed | app/services/oauth_service.py:12-72 | the callback keeps the store well formed |
| OAuthService.GoogleLoginCallback | app/services/oauth_service.py:12-72 | the session's new tables and the result are those of the callback transition |
| OAuthService.GoogleAccountRefusesPassword | app/services/oauth_service.py:31-41 | an account Google sign-in created refuses every password login with the Google-sign-in 400 |
| PasswordUtils.ChangePasswordSpec | app/utils/password_utils.py:21-39 | an unknown user is 404 and a failing current password 400, without effect; on success only the user's hash changes, to the new password's hash |
| PasswordUtils.ChangePasswordWellFormed | app/utils/password_utils.py:35-36 | a password change keeps the store well formed |
| PasswordUtils.ChangePassword | app/utils/password_utils.py:21-39 | the session's new tables and the result are those of the change transition |

Lemmas without a row are proof helpers: facts about sequences and strings (`PyText.SplitLast`, `LoggingUtils.LowerAppend`, `LoggingUtils.ContainsAt`, `OAuthService.FourHundredText`, `OAuthService.StatusPrefixText`, `OAuthService.FailedPrefixText` and others) and steps of larger proofs.

## Left out

- Logging, the `SecureLogger` logging methods and every other I/O: they have no effect on results.
- FastAPI routing, dependency injection, middleware and OAuth redirects (`get_google_auth_url`): framework plumbing. The dependency chain of `get_current_user` is modelled as a composition (`AuthService.CurrentUser`).
- The LangGraph ReAct loop, the language model and the summary chain: the agent is a parameter returning a final state or a failure, and the summariser a function on strings.
- The SQLAlchemy session internals: each operation commits all or nothing, and a failure the model does not name is a flag per call.
- The 32-bit `credits` column is modelled by its bounds: a credit operation whose new balance falls outside them fails with the database's "integer out of range" and stores nothing. `WellFormed` does not require stored balances to fit; `CreditService.CreditsStayInColumn` states that the credit operations keep them inside.
- ConversationService.GetUserConversations: `limit` and `offset` are numbers; the source's `None` for either (no LIMIT, no OFFSET) is not modelled. Its only caller passes the defaults 50 and 0 (app/api/conversations.py:25).
- Concurrency: the read-then-write race on credits and concurrent turns on one conversation are not modelled.
- `create_collection` and `get_collections`: single library calls (the latter's error branch refers to an unbound name).
- bcrypt, JOSE, tiktoken, PyPDF2, the embedding model, Qdrant, the OAuth provider and UUID parsing: uninterpreted parameters.
- Timestamps are values of a counter that every `now()` advances. `isoformat()` is a stand-in that prints that counter, so only the appended "Z" of a record's time is faithful.
- Fresh UUIDs come from a counter; `uuid4()` inside the document upload is a parameter.
- Email syntax validation (pydantic's `EmailStr`) is not modelled; any string is accepted as an email.
- The password length bounds 6 to 128 are a precondition, as the request schema enforces them before the service runs.
- `ChatMessage` is not defined in app/schemas/chat_schema.py; its fields here (role, content, tool calls) follow its uses.
- ChatUtils.ConvertLangchainMessage: a dict is given by its string entries; a dict carrying tool calls is not modelled. A LangChain message's `content` is a string or missing; content given as a list of content blocks, which the source passes on unchanged, is not modelled.
- LoggingUtils.Repr: `repr` does not escape quotes inside strings.
- LoggingUtils.SensitiveKey: lower-casing covers ASCII letters only.
- PasswordUtils.ChangePassword: takes the parsed user key, while the source takes its text and leaves the parse to the database.
- JwtService.CreateAccessToken: the claim dictionary is a value, so the copy-before-update that keeps the caller's dict unchanged holds by construction; key and algorithm are inside `encode`.
- The OAuth catch-all's text of an `HTTPException` is taken to be "status: detail", as Starlette prints it.
- Test files refer to modules that do not exist; they are not part of this model.
