/** The pre-model summarisation hook of the agent (app/chat/graph_workflow.py). */
module GraphWorkflow {
  import opened PyText

  datatype Kind = SystemKind | HumanKind | AIKind | ToolKind

  /** A message of the agent's state: its class and its content. */
  datatype AgentMessage = AgentMessage(kind: Kind, content: string)

  /** The hook's return value: `{}`, or new `messages` and `summary`. */
  datatype HookUpdate = NoUpdate | Update(messages: seq<AgentMessage>, summary: string)

  const SummaryThreshold := 10
  const SummarizedCount := 10
  const KeptCount := 5
  const SummaryPrefix := "Summary so far: "

  function Contents(msgs: seq<AgentMessage>): (cs: seq<string>)
    ensures |cs| == |msgs|
    ensures forall i :: 0 <= i < |msgs| ==> cs[i] == msgs[i].content
  {
    seq(|msgs|, i requires 0 <= i < |msgs| => msgs[i].content)
  }

  /** The text handed to the summariser: the contents of the last ten messages, one per line. */
  function ChatHistory(msgs: seq<AgentMessage>): string
  {
    JoinWith("\n", Contents(PySuffix(msgs, -SummarizedCount)))
  }

  /** `summary_hook`: above ten messages, one system message carrying the summary of the last ten, then the
      last five messages. `summarize` stands for the summary chain. */
  function SummaryHook(msgs: seq<AgentMessage>, summarize: string -> string): HookUpdate
  {
    if |msgs| > SummaryThreshold then
      var summary := summarize(ChatHistory(msgs));
      Update([AgentMessage(SystemKind, SummaryPrefix + summary)] + PySuffix(msgs, -KeptCount), summary)
    else NoUpdate
  }

  // ---------------------------------------------------------------- lemmas

  /** The hook changes nothing exactly when there are at most ten messages. */
  lemma NoUpdateIff(msgs: seq<AgentMessage>, summarize: string -> string)
    ensures SummaryHook(msgs, summarize) == NoUpdate <==> |msgs| <= 10
  {
  }

  /** Above ten messages: six messages, a system message with "Summary so far: " and the summary, then the last
      five inputs unchanged and in order; the same summary is returned, computed from the last ten contents. */
  lemma UpdateShape(msgs: seq<AgentMessage>, summarize: string -> string)
    requires |msgs| > 10
    ensures var u := SummaryHook(msgs, summarize);
            && u.Update?
            && u.summary == summarize(JoinWith("\n", Contents(msgs[|msgs| - 10..])))
            && |u.messages| == 6
            && u.messages[0] == AgentMessage(SystemKind, "Summary so far: " + u.summary)
            && u.messages[1..] == msgs[|msgs| - 5..]
  {
    var u := SummaryHook(msgs, summarize);
    assert u.messages[1..] == PySuffix(msgs, -5);
  }

  /** Messages before the last ten are never read: two states that agree on their last ten messages and both
      exceed ten get the same update. */
  lemma ReadsOnlyLastTen(a: seq<AgentMessage>, b: seq<AgentMessage>, summarize: string -> string)
    requires |a| > 10 && |b| > 10
    requires a[|a| - 10..] == b[|b| - 10..]
    ensures SummaryHook(a, summarize) == SummaryHook(b, summarize)
  {
    assert a[|a| - 5..] == a[|a| - 10..][5..];
    assert b[|b| - 5..] == b[|b| - 10..][5..];
  }

  /** Applying the hook to its own output changes nothing. */
  lemma HookIdempotent(msgs: seq<AgentMessage>, summarize: string -> string)
    ensures var u := SummaryHook(msgs, summarize);
            u.Update? ==> SummaryHook(u.messages, summarize) == NoUpdate
  {
  }
}
