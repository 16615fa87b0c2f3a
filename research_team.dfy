/** The research team of agents/research_team/: a paper agent, an extraction agent and a
    force-field writer, which pass control among themselves only by peer handoffs. The graph
    declares just the entry at the paper agent and the end after the writer. Each node runs its
    agent on the whole incoming state and contributes the agent's last message. */
module ResearchTeam {
  import opened Wrappers
  import opened Messages
  import opened Handoff
  import opened ToolCatalog

  const ResearchNodes: set<string> := {PaperNode, ExtractionNode, WriterNode}

  /** The declared edges of `create_research_team`. */
  const ResearchEdges: set<(string, string)> := {(StartNode, PaperNode), (WriterNode, EndNode)}

  function StaticSuccessors(n: string): set<string> {
    set e | e in ResearchEdges && e.0 == n :: e.1
  }

  /** One step: along a declared edge, or by a handoff the agent at `n` holds. */
  predicate Step(n: string, m: string) {
    || (n, m) in ResearchEdges
    || (n == PaperNode && m in HandoffTargets(PaperAgent))
    || (n == ExtractionNode && m in HandoffTargets(ExtractionAgent))
    || (n == WriterNode && m in HandoffTargets(WriterAgent))
  }

  predicate Run(p: seq<string>) {
    && |p| >= 1 && p[0] == StartNode
    && forall i :: 0 <= i < |p| - 1 ==> Step(p[i], p[i + 1])
  }

  /** The node function of each research agent: the agent runs on the whole history and the
      node returns the last message of its answer, which raises when the answer is empty. */
  function ResearchNode(messages: seq<Message>, invoke: seq<Message> -> seq<Message>): (r: Result<seq<Message>>)
    ensures r.Err? <==> invoke(messages) == []
    ensures r.Ok? ==> |r.value| == 1 && r.value[0] == invoke(messages)[|invoke(messages)| - 1]
  {
    var response := invoke(messages);
    if response == [] then Err(IndexError) else Ok([response[|response| - 1]])
  }

  // ---------------------------------------------------------------------
  // Lemmas

  /** Every step, by its source. */
  lemma StepIff(n: string, m: string)
    ensures Step(n, m) <==>
      || (n == StartNode && m == PaperNode)
      || (n == PaperNode && m == ExtractionNode)
      || (n == ExtractionNode && (m == PaperNode || m == WriterNode))
      || (n == WriterNode && (m == ExtractionNode || m == EndNode))
  {
    ResearchHandoffTargets();
  }

  /** The paper agent and the extraction agent have no declared successor, so they move on only
      by a handoff; the writer's only declared successor is the end. */
  lemma StaticShape()
    ensures StaticSuccessors(PaperNode) == {} && StaticSuccessors(ExtractionNode) == {}
    ensures StaticSuccessors(WriterNode) == {EndNode} && StaticSuccessors(StartNode) == {PaperNode}
    ensures StaticSuccessors(EndNode) == {}
  {
    assert (WriterNode, EndNode) in ResearchEdges;
    assert (StartNode, PaperNode) in ResearchEdges;
  }

  /** In every run the end comes only right after the writer, the writer is entered only from
      the extraction agent, and the end is the last node. */
  lemma RunOrder(p: seq<string>, k: nat)
    requires Run(p) && 1 <= k < |p|
    ensures p[k] != StartNode
    ensures p[k] == EndNode ==> p[k - 1] == WriterNode && k == |p| - 1
    ensures p[k] == WriterNode ==> p[k - 1] == ExtractionNode
    ensures k == 1 ==> p[k] == PaperNode
  {
    StepIff(p[k - 1], p[k]);
    if k + 1 < |p| {
      StepIff(p[k], p[k + 1]);
    }
  }

  /** A run that reaches the end went from the extraction agent to the writer and from the
      writer to the end, and the paper agent came first. */
  lemma {:induction false} EndThroughExtraction(p: seq<string>)
    requires Run(p) && |p| >= 2 && p[|p| - 1] == EndNode
    ensures |p| >= 4 && p[|p| - 2] == WriterNode && p[|p| - 3] == ExtractionNode && p[1] == PaperNode
  {
    var k := |p| - 1;
    RunOrder(p, k);
    RunOrder(p, k - 1);
    RunOrder(p, 1);
  }

  /** Each research handoff lands on a step of the graph: a handoff the agent at `n` holds goes
      to a node that follows `n`. */
  lemma HandoffIsStep(a: ResearchAgent, i: nat, task: string, state: AgentState, toolCallId: string, id: string)
    requires i < |Handoffs(a)|
    requires state.messages != []
    ensures var r := Invoke(Handoffs(a)[i], task, state, toolCallId, id);
      && r.Ok? && r.value.graph == Parent && r.value.goto.GotoNode?
      && Step(ResearchNodeName(a), r.value.goto.node)
  {
    ResearchHandoffTargets();
    HandoffLists();
    var t := Handoffs(a)[i];
    assert t.kind.Peer?;
    assert t in Handoffs(a);
  }

  /** Merged into the history, the node's answer adds exactly that one message when its id is
      new, whatever the agent did on the way. */
  lemma ResearchNodeAppends(messages: seq<Message>, invoke: seq<Message> -> seq<Message>)
    requires ResearchNode(messages, invoke).Ok?
    requires FreshId(messages, ResearchNode(messages, invoke).value[0].id)
    ensures var out := invoke(messages);
      AddMessages(messages, ResearchNode(messages, invoke).value) == messages + [out[|out| - 1]]
  {
    AddMessagesFresh(messages, ResearchNode(messages, invoke).value);
  }
}
