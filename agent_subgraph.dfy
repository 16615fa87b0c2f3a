/** `make_agent_subgraph` of agents/simulation_team/agent_utils.py: an agent node followed by an
    `emit` node that hands only the final message back to the parent graph. */
module AgentSubgraph {
  import opened Wrappers
  import opened Messages
  import opened Handoff

  const EmitName := "emit"

  /** `emit_node`: a command to the parent whose update is the subgraph's last message. */
  function EmitNode(state: AgentState): (r: Result<Command>)
    ensures r.Err? <==> state.messages == []
    ensures r.Ok? ==> var u := r.value.update;
      && r.value.graph == Parent && r.value.goto == NoGoto
      && u.messages == Some([state.messages[|state.messages| - 1]])
      && u.instructions.None? && u.currentAgent.None? && u.remainingSteps.None?
      && u.lastMsg.None? && u.context.None?
  {
    if state.messages == [] then Err(IndexError)
    else Ok(Command(Parent, NoGoto, MessagesOnly([state.messages[|state.messages| - 1]])))
  }

  /** A compiled subgraph: its nodes, its edges and its entry point. */
  datatype SubGraph = SubGraph(nodes: set<string>, edges: set<(string, string)>, entry: string)

  /** The node names that follow `n`. */
  function Successors(g: SubGraph, n: string): set<string> {
    set e | e in g.edges && e.0 == n :: e.1
  }

  /** Names `StateGraph.add_node` refuses: the reserved start and end nodes, and any name holding
      one of the namespace separators '|' and ':'. */
  predicate ReservedName(n: string) {
    n == StartNode || n == EndNode || '|' in n || ':' in n
  }

  /** The subgraph built for `node_name`. A reserved name, or a second node called `emit`,
      makes `add_node` raise. */
  function MakeAgentSubgraph(nodeName: string): (r: Result<SubGraph>)
    ensures r.Err? <==> nodeName == EmitName || ReservedName(nodeName)
    ensures r.Err? ==> r.error.ValueError?
    ensures r.Ok? ==> nodeName in r.value.nodes && EmitName in r.value.nodes && r.value.entry == nodeName
  {
    if ReservedName(nodeName) then Err(ValueError("Node `" + nodeName + "` is reserved."))
    else if nodeName == EmitName then Err(ValueError("Node `emit` already present."))
    else Ok(SubGraph({nodeName, EmitName}, {(nodeName, EmitName)}, nodeName))
  }

  /** Execution enters at the agent node, whose only successor is `emit`; `emit` has none, so
      every run of the subgraph is the agent node and then `emit`. */
  lemma SubgraphShape(nodeName: string)
    requires nodeName != EmitName && !ReservedName(nodeName)
    ensures var g := MakeAgentSubgraph(nodeName).value;
      && g.entry == nodeName && g.nodes == {nodeName, EmitName}
      && Successors(g, nodeName) == {EmitName} && Successors(g, EmitName) == {}
  {
    var g := MakeAgentSubgraph(nodeName).value;
    assert (nodeName, EmitName) in g.edges;
  }

  /** One run of a wrapped agent: the agent node's update is merged into the subgraph's state,
      then `emit` forwards the last message. */
  function RunSubgraph(state: AgentState, agentNode: AgentState -> Result<StateUpdate>): Result<Command> {
    var u := agentNode(state);
    if u.Err? then Err(u.error) else EmitNode(ApplyUpdate(state, u.value))
  }

  /** When the agent node returns messages whose last one is new, the parent receives exactly
      that one message and nothing else. */
  lemma RunForwardsLast(state: AgentState, agentNode: AgentState -> Result<StateUpdate>)
    requires agentNode(state).Ok?
    requires var ms := agentNode(state).value.messages;
      && ms.Some? && ms.value != []
      && FreshId(state.messages, ms.value[|ms.value| - 1].id)
      && FreshId(ms.value[..|ms.value| - 1], ms.value[|ms.value| - 1].id)
    ensures var ms := agentNode(state).value.messages.value;
      RunSubgraph(state, agentNode) == Ok(Command(Parent, NoGoto, MessagesOnly([ms[|ms| - 1]])))
  {
    AddMessagesLast(state.messages, agentNode(state).value.messages.value);
  }
}
