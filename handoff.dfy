/** The handoff tools of tools/handoff_tools.py and the `Command` values they return: a
    directed handoff from the supervisor to a worker, and a peer handoff between the
    research agents. */
module Handoff {
  import opened Wrappers
  import opened Messages

  /** The graph a command is resolved in: its own, or the parent (`Command.PARENT`). */
  datatype GraphTarget = Current | Parent

  /** LangGraph's reserved entry and exit nodes. */
  const StartNode := "__start__"
  const EndNode := "__end__"

  /** The supervisor's node name, which is also the sender of its transfer tools. */
  const SupervisorName := "supervisor"

  /** Where a command sends control: nowhere, to a node, or to a node with a `Send` payload. */
  datatype Goto = NoGoto | GotoNode(node: string) | SendTo(node: string, payload: StateUpdate)

  datatype Command = Command(graph: GraphTarget, goto: Goto, update: StateUpdate)

  /** A directed handoff is made by `create_handoff_tool`, a peer handoff by
      `create_research_handoff_tool`; both remember the sender they were given. */
  datatype HandoffKind = Directed(senderName: string) | Peer(sender: Option<string>)

  datatype HandoffTool = HandoffTool(name: string, description: string, agentName: string, kind: HandoffKind)

  function TransferName(agentName: string): string {
    "transfer_to_" + agentName
  }

  /** `description or default`: a missing or empty description gives the default. */
  function OrDefault(description: Option<string>, default: string): string {
    if description.Some? && description.value != [] then description.value else default
  }

  function CreateHandoffTool(agentName: string, senderName: string, description: Option<string>): (t: HandoffTool)
    ensures t.name == TransferName(agentName) && t.agentName == agentName
    ensures t.description == OrDefault(description, "Ask " + agentName + " for help.")
  {
    HandoffTool(TransferName(agentName), OrDefault(description, "Ask " + agentName + " for help."),
                agentName, Directed(senderName))
  }

  function CreateResearchHandoffTool(agentName: string, description: Option<string>, sender: Option<string>)
    : (t: HandoffTool)
    ensures t.name == TransferName(agentName) && t.agentName == agentName
    ensures t.description == OrDefault(description, "Transfer to " + agentName)
  {
    HandoffTool(TransferName(agentName), OrDefault(description, "Transfer to " + agentName),
                agentName, Peer(sender))
  }

  /** The tool message a handoff reports back with. */
  function TransferMessage(t: HandoffTool, toolCallId: string, id: string): Message {
    Message(id, Tool, "Successfully transferred to " + t.agentName, Some(t.name), Some(toolCallId))
  }

  /** Calling the tool with the description the model wrote. `id` is the id the reducer will
      give the new tool message. The human message built from the task description is never
      used, and a peer handoff reads the last message, so it raises on an empty history. */
  function Invoke(t: HandoffTool, taskDescription: string, state: AgentState, toolCallId: string, id: string)
    : Result<Command>
  {
    var tm := TransferMessage(t, toolCallId, id);
    match t.kind
    case Directed(_) =>
      Ok(Command(Parent,
                 SendTo(t.agentName, StateUpdate(None, None, Some(taskDescription), None, None, None)),
                 StateUpdate(Some(state.messages + [tm]), state.remainingSteps, state.instructions,
                             Some(t.agentName), state.lastMsg, state.context)))
    case Peer(_) =>
      if state.messages == [] then Err(IndexError)
      else Ok(Command(Parent, GotoNode(t.agentName), MessagesOnly([state.messages[|state.messages| - 1], tm])))
  }

  // ---------------------------------------------------------------------
  // Lemmas

  /** A directed handoff resolves in the parent graph and sends control to the named agent,
      whose only input is the task description as `instructions`. Its update keeps the whole
      history followed by exactly one tool message, names the agent as `current_agent` and
      copies every other key of the state. */
  lemma DirectedHandoff(agentName: string, senderName: string, description: Option<string>,
                        task: string, state: AgentState, toolCallId: string, id: string)
    ensures var t := CreateHandoffTool(agentName, senderName, description);
      var r := Invoke(t, task, state, toolCallId, id);
      var tm := TransferMessage(t, toolCallId, id);
      && r.Ok? && r.value.graph == Parent
      && r.value.goto == SendTo(agentName, StateUpdate(None, None, Some(task), None, None, None))
      && r.value.update.messages == Some(state.messages + [tm])
      && |r.value.update.messages.value| == |state.messages| + 1
      && tm.content == "Successfully transferred to " + agentName && tm.name == Some("transfer_to_" + agentName)
      && r.value.update.currentAgent == Some(agentName)
      && r.value.update.instructions == state.instructions
      && r.value.update.remainingSteps == state.remainingSteps
      && r.value.update.lastMsg == state.lastMsg
      && r.value.update.context == state.context
  {
  }

  /** The state a transfer tool sees: it runs inside the calling agent, whose state is the
      parent's state `p` followed by the messages `added` of the agent's own turn, the last of
      them being the AI message that calls the tool. */
  function InjectedState(p: AgentState, added: seq<Message>): AgentState {
    p.(messages := p.messages + added)
  }

  /** The parent graph applies a directed handoff's update to its own state `p`: its history
      gains the supervisor's whole turn `added` followed by the tool message, `current_agent`
      becomes the named agent, and every other key keeps the value the agent saw. */
  lemma DirectedHandoffApplied(agentName: string, senderName: string, description: Option<string>,
                               task: string, p: AgentState, added: seq<Message>, toolCallId: string, id: string)
    requires added != []
    requires DistinctIds(p.messages + added) && FreshId(p.messages + added, id)
    ensures var t := CreateHandoffTool(agentName, senderName, description);
      var cmd := Invoke(t, task, InjectedState(p, added), toolCallId, id).value;
      var after := ApplyUpdate(p, cmd.update);
      && after == p.(messages := p.messages + added + [TransferMessage(t, toolCallId, id)],
                     currentAgent := Some(agentName))
      && |after.messages| == |p.messages| + |added| + 1
  {
    var t := CreateHandoffTool(agentName, senderName, description);
    var tm := TransferMessage(t, toolCallId, id);
    var ms := p.messages + added;
    DistinctSplit(p.messages, added);
    assert DistinctIds(added + [tm]) by {
      forall i, j | 0 <= i < j < |added + [tm]|
        ensures (added + [tm])[i].id != (added + [tm])[j].id
      {
        assert (added + [tm])[i] == ms[|p.messages| + i];
        if j < |added| {
          assert (added + [tm])[j] == ms[|p.messages| + j];
        }
      }
    }
    forall i | 0 <= i < |added + [tm]|
      ensures FreshId(p.messages, (added + [tm])[i].id)
    {
      forall k | 0 <= k < |p.messages|
        ensures p.messages[k].id != (added + [tm])[i].id
      {
        assert p.messages[k] == ms[k];
        if i < |added| {
          assert (added + [tm])[i] == ms[|p.messages| + i];
        } else {
          assert (added + [tm])[i] == tm;
        }
      }
    }
    AddMessagesExtend(p.messages, added + [tm]);
    assert p.messages + (added + [tm]) == ms + [tm];
  }

  /** The sender given to `create_handoff_tool` makes no difference to what the tool does. */
  lemma DirectedIgnoresSender(agentName: string, s1: string, s2: string, description: Option<string>,
                              task: string, state: AgentState, toolCallId: string, id: string)
    ensures Invoke(CreateHandoffTool(agentName, s1, description), task, state, toolCallId, id)
         == Invoke(CreateHandoffTool(agentName, s2, description), task, state, toolCallId, id)
  {
  }

  /** A peer handoff fails exactly on an empty history; otherwise its update sets only the
      messages, to the last message followed by the tool message. */
  lemma PeerHandoff(agentName: string, description: Option<string>, sender: Option<string>,
                    task: string, state: AgentState, toolCallId: string, id: string)
    ensures var t := CreateResearchHandoffTool(agentName, description, sender);
      var r := Invoke(t, task, state, toolCallId, id);
      && (r.Err? <==> state.messages == [])
      && (r.Err? ==> r.error == IndexError)
      && (r.Ok? ==>
        && r.value.graph == Parent && r.value.goto == GotoNode(agentName)
        && r.value.update == MessagesOnly([state.messages[|state.messages| - 1], TransferMessage(t, toolCallId, id)]))
  {
  }

  /** Neither the task description nor the sender of a peer handoff has any effect. */
  lemma PeerIgnoresTaskAndSender(agentName: string, description: Option<string>,
                                 s1: Option<string>, s2: Option<string>, task1: string, task2: string,
                                 state: AgentState, toolCallId: string, id: string)
    ensures Invoke(CreateResearchHandoffTool(agentName, description, s1), task1, state, toolCallId, id)
         == Invoke(CreateResearchHandoffTool(agentName, description, s2), task2, state, toolCallId, id)
  {
  }

  /** The parent graph applies a peer handoff's update to its own state `p`: its history grows
      by exactly two messages, the last message of the agent's turn `added` (the AI message that
      called the tool) and the tool message. The rest of the agent's turn stays behind. */
  lemma PeerHandoffApplied(agentName: string, description: Option<string>, sender: Option<string>,
                           task: string, p: AgentState, added: seq<Message>, toolCallId: string, id: string)
    requires added != []
    requires DistinctIds(p.messages + added) && FreshId(p.messages + added, id)
    ensures var t := CreateResearchHandoffTool(agentName, description, sender);
      var cmd := Invoke(t, task, InjectedState(p, added), toolCallId, id).value;
      var after := ApplyUpdate(p, cmd.update);
      && after == p.(messages := p.messages + [added[|added| - 1], TransferMessage(t, toolCallId, id)])
      && |after.messages| == |p.messages| + 2
  {
    var t := CreateResearchHandoffTool(agentName, description, sender);
    var tm := TransferMessage(t, toolCallId, id);
    var ms := p.messages + added;
    var last := added[|added| - 1];
    assert ms[|ms| - 1] == last;
    assert last.id != tm.id;
    forall i | 0 <= i < |[last, tm]|
      ensures FreshId(p.messages, [last, tm][i].id)
    {
      forall k | 0 <= k < |p.messages|
        ensures p.messages[k].id != [last, tm][i].id
      {
        assert p.messages[k] == ms[k];
      }
    }
    AddMessagesFresh(p.messages, [last, tm]);
  }
}
