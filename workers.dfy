/** The worker nodes of the simulation team (structure, force field, simulation input and
    code generator). Each puts the supervisor's instructions after the history, runs its agent
    on that, and returns the history, the instruction and the agent's messages. Each is wrapped
    as the node `run` of an agent subgraph. The agent itself is a parameter: `invoke` maps the
    input messages to the messages of the agent's result. */
module Workers {
  import opened Wrappers
  import opened Messages
  import opened Handoff
  import opened AgentSubgraph

  const RunName := "run"

  /** The instruction message a worker adds, named after its sender. */
  function InstructionMessage(state: AgentState, id: string): Message
    requires state.instructions.Some?
  {
    HumanMessage(id, state.instructions.value, SupervisorName)
  }

  /** The worker's input to its agent: the history, then the instruction. */
  function AgentInput(state: AgentState, id: string): seq<Message>
    requires state.instructions.Some?
  {
    state.messages + [InstructionMessage(state, id)]
  }

  /** The messages a worker node returns. */
  function WorkerMessages(state: AgentState, invoke: seq<Message> -> seq<Message>, id: string): seq<Message>
    requires state.instructions.Some?
  {
    AgentInput(state, id) + invoke(AgentInput(state, id))
  }

  /** What a worker node returns; `state["instructions"]` raises when the key is missing. */
  function WorkerUpdate(state: AgentState, invoke: seq<Message> -> seq<Message>, id: string): Result<StateUpdate> {
    if state.instructions.None? then Err(KeyError("instructions"))
    else Ok(MessagesOnly(WorkerMessages(state, invoke, id)))
  }

  /** `structure_agent_node`, `force_field_agent_node` and `simulation_input_agent_node`, which
      have the same body. `id` is the id the reducer gives the instruction message. */
  method WorkerNode(state: AgentState, invoke: seq<Message> -> seq<Message>, id: string)
    returns (r: Result<StateUpdate>)
    ensures r == WorkerUpdate(state, invoke, id)
  {
    if state.instructions.None? {
      return Err(KeyError("instructions"));
    }
    var newMessages := state.messages + [HumanMessage(id, state.instructions.value, SupervisorName)];
    var result := invoke(newMessages);
    newMessages := newMessages + result;
    r := Ok(MessagesOnly(newMessages));
  }

  /** `code_generator_node`: like the other workers, and it also clears `context`. */
  method CodeGeneratorNode(state: AgentState, invoke: seq<Message> -> seq<Message>, id: string)
    returns (r: Result<StateUpdate>)
    ensures state.instructions.None? ==> r == Err(KeyError("instructions"))
    ensures state.instructions.Some? ==>
      r == Ok(WorkerUpdate(state, invoke, id).value.(context := Some("")))
  {
    if state.instructions.None? {
      return Err(KeyError("instructions"));
    }
    var newMessages := state.messages + [HumanMessage(id, state.instructions.value, SupervisorName)];
    var result := invoke(newMessages);
    newMessages := newMessages + result;
    r := Ok(StateUpdate(Some(newMessages), None, None, None, None, Some("")));
  }

  /** The returned messages are the input unchanged, then the instruction named "supervisor",
      then exactly the agent's messages on that input; the agent sees the history and the
      instruction, nothing more. */
  lemma WorkerMessagesShape(state: AgentState, invoke: seq<Message> -> seq<Message>, id: string)
    requires state.instructions.Some?
    ensures var ms := WorkerMessages(state, invoke, id);
      var n := |state.messages|;
      var input := state.messages + [HumanMessage(id, state.instructions.value, SupervisorName)];
      && |ms| == n + 1 + |invoke(input)|
      && ms[..n] == state.messages
      && ms[n] == HumanMessage(id, state.instructions.value, SupervisorName)
      && ms[n].name == Some("supervisor") && ms[n].content == state.instructions.value
      && ms[n + 1..] == invoke(input)
  {
    var ms := WorkerMessages(state, invoke, id);
    var input := AgentInput(state, id);
    assert ms == input + invoke(input);
    assert ms[..|state.messages|] == input[..|state.messages|];
  }

  /** `create_code_generator_agent` returns the bare agent when asked for it, and otherwise the
      subgraph that wraps the node as `run`. */
  datatype CodeAgent = BareAgent | Wrapped(graph: SubGraph)

  function CreateCodeGeneratorAgent(getOnlyAgent: bool): (r: Result<CodeAgent>)
    ensures r.Ok?
    ensures !getOnlyAgent <==> r.value.Wrapped?
    ensures r.value.Wrapped? ==> r.value.graph.entry == RunName && Successors(r.value.graph, RunName) == {EmitName}
  {
    if getOnlyAgent then Ok(BareAgent)
    else
      SubgraphShape(RunName);
      Ok(Wrapped(MakeAgentSubgraph(RunName).value))
  }

  /** A wrapped worker hands the parent one message: the last one its agent produced, or the
      instruction when the agent produced none, as long as that message's id is new. */
  lemma WrappedWorkerForwards(state: AgentState, invoke: seq<Message> -> seq<Message>, id: string)
    requires state.instructions.Some?
    requires var ms := WorkerMessages(state, invoke, id);
      FreshId(state.messages, ms[|ms| - 1].id) && FreshId(ms[..|ms| - 1], ms[|ms| - 1].id)
    ensures var input := AgentInput(state, id);
      var out := invoke(input);
      var last := if out == [] then InstructionMessage(state, id) else out[|out| - 1];
      RunSubgraph(state, s => WorkerUpdate(s, invoke, id)) == Ok(Command(Parent, NoGoto, MessagesOnly([last])))
  {
    var ms := WorkerMessages(state, invoke, id);
    var input := AgentInput(state, id);
    var out := invoke(input);
    assert ms == input + out;
    assert out != [] ==> ms[|ms| - 1] == out[|out| - 1];
    RunForwardsLast(state, s => WorkerUpdate(s, invoke, id));
  }
}
