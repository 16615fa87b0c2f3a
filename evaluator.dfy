/** The evaluator node of agents/simulation_team/evaluator.py: after each worker it reads that
    worker's summary from the plan, asks its reasoning agent to check the work against the
    worker's checklist, and reports one message back. The checklist texts and the agent are
    parameters; the agent is `invoke`, from its input messages to its result's messages. */
module Evaluator {
  import opened Wrappers
  import opened PyStr
  import opened OrderedMaps
  import opened Messages
  import opened Plan

  /** The node names `evaluator_message` has a checklist for. */
  const ChecklistAgents: set<string> :=
    {"structure_agent_node", "force_field_agent_node", "simulation_input_agent_node", "code_generator_node"}

  const EvaluatorName := "evaluator"
  const InstructionsName := "instructions"

  /** `agent_name[:-5]`: the node name without its `_node` suffix, or "" for a shorter name. */
  function PlanKey(agentName: string): (r: string)
    ensures |agentName| >= 5 ==> r + agentName[|agentName| - 5..] == agentName
    ensures |agentName| < 5 ==> r == ""
  {
    if |agentName| >= 5 then agentName[..|agentName| - 5] else ""
  }

  /** `get_current_agent_summary(key)` on the current plan.json: the entry's summary. A missing
      file or key raises, and under the details key the value is a string, which has no `get`. */
  function CurrentAgentSummary(doc: Option<PlanDoc>, key: string): (r: Result<string>)
    requires doc.Some? ==> doc.value.Valid()
    ensures r.Ok? <==> doc.Some? && key in doc.value.agents.vals
    ensures r.Ok? ==> r.value == doc.value.agents.vals[key].summary
  {
    if doc.None? then Err(FileNotFoundError)
    else if key in doc.value.agents.vals then Ok(doc.value.agents.vals[key].summary)
    else if key == DetailsKey && doc.value.details.Some? then Err(AttributeError)
    else Err(KeyError(key))
  }

  /** The two messages the reasoning agent is given. */
  function EvaluatorInput(agentName: string, checklist: string, summary: string, ids: seq<string>): seq<Message>
    requires |ids| == 3
  {
    [HumanMessage(ids[0], checklist, InstructionsName), HumanMessage(ids[1], summary, PlanKey(agentName))]
  }

  /** `evaluator_node(state)`: a plain update, not a command. `ids` are the ids the reducer gives
      the two input messages and the reply. */
  function EvaluatorNode(state: AgentState, doc: Option<PlanDoc>, checklistText: string -> string,
                         invoke: seq<Message> -> seq<Message>, ids: seq<string>): (r: Result<StateUpdate>)
    requires doc.Some? ==> doc.value.Valid()
    requires |ids| == 3
    ensures r.Ok? ==>
      && state.currentAgent.Some? && state.currentAgent.value in ChecklistAgents
      && doc.Some? && PlanKey(state.currentAgent.value) in doc.value.agents.vals
  {
    if state.currentAgent.None? then Err(KeyError("current_agent"))
    else
      var agentName := state.currentAgent.value;
      var summary := CurrentAgentSummary(doc, PlanKey(agentName));
      if summary.Err? then Err(summary.error)
      else if agentName !in ChecklistAgents then Err(KeyError(agentName))
      else
        var result := invoke(EvaluatorInput(agentName, checklistText(agentName), summary.value, ids));
        if result == [] then Err(IndexError)
        else Ok(MessagesOnly([HumanMessage(ids[2], result[|result| - 1].content, EvaluatorName)]))
  }

  // ---------------------------------------------------------------------
  // Lemmas

  /** For every node with a checklist, the plan key is the agent's own name in the plan. */
  lemma PlanKeys()
    ensures PlanKey("structure_agent_node") == "structure_agent"
    ensures PlanKey("force_field_agent_node") == "force_field_agent"
    ensures PlanKey("simulation_input_agent_node") == "simulation_input_agent"
    ensures PlanKey("code_generator_node") == "code_generator"
    ensures forall a :: a in ChecklistAgents ==> PlanKey(a) + "_node" == a
  {
    assert "structure_agent_node"[..15] == "structure_agent";
    assert "force_field_agent_node"[..17] == "force_field_agent";
    assert "simulation_input_agent_node"[..22] == "simulation_input_agent";
    assert "code_generator_node"[..14] == "code_generator";
  }

  /** When the evaluator succeeds it gave its agent exactly two messages, the checklist named
      "instructions" and then the summary under the plan key, and it returns exactly one
      message, named "evaluator", carrying the last message of the agent's answer. */
  lemma EvaluatorShape(state: AgentState, doc: Option<PlanDoc>, checklistText: string -> string,
                       invoke: seq<Message> -> seq<Message>, ids: seq<string>)
    requires doc.Some? ==> doc.value.Valid()
    requires |ids| == 3
    requires EvaluatorNode(state, doc, checklistText, invoke, ids).Ok?
    ensures var agentName := state.currentAgent.value;
      var key := PlanKey(agentName);
      var input := EvaluatorInput(agentName, checklistText(agentName), doc.value.agents.vals[key].summary, ids);
      var out := invoke(input);
      var u := EvaluatorNode(state, doc, checklistText, invoke, ids).value;
      && |input| == 2
      && input[0].name == Some("instructions") && input[0].content == checklistText(agentName)
      && input[1].name == Some(key) && input[1].content == doc.value.agents.vals[key].summary
      && out != []
      && u.messages.Some? && |u.messages.value| == 1
      && u.messages.value[0].name == Some("evaluator") && u.messages.value[0].content == out[|out| - 1].content
      && u == MessagesOnly(u.messages.value)
  {
  }

  /** The evaluator fails exactly when there is no current agent, the plan or the agent's entry
      is missing, the agent has no checklist, or its agent answers nothing. */
  lemma EvaluatorFails(state: AgentState, doc: Option<PlanDoc>, checklistText: string -> string,
                       invoke: seq<Message> -> seq<Message>, ids: seq<string>)
    requires doc.Some? ==> doc.value.Valid()
    requires |ids| == 3
    ensures EvaluatorNode(state, doc, checklistText, invoke, ids).Err? <==>
      || state.currentAgent.None? || doc.None?
      || PlanKey(state.currentAgent.value) !in doc.value.agents.vals
      || state.currentAgent.value !in ChecklistAgents
      || invoke(EvaluatorInput(state.currentAgent.value, checklistText(state.currentAgent.value),
                               doc.value.agents.vals[PlanKey(state.currentAgent.value)].summary, ids)) == []
  {
  }

  /** The summary `write_summary` just recorded for a worker is the one the evaluator reads. */
  lemma EvaluatorReadsSummary(doc: Option<PlanDoc>, agentName: string, s: string)
    requires doc.Some? && doc.value.Valid() && PlanKey(agentName) in doc.value.agents.vals
    ensures SummaryWritten(doc, PlanKey(agentName), s).Ok?
    ensures CurrentAgentSummary(Some(SummaryWritten(doc, PlanKey(agentName), s).value), PlanKey(agentName)) == Ok(s)
  {
  }
}
