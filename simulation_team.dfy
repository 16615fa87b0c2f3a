/** The simulation team of agents/simulation_team/simulation_team.py: a supervisor that hands
    work to one of four worker subgraphs, each followed by the evaluator, which reports back to
    the supervisor. The graph is its node and edge sets; a run is a sequence of nodes in which
    each step follows a declared edge or a handoff command of the supervisor. */
module SimulationTeam {
  import opened Wrappers
  import opened Messages
  import opened Handoff
  import opened Plan
  import opened ToolCatalog
  import opened Evaluator
  import Workers

  const EvaluatorNodeName := "evaluator_node"

  const WorkerNodes: set<string> := {StructureNode, ForceFieldNode, SimulationInputNode, CodeGeneratorNode}

  /** The destinations the supervisor node is declared with. */
  const Destinations: seq<string> := [StructureNode, ForceFieldNode, SimulationInputNode, CodeGeneratorNode]

  const Nodes: set<string> := WorkerNodes + {SupervisorName, EvaluatorNodeName}

  /** The declared edges: each worker to the evaluator, the evaluator to the supervisor, and
      the entry to the supervisor. No edge leads to the end. */
  const Edges: set<(string, string)> := {
    (StructureNode, EvaluatorNodeName), (ForceFieldNode, EvaluatorNodeName),
    (SimulationInputNode, EvaluatorNodeName), (CodeGeneratorNode, EvaluatorNodeName),
    (EvaluatorNodeName, SupervisorName), (StartNode, SupervisorName)}

  function StaticSuccessors(n: string): set<string> {
    set e | e in Edges && e.0 == n :: e.1
  }

  /** One step of a run: along a declared edge, or from the supervisor to a destination its
      handoff command names. */
  predicate Step(n: string, m: string) {
    (n, m) in Edges || (n == SupervisorName && m in Destinations)
  }

  /** A run from the entry, as far as it has gone. */
  predicate Run(p: seq<string>) {
    && |p| >= 1 && p[0] == StartNode
    && forall i :: 0 <= i < |p| - 1 ==> Step(p[i], p[i + 1])
  }

  /** The state a worker subgraph starts from: the `Send` payload, and nothing of the parent's. */
  function SendState(payload: StateUpdate): AgentState {
    ApplyUpdate(AgentState([], None, None, None, None, None), payload)
  }

  // ---------------------------------------------------------------------
  // Lemmas about the graph

  /** The supervisor may hand off to exactly the four workers: the declared destinations, the
      targets of its transfer tools and the agents the evaluator has a checklist for are the
      same four nodes, and neither the evaluator nor the supervisor is among them. */
  lemma DestinationsAreWorkers()
    ensures (set d | d in Destinations) == WorkerNodes
    ensures (set t | t in TransferTools :: t.agentName) == WorkerNodes
    ensures ChecklistAgents == WorkerNodes
    ensures EvaluatorNodeName !in WorkerNodes && SupervisorName !in WorkerNodes
    ensures |Destinations| == 4 && forall i, j :: 0 <= i < j < 4 ==> Destinations[i] != Destinations[j]
  {
    assert TransferTools[0].agentName == StructureNode;
    assert TransferTools[1].agentName == ForceFieldNode;
    assert TransferTools[2].agentName == SimulationInputNode;
    assert TransferTools[3].agentName == CodeGeneratorNode;
  }

  /** Every step, by its source: a worker goes only to the evaluator, the evaluator only to the
      supervisor, the entry only to the supervisor, and the supervisor only to a worker. */
  lemma StepIff(n: string, m: string)
    ensures Step(n, m) <==>
      || (n in WorkerNodes && m == EvaluatorNodeName)
      || (n == EvaluatorNodeName && m == SupervisorName)
      || (n == StartNode && m == SupervisorName)
      || (n == SupervisorName && m in WorkerNodes)
  {
  }

  /** The supervisor is the only node without a declared successor, so it is the only node at
      which a run can end: when its turn issues no handoff. */
  lemma OnlySupervisorStops(n: string)
    requires n in Nodes
    ensures StaticSuccessors(n) == {} <==> n == SupervisorName
    ensures n in WorkerNodes ==> StaticSuccessors(n) == {EvaluatorNodeName}
    ensures n == EvaluatorNodeName ==> StaticSuccessors(n) == {SupervisorName}
  {
    if n in WorkerNodes {
      assert (n, EvaluatorNodeName) in Edges;
    } else if n == EvaluatorNodeName {
      assert (EvaluatorNodeName, SupervisorName) in Edges;
    }
  }

  /** A run is a sequence of rounds: after the entry the supervisor, a worker and the evaluator
      take turns in that order, so the node at position `k` is fixed by `k % 3`. */
  lemma {:induction false} RunRounds(p: seq<string>)
    requires Run(p)
    ensures forall k :: 1 <= k < |p| ==>
      && (k % 3 == 1 <==> p[k] == SupervisorName)
      && (k % 3 == 2 <==> p[k] in WorkerNodes)
      && (k % 3 == 0 <==> p[k] == EvaluatorNodeName)
    decreases |p|
  {
    if |p| > 1 {
      var q := p[..|p| - 1];
      assert Run(q) by {
        forall i | 0 <= i < |q| - 1 ensures Step(q[i], q[i + 1]) {
          assert q[i] == p[i] && q[i + 1] == p[i + 1];
        }
      }
      RunRounds(q);
      var k := |p| - 1;
      StepIff(p[k - 1], p[k]);
      if k > 1 {
        assert q[k - 1] == p[k - 1];
      }
      forall j | 1 <= j < k
        ensures && (j % 3 == 1 <==> p[j] == SupervisorName)
                && (j % 3 == 2 <==> p[j] in WorkerNodes)
                && (j % 3 == 0 <==> p[j] == EvaluatorNodeName)
      {
        assert p[j] == q[j];
      }
    }
  }

  /** Every path from a worker to the supervisor passes through the evaluator: the step after a
      worker is the evaluator, and a supervisor turn after the first comes right after an
      evaluator turn that follows a worker. */
  lemma EvaluatorBetween(p: seq<string>, i: nat, j: nat)
    requires Run(p) && i < j < |p|
    requires p[i] in WorkerNodes && p[j] == SupervisorName
    ensures p[i + 1] == EvaluatorNodeName && i + 1 < j
    ensures p[j - 1] == EvaluatorNodeName && p[j - 2] in WorkerNodes
  {
    RunRounds(p);
    assert i >= 1 by {
      assert p[0] == StartNode;
    }
  }

  /** A run that has stopped ended on a supervisor turn, and every worker turn in it was
      followed by the evaluator. */
  lemma {:induction false} StoppedRun(p: seq<string>)
    requires Run(p) && |p| >= 2 && StaticSuccessors(p[|p| - 1]) == {}
    ensures p[|p| - 1] == SupervisorName && |p| % 3 == 2
    ensures forall k :: 0 <= k < |p| && p[k] in WorkerNodes ==> k + 1 < |p| && p[k + 1] == EvaluatorNodeName
  {
    RunRounds(p);
    var n := p[|p| - 1];
    assert n in Nodes;
    OnlySupervisorStops(n);
    forall k | 0 <= k < |p| && p[k] in WorkerNodes
      ensures k + 1 < |p| && p[k + 1] == EvaluatorNodeName
    {
      assert k != 0;
    }
  }

  // ---------------------------------------------------------------------
  // One round, through the states

  /** A supervisor handoff starts the worker from nothing but the task, as the instruction it
      appends to no history; the parent records the worker as `current_agent`; and when the
      worker's one forwarded message has come back, the evaluator finds the agent's checklist,
      so it fails only for a missing plan entry or an empty answer of its own agent. */
  lemma HandoffRound(i: nat, task: string, state: AgentState, toolCallId: string, id: string, workerId: string,
                     forwarded: Message, doc: Option<PlanDoc>, checklistText: string -> string,
                     invoke: seq<Message> -> seq<Message>, ids: seq<string>)
    requires i < |TransferTools|
    requires doc.Some? ==> doc.value.Valid()
    requires |ids| == 3
    ensures var t := TransferTools[i];
      var cmd := Invoke(t, task, state, toolCallId, id).value;
      && Invoke(t, task, state, toolCallId, id).Ok?
      && cmd.goto.SendTo? && cmd.goto.node == t.agentName && cmd.goto.node in WorkerNodes
      && var start := SendState(cmd.goto.payload);
      && start.instructions == Some(task)
      && Workers.AgentInput(start, workerId) == [HumanMessage(workerId, task, SupervisorName)]
      && var after := ApplyUpdate(ApplyUpdate(state, cmd.update), MessagesOnly([forwarded]));
      && after.currentAgent == Some(t.agentName)
      && (EvaluatorNode(after, doc, checklistText, invoke, ids).Err? <==>
          || doc.None? || PlanKey(t.agentName) !in doc.value.agents.vals
          || invoke(EvaluatorInput(t.agentName, checklistText(t.agentName),
                                   doc.value.agents.vals[PlanKey(t.agentName)].summary, ids)) == [])
  {
    DestinationsAreWorkers();
    var t := TransferTools[i];
    assert t.kind.Directed?;
    assert t.agentName in ChecklistAgents;
    EvaluatorFails(ApplyUpdate(ApplyUpdate(state, Invoke(t, task, state, toolCallId, id).value.update),
                               MessagesOnly([forwarded])), doc, checklistText, invoke, ids);
  }
}
