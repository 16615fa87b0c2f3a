/** The plan blackboard of `tools/file_tools.py`: a per-run document (plan.json) mapping each
    agent name to its task and summary, plus the reserved "simulation_details" entry.
    The file is modelled as a field holding the parsed document, or nothing while no plan exists. */
module Plan {
  import opened Wrappers
  import opened PyStr
  import opened OrderedMaps

  /** The reserved key that holds the overall simulation details. */
  const DetailsKey := "simulation_details"
  const NoPlanText := "No plan found."
  const NoDetailsText := "No details provided"
  /** What separates two agent blocks in `read_plan`'s output: a blank line. */
  const BlockSep := "\n\n"

  datatype Entry = Entry(task: string, summary: string)

  /** The content of plan.json: the agent entries in insertion order and the details text.
      The details live under `DetailsKey`, so no agent entry can have that name. */
  datatype PlanDoc = PlanDoc(agents: OrderedMap<Entry>, details: Option<string>) {
    ghost predicate Valid() {
      agents.Valid() && DetailsKey !in agents.vals
    }
  }


  /** The dict comprehension over `zip(agent_list, task_list)`: pairs beyond the shorter list
      are dropped, and a repeated agent keeps its first place and takes its last task. */
  function Comprehension(agentList: seq<string>, taskList: seq<string>): (r: OrderedMap<Entry>)
    ensures r.Valid()
  {
    Zipped(agentList, taskList, Min(|agentList|, |taskList|))
  }

  /** The comprehension over the first `n` pairs. */
  function Zipped(agentList: seq<string>, taskList: seq<string>, n: nat): (r: OrderedMap<Entry>)
    requires n <= |agentList| && n <= |taskList|
    ensures r.Valid()
  {
    if n == 0 then Empty()
    else Put(Zipped(agentList, taskList, n - 1), agentList[n - 1], Entry(taskList[n - 1], ""))
  }

  /** The document `make_plan` writes: the comprehension, then the details stored under
      `DetailsKey` (which replaces an agent of that name). */
  function NewPlan(details: string, agentList: seq<string>, taskList: seq<string>): (r: PlanDoc)
    ensures r.Valid() && r.details == Some(details)
  {
    PlanDoc(Remove(Comprehension(agentList, taskList), DetailsKey), Some(details))
  }

  /** One agent's block in `read_plan`'s output. */
  function Block(name: string, e: Entry): string {
    name + ":\n Task description: " + e.task + " \n Summary: " + e.summary
  }

  /** The agent blocks of `read_plan`, one per agent, in insertion order. */
  function Blocks(d: OrderedMap<Entry>): (r: seq<string>)
    requires d.Valid()
    ensures |r| == |d.keys|
  {
    seq(|d.keys|, i requires 0 <= i < |d.keys| => Block(d.keys[i], d.vals[d.keys[i]]))
  }

  /** The line `read_plan` opens with, followed by a blank line. */
  function DetailsLine(p: PlanDoc): string {
    "Simulation Details: " + p.details.GetOr(NoDetailsText) + "\n\n"
  }

  /** The text `read_plan` returns for the current file content. */
  function Render(doc: Option<PlanDoc>): string
    requires doc.Some? ==> doc.value.Valid()
  {
    match doc
    case None => NoPlanText
    case Some(p) => DetailsLine(p) + Join(BlockSep, Blocks(p.agents))
  }

  /** The exception `write_summary` and `edit_plan` raise for a name that is no agent entry. */
  function MissingAgent(doc: PlanDoc, agent: string): PyError
    requires agent !in doc.agents.vals
  {
    if agent == DetailsKey && doc.details.Some? then TypeError  // a str does not support item assignment
    else ValueError("Agent " + agent + " not found in the plan.")
  }

  /** The document after `write_summary(agent, summary)`, or the error it raises. */
  function SummaryWritten(doc: Option<PlanDoc>, agent: string, summary: string): (r: Result<PlanDoc>)
    requires doc.Some? ==> doc.value.Valid()
    ensures doc.None? ==> r == Err(FileNotFoundError)
    ensures doc.Some? && agent !in doc.value.agents.vals ==> r == Err(MissingAgent(doc.value, agent))
    ensures r.Ok? <==> doc.Some? && agent in doc.value.agents.vals
    ensures r.Ok? ==> var old_ := doc.value.agents; var new_ := r.value.agents;
      && r.value.Valid() && r.value.details == doc.value.details && new_.keys == old_.keys
      && new_.vals.Keys == old_.vals.Keys
      && new_.vals[agent] == Entry(old_.vals[agent].task, summary)
      && (forall b :: b in old_.vals && b != agent ==> new_.vals[b] == old_.vals[b])
  {
    if doc.None? then Err(FileNotFoundError)
    else if agent !in doc.value.agents.vals then Err(MissingAgent(doc.value, agent))
    else
      var p := doc.value;
      var e := p.agents.vals[agent];
      Ok(p.(agents := Put(p.agents, agent, e.(summary := summary))))
  }

  /** The document after `edit_plan(agent, new_task)`, or the error it raises: the task is
      replaced and the summary reset, whatever it was. */
  function TaskEdited(doc: Option<PlanDoc>, agent: string, newTask: string): (r: Result<PlanDoc>)
    requires doc.Some? ==> doc.value.Valid()
    ensures doc.None? ==> r == Err(FileNotFoundError)
    ensures doc.Some? && agent !in doc.value.agents.vals ==> r == Err(MissingAgent(doc.value, agent))
    ensures r.Ok? <==> doc.Some? && agent in doc.value.agents.vals
    ensures r.Ok? ==> var old_ := doc.value.agents; var new_ := r.value.agents;
      && r.value.Valid() && r.value.details == doc.value.details && new_.keys == old_.keys
      && new_.vals.Keys == old_.vals.Keys
      && new_.vals[agent] == Entry(newTask, "")
      && (forall b :: b in old_.vals && b != agent ==> new_.vals[b] == old_.vals[b])
  {
    if doc.None? then Err(FileNotFoundError)
    else if agent !in doc.value.agents.vals then Err(MissingAgent(doc.value, agent))
    else
      var p := doc.value;
      Ok(p.(agents := Put(p.agents, agent, Entry(newTask, ""))))
  }

  /** The document after `edit_simulation_details(new_details)`: only the details change. */
  function DetailsEdited(doc: Option<PlanDoc>, newDetails: string): (r: Result<PlanDoc>)
    requires doc.Some? ==> doc.value.Valid()
    ensures r.Ok? <==> doc.Some?
    ensures r.Ok? ==> r.value.Valid() && r.value.agents == doc.value.agents && r.value.details == Some(newDetails)
    ensures r.Err? ==> r.error == FileNotFoundError
  {
    if doc.None? then Err(FileNotFoundError) else Ok(doc.value.(details := Some(newDetails)))
  }

  /** plan.json, as the tools of `tools/file_tools.py` read and rewrite it. */
  class PlanFile {
    var doc: Option<PlanDoc>

    ghost predicate Valid()
      reads this
    {
      doc.Some? ==> doc.value.Valid()
    }

    /** A run directory without a plan. */
    constructor ()
      ensures Valid() && doc == None
    {
      doc := None;
    }

    /** `make_plan`: overwrite the whole document. Lists of unequal length are truncated. */
    method MakePlan(simulationDetails: string, agentList: seq<string>, taskList: seq<string>)
      returns (msg: string)
      modifies this
      ensures Valid()
      ensures doc == Some(NewPlan(simulationDetails, agentList, taskList))
      ensures msg == "Plan created."
    {
      var plan := Comprehension(agentList, taskList);
      doc := Some(PlanDoc(Remove(plan, DetailsKey), Some(simulationDetails)));
      msg := "Plan created.";
    }

    /** `read_plan` */
    method ReadPlan() returns (text: string)
      requires Valid()
      ensures doc.None? ==> text == "No plan found."
      ensures text == Render(doc)
    {
      if doc.None? {
        return NoPlanText;
      }
      var plan := doc.value;
      var agentStrings := Blocks(plan.agents);
      text := "Simulation Details: " + plan.details.GetOr(NoDetailsText) + "\n\n";
      text := text + Join("\n\n", agentStrings);
    }

    /** `write_summary`: on a missing file or an unknown agent the document is left as it was. */
    method WriteSummary(agentName: string, taskSummary: string) returns (r: Result<string>)
      requires Valid()
      modifies this
      ensures Valid()
      ensures SummaryWritten(old(doc), agentName, taskSummary).Ok? ==>
                doc == Some(SummaryWritten(old(doc), agentName, taskSummary).value) && r == Ok("Summary updated.")
      ensures SummaryWritten(old(doc), agentName, taskSummary).Err? ==>
                doc == old(doc) && r == Err(SummaryWritten(old(doc), agentName, taskSummary).error)
    {
      if doc.None? {
        return Err(FileNotFoundError);
      }
      var plan := doc.value;
      if agentName in plan.agents.vals {
        var e := plan.agents.vals[agentName];
        plan := plan.(agents := Put(plan.agents, agentName, e.(summary := taskSummary)));
      } else {
        return Err(MissingAgent(plan, agentName));
      }
      doc := Some(plan);
      r := Ok("Summary updated.");
    }

    /** `edit_plan`: on a missing file or an unknown agent the document is left as it was. */
    method EditPlan(agentName: string, newTask: string) returns (r: Result<string>)
      requires Valid()
      modifies this
      ensures Valid()
      ensures TaskEdited(old(doc), agentName, newTask).Ok? ==>
                doc == Some(TaskEdited(old(doc), agentName, newTask).value)
                && r == Ok("Task for " + agentName + " updated.")
      ensures TaskEdited(old(doc), agentName, newTask).Err? ==>
                doc == old(doc) && r == Err(TaskEdited(old(doc), agentName, newTask).error)
    {
      if doc.None? {
        return Err(FileNotFoundError);
      }
      var plan := doc.value;
      if agentName in plan.agents.vals {
        var e := plan.agents.vals[agentName];
        e := e.(task := newTask);
        e := e.(summary := "");
        plan := plan.(agents := Put(plan.agents, agentName, e));
      } else {
        return Err(MissingAgent(plan, agentName));
      }
      doc := Some(plan);
      r := Ok("Task for " + agentName + " updated.");
    }

    /** `edit_simulation_details` */
    method EditSimulationDetails(newDetails: string) returns (r: Result<string>)
      requires Valid()
      modifies this
      ensures Valid()
      ensures DetailsEdited(old(doc), newDetails).Ok? ==>
                doc == Some(DetailsEdited(old(doc), newDetails).value) && r == Ok("Simulation details updated.")
      ensures DetailsEdited(old(doc), newDetails).Err? ==> doc == old(doc) && r == Err(FileNotFoundError)
    {
      if doc.None? {
        return Err(FileNotFoundError);
      }
      doc := Some(doc.value.(details := Some(newDetails)));
      r := Ok("Simulation details updated.");
    }
  }

  // ---------------------------------------------------------------------
  // Properties of the specification functions

  /** The agents `make_plan` stores are exactly the names among the first
      min(|agent_list|, |task_list|) that are not the reserved key; every summary is empty. */
  lemma {:induction false} MakePlanAgents(details: string, agentList: seq<string>, taskList: seq<string>, a: string)
    ensures var d := NewPlan(details, agentList, taskList).agents;
      && (a in d.vals <==> a != DetailsKey && exists i :: 0 <= i < Min(|agentList|, |taskList|) && agentList[i] == a)
      && (a in d.vals ==> d.vals[a].summary == "")
  {
    ComprehensionAgents(agentList, taskList, a);
  }

  lemma ComprehensionAgents(agentList: seq<string>, taskList: seq<string>, a: string)
    ensures var c := Comprehension(agentList, taskList);
      && (a in c.vals <==> exists i :: 0 <= i < Min(|agentList|, |taskList|) && agentList[i] == a)
      && (a in c.vals ==> c.vals[a].summary == "")
  {
    ZippedAgents(agentList, taskList, Min(|agentList|, |taskList|), a);
  }

  lemma {:induction false} ZippedAgents(agentList: seq<string>, taskList: seq<string>, n: nat, a: string)
    requires n <= |agentList| && n <= |taskList|
    ensures var c := Zipped(agentList, taskList, n);
      && (a in c.vals <==> a in agentList[..n])
      && (a in c.vals ==> c.vals[a].summary == "")
  {
    if n > 0 {
      ZippedAgents(agentList, taskList, n - 1, a);
      assert agentList[..n] == agentList[..n - 1] + [agentList[n - 1]];
    }
  }

  /** A listed agent gets the task paired with its LAST occurrence within the zipped prefix. */
  lemma {:induction false} MakePlanTask(details: string, agentList: seq<string>, taskList: seq<string>, j: nat)
    requires j < Min(|agentList|, |taskList|)
    requires agentList[j] != DetailsKey
    requires forall k :: j < k < Min(|agentList|, |taskList|) ==> agentList[k] != agentList[j]
    ensures var d := NewPlan(details, agentList, taskList).agents;
      agentList[j] in d.vals && d.vals[agentList[j]] == Entry(taskList[j], "")
  {
    ComprehensionTask(agentList, taskList, j);
  }

  lemma ComprehensionTask(agentList: seq<string>, taskList: seq<string>, j: nat)
    requires j < Min(|agentList|, |taskList|)
    requires forall k :: j < k < Min(|agentList|, |taskList|) ==> agentList[k] != agentList[j]
    ensures var c := Comprehension(agentList, taskList);
      agentList[j] in c.vals && c.vals[agentList[j]] == Entry(taskList[j], "")
  {
    ZippedTask(agentList, taskList, Min(|agentList|, |taskList|), j);
  }

  lemma {:induction false} ZippedTask(agentList: seq<string>, taskList: seq<string>, n: nat, j: nat)
    requires n <= |agentList| && n <= |taskList| && j < n
    requires forall k :: j < k < n ==> agentList[k] != agentList[j]
    ensures var c := Zipped(agentList, taskList, n);
      agentList[j] in c.vals && c.vals[agentList[j]] == Entry(taskList[j], "")
  {
    if j < n - 1 {
      ZippedTask(agentList, taskList, n - 1, j);
    }
  }

  /** With distinct names and no reserved name among them, the plan lists the agents in the
      order given (cut to the shorter list). */
  lemma {:induction false} MakePlanOrder(details: string, agentList: seq<string>, taskList: seq<string>)
    requires forall i, j :: 0 <= i < j < Min(|agentList|, |taskList|) ==> agentList[i] != agentList[j]
    requires forall i :: 0 <= i < Min(|agentList|, |taskList|) ==> agentList[i] != DetailsKey
    ensures NewPlan(details, agentList, taskList).agents.keys == agentList[..Min(|agentList|, |taskList|)]
  {
    ComprehensionOrder(agentList, taskList);
    var c := Comprehension(agentList, taskList);
    assert DetailsKey !in c.keys;
  }

  lemma ComprehensionOrder(agentList: seq<string>, taskList: seq<string>)
    requires forall i, j :: 0 <= i < j < Min(|agentList|, |taskList|) ==> agentList[i] != agentList[j]
    ensures Comprehension(agentList, taskList).keys == agentList[..Min(|agentList|, |taskList|)]
  {
    ZippedOrder(agentList, taskList, Min(|agentList|, |taskList|));
  }

  lemma {:induction false} ZippedOrder(agentList: seq<string>, taskList: seq<string>, n: nat)
    requires n <= |agentList| && n <= |taskList|
    requires forall i, j :: 0 <= i < j < n ==> agentList[i] != agentList[j]
    ensures Zipped(agentList, taskList, n).keys == agentList[..n]
  {
    if n > 0 {
      ZippedOrder(agentList, taskList, n - 1);
      var c' := Zipped(agentList, taskList, n - 1);
      var a := agentList[n - 1];
      assert a !in c'.keys by {
        forall i | 0 <= i < n - 1 ensures c'.keys[i] != a {
          assert c'.keys[i] == agentList[i];
        }
      }
      assert agentList[..n] == agentList[..n - 1] + [a];
    }
  }

  /** Where agent `i`'s block starts in `read_plan`'s output. */
  function BlockStart(p: PlanDoc, i: nat): nat
    requires p.Valid() && i <= |p.agents.keys|
  {
    |DetailsLine(p)| + JoinOffset(BlockSep, Blocks(p.agents), i)
  }

  /** `read_plan` opens with the details line, which shows the default text when no details
      are stored. */
  lemma RenderOpens(p: PlanDoc)
    requires p.Valid()
    ensures StartsWith(Render(Some(p)), "Simulation Details: " + p.details.GetOr(NoDetailsText) + "\n\n")
  {
    var h := DetailsLine(p);
    assert (h + Join(BlockSep, Blocks(p.agents)))[..|h|] == h;
  }

  /** After the details line, the block of the `i`-th agent in insertion order sits at its own
      place; the blocks of later agents start after it and a blank line, and the last agent's
      block ends the text. No block belongs to the reserved details key. */
  lemma RenderShape(p: PlanDoc, i: nat)
    requires p.Valid() && i < |p.agents.keys|
    ensures var text, a := Render(Some(p)), p.agents.keys[i];
      var b, o := Block(a, p.agents.vals[a]), BlockStart(p, i);
      && a != DetailsKey
      && |DetailsLine(p)| <= o && o + |b| <= |text| && text[o..o + |b|] == b
      && (i + 1 < |p.agents.keys| ==> o + |b| + 2 <= |text| && text[o + |b|..o + |b| + 2] == BlockSep)
      && (forall j :: i < j < |p.agents.keys| ==> o + |b| + 2 <= BlockStart(p, j))
      && (i + 1 == |p.agents.keys| ==> o + |b| == |text|)
  {
    assert p.agents.keys[i] in p.agents.vals;
    JoinAfter(DetailsLine(p), BlockSep, Blocks(p.agents), i);
  }

  /** After a successful `edit_plan(agent, t)`, `read_plan` shows `t` and an empty summary in that
      agent's block, and every other block is as before. */
  lemma {:induction false} EditThenRead(doc: Option<PlanDoc>, agent: string, t: string, i: nat)
    requires doc.Some? && doc.value.Valid()
    requires i < |doc.value.agents.keys| && doc.value.agents.keys[i] == agent
    ensures TaskEdited(doc, agent, t).Ok?
    ensures var p' := TaskEdited(doc, agent, t).value;
      && |Blocks(p'.agents)| == |Blocks(doc.value.agents)|
      && Blocks(p'.agents)[i] == agent + ":\n Task description: " + t + " \n Summary: "
      && (forall j :: 0 <= j < |Blocks(p'.agents)| && j != i ==> Blocks(p'.agents)[j] == Blocks(doc.value.agents)[j])
  {
    var p := doc.value;
    assert agent in p.agents.keys;
    var p' := TaskEdited(doc, agent, t).value;
    assert "" == [];
    forall j | 0 <= j < |p.agents.keys| && j != i
      ensures Blocks(p'.agents)[j] == Blocks(p.agents)[j]
    {
      assert p.agents.keys[j] != agent;
    }
  }

  /** Writing a summary never changes what `read_plan` shows for another agent, nor any task. */
  lemma {:induction false} SummaryThenRead(doc: Option<PlanDoc>, agent: string, s: string, i: nat)
    requires doc.Some? && doc.value.Valid()
    requires i < |doc.value.agents.keys| && doc.value.agents.keys[i] == agent
    ensures SummaryWritten(doc, agent, s).Ok?
    ensures var p' := SummaryWritten(doc, agent, s).value;
      && |Blocks(p'.agents)| == |Blocks(doc.value.agents)|
      && Blocks(p'.agents)[i] == Block(agent, Entry(doc.value.agents.vals[agent].task, s))
      && (forall j :: 0 <= j < |Blocks(p'.agents)| && j != i ==> Blocks(p'.agents)[j] == Blocks(doc.value.agents)[j])
  {
    var p := doc.value;
    assert agent in p.agents.keys;
    var p' := SummaryWritten(doc, agent, s).value;
    forall j | 0 <= j < |p.agents.keys| && j != i
      ensures Blocks(p'.agents)[j] == Blocks(p.agents)[j]
    {
      assert p.agents.keys[j] != agent;
    }
  }
}
