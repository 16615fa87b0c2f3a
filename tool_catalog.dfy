/** Which tools each agent is built with: the allow-lists of the simulation team (supervisor,
    four workers, evaluator) and of the research team, and the handoff tools among them. A
    tool is known to its agent by name, so an allow-list is the sequence of names in the order
    the agent's constructor lists them. */
module ToolCatalog {
  import opened Wrappers
  import opened Handoff
  import opened Plan

  // ---------------------------------------------------------------------
  // The simulation team

  const StructureNode := "structure_agent_node"
  const ForceFieldNode := "force_field_agent_node"
  const SimulationInputNode := "simulation_input_agent_node"
  const CodeGeneratorNode := "code_generator_node"

  const StructureText := "Transfer to the Structure Agent to handle placement of the framework (.cif) file."
  const ForceFieldText :=
    "Transfer to the Force Field Agent to handle, cations (optional), adsorbates, force field and pseudo atoms definitions."
  const SimulationInputText := "Transfer to the Simulation Input Agent to create simulation input template."
  const CodeGeneratorText :=
    "Transfer to the Code Generator to handle code generation and adaptation.\n"
    + "Provide clear instructions for what the code should copy or modify, including the target folder and any specific parameters.\n"

  /** The four transfer tools of agents/simulation_team/simulation_team.py, in the order of
      `transfer_tools`. */
  const TransferTools: seq<HandoffTool> := [
    CreateHandoffTool(StructureNode, SupervisorName, Some(StructureText)),
    CreateHandoffTool(ForceFieldNode, SupervisorName, Some(ForceFieldText)),
    CreateHandoffTool(SimulationInputNode, SupervisorName, Some(SimulationInputText)),
    CreateHandoffTool(CodeGeneratorNode, SupervisorName, Some(CodeGeneratorText))
  ]

  /** The tools the agents are built from. A handoff tool is known by the node it transfers to. */
  datatype Tool =
    | ListExampleRuns | ListDirectory | ReadFile | ReadAtomsInFile | DeleteFile | WriteFile
    | CreateFolder | DeleteFolder | GetAllForceFieldDescriptions | CopyFile
    | ListExampleSimulationInputs | CountAtomTypeInCif | MakePlanTool | GetHeliumVoidFraction
    | ReadPlanTool | WriteSummaryTool | GetUnitCellSize | EditPlanTool | EditSimulationDetailsTool
    | GetAtomsInFfFile | SemanticScholarSearch | DownloadPaperTool | ReadPaperNames
    | ReadPaperHeaders | ReadPaperSection | ReadWholePaper | ReadFinding | WriteFinding
    | Transfer(target: string)

  /** The name the model calls a tool by. */
  function ToolName(t: Tool): string {
    match t
    case ListExampleRuns => "list_example_runs"
    case ListDirectory => "list_directory"
    case ReadFile => "read_file"
    case ReadAtomsInFile => "read_atoms_in_file"
    case DeleteFile => "delete_file"
    case WriteFile => "write_file"
    case CreateFolder => "create_folder"
    case DeleteFolder => "delete_folder"
    case GetAllForceFieldDescriptions => "get_all_force_field_descriptions"
    case CopyFile => "copy_file"
    case ListExampleSimulationInputs => "list_example_simulation_inputs"
    case CountAtomTypeInCif => "count_atom_type_in_cif"
    case MakePlanTool => "make_plan"
    case GetHeliumVoidFraction => "get_helium_void_fraction"
    case ReadPlanTool => "read_plan"
    case WriteSummaryTool => "write_summary"
    case GetUnitCellSize => "get_unit_cell_size"
    case EditPlanTool => "edit_plan"
    case EditSimulationDetailsTool => "edit_simulation_details"
    case GetAtomsInFfFile => "get_atoms_in_ff_file"
    case SemanticScholarSearch => "semantic_scholar_search"
    case DownloadPaperTool => "download_paper_tool"
    case ReadPaperNames => "read_paper_names"
    case ReadPaperHeaders => "read_paper_headers"
    case ReadPaperSection => "read_paper_section"
    case ReadWholePaper => "read_whole_paper"
    case ReadFinding => "read_finding"
    case WriteFinding => "write_finding"
    case Transfer(target) => TransferName(target)
  }

  /** The tools a list of handoff tools contributes to an allow-list, in order. */
  function Transfers(ts: seq<HandoffTool>): (r: seq<Tool>)
    ensures |r| == |ts| && forall i :: 0 <= i < |ts| ==> r[i] == Transfer(ts[i].agentName)
    ensures forall t :: t in r ==> t.Transfer?
  {
    seq(|ts|, i requires 0 <= i < |ts| => Transfer(ts[i].agentName))
  }

  datatype SimAgent = Supervisor | StructureAgent | ForceFieldAgent | SimulationInputAgent | CodeGenerator | EvaluatorAgent

  /** The allow-list each agent is created with. The supervisor's ends with the transfer tools
      it is given. */
  function Tools(a: SimAgent): seq<Tool> {
    match a
    case Supervisor =>
      [GetAllForceFieldDescriptions, ListDirectory, ReadPlanTool, MakePlanTool,
       EditSimulationDetailsTool, EditPlanTool, CreateFolder] + Transfers(TransferTools)
    case StructureAgent =>
      [CopyFile, ReadFile, WriteFile, ListExampleRuns, ListDirectory, ReadPlanTool, WriteSummaryTool, DeleteFile]
    case ForceFieldAgent =>
      [CopyFile, ReadFile, WriteFile, GetAllForceFieldDescriptions, ListDirectory, ReadAtomsInFile,
       ReadPlanTool, WriteSummaryTool, GetAtomsInFfFile, DeleteFile]
    case SimulationInputAgent =>
      [ReadFile, WriteFile, ListDirectory, CountAtomTypeInCif, GetUnitCellSize,
       ListExampleSimulationInputs, CopyFile, ReadPlanTool, WriteSummaryTool]
    case CodeGenerator =>
      [ListDirectory, ReadFile, ReadPlanTool, WriteSummaryTool, GetHeliumVoidFraction, CountAtomTypeInCif,
       GetUnitCellSize]
    case EvaluatorAgent =>
      [ListDirectory, ReadFile, ReadAtomsInFile, CountAtomTypeInCif, ReadPlanTool, GetUnitCellSize,
       ListExampleSimulationInputs, GetAtomsInFfFile]
  }

  /** The tools that change a file, the plan or the findings log. (A handoff changes the graph
      state, not a file.) */
  predicate Mutating(t: Tool) {
    t in {WriteFile, DeleteFile, CopyFile, CreateFolder, DeleteFolder, MakePlanTool, WriteSummaryTool,
          EditPlanTool, EditSimulationDetailsTool, WriteFinding, DownloadPaperTool}
  }

  // ---------------------------------------------------------------------
  // Calls of the plan tools

  /** A call of one of the plan tools with its arguments. */
  datatype PlanCall =
    | MakePlanCall(details: string, agentList: seq<string>, taskList: seq<string>)
    | ReadPlanCall
    | WriteSummaryCall(agent: string, summary: string)
    | EditPlanCall(agent: string, task: string)
    | EditDetailsCall(newDetails: string)

  /** The tool a call is made with. */
  function CallTool(c: PlanCall): Tool {
    match c
    case MakePlanCall(_, _, _) => MakePlanTool
    case ReadPlanCall => ReadPlanTool
    case WriteSummaryCall(_, _) => WriteSummaryTool
    case EditPlanCall(_, _) => EditPlanTool
    case EditDetailsCall(_) => EditSimulationDetailsTool
  }

  /** plan.json after the call, or the error the call raises. */
  function AfterCall(doc: Option<PlanDoc>, c: PlanCall): (r: Result<Option<PlanDoc>>)
    requires doc.Some? ==> doc.value.Valid()
    ensures r.Ok? && r.value.Some? ==> r.value.value.Valid()
  {
    match c
    case MakePlanCall(d, al, tl) => Ok(Some(NewPlan(d, al, tl)))
    case ReadPlanCall => Ok(doc)
    case WriteSummaryCall(a, s) =>
      var r := SummaryWritten(doc, a, s);
      if r.Err? then Err(r.error) else Ok(Some(r.value))
    case EditPlanCall(a, t) =>
      var r := TaskEdited(doc, a, t);
      if r.Err? then Err(r.error) else Ok(Some(r.value))
    case EditDetailsCall(d) =>
      var r := DetailsEdited(doc, d);
      if r.Err? then Err(r.error) else Ok(Some(r.value))
  }

  /** Two plans have the same agents, in the same order, with the same tasks and details. */
  predicate SameTasks(d: PlanDoc, e: PlanDoc) {
    && d.agents.keys == e.agents.keys && d.agents.vals.Keys == e.agents.vals.Keys && d.details == e.details
    && forall a :: a in d.agents.vals ==> d.agents.vals[a].task == e.agents.vals[a].task
  }

  // ---------------------------------------------------------------------
  // Lemmas

  /** The supervisor's last four tools are the transfer tools, one per worker node, each with
      sender "supervisor" and the name `transfer_to_<node>`. */
  lemma SupervisorTransfers()
    ensures var ts := Tools(Supervisor);
      ts[7..] == [Transfer(StructureNode), Transfer(ForceFieldNode), Transfer(SimulationInputNode), Transfer(CodeGeneratorNode)]
    ensures forall i :: 0 <= i < |TransferTools| ==> TransferTools[i].kind == Directed(SupervisorName)
    ensures forall i :: 0 <= i < |TransferTools| ==> TransferTools[i].name == ToolName(Transfer(TransferTools[i].agentName))
  {
  }

  /** Only the supervisor's allow-list holds the plan-editing tools, and it holds no
      `write_summary`; every allow-list holds `read_plan`. The general file tools reach
      plan.json too; they are not plan tools. */
  lemma OnlySupervisorEditsTasks(a: SimAgent)
    ensures MakePlanTool in Tools(a) <==> a == Supervisor
    ensures EditPlanTool in Tools(a) <==> a == Supervisor
    ensures EditSimulationDetailsTool in Tools(a) <==> a == Supervisor
    ensures ReadPlanTool in Tools(a)
    ensures WriteSummaryTool in Tools(a) <==> a != Supervisor && a != EvaluatorAgent
  {
  }

  /** Only the supervisor holds transfer tools, and its are exactly the last four. */
  lemma OnlySupervisorTransfers(a: SimAgent, i: nat)
    requires i < |Tools(a)|
    ensures Tools(a)[i].Transfer? <==> a == Supervisor && i >= 7
  {
  }

  /** The evaluator only reads: none of its tools changes anything. */
  lemma EvaluatorReadOnly(t: Tool)
    requires t in Tools(EvaluatorAgent)
    ensures !Mutating(t) && !t.Transfer?
  {
  }

  /** The file tools in each worker's allow-list. Code the code generator runs through `eval`
      is not limited by any list. */
  lemma WorkerFileAccess()
    ensures DeleteFile in Tools(StructureAgent) && DeleteFile in Tools(ForceFieldAgent)
    ensures ReadAtomsInFile in Tools(ForceFieldAgent) && GetAtomsInFfFile in Tools(ForceFieldAgent)
    ensures WriteFile in Tools(SimulationInputAgent) && DeleteFile !in Tools(SimulationInputAgent)
    ensures WriteFile !in Tools(CodeGenerator) && CopyFile !in Tools(CodeGenerator)
  {
  }

  /** Whatever plan tool the allow-list of an agent other than the supervisor holds, calling it
      leaves the agents, their order, their tasks and the details as they were; the evaluator's
      only plan tool changes nothing at all. */
  lemma WorkersKeepTasks(a: SimAgent, doc: Option<PlanDoc>, c: PlanCall)
    requires doc.Some? ==> doc.value.Valid()
    requires a != Supervisor && CallTool(c) in Tools(a)
    ensures AfterCall(doc, c).Ok? ==> AfterCall(doc, c).value.Some? == doc.Some?
    ensures AfterCall(doc, c).Ok? && doc.Some? ==> SameTasks(doc.value, AfterCall(doc, c).value.value)
    ensures a == EvaluatorAgent ==> AfterCall(doc, c) == Ok(doc)
  {
    assert c.ReadPlanCall? || c.WriteSummaryCall?;
  }

  // ---------------------------------------------------------------------
  // The research team

  const PaperNode := "paper_agent"
  const ExtractionNode := "extraction_agent"
  const WriterNode := "force_field_agent"

  const PaperToExtractionText :=
    "Transfer to the paper extraction agent. Only specify to which directory the paper was downloaded. Do not give instructions."
  const ExtractionToPaperText := "Transfer to the paper retrieval agent. Specify which paper you need."
  const ExtractionToWriterText :=
    "Transfer to the force field agent. Only specify to which path the force field findings were written. Do not give instructions."
  const WriterToExtractionText := "Transfer to the paper extraction agent."

  datatype ResearchAgent = PaperAgent | ExtractionAgent | WriterAgent

  function ResearchNodeName(a: ResearchAgent): string {
    match a
    case PaperAgent => PaperNode
    case ExtractionAgent => ExtractionNode
    case WriterAgent => WriterNode
  }

  /** The handoff tools each research agent is created with (agents/research_team/). The
      writer's tool claims "paper_agent" as its sender. */
  function Handoffs(a: ResearchAgent): seq<HandoffTool> {
    match a
    case PaperAgent => [
      CreateResearchHandoffTool(ExtractionNode, Some(PaperToExtractionText), Some("paper_agent"))]
    case ExtractionAgent => [
      CreateResearchHandoffTool(PaperNode, Some(ExtractionToPaperText), Some("extraction_agent")),
      CreateResearchHandoffTool(WriterNode, Some(ExtractionToWriterText), Some("extraction_agent"))]
    case WriterAgent => [
      CreateResearchHandoffTool(ExtractionNode, Some(WriterToExtractionText), Some("paper_agent"))]
  }

  function ResearchTools(a: ResearchAgent): seq<Tool> {
    match a
    case PaperAgent => [SemanticScholarSearch, DownloadPaperTool] + Transfers(Handoffs(a))
    case ExtractionAgent =>
      [ReadPaperNames, ReadPaperHeaders, ReadPaperSection, WriteFinding, ListDirectory, ReadWholePaper]
      + Transfers(Handoffs(a))
    case WriterAgent => [ReadFinding, WriteFile, ListDirectory, ReadFile] + Transfers(Handoffs(a))
  }

  /** The nodes a research agent can hand control to. */
  function HandoffTargets(a: ResearchAgent): set<string> {
    set t | t in Handoffs(a) :: t.agentName
  }

  /** Who hands off to whom: the paper agent and the writer only to the extraction agent, the
      extraction agent to the paper agent and the writer. */
  lemma ResearchHandoffTargets()
    ensures HandoffTargets(PaperAgent) == {ExtractionNode}
    ensures HandoffTargets(ExtractionAgent) == {PaperNode, WriterNode}
    ensures HandoffTargets(WriterAgent) == {ExtractionNode}
  {
    HandoffLists();
  }

  /** The research handoff tools, by target. */
  lemma HandoffLists()
    ensures |Handoffs(PaperAgent)| == 1 && Handoffs(PaperAgent)[0].agentName == ExtractionNode
    ensures |Handoffs(ExtractionAgent)| == 2
    ensures Handoffs(ExtractionAgent)[0].agentName == PaperNode && Handoffs(ExtractionAgent)[1].agentName == WriterNode
    ensures |Handoffs(WriterAgent)| == 1 && Handoffs(WriterAgent)[0].agentName == ExtractionNode
    ensures forall a, i :: 0 <= i < |Handoffs(a)| ==> Handoffs(a)[i].kind.Peer?
  {
  }

  /** No research agent hands off to itself, only the extraction agent reaches the writer, and
      the transfer tools in each allow-list are exactly its handoffs. */
  lemma ResearchHandoffRules(a: ResearchAgent)
    ensures ResearchNodeName(a) !in HandoffTargets(a)
    ensures WriterNode in HandoffTargets(a) <==> a == ExtractionAgent
    ensures forall t :: t in ResearchTools(a) && t.Transfer? ==> t.target in HandoffTargets(a)
  {
    ResearchHandoffTargets();
    ResearchToolLists();
  }

  /** The writer's only handoff is `transfer_to_extraction_agent`. */
  lemma WriterHandoffName()
    ensures forall t :: t in ResearchTools(WriterAgent) && t.Transfer? ==> t == Transfer(ExtractionNode)
    ensures ToolName(Transfer(ExtractionNode)) == "transfer_to_extraction_agent"
  {
    ResearchToolLists();
    TransferToExtractionName();
  }

  lemma TransferToExtractionName()
    ensures TransferName(ExtractionNode) == "transfer_to_extraction_agent"
  {
  }

  /** The tool the writer's prompt names, `transfer_to_extraction_agent2`, is held by no
      research agent. */
  lemma NoSecondExtractionHandoff(a: ResearchAgent)
    ensures Transfer("extraction_agent2") !in ResearchTools(a)
  {
    ResearchToolLists();
  }

  /** The research allow-lists written out. */
  lemma ResearchToolLists()
    ensures ResearchTools(PaperAgent) == [SemanticScholarSearch, DownloadPaperTool, Transfer(ExtractionNode)]
    ensures ResearchTools(ExtractionAgent) ==
      [ReadPaperNames, ReadPaperHeaders, ReadPaperSection, WriteFinding, ListDirectory, ReadWholePaper,
       Transfer(PaperNode), Transfer(WriterNode)]
    ensures ResearchTools(WriterAgent) == [ReadFinding, WriteFile, ListDirectory, ReadFile, Transfer(ExtractionNode)]
  {
    HandoffLists();
    assert Transfers(Handoffs(PaperAgent)) == [Transfer(ExtractionNode)];
    assert Transfers(Handoffs(ExtractionAgent)) == [Transfer(PaperNode), Transfer(WriterNode)];
    assert Transfers(Handoffs(WriterAgent)) == [Transfer(ExtractionNode)];
  }

  /** Only the extraction agent's allow-list holds `write_finding`; only the writer's holds
      `read_finding`, and it holds no findings tool that writes; only the writer's holds
      `write_file`. That `write_file` can still overwrite findings.txt. */
  lemma FindingsAccess(a: ResearchAgent)
    ensures WriteFinding in ResearchTools(a) <==> a == ExtractionAgent
    ensures ReadFinding in ResearchTools(a) <==> a == WriterAgent
    ensures WriteFile in ResearchTools(a) <==> a == WriterAgent
  {
    match a
    case PaperAgent =>
      assert ResearchTools(a) == [SemanticScholarSearch, DownloadPaperTool, Transfer(ExtractionNode)] by {
        ResearchToolLists();
      }
    case ExtractionAgent =>
      assert ResearchTools(a) ==
        [ReadPaperNames, ReadPaperHeaders, ReadPaperSection, WriteFinding, ListDirectory, ReadWholePaper,
         Transfer(PaperNode), Transfer(WriterNode)] by {
        ResearchToolLists();
      }
    case WriterAgent =>
      assert ResearchTools(a) == [ReadFinding, WriteFile, ListDirectory, ReadFile, Transfer(ExtractionNode)] by {
        ResearchToolLists();
      }
  }

}
