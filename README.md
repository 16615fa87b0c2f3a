# A model of the sim_agent pipeline

The system is a LangGraph pipeline that sets up RASPA molecular simulations. It has two teams.

- **The simulation team.** A supervisor keeps a plan (`plan.json`) and hands each task to one of four workers: the structure, force-field, simulation-input and code-generator agents. Each worker is wrapped in a two-node subgraph, `run` then `emit`. Every worker turn is followed by an evaluator, which checks the work against a fixed checklist and reports back to the supervisor.
- **The research team.** A paper agent, an extraction agent and a force-field writer pass control among themselves with peer handoffs. They read parsed papers and an append-only findings log.

Around these graphs sit deterministic tools:

- the plan blackboard;
- line scanners for CIF and RASPA `.def` files;
- the paper pipeline: header detection, grouping blocks into sections, overlapping word-window chunks, and the section, header and whole-paper readers;
- the handoff tools and the `Command` values they return;
- the output shaping of the code generator's `eval`.

This project models those rules in Dafny and proves what they guarantee.

The modules follow the code:

| module | file | models |
|---|---|---|
| `Wrappers` | wrappers.dfy | `Option`, `Result`, and the Python exceptions as values |
| `PyStr` | pystr.dfy | the `str` builtins relied on: `split`, `strip`, `startswith`, `join`, `isalpha`, `readlines`, `os.path.join` |
| `OrderedMaps` | ordered_maps.dfy | insertion-ordered dictionaries |
| `Plan` | plan.dfy | the plan tools; class `PlanFile` holds the document that plan.json contains |
| `StructureFiles` | structure_files.dfy | the CIF and `.def` scanners, as loops with invariants, plus lemmas that state without the fold what each scan selects |
| `PaperText` | paper_text.dfy | `is_header`, `filter_headers`, `chunk_paper_sections` |
| `PaperStore` | paper_store.dfy | the readers of a parsed paper; class `FindingsLog` for `findings.txt` |
| `Messages` | messages.dfy | messages, `AgentState`, state updates, the `add_messages` reducer |
| `Handoff` | handoff.dfy | `create_handoff_tool` and `create_research_handoff_tool` |
| `AgentSubgraph` | agent_subgraph.dfy | `make_agent_subgraph` and `emit_node` |
| `Workers` | workers.dfy | the worker nodes and the `get_only_agent` switch |
| `CodeEval` | code_eval.dfy | the code generator's `eval` |
| `Evaluator` | evaluator.dfy | `evaluator_node` and `get_current_agent_summary` |
| `ToolCatalog` | tool_catalog.dfy | every agent's tool allow-list and handoff tools |
| `SimulationTeam` | simulation_team.dfy | the supervisor, worker and evaluator graph |
| `ResearchTeam` | research_team.dfy | the research graph |

How the model stands in for what it cannot see:

- **Reasoning agents.** Each is a function parameter `invoke`, from the agent's input messages to the messages of its result.
- **Files.** A file is its content as a value. `None` stands for a file that does not exist.
- **The graph engine.** It is reduced to the declared node and edge sets, plus a step relation that also allows the handoffs each agent holds.

## Model

| member | source | states |
|---|---|---|
| Plan.MakePlanAgents | tools/file_tools.py:240-241 | An agent is in the new plan exactly when it is among the first min(len(agent_list), len(task_list)) names and is not "simulation_details". Every summary of a new plan is "". |
| Plan.MakePlanTask | tools/file_tools.py:240 | A listed agent gets the task paired with its last occurrence in the zipped prefix, with an empty summary. |
| Plan.MakePlanOrder | tools/file_tools.py:240 | With distinct, non-reserved names, the plan lists the agents in the given order, cut to the shorter list: `zip` truncates without an error. |
| Plan.PlanFile.MakePlan | tools/file_tools.py:236-247 | Overwrites the whole document with the comprehension plus the given details, and returns "Plan created.". |
| Plan.PlanFile.ReadPlan | tools/file_tools.py:275-286 | Without a plan it returns "No plan found.". Otherwise it returns the rendering laid out as `RenderOpens` and `RenderShape` state. |
| Plan.RenderOpens | tools/file_tools.py:283-285 | The rendering starts with the "Simulation Details: …" line and a blank line. Without stored details that line reads "No details provided". |
| Plan.RenderShape | tools/file_tools.py:282-285 | After the details line, the `i`-th agent's block appears at a known offset. Later agents' blocks start further in, after a blank line. The last block ends the text. No block is for the reserved details key. |
| Plan.SummaryWritten | tools/file_tools.py:289-302 | A missing file raises FileNotFoundError. A name that is not an agent raises ValueError, or TypeError for "simulation_details". Otherwise only that agent's summary changes: agents, order, tasks, details and every other entry stay as they were. |
| Plan.PlanFile.WriteSummary | tools/file_tools.py:289-302 | On success the document becomes the one `SummaryWritten` gives. On any error it is left unchanged and the error is returned. |
| Plan.TaskEdited | tools/file_tools.py:322-336 | Has the same error cases as `SummaryWritten`. On success the agent's task is replaced and its summary is reset to "" whatever it was, and nothing else changes. |
| Plan.PlanFile.EditPlan | tools/file_tools.py:322-336 | On success the document becomes the one `TaskEdited` gives and the result is "Task for … updated.". On an error the document is unchanged. |
| Plan.DetailsEdited | tools/file_tools.py:339-349 | Fails only without a file. Otherwise only the details change; the agents are identical. |
| Plan.PlanFile.EditSimulationDetails | tools/file_tools.py:339-349 | The document becomes the one `DetailsEdited` gives, or stays unchanged without a file. |
| Plan.EditThenRead | tools/file_tools.py:327-329 | After `edit_plan(agent, t)`, `read_plan` shows `t` and an empty summary in that agent's block, and every other block is as before. |
| Plan.SummaryThenRead | tools/file_tools.py:294-295 | After `write_summary`, the agent's block shows its old task with the new summary, and every other block is as before. |
| StructureFiles.ScanCifAtoms | tools/file_tools.py:85-100 | The `.cif` loop computes exactly the second tokens of the atom-site block lines that have more than two tokens. |
| StructureFiles.CifStartedIff | tools/file_tools.py:89-96 | The `structure_started` flag is on at a line exactly when some earlier `_atom_site` line has no `loop_` line after it. |
| StructureFiles.CifAtomsIff | tools/file_tools.py:85-100 | `x` is returned exactly when some line lies after an `_atom_site` line with no `loop_` line in between, is neither marker, has more than two tokens, and has `x` as its second token. |
| StructureFiles.ScanDefAtoms | tools/file_tools.py:101-116 | The `.def` loop, which breaks at the first `#` line inside the section, computes exactly the atoms of the `# atomic positions` section. |
| StructureFiles.DefAtomsIff | tools/file_tools.py:101-116 | `x` is returned exactly when it is the second token of a content line of the `# atomic positions` section that has more than one token. |
| StructureFiles.ReadAtomsInFile | tools/file_tools.py:81-118 | `.cif` is tested before `.def`. A missing file raises. Any other name leaves `atoms` unbound, and the return raises. |
| StructureFiles.CountAtomTypeInCif | tools/file_tools.py:212-232 | Returns 0 for a missing file. Otherwise it returns the number of atom-site block lines starting with the atom type, which never exceeds the number of block lines. |
| StructureFiles.FirstTwo | tools/file_tools.py:363 | `line.split()[:2]` is the first min(2, #tokens) tokens. |
| StructureFiles.GetForceFieldAtoms | tools/file_tools.py:351-364 | Returns the set of the first two tokens of every content line of the `# type` section. A missing file raises. |
| StructureFiles.ForceFieldAtomsIff | tools/file_tools.py:351-364 | `x` is returned exactly when it is one of the first two tokens of a content line of that section. |
| StructureFiles.ScanFirstTokens | tools/file_tools.py:366-394 | The loop shared by the mixing and pseudo-atom scans returns the first token of every section line, in order and with duplicates, or IndexError at the first section line without a token. |
| StructureFiles.GetForceFieldMixingAtoms | tools/file_tools.py:366-379 | Scans from `# type` up to the first `#` line. A missing file raises. |
| StructureFiles.GetPseudoAtoms | tools/file_tools.py:381-394 | Scans from `#type` up to the first line shorter than two characters. A missing file raises. |
| StructureFiles.GetAtomsInFfFile | tools/file_tools.py:396-408 | Any name other than the three force-field file names fails the assertion. Each accepted name is dispatched to its scan. A missing file raises FileNotFoundError. |
| StructureFiles.InsideIff | tools/file_tools.py:356-361 | After the first marker line, a scan is inside its section exactly when no end line has come since; a repeated marker does not end it. |
| StructureFiles.SectionMemberIff | tools/file_tools.py:351-394 | A line is kept exactly when it comes after the first marker line with no end line in between, and is itself neither a marker nor an end line. |
| StructureFiles.DoneStays | tools/file_tools.py:360-361 | After the `break`, no later line joins the section. |
| StructureFiles.FirstTokensErrStays | tools/file_tools.py:378 | Once a section line without a token is reached, the scan's result is IndexError. |
| StructureFiles.NoMarkerNoSection | tools/file_tools.py:351-394 | A file without the marker line yields an empty section. |
| PaperText.IsHeader | tools/paper_tools.py:74-111 | True exactly when the stripped block has at most `max_length` characters and at least three quarters of them are letters, whatever the fuzzy scores are. The fuzzy loop and the fall-through both return True. |
| PaperText.HeaderKeyNonEmpty | tools/paper_tools.py:91-98 | The key of a header block is non-empty and has no surrounding whitespace. |
| PaperText.GroupStep | tools/paper_tools.py:120-125 | One turn of the loop: a header restarts its entry with "", and any other block is appended to the current header's entry, if there is one. |
| PaperText.GroupBlocks | tools/paper_tools.py:116-125 | The loop builds the content dictionary of all blocks. |
| PaperText.FilterHeaders | tools/paper_tools.py:114-129 | The result is the content dictionary without its whitespace-only entries. |
| PaperText.DropBlank | tools/paper_tools.py:128 | An entry is kept exactly when its value has a non-whitespace character. Kept entries keep their values. |
| PaperText.DropBlankOrder | tools/paper_tools.py:128 | The kept keys appear in the order they have in the content dictionary. |
| PaperText.CurrentIsLastHeader | tools/paper_tools.py:118-122 | `curr_hdr` is None exactly before the first header. After that it is the key of the last header block seen. |
| PaperText.GroupKeys | tools/paper_tools.py:121-123 | The keys of the content dictionary are exactly the keys of the header blocks. |
| PaperText.GroupValue | tools/paper_tools.py:120-125 | A header's content is the text of the blocks after its last occurrence, up to the next header. A repeated header starts again from "". |
| PaperText.FilterHeadersIff | tools/paper_tools.py:114-129 | A header is a section of the result exactly when the text after its last occurrence, up to the next header, is not all whitespace. That text is the section's content. |
| PaperText.FilterHeadersKeys | tools/paper_tools.py:122-123 | Every section name is the stripped text of a block that `is_header` accepts. |
| PaperText.FilterHeadersNoBlank | tools/paper_tools.py:128 | No section has whitespace-only content. |
| PaperText.PySlice | tools/paper_tools.py:139 | For non-negative bounds, `words[i:j]` is the slice clipped to the list. |
| PaperText.ChunkWords | tools/paper_tools.py:138-140 | The `range(0, len(words), step)` loop yields ceil(n / step) chunks. Chunk `k` is the words from `k*step`, at most `max_words` of them, joined by single spaces. |
| PaperText.ChunkSection | tools/paper_tools.py:137-140 | A section's chunks are those of its split words; a negative step gives none. |
| PaperText.AddSection | tools/paper_tools.py:136-140 | One section's turn sets `{}` and then raises on a zero step. Otherwise it fills the entry, extending the result of the earlier sections by this one. |
| PaperText.ChunkItems | tools/paper_tools.py:135-140 | The loop over the items yields the chunk dictionary of all sections, or the error of a zero step. |
| PaperText.ChunkPaperSections | tools/paper_tools.py:133-142 | `chunk_paper_sections` computes `ChunkPaper`. |
| PaperText.ChunkPaperShape | tools/paper_tools.py:133-142 | Fails exactly when `max_words == overlap` and the paper has a section. Otherwise the section keys are the paper's, in order, and each section maps to the chunks of its own content. |
| PaperText.ChunkIsWindow | tools/paper_tools.py:139 | Each chunk splits back into exactly its window of words, so it has at most `max_words` words. |
| PaperText.ChunksOverlap | tools/paper_tools.py:138-139 | Consecutive chunks share `overlap` words, or fewer at the end of the section. |
| PaperText.ChunksCover | tools/paper_tools.py:138-139 | Every word lies in some chunk, the one numbered index / step. |
| PyStr.SplitJoin | tools/paper_tools.py:137-139 | Splitting words that were joined with single spaces gives the words back. |
| PyStr.StripEmptyIffBlank | tools/paper_tools.py:128 | `len(v.strip()) > 0` holds exactly when `v` has a non-whitespace character. |
| PaperStore.ChunkNames | tools/paper_tools.py:140 | A section with `n` chunks has the keys `chunk_0` … `chunk_{n-1}`, in order. |
| PaperStore.ChunkKeys | tools/paper_tools.py:224-226 | The inner loop collects exactly those keys. |
| PaperStore.ReadPaperHeaders | tools/paper_tools.py:203-229 | The result maps each section to its chunk keys. A missing file raises. |
| PaperStore.HeadersOf | tools/paper_tools.py:222-227 | The headers list the paper's sections in the paper's order, each with its chunk keys. |
| PaperStore.Clip | tools/paper_tools.py:248 | `s[:n]` is the prefix of length min(len(s), n). |
| PaperStore.ReadWholePaper | tools/paper_tools.py:232-248 | The double loop builds, for each section, its banner and its chunk lines. The result is that text cut to 50000 characters. |
| PaperStore.WholeTextAt | tools/paper_tools.py:241-244 | The whole text is the sections before section `i`, then its banner and chunk lines, then the sections after it. |
| PaperStore.ChunkInWholeText | tools/paper_tools.py:240-244 | Every chunk occurs in the whole text as a line of its own, right after its section's banner and earlier chunks. |
| PaperStore.ReadPaperSection | tools/paper_tools.py:251-272 | An unknown section gives "Section not found". A chunk number at or past the section's chunk count gives "Chunk not found". A chunk in range gives the stored chunk. It fails only for a missing file, or for a negative chunk of a known section: a KeyError for `chunk_-1` and the like. |
| PaperStore.ReadChunkedSection | tools/paper_tools.py:266-268 | On a paper chunked by `chunk_paper_sections`, reading chunk `k` of a section gives that section's word window `k` joined by spaces, and `chunk_k` is the key the headers list for it. |
| PaperStore.FindingsOf | tools/paper_tools.py:285-292 | A missing log reads as []. |
| PaperStore.FindingsLog.ReadFinding | tools/paper_tools.py:275-292 | Gives one stripped finding per line of the log, or [] without a log. |
| PaperStore.FindingsLog.WriteFinding | tools/paper_tools.py:297-309 | A missing paper folder raises FileNotFoundError and leaves the log alone. Otherwise it appends each finding followed by a newline, creating the log if it is missing. A log in whole lines stays in whole lines. |
| PaperStore.ReadLinesOfLines | tools/paper_tools.py:306-308 | The lines of the written findings are the findings, each with its newline. |
| PaperStore.StripLinesOf | tools/paper_tools.py:292 | Stripping cancels the newline each finding was written with. |
| PaperStore.WriteThenRead | tools/paper_tools.py:285-308 | Assume the log is missing or ends with a newline, as every log written only by `write_finding` does. Assume also that no finding holds `\n` or `\r`. Then after `write_finding(fs)`, `read_finding` gives the earlier findings followed by `fs`, each stripped. On a missing log it gives just `fs`. |
| Messages.AddMessagesFresh | agents/simulation_team/agent_utils.py:14 | Messages whose ids are new and distinct are appended in order. |
| Messages.AddMessagesSelf | agents/simulation_team/agent_utils.py:14 | Merging the state's own messages back changes nothing. |
| Messages.AddMessagesExtend | agents/simulation_team/agent_utils.py:14 | A node that returns the whole history plus new messages adds just the new messages. |
| Messages.AddMessagesLast | agents/simulation_team/agent_utils.py:14 | When the last returned message has a new id, the merged history ends with it. |
| Handoff.CreateHandoffTool | tools/handoff_tools.py:9-13 | The tool is named `transfer_to_<agent>`. An absent or empty description becomes "Ask <agent> for help.". |
| Handoff.CreateResearchHandoffTool | tools/handoff_tools.py:50-52 | The tool is named `transfer_to_<agent>`, with the default description "Transfer to <agent>". |
| Handoff.DirectedHandoff | tools/handoff_tools.py:27-46 | States what `Handoff.Invoke`, the inner `handoff_to_agent`, returns for a directed tool. It resolves in the parent graph. It sends control to the agent with `instructions` = the task as its only input. Its messages are the history plus exactly one tool message, "Successfully transferred to <agent>". It sets `current_agent` and copies every other key. |
| Handoff.DirectedHandoffApplied | tools/handoff_tools.py:23-44 | The tool sees the supervisor's state: the parent's history plus the supervisor's own turn. The parent applies the update to its own state. Its history then gains that whole turn and the tool message, `current_agent` becomes the target, and nothing else changes. |
| Handoff.DirectedIgnoresSender | tools/handoff_tools.py:27-30 | The sender name has no effect: the message built from it is unused. |
| Handoff.PeerHandoff | tools/handoff_tools.py:63-80 | States what `Handoff.Invoke`, the inner `handoff_to_research_agent`, returns for a peer tool. It fails exactly on an empty history. Otherwise it goes to the agent in the parent graph, with the update `[last message, tool message]` and nothing else. |
| Handoff.PeerIgnoresTaskAndSender | tools/handoff_tools.py:70-80 | The task description and the sender have no effect. |
| Handoff.PeerHandoffApplied | tools/handoff_tools.py:60-79 | The tool sees the agent's state: the parent's history plus the agent's own turn. When the parent applies the update, its history grows by exactly two messages. These are the last message of that turn (the AI message calling the tool) and the tool message. The rest of the agent's turn is dropped. |
| AgentSubgraph.EmitNode | agents/simulation_team/agent_utils.py:27-32 | Fails exactly on an empty history. Otherwise it is a parent command without a goto whose update holds only the last message. |
| AgentSubgraph.MakeAgentSubgraph | agents/simulation_team/agent_utils.py:34-39 | Raises ValueError exactly when `add_node` refuses a name: the node is named "emit", it is a reserved start or end name, or it holds a pipe or a colon. Otherwise the subgraph holds the node and `emit` and enters at the node. |
| AgentSubgraph.SubgraphShape | agents/simulation_team/agent_utils.py:34-38 | The entry is the agent node, whose only successor is `emit`, and `emit` has none. |
| AgentSubgraph.RunForwardsLast | agents/simulation_team/agent_utils.py:27-37 | When the agent node's last message is new, the parent receives exactly that one message. |
| Workers.WorkerNode | agents/simulation_team/structure_agent.py:39-45 | It raises without `instructions`. Otherwise it returns the history, the instruction and the agent's messages. This is also the body of the force-field and simulation-input nodes. |
| Workers.WorkerMessagesShape | agents/simulation_team/force_field_agent.py:65-71 | The returned messages are the input unchanged, then the instruction named "supervisor", then exactly the agent's result. Their length is \|input\| + 1 + \|result\|. |
| Workers.WrappedWorkerForwards | agents/simulation_team/simulation_input_agent.py:64-72 | Wrapped as `run`, a worker hands the parent one message: the agent's last message, or the instruction when the agent returned nothing. |
| Workers.CodeGeneratorNode | agents/simulation_team/code_generator.py:151-156 | Like the other workers, and it also sets `context` to "". |
| Workers.CreateCodeGeneratorAgent | agents/simulation_team/code_generator.py:148-160 | With `get_only_agent` the bare agent is returned. Otherwise the result is the subgraph entered at `run`, whose only successor is `emit`. |
| CodeEval.TracebackLines | agents/simulation_team/code_generator.py:108-111 | A traceback of more than 20 lines becomes its first 10 lines, the marker and its last 10 lines. A shorter one is kept whole. |
| CodeEval.CaughtOutput | agents/simulation_team/code_generator.py:103-112 | A clean run gives the stripped printout or the placeholder. A caught exception gives "Error: " with its `repr` and the trimmed traceback. |
| CodeEval.Persist | agents/simulation_team/code_generator.py:122-134 | The loop leaves exactly the namespace entries that pass the filter, in namespace order. |
| CodeEval.Eval | agents/simulation_team/code_generator.py:93-141 | An exception outside `Exception`, such as SystemExit from `sys.exit`, propagates out of `eval`. Otherwise the output is the shaped text of the outcome, cut to size. The persisted variables are the namespace entries that pass the filter, in namespace order. |
| CodeEval.OutputNeverEmpty | agents/simulation_team/code_generator.py:106-112 | The output is never empty. An empty printout becomes "<code ran, no output printed>", and any other printout is stripped. |
| CodeEval.TruncateBounds | agents/simulation_team/code_generator.py:137-139 | An output over 5000 characters keeps its first 5000 and gains the suffix. Any other output is unchanged. |
| CodeEval.KeepIff | agents/simulation_team/code_generator.py:122-134 | A variable is kept exactly when its name does not start with `__`, it is no module, function or class, and it is JSON-serialisable. |
| CodeEval.PersistedIff | agents/simulation_team/code_generator.py:122-134 | The persisted keys are exactly the namespace keys that pass, with their values. |
| CodeEval.PersistedOrder | agents/simulation_team/code_generator.py:123-134 | The persisted keys keep the namespace order. |
| Evaluator.PlanKey | agents/simulation_team/evaluator.py:97 | `agent_name[:-5]` with its last five characters is the name; a shorter name gives "". |
| Evaluator.PlanKeys | agents/simulation_team/evaluator.py:95-97 | Each checklist node's plan key is its name without `_node`. |
| Evaluator.CurrentAgentSummary | agents/simulation_team/evaluator.py:63-66 | Succeeds exactly when the plan exists and has the agent entry, and then gives its summary. |
| Evaluator.EvaluatorNode | agents/simulation_team/evaluator.py:94-104 | Succeeds only for a current agent with a checklist and a plan entry. |
| Evaluator.EvaluatorShape | agents/simulation_team/evaluator.py:99-104 | The reasoning input is exactly the checklist named "instructions", then the summary under the plan key. The result is a plain update with one message, named "evaluator", carrying the agent's last message. |
| Evaluator.EvaluatorFails | agents/simulation_team/evaluator.py:94-104 | Fails exactly when there is no current agent, the plan or the entry is missing, the agent has no checklist, or the reasoning agent answers nothing. |
| Evaluator.EvaluatorReadsSummary | agents/simulation_team/evaluator.py:63-66 | The summary `write_summary` just recorded is the one the evaluator reads. |
| ToolCatalog.SupervisorTransfers | agents/simulation_team/simulation_team.py:14-39 | The supervisor's last four tools are the transfer tools, one per worker, each with sender "supervisor" and named `transfer_to_<node>`. |
| ToolCatalog.OnlySupervisorEditsTasks | agents/simulation_team/supervisor.py:99-107 | Only the supervisor's allow-list holds `make_plan`, `edit_plan` and `edit_simulation_details`. Every allow-list holds `read_plan`. Exactly the four workers' allow-lists hold `write_summary`. |
| ToolCatalog.OnlySupervisorTransfers | agents/simulation_team/supervisor.py:107 | A tool is a transfer exactly when it is one of the supervisor's last four. |
| ToolCatalog.EvaluatorReadOnly | agents/simulation_team/evaluator.py:90 | No tool of the evaluator changes a file, the plan or the findings, and none is a transfer. |
| ToolCatalog.WorkerFileAccess | agents/simulation_team/force_field_agent.py:62 | The structure and force-field agents' allow-lists hold the delete tool. The simulation-input agent's holds the write tool but not the delete tool. The code generator's allow-list holds no write or copy tool. |
| ToolCatalog.WorkersKeepTasks | agents/simulation_team/structure_agent.py:37 | No plan tool in a non-supervisor allow-list changes the agents, their order, tasks or details. The evaluator's plan tool changes nothing at all. |
| ToolCatalog.ResearchHandoffTargets | agents/research_team/extraction_agent.py:7-17 | The paper agent and the writer can hand off only to the extraction agent. The extraction agent can hand off to the paper agent and the writer. |
| ToolCatalog.HandoffLists | agents/research_team/paper_agent.py:7-11 | The research handoff tools, by target, are all peer handoffs. |
| ToolCatalog.ResearchHandoffRules | agents/research_team/extraction_agent.py:13-24 | No agent hands off to itself, and only the extraction agent reaches the writer. Each allow-list's transfers are exactly its handoffs. |
| ToolCatalog.ResearchToolLists | agents/research_team/paper_agent.py:17-18 | The three research allow-lists, in order. |
| ToolCatalog.WriterHandoffName | agents/research_team/writer_agent.py:7-17 | The writer's only handoff is `transfer_to_extraction_agent`. |
| ToolCatalog.NoSecondExtractionHandoff | agents/research_team/writer_agent.py:70 | No research agent holds `transfer_to_extraction_agent2`, the tool the writer's prompt names. |
| ToolCatalog.FindingsAccess | agents/research_team/writer_agent.py:17 | Only the extraction agent's allow-list holds `write_finding`. Only the writer's holds `read_finding`, and it holds no findings tool that writes. Only the writer's holds `write_file`. |
| SimulationTeam.DestinationsAreWorkers | agents/simulation_team/simulation_team.py:39-51 | The declared destinations, the transfer targets and the checklist agents are the same four worker nodes, without the evaluator or the supervisor. |
| SimulationTeam.StepIff | agents/simulation_team/simulation_team.py:50-62 | A worker steps only to the evaluator, the evaluator and the entry only to the supervisor, and the supervisor only to a worker. |
| SimulationTeam.OnlySupervisorStops | agents/simulation_team/simulation_team.py:57-62 | The supervisor is the only node without a declared successor. |
| SimulationTeam.RunRounds | agents/simulation_team/simulation_team.py:50-63 | After the entry, the supervisor, a worker and the evaluator take turns, so position `k` fixes the node kind by `k % 3`. |
| SimulationTeam.EvaluatorBetween | agents/simulation_team/simulation_team.py:57-61 | Every path from a worker to the supervisor passes through the evaluator. |
| SimulationTeam.StoppedRun | agents/simulation_team/simulation_team.py:50-63 | A run can stop only on a supervisor turn, and every worker turn in it was followed by the evaluator. |
| SimulationTeam.HandoffRound | agents/simulation_team/simulation_team.py:50-61 | A supervisor handoff starts the worker from the task alone and records it as `current_agent`. The evaluator then fails only for a missing plan entry or an empty answer. |
| ResearchTeam.ResearchNode | agents/research_team/paper_agent.py:53-55 | The node gives the agent the whole state and contributes only the last message of its answer. It raises on an empty answer. |
| ResearchTeam.ResearchNodeAppends | agents/research_team/extraction_agent.py:69-71 | Merged into the history, the node's answer adds exactly that one message. |
| ResearchTeam.StepIff | agents/research_team/research_team.py:11-19 | The steps of the research graph, by source. |
| ResearchTeam.StaticShape | agents/research_team/research_team.py:13-17 | The paper and the extraction agents have no declared successor. The writer's only declared successor is the end. |
| ResearchTeam.RunOrder | agents/research_team/research_team.py:16-17 | A run enters at the paper agent. The end comes only right after the writer and is last, and the writer is entered only from the extraction agent. |
| ResearchTeam.EndThroughExtraction | agents/research_team/extraction_agent.py:13-17 | A run that reaches the end went extraction agent → writer → end. |
| ResearchTeam.HandoffIsStep | tools/handoff_tools.py:76-80 | Every research handoff lands on a step of the graph. |

## Left out

Library and external behaviour:

- **The LangGraph engine.** This covers graph execution, `Command`/`Send` routing and `InMemorySaver` checkpointing. The model keeps the declared node and edge sets, the commands as values, and a step relation. `Send` is modelled as starting the worker from its payload alone. A supervisor message that calls two or more `transfer_to_*` tools in parallel yields several `Send` commands in one step, each setting `current_agent`. The step relation gives a supervisor turn one handoff, and `Step`/`RunRounds` do not model parallel transfers.
- **`add_messages`.** It is modelled as an id merge: a message replaces the one with its id, or else goes last. The ids are given, because the reducer's id assignment is library code.
- **`RemainingSteps` enforcement.** The step budget is not modelled.
- **`RemoveMessage`.** Not modelled.
- **Rejection of undeclared destinations.** Not modelled.
- **The reasoning agents.** This covers `create_react_agent`, `create_codeact`, the models and every prompt text. Each agent is a parameter `invoke`. The evaluator's checklist texts are a parameter; the set of agents they exist for is modelled.
- **`exec` inside `eval`.** It is an input: what the script printed, the `repr` and traceback lines of a caught exception, or the `repr` of an exception that escapes `except Exception`. The namespace it left is an input too. JSON-serialisability is a flag on each value.
- **What an agent can reach through general tools.** `eval` runs the code generator's code with unrestricted builtins, so that code can write, copy or delete any file. The general file tools take arbitrary paths too. `write_file` and `copy_file` (held by the structure, force-field and simulation-input agents) can replace plan.json, and `delete_file` (held by the structure and force-field agents) can remove it. The writer's `write_file` can overwrite findings.txt. The ToolCatalog access lemmas (`OnlySupervisorEditsTasks`, `WorkerFileAccess`, `WorkersKeepTasks`, `FindingsAccess` and the others) therefore describe the tool lists only. They do not bound what an agent can do to plan.json or findings.txt.
- **`rapidfuzz.partial_ratio`.** It is a function parameter of `IsHeader`. It cannot change the result.
- **`make_agent_subgraph`'s checkpointer.** Not modelled.
- **Network, subprocess and PDF code.** This covers `semantic_scholar_search`, `download_paper`, `download_paper_tool` and `parse_paper`, which read the PDF with pymupdf. They are not modelled.

Files and JSON:

- **File input and output.** Loading and dumping JSON is not modelled. plan.json, a parsed paper and `findings.txt` are values, and an absent file is `None`.
- **`read_paper_names`, `read_file`, `write_file`, `list_directory`, and the copy, delete, folder and listing tools.** They depend on the file system and `os.walk` order. They appear only as names in the allow-lists.
- **The parsers repeated at tools/paper_tools.py:366-423.** They are the same as the `file_tools` scanners and are modelled once.
- **A parsed paper's inner dictionary.** It is modelled as a sequence: position `i` is the key `chunk_i`, the only keys `chunk_paper_sections` writes. Papers written by other means are not modelled.
- **`chunk_paper_sections`.** It fills `chunks[section]` in place. It is modelled by assigning the section's finished chunk sequence, after first setting the entry to `{}` as the code does.

Values:

- **Floating-point tools.** `get_helium_void_fraction` and `get_unit_cell_size` are not modelled.
- **`alphabetic_ratio(t) < 0.75`.** It is modelled as `4 * letters < 3 * max(len, 1)`. For blocks of at most 50 characters the two tests agree.
- **Character classes.** `str.isalpha` is modelled for ASCII and Latin-1 letters only. `str.split`/`strip` use CPython's whitespace set.
- **Line splitting.** `readlines` is modelled as splitting after `\n` only. Universal newlines also end a line at `\r`, which is not modelled. The findings round trip therefore assumes findings free of both characters.

Weaker contracts:

- StructureFiles.GetForceFieldAtoms: returns the set of tokens. `list(set(...))` gives them in an order Python leaves undefined, and that order is not modelled.
- Evaluator.CurrentAgentSummary: does not model the `.get("summary", "")` default, because every entry the plan tools create carries a summary.
- AgentSubgraph.MakeAgentSubgraph: the refused names are the ones LangGraph's `add_node` checks for. That is library code, and this model restates it rather than deriving it. The subgraph's compilation is not modelled otherwise.
