# Decision-Making-Algorithm-Agent: the prompt queue, in Dafny

This project models the deterministic core of the prompt queue system of
Decision-Making-Algorithm-Agent, and proves properties about it. The queue
system reads prompt files from `queued/`, picks one of three fixed decision
artifacts for each (a rule listing and a Mermaid flowchart), files the prompt
and its artifacts under `run/`, and lists past runs. The model covers:

- **Strings** (`strings.dfy`): the parts of Python `str` that the code relies
  on: `strip()`, ASCII `lower()`, `split('\n')`, `'\n'.join(...)`,
  `startswith`/`endswith`, the `in` substring test, and the newline
  translation of reading a file in text mode.
- **Order** (`order.dfy`): Python's string order, `sorted(...)` over a set of
  names, and the descending sort of run directories.
- **Parser** (`parser.dfy`): `read_prompt_content`. A file's text, with its
  line endings translated as text-mode reading does, becomes a metadata map
  (lines `# key: value`) and a body (the remaining lines; `---` rules are
  dropped).
- **Classifier** (`classifier.dfy`): `extract_topic` and the template choice
  inside `process_prompt`. Both are an ordered, first-match keyword test on
  the lower-cased body, over two different keyword tables.
- **Templates** (`templates.dfy`): `DualOutputDecisionAgent`. It has the three
  generators (the source's literals, reassembled verbatim), the file naming of
  `save_dual_outputs`, and `generate_all_examples`.
- **Archive** (`archive.dfy`): `get_queued_prompts`, `process_prompt`,
  `move_to_run`, `process_all_prompts` and `get_run_history`, over an abstract
  file system. `queued/` maps file names to text. `run/` maps entry names to
  run directories (file name to content) or plain files.

Every reading of the clock is a parameter. A batch reads `clock(3k)`,
`clock(3k+1)` and `clock(3k+2)` for its `k`-th prompt: the prompt's
`timestamp`, its `processed_at`, and the stamp of its run directory. The agent
that `process_prompt` calls is a parameter `agent: TemplateKind -> Artifacts`.
The program's own agent is `Templates.ForTemplate`, and
`Archive.ProgramAgentOutputs` states what it produces.

Behaviours of the code worth knowing:

- **The topic comes from the body alone.** A note `# Topic: Emergency`
  followed by `Patient has chest pain` is labelled `generic_decision` and gets
  the business pair (`Archive.TopicIgnoresMetadata`). The `Topic` metadata
  plays no part in the choice.
- **The generic topic can get the emergency pair.** A body that mentions
  `hospital` but not `emergency` is labelled `generic_decision` yet gets the
  emergency pair (`Classifier.HospitalOnly`, `Classifier.TemplateVersusTopic`).
- **A run directory that already exists is reused.** `mkdir(exist_ok=True)`
  lets two prompts share one directory. The second one's outputs and metadata
  replace the first's (`Archive.SharedRunDirectory`).
- **A malformed metadata file stops the history.** `json.loads` raises, so
  `get_run_history` stops at that file (`Archive.CollectHistory`,
  `Archive.RunHistory`).
- **Reserved file names are overwritten.** A queued prompt named
  `decision_logic.txt` or `flowchart.md` is overwritten in its run directory
  by the output of the same name (`Archive.Filed`, used by
  `Archive.MoveToRun`). The scan never picks up `execution_metadata.json`
  (`Archive.IsPromptName`), so that name matters only when `move_to_run` is
  called directly on such a file.

## Model

| member | source | states |
|---|---|---|
| `Archive.ScanQueue` | prompt_queue_system.py:36-48 | the queue listing holds exactly the queued `.txt` and `.md` files, each once, in strictly ascending name order |
| `Archive.IsPromptName` | prompt_queue_system.py:41-43 | the `.txt`/`.md` suffix test `Archive.ScanQueue` filters by; a name that passes has at least three characters and is never `execution_metadata.json` |
| `Order.SortedSet` | prompt_queue_system.py:48 | `sorted` of a set is strictly ascending, has the set's elements and no others, and has the set's size |
| `Order.SortedSetDescending` | prompt_queue_system.py:199-200 | the reverse sort is strictly descending and holds exactly the set's elements |
| `Order.DescendingUnique` | prompt_queue_system.py:200 | two strictly descending listings with the same elements are equal, so the run order is determined by the set of names |
| `Order.LessEqTotal` | prompt_queue_system.py:48 | any two names are comparable under Python's string order |
| `Order.LessEqAntisymmetric` | prompt_queue_system.py:48 | names that are each `<=` the other are equal |
| `Order.LessEqTransitive` | prompt_queue_system.py:48 | the string order is transitive |
| `Order.LessAtFirstDifference` | prompt_queue_system.py:200 | two names are ordered by their first differing character |
| `Strings.Trim` | prompt_queue_system.py:61 | `strip()` leaves no whitespace at either end and never lengthens the text |
| `Strings.TrimIsSlice` | prompt_queue_system.py:61 | `strip()` returns a contiguous slice of its input, with only whitespace cut on either side |
| `Strings.TrimIdempotent` | prompt_queue_system.py:61 | stripping twice is stripping once |
| `Strings.TrimEmptyIffAllSpace` | prompt_queue_system.py:55 | a text strips to empty exactly when it is all whitespace |
| `Strings.TrimKeepsOut` | prompt_queue_system.py:64 | stripping introduces no character, so a stripped key still holds no `:` |
| `Strings.TrimPadded` | prompt_queue_system.py:64 | one whitespace character in front of a stripped word is all that `strip()` removes |
| `Strings.Lower` | prompt_queue_system.py:105 | `lower()` keeps the length and maps each character on its own: an upper-case ASCII letter to its lower-case form, any other character to itself |
| `Strings.LowerIdempotent` | prompt_queue_system.py:105 | lower-casing leaves no upper-case ASCII letter, so lower-casing twice is lower-casing once |
| `Strings.FirstIndex` | prompt_queue_system.py:63 | the position found is the first `:`, or the end when there is none |
| `Strings.Split` | prompt_queue_system.py:55 | `split('\n')` gives at least one piece and no piece holds a newline |
| `Strings.JoinSplit` | prompt_queue_system.py:55 | joining the pieces of a split with the separator gives back the text |
| `Strings.SplitJoin` | prompt_queue_system.py:55 | splitting a join of separator-free pieces gives back the pieces |
| `Strings.MissingCharMeansAbsent` | prompt_queue_system.py:107-114 | a keyword cannot occur in a text that lacks one of its letters |
| `Parser.ClassifyLine` | prompt_queue_system.py:61-68 | a stripped line is metadata iff it starts with `#` and holds `:`; otherwise it is a rule iff it starts with `---`; otherwise it is kept as its stripped form; keys hold no `:`, and keys and values are stripped |
| `Parser.MetaLineFields` | prompt_queue_system.py:62-64 | the key is the stripped text between `#` and the first `:`, and the value is the stripped rest, later colons included |
| `Parser.DoubleMarkerKey` | prompt_queue_system.py:63 | `## A: b` defines key `# A` with value `b` |
| `Parser.CollectAppend` | prompt_queue_system.py:60-68 | reading two runs of lines in turn concatenates their bodies, and the second run's metadata overrides the first's |
| `Parser.Collect` | prompt_queue_system.py:60-68 | the loop keeps at most one body line per input line; `Parser.CollectLastWins` and `Parser.CollectKeepsTexts` say which keys and lines it keeps |
| `Parser.CollectLastWins` | prompt_queue_system.py:63-64 | a key is present iff some line defines it, and its value comes from the last line that does |
| `Parser.KeptAreTexts` | prompt_queue_system.py:65-68 | every body line is the text of some text line of the file |
| `Parser.KeptLinesAreText` | prompt_queue_system.py:60-68 | no body line would be read as metadata or as a rule: each one, read again, is the same text line |
| `Parser.TextLineIsBody` | prompt_queue_system.py:61-68 | a line read as text, read again, is the same text line |
| `Parser.KeptLinesClean` | prompt_queue_system.py:55-68 | every body line is stripped, holds no newline, and reads back as the same text line |
| `Parser.ParsePrompt` | prompt_queue_system.py:50-75 | keeps the file name and the reading; a file without `\r` is parsed as it stands; the content is stripped and, read again, gives no metadata and the same content |
| `Parser.Body` | prompt_queue_system.py:72 | the returned content is stripped; `Parser.BodyIsKeptRun` says which lines it holds |
| `Parser.CollectKeepsTexts` | prompt_queue_system.py:60-68 | the body keeps every line that is neither metadata nor a rule, in file order, and nothing else |
| `Strings.Newlines` | prompt_queue_system.py:52 | the translation never lengthens the text; `Strings.NewlinesClean` and `Strings.NewlinesAtFirstReturn` state what it does |
| `Parser.BodyIsKeptRun` | prompt_queue_system.py:72 | the returned content is the body lines from the first non-empty one to the last, joined by newlines; only empty lines at either end are stripped away |
| `Parser.CollectBodyLines` | prompt_queue_system.py:60-68 | lines that all read back as text are collected into the same lines, with no metadata |
| `Parser.BodyReparses` | prompt_queue_system.py:52-72 | the returned content, read again as a file, gives no metadata and the same content |
| `Strings.TrimJoin` | prompt_queue_system.py:72 | stripping a newline join of stripped lines removes exactly the empty lines at either end |
| `Strings.NewlinesClean` | prompt_queue_system.py:52 | reading in text mode leaves no `\r`, and leaves a text without one unchanged |
| `Strings.NewlinesAtFirstReturn` | prompt_queue_system.py:52 | the first `\r` becomes one `\n`, together with a `\n` right after it; the text before it is kept |
| `Parser.ParseBlankFile` | prompt_queue_system.py:52-72 | an empty or all-whitespace file has an empty body and no metadata |
| `Parser.NoteParse` | prompt_queue_system.py:55-72 | the note `# Topic: Emergency`, a blank line, `Patient has chest pain` has the metadata `{Topic: Emergency}` and the prose line alone as its body |
| `Classifier.TopicNameInjective` | prompt_queue_system.py:107-114 | distinct topics have distinct labels |
| `Classifier.TopicName` | prompt_queue_system.py:108-114 | every label is non-empty and has no upper-case letter, so lower-casing it changes nothing; `Classifier.TopicNameInjective` says the labels differ |
| `Classifier.FirstFiring` | prompt_queue_system.py:107-114 | the rule picked is the first whose keyword occurs; no earlier rule fires |
| `Classifier.ExtractTopic` | prompt_queue_system.py:103-114 | `extract_topic` is the ordered first match over its table `emergency` / `software, deployment` / `business, investment`, with fallback `generic_decision` |
| `Classifier.ChooseTemplate` | prompt_queue_system.py:85-93 | the template choice is the ordered first match over `emergency, hospital` / `software, deployment` / `business, investment`, with the business pair as fallback |
| `Classifier.TopicByKeywords` | prompt_queue_system.py:103-114 | each topic is returned iff its keywords occur and no earlier group's do; `emergency` beats every other keyword; `generic_decision` iff none of the five occurs |
| `Classifier.CaseInsensitive` | prompt_queue_system.py:85-114 | a body and its lower-cased form get the same topic and the same template |
| `Classifier.TemplateVersusTopic` | prompt_queue_system.py:85-114 | without `hospital` the pair is the one the topic stands for; with `hospital` it is the emergency pair; the two differ iff `hospital` occurs and `emergency` does not |
| `Classifier.NoKeywordLetters` | prompt_queue_system.py:107-114 | a text without `y`, `w`, `b` and `v` holds none of the five topic keywords |
| `Classifier.HospitalOnly` | prompt_queue_system.py:85-114 | `Go to the Hospital?` is labelled `generic_decision` but gets the emergency pair |
| `Classifier.ChestPainIsGeneric` | prompt_queue_system.py:85-114 | `Patient has chest pain` is labelled `generic_decision` and gets the business pair |
| `Templates.ForTemplate` | dual_output_agent.py:27-236 | each generator's logic text starts with its title line and a line of `=`, and its flowchart opens a Mermaid `flowchart TD` block and ends with the closing fence |
| `Templates.ForTemplateInjective` | dual_output_agent.py:27-236 | the three generators give three different logic texts, so the chosen pair can be read off its output |
| `Templates.TitleInitialsDiffer` | dual_output_agent.py:31 | the three titles start with different letters |
| `Templates.OutputNamesDiffer` | dual_output_agent.py:245-250 | a logic file never has a flowchart file's name |
| `Templates.OutputNamesInjective` | dual_output_agent.py:245-250 | different topics get different file names |
| `Templates.LogicFileFor` | dual_output_agent.py:245 | the name the logic text of a topic is saved under; `Templates.OutputNameShape` says its shape |
| `Templates.FlowchartFileFor` | dual_output_agent.py:250 | the name the flowchart of a topic is saved under; `Templates.OutputNameShape` says its shape |
| `Templates.OutputNameShape` | dual_output_agent.py:245-250 | the logic file's name starts with the topic, is longer than it and ends in `.txt`; the flowchart file's name starts with the topic, is longer than it and ends in `.md` |
| `Templates.SaveDualOutputs` | dual_output_agent.py:238-254 | the logic text goes to `<topic>_logic.txt` and the flowchart to `<topic>_flowchart.md`, returned in that order; every other file is unchanged |
| `Templates.SaveKeepsOthers` | dual_output_agent.py:238-254 | saving one topic leaves the files of every other topic as they were |
| `Templates.SaveAll` | dual_output_agent.py:264-275 | the loop collects two names per pair, logic file first; each pair's files hold it unless a later pair of the same name replaced them; other files are untouched |
| `Templates.ExampleNamesAreTopicNames` | dual_output_agent.py:258-262 | each example is named after the topic label whose pair it writes |
| `Templates.ExampleNamesDistinct` | dual_output_agent.py:258-262 | no two examples share a name |
| `Templates.ExampleFileNames` | dual_output_agent.py:266-275 | the six names are logic then flowchart for emergency room, software deployment and business investment, in that order |
| `Templates.GenerateAllExamples` | dual_output_agent.py:256-275 | returns the six names in writing order; each example's files hold its generator's pair; other files are untouched |
| `Archive.StemAndSuffix` | prompt_queue_system.py:119 | a name is its stem then its suffix; the suffix is empty or a dot and at least one non-dot character; a non-empty name has a non-empty stem |
| `Archive.StemOfPromptName` | prompt_queue_system.py:119-122 | the stem of a prompt name is the name without `.txt` or `.md`, except that a bare extension is its own stem |
| `Archive.SharedStem` | prompt_queue_system.py:119-122 | `a.txt` and `a.md` have the same stem, so with the same stamp they share a run directory |
| `Archive.Stem` | prompt_queue_system.py:119 | the stem is a prefix of the name, never empty when the name is not; `Archive.StemAndSuffix` pins where it ends |
| `Archive.RunDirName` | prompt_queue_system.py:118-122 | the directory name starts with the stamp and an underscore, followed by a non-empty stem |
| `Archive.StampDecides` | prompt_queue_system.py:118-122 | with stamps of one width, the earlier stamp gives the smaller directory name, whatever the prompt names |
| `Archive.StampOrder` | prompt_queue_system.py:118-122 | `20250101_090000_zebra` sorts before `20250102_090000_apple`: the stamp, not the prompt name, decides the order |
| `Archive.ProcessPrompt` | prompt_queue_system.py:77-101 | the recorded topic is `extract_topic` of the body; the agent's pair is the emergency pair when the body mentions `hospital`, and otherwise the pair of the recorded topic; the prompt data and the `processed_at` reading are kept |
| `Archive.ProgramAgentOutputs` | prompt_queue_system.py:84-93 | with the program's agent, the logic text carries the selected template's title and the flowchart is a Mermaid block |
| `Archive.ProcessPromptMatchesTopic` | prompt_queue_system.py:82-93 | unless the body mentions `hospital`, the pair is the one the recorded topic stands for |
| `Archive.TopicIgnoresMetadata` | prompt_queue_system.py:79-82 | a note whose metadata says `Topic: Emergency` but whose prose has no keyword keeps that metadata, yet is labelled `generic_decision` and gets the business pair |
| `Archive.FileInto` | prompt_queue_system.py:125-147 | the run directory holds the three outputs, the prompt (unless it has a reserved name), and every other earlier file unchanged |
| `Archive.MetadataFor` | prompt_queue_system.py:138-146 | the document names the prompt and carries the result's time and topic; it lists two different files, both outputs of the run directory and neither the metadata file itself; `Archive.Filed` fixes it as the directory's metadata in `Archive.MoveToRun` |
| `Archive.MoveToRun` | prompt_queue_system.py:116-154 | fails with a blocked directory iff a plain file has its name, and then changes nothing; fails with a missing source iff the prompt is gone, after creating the directory; otherwise it removes the prompt from the queue, files it under `<stamp>_<stem>` with its outputs and the metadata `{original_prompt, processed_at, topic, [decision_logic.txt, flowchart.md]}`, leaves every other run entry alone, and returns the four paths |
| `Archive.SharedRunDirectory` | prompt_queue_system.py:121-134 | two prompts filed into one directory both keep their originals, and the second one's outputs and metadata replace the first's |
| `Archive.ProcessOne` | prompt_queue_system.py:167-187 | one pass reads, processes and files the prompt and logs its record (name, topic of its body, the four paths, `processed_at`); it raises exactly when the file is gone or its directory is blocked |
| `Archive.Advance` | prompt_queue_system.py:167-187 | one pass keeps every batch invariant, or raises only because that prompt's directory was blocked from the start |
| `Archive.Finished` | prompt_queue_system.py:167-192 | after the last pass `queued/` holds exactly its non-prompt files, unchanged, and no run entry outside the prompts' directories has changed |
| `Archive.NothingQueued` | prompt_queue_system.py:158-162 | with no prompt queued, the batch changes nothing and logs no record |
| `Archive.ProcessAll` | prompt_queue_system.py:156-192 | completes iff no prompt's directory is a plain file, and then logs one record per prompt in scan order and leaves only non-prompt files queued; an empty queue changes nothing and logs nothing; it stops only on a blocked directory; run entries no prompt targets are untouched and metadata stays JSON; with fresh, distinct directories each holds exactly its prompt's outputs |
| `Archive.CollectHistory` | prompt_queue_system.py:202-206 | the listing succeeds iff every metadata file it visits is JSON; otherwise it stops at the first undecodable one it visits |
| `Archive.HistoryOrder` | prompt_queue_system.py:199-200 | the run directories, each once, in strictly descending name order; plain files are not listed |
| `Archive.RunHistory` | prompt_queue_system.py:194-208 | the history is listed exactly when every metadata file under `run/` is JSON; otherwise it stops at an undecodable one whose directory name is the greatest among them |
| `Archive.WithMetadata` | prompt_queue_system.py:202-206 | keeps exactly the directories with a metadata file, in the same order |
| `Archive.CollectedDocs` | prompt_queue_system.py:202-206 | a listed history holds one document per directory with a metadata file, in visiting order |
| `Archive.MetadataDirs` | prompt_queue_system.py:199-204 | the run directories that hold a metadata file, strictly descending |
| `Archive.HistoryDocs` | prompt_queue_system.py:194-208 | a listed history holds the metadata documents of exactly the directories that have one, newest name first, each once |
| `Archive.NewestFirst` | prompt_queue_system.py:199-200 | with two run directories, the greater name is visited first |

## Left out

- File I/O (`read_text`, `write_text`, `mkdir`, `shutil.move`, `glob`, `iterdir`) is replaced by maps. Case rules of `glob` and hidden files are platform details.
- Directories inside `queued/` and subdirectories inside run directories are not represented. `shutil.move` onto an existing directory of the prompt's name is therefore not modelled.
- `metadata_file.exists()` is also true when `execution_metadata.json` is a directory. The model has no directories inside run directories.
- JSON text is not modelled. A metadata file is either the four-field execution-metadata document or undecodable text. Valid JSON of any other shape (`{}`, `[]`, a document with other keys) cannot be represented, although `json.loads` decodes it and `get_run_history` would list it. `json.dumps(indent=2)` formatting is left out.
- UTF-8 decoding of prompt files is left out. A file is its decoded text, and `Parser.ParsePrompt` applies the text-mode newline translation to it.
- `read_prompt_content` builds its metadata as a Python dict, which keeps insertion order. The model uses a map, which has none. Nothing in the core observes that order: `move_to_run` does not store the prompt metadata.
- Templates.SaveDualOutputs: returns the two file names, not `str(Path(output_dir) / name)`. The output directory prefix, and pathlib's normalisation of it (`./decision_outputs` prints as `decision_outputs`), are left out.
- Templates.SaveAll: the collected list holds the file names, without the output directory prefix that `save_dual_outputs` puts on each path.
- Templates.GenerateAllExamples: returns the six file names, without the output directory prefix on each returned path.
- Paths are a run directory name and a file name. The `./prompts` base directory prefix is left out.
- `str.strip()` uses the fixed set of characters that Python's `isspace()` accepts. `str.lower()` maps ASCII letters only; full Unicode case mapping is left out.
- `datetime.now()`, `isoformat()` and `strftime` are left out. Each reading is a parameter that carries both formatted strings.
- `print`, both `main` functions, `create_sample_prompts`, and the directory creation in `__init__` are console and setup conveniences. They are left out.
- The unused fields `decision_tree`, `logic_rules`, `conditions`, `actions` and `execution_log` are left out.
- The early `return []` for an empty queue in `process_all_prompts` is folded into the loop. The result is the same, as `Archive.ProcessAll` states.
- The rule listings and flowcharts of the three generators are copied verbatim, but nothing is proved about their wording as decision logic.
- Archive.ProcessAll: a batch that stops is described only by the error, the untouched entries and the JSON metadata. What its earlier passes filed is stated pass by pass (`Archive.Advance`), not in the final result.
- Archive.ProcessAll: the contents of every run directory are stated only when each prompt gets a new directory of its own. When directories are reused, `Archive.MoveToRun` and `Archive.SharedRunDirectory` describe each filing step.
