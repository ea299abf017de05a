/** The queue-to-archive lifecycle of `PromptQueueSystem` over an abstract
    file system: listing `queued/` (`get_queued_prompts`), answering one
    prompt (`process_prompt`), filing it under `run/` (`move_to_run`), the
    whole batch (`process_all_prompts`) and the listing of past runs
    (`get_run_history`).

    The file system holds the prompt files of `queued/` by name and the
    entries of `run/` by name; a run directory maps file names to their
    contents. Every reading of the clock is a parameter. */
module Archive {
  import opened Strings
  import opened Order
  import opened Parser
  import opened Classifier
  import opened Templates

  /** The three files `move_to_run` writes into every run directory. */
  const LogicFileName: string := "decision_logic.txt"
  const FlowchartFileName: string := "flowchart.md"
  const MetadataFileName: string := "execution_metadata.json"

  predicate Reserved(name: string) {
    name == LogicFileName || name == FlowchartFileName || name == MetadataFileName
  }

  /** One reading of `datetime.now()`, written out with `isoformat()` and
      with `strftime("%Y%m%d_%H%M%S")`. */
  datatype Reading = Reading(iso: string, stamp: string)

  /** The document `move_to_run` writes to `execution_metadata.json`. */
  datatype ExecMetadata = ExecMetadata(
    originalPrompt: string,
    processedAt: string,
    topic: Topic,
    filesGenerated: seq<string>)

  /** A file of a run directory: plain text, or a JSON document. */
  datatype FileContent = TextFile(text: string) | JsonFile(doc: ExecMetadata)

  /** An entry of `run/`: a directory of files, or a plain file. */
  datatype RunEntry = RunDir(files: map<string, FileContent>) | PlainFile(content: string)

  /** The prompt files waiting in `queued/` and the entries of `run/`. */
  datatype FileSystem = FileSystem(queued: map<string, string>, run: map<string, RunEntry>)

  // ---------------------------------------------------------------------
  // The queue

  /** The file names the two `glob` patterns `*.txt` and `*.md` match. No
      such name is the metadata file's, so a queued prompt can only collide
      with the two output files of its run directory. */
  predicate IsPromptName(name: string)
    ensures IsPromptName(name) ==> name != MetadataFileName && |name| >= 3
  {
    EndsWith(name, ".txt") || EndsWith(name, ".md")
  }

  /** `get_queued_prompts()`: every queued `.txt` and `.md` file, each once,
      in ascending name order. */
  function ScanQueue(queued: map<string, string>): (names: seq<string>)
    ensures Ascending(names)
    ensures forall n :: n in names <==> n in queued && IsPromptName(n)
    ensures forall i, j :: 0 <= i < j < |names| ==> names[i] != names[j]
  {
    var names := SortedSet(set n | n in queued && IsPromptName(n));
    AscendingDistinct(names);
    names
  }

  // ---------------------------------------------------------------------
  // Run directory names

  /** The position `Path.stem` and `Path.suffix` split a name at: its last
      dot, unless that dot is the first or the last character. */
  function SuffixStart(name: string): (i: nat)
    ensures i <= |name|
  {
    var d := LastIndex(name, '.');
    if 0 < d < |name| - 1 then d else |name|
  }

  /** `Path(name).stem`: a prefix of the name, never empty when the name
      is not. */
  function Stem(name: string): (s: string)
    ensures |s| <= |name| && s == name[..|s|]
    ensures |name| > 0 ==> |s| > 0
  {
    name[..SuffixStart(name)]
  }

  /** `Path(name).suffix`. */
  function Suffix(name: string): string {
    name[SuffixStart(name)..]
  }

  /** A name is its stem followed by its suffix; a suffix is either empty or
      a dot followed by at least one character and no further dot, and the
      stem is never empty when the name is not. */
  lemma StemAndSuffix(name: string)
    ensures Stem(name) + Suffix(name) == name
    ensures var x := Suffix(name);
      x == [] || (|x| >= 2 && x[0] == '.' && '.' !in x[1..])
    ensures |name| > 0 ==> |Stem(name)| > 0
  {
    var x := Suffix(name);
    assert name == name[..SuffixStart(name)] + x;
    if x != [] {
      var d := LastIndex(name, '.');
      forall k | 0 <= k < |x| - 1
        ensures x[1..][k] != '.'
      {
        assert x[1..][k] == name[d + 1 + k];
      }
    }
  }

  /** The last dot of `s`, when no later character is a dot. */
  lemma {:induction false} LastIndexAt(s: string, c: char, k: nat)
    requires k < |s| && s[k] == c
    requires forall j :: k < j < |s| ==> s[j] != c
    ensures LastIndex(s, c) == k
    decreases |s|
  {
    if k < |s| - 1 {
      LastIndexAt(s[..|s| - 1], c, k);
    }
  }

  /** The stem of a queued prompt name is the name without its `.txt` or
      `.md`, except that a name that is only the extension is its own
      stem. */
  lemma StemOfPromptName(base: string, ext: string)
    requires ext == ".txt" || ext == ".md"
    ensures Stem(base + ext) == (if base == [] then ext else base)
  {
    var name := base + ext;
    assert name[|base|] == '.';
    forall j | |base| < j < |name|
      ensures name[j] != '.'
    {
      assert name[j] == ext[j - |base|];
    }
    LastIndexAt(name, '.', |base|);
    assert name[..|base|] == base;
  }

  /** The run directory `move_to_run` files a prompt under: the clock
      stamp, an underscore, and the prompt's stem. The stamp leads the
      name, and the stem after the underscore is never empty. */
  function RunDirName(stamp: string, name: string): (d: string)
    ensures |d| > |stamp| && d[..|stamp|] == stamp && d[|stamp|] == '_'
    ensures |name| > 0 ==> |d| > |stamp| + 1
  {
    stamp + "_" + Stem(name)
  }

  /** With stamps of one width, the earlier stamp gives the smaller
      directory name, whatever the prompts are called. */
  lemma StampDecides(s1: string, s2: string, n1: string, n2: string, i: nat)
    requires |s1| == |s2| && i < |s1| && s1[..i] == s2[..i] && s1[i] < s2[i]
    ensures Less(RunDirName(s1, n1), RunDirName(s2, n2))
  {
    var a := RunDirName(s1, n1);
    var b := RunDirName(s2, n2);
    assert a[..i] == a[..|s1|][..i] == s1[..i];
    assert b[..i] == b[..|s2|][..i] == s2[..i];
    assert a[i] == s1[i] && b[i] == s2[i];
    LessAtFirstDifference(a, b, i);
  }

  /** Two prompts that differ only in their extension share a stem, so
      with equal stamps they share a run directory. */
  lemma SharedStem()
    ensures Stem("a.txt") == "a" && Stem("a.md") == "a"
  {
    StemOfPromptName("a", ".txt");
    StemOfPromptName("a", ".md");
    assert "a" + ".txt" == "a.txt" && "a" + ".md" == "a.md";
  }

  // ---------------------------------------------------------------------
  // One prompt

  /** The dictionary `process_prompt` returns. */
  datatype ProcessResult = ProcessResult(
    prompt: PromptData,
    topic: Topic,
    artifacts: Artifacts,
    processedAt: string)

  /** `process_prompt(prompt_data)` with `agent` standing for the three
      generators of the agent the queue system holds, indexed by template,
      and `now` the reading taken for `processed_at`: the body is labelled
      by `extract_topic`, and the artifact pair is what the agent generates
      for the template the body selects: the emergency pair when the body
      mentions `hospital`, otherwise the pair of the recorded topic. The
      program's agent is `Templates.ForTemplate`. */
  function ProcessPrompt(prompt: PromptData, now: Reading, agent: TemplateKind -> Artifacts): (r: ProcessResult)
    ensures r.prompt == prompt && r.processedAt == now.iso
    ensures r.topic == ExtractTopic(prompt.content)
    ensures r.artifacts ==
              agent(if Contains(Lower(prompt.content), "hospital") then EmergencyTemplate else TemplateOf(r.topic))
  {
    TemplateVersusTopic(prompt.content);
    ProcessResult(prompt, ExtractTopic(prompt.content), agent(ChooseTemplate(prompt.content)), now.iso)
  }

  /** With the program's agent, the logic text carries the title of the
      template the body selects and the flowchart is a Mermaid flowchart. */
  lemma ProgramAgentOutputs(prompt: PromptData, now: Reading)
    ensures var r := ProcessPrompt(prompt, now, ForTemplate);
      var k := ChooseTemplate(prompt.content);
      && HeadedBy(r.artifacts.logic, Title(k), UnderlineWidth(k))
      && IsFlowchart(r.artifacts.flowchart)
  {
  }

  /** Unless the body mentions `hospital`, the pair `process_prompt`
      produces is the one its recorded topic stands for. */
  lemma ProcessPromptMatchesTopic(prompt: PromptData, now: Reading, agent: TemplateKind -> Artifacts)
    requires !Contains(Lower(prompt.content), "hospital")
    ensures var r := ProcessPrompt(prompt, now, agent);
      r.artifacts == agent(TemplateOf(r.topic))
  {
    assert ChooseTemplate(prompt.content) == TemplateOf(ExtractTopic(prompt.content)) by {
      TemplateVersusTopic(prompt.content);
    }
  }

  // The worked example below takes its strings as parameters fixed by
  // `requires x == "..."`, like the note example of `Parser`: the
  // verifier then reasons about symbolic pieces instead of unfolding the
  // parser over a literal.

  /** The topic comes from the body alone: a note whose metadata line says
      `Topic: Emergency` but whose prose mentions no keyword is labelled
      `generic_decision` and gets the business pair. */
  lemma TopicIgnoresMetadata(name: string, text: string, key: string, value: string, prose: string,
                             read: string, now: Reading, agent: TemplateKind -> Artifacts)
    requires key == "Topic" && value == "Emergency" && prose == "Patient has chest pain"
    requires text == "# " + key + ": " + value + "\n\n" + prose
    ensures var r := ProcessPrompt(ParsePrompt(name, text, read), now, agent);
      && r.prompt.metadata == map[key := value]
      && r.prompt.content == prose
      && r.topic == GenericDecision
      && r.artifacts == agent(BusinessTemplate)
  {
    assert '\r' !in text by {
      assert '\r' !in key && '\r' !in value && '\r' !in prose;
    }
    NewlinesClean(text);
    NoteParse(text, key, value, prose);
    ChestPainIsGeneric(prose);
  }

  /** The metadata document `move_to_run` writes for prompt `name`. */
  function MetadataFor(name: string, result: ProcessResult): (m: ExecMetadata)
    ensures m.originalPrompt == name && m.topic == result.topic && m.processedAt == result.processedAt
    ensures |m.filesGenerated| == 2 && m.filesGenerated[0] != m.filesGenerated[1]
    ensures forall f :: f in m.filesGenerated ==> Reserved(f) && f != MetadataFileName
  {
    ExecMetadata(name, result.processedAt, result.topic, [LogicFileName, FlowchartFileName])
  }

  // ---------------------------------------------------------------------
  // Filing a prompt under run/

  /** A path, as a directory of `run/` and a file name in it. */
  datatype Path = Path(dir: string, name: string)

  /** The dictionary of paths `move_to_run` returns. */
  datatype CreatedFiles = CreatedFiles(promptFile: Path, logicFile: Path, mermaidFile: Path, metadataFile: Path)

  /** Why `move_to_run` raises: `mkdir` meets a plain file of the same
      name, or the prompt file to move is gone. */
  datatype MoveError = DirectoryBlocked | SourceMissing

  datatype Step = Moved(fs: FileSystem, created: CreatedFiles) | StepFailed(fs: FileSystem, err: MoveError)

  /** `dir` names a plain file of `run/`, so creating it as a directory
      fails. */
  predicate Blocked(run: map<string, RunEntry>, dir: string) {
    dir in run && run[dir].PlainFile?
  }

  /** The files directory `dir` of `run/` already holds: none when it does
      not exist. */
  function FilesOf(run: map<string, RunEntry>, dir: string): map<string, FileContent> {
    if dir in run && run[dir].RunDir? then run[dir].files else map[]
  }

  /** Run directory `files` is what filing prompt `name` (holding
      `original`) with `result` leaves in a directory that held `before`:
      the three outputs, the prompt itself unless the outputs overwrote it,
      and every other file untouched. */
  ghost predicate Filed(files: map<string, FileContent>, before: map<string, FileContent>,
                  name: string, original: string, result: ProcessResult)
  {
    && LogicFileName in files && files[LogicFileName] == TextFile(result.artifacts.logic)
    && FlowchartFileName in files && files[FlowchartFileName] == TextFile(result.artifacts.flowchart)
    && MetadataFileName in files && files[MetadataFileName] == JsonFile(MetadataFor(name, result))
    && name in files && (!Reserved(name) ==> files[name] == TextFile(original))
    && (forall f :: f != name && !Reserved(f) ==>
          (f in files <==> f in before) && (f in before ==> files[f] == before[f]))
  }

  /** The files of a run directory that held `before` once prompt `name`
      (holding `original`) has been moved in and the three outputs of
      `result` have been written after it. */
  function FileInto(before: map<string, FileContent>, name: string, original: string,
                    result: ProcessResult): (files: map<string, FileContent>)
    ensures Filed(files, before, name, original, result)
  {
    before[name := TextFile(original)]
          [LogicFileName := TextFile(result.artifacts.logic)]
          [FlowchartFileName := TextFile(result.artifacts.flowchart)]
          [MetadataFileName := JsonFile(MetadataFor(name, result))]
  }

  /** `run` and `run'` agree on every entry except `dir`. */
  ghost predicate SameExcept(run: map<string, RunEntry>, run': map<string, RunEntry>, dir: string) {
    forall d :: d != dir ==> (d in run' <==> d in run) && (d in run ==> run'[d] == run[d])
  }

  /** `move_to_run(prompt_file, result)` for the queued prompt `name`, with
      `now` the clock reading that stamps its run directory. The directory
      is created or, when it exists, reused; the prompt is moved into it and
      the logic, flowchart and metadata files are written after it. */
  function MoveToRun(fs: FileSystem, name: string, result: ProcessResult, now: Reading): (s: Step)
    ensures var dir := RunDirName(now.stamp, name);
      (s.StepFailed? && s.err == DirectoryBlocked) <==> Blocked(fs.run, dir)
    ensures var dir := RunDirName(now.stamp, name);
      (s.StepFailed? && s.err == SourceMissing) <==> !Blocked(fs.run, dir) && name !in fs.queued
    ensures s.StepFailed? && s.err == DirectoryBlocked ==> s.fs == fs
    ensures var dir := RunDirName(now.stamp, name);
      s.StepFailed? && s.err == SourceMissing ==>
        s.fs == FileSystem(fs.queued, fs.run[dir := RunDir(FilesOf(fs.run, dir))])
    ensures s.Moved? ==> s.fs.queued == fs.queued - {name}
    ensures var dir := RunDirName(now.stamp, name);
      s.Moved? ==>
        && SameExcept(fs.run, s.fs.run, dir)
        && dir in s.fs.run && s.fs.run[dir].RunDir?
        && Filed(s.fs.run[dir].files, FilesOf(fs.run, dir), name, fs.queued[name], result)
    ensures var dir := RunDirName(now.stamp, name);
      s.Moved? ==> s.created == CreatedFiles(
        Path(dir, name), Path(dir, LogicFileName), Path(dir, FlowchartFileName), Path(dir, MetadataFileName))
  {
    var dir := RunDirName(now.stamp, name);
    if Blocked(fs.run, dir) then
      StepFailed(fs, DirectoryBlocked)
    else
      var existing := FilesOf(fs.run, dir);
      if name !in fs.queued then
        StepFailed(FileSystem(fs.queued, fs.run[dir := RunDir(existing)]), SourceMissing)
      else
        var files := FileInto(existing, name, fs.queued[name], result);
        Moved(FileSystem(fs.queued - {name}, fs.run[dir := RunDir(files)]),
              CreatedFiles(Path(dir, name), Path(dir, LogicFileName),
                           Path(dir, FlowchartFileName), Path(dir, MetadataFileName)))
  }

  /** Filing two different prompts into the same run directory (their
      stamps and stems agree) keeps both originals, but the second run's
      outputs and metadata replace the first's. */
  lemma SharedRunDirectory(fs: FileSystem, n1: string, r1: ProcessResult, t1: Reading,
                           n2: string, r2: ProcessResult, t2: Reading)
    requires n1 != n2 && n1 in fs.queued && n2 in fs.queued
    requires !Reserved(n1) && !Reserved(n2)
    requires RunDirName(t1.stamp, n1) == RunDirName(t2.stamp, n2)
    requires !Blocked(fs.run, RunDirName(t1.stamp, n1))
    ensures var s1 := MoveToRun(fs, n1, r1, t1);
      && s1.Moved?
      && var s2 := MoveToRun(s1.fs, n2, r2, t2);
      && s2.Moved?
      && var dir := RunDirName(t1.stamp, n1);
      && dir in s2.fs.run && s2.fs.run[dir].RunDir?
      && var files := s2.fs.run[dir].files;
      && n1 in files && files[n1] == TextFile(fs.queued[n1])
      && n2 in files && files[n2] == TextFile(fs.queued[n2])
      && MetadataFileName in files && files[MetadataFileName] == JsonFile(MetadataFor(n2, r2))
      && LogicFileName in files && files[LogicFileName] == TextFile(r2.artifacts.logic)
  {
    var dir := RunDirName(t1.stamp, n1);
    var s1 := MoveToRun(fs, n1, r1, t1);
    assert s1.Moved?;
    assert n1 in s1.fs.run[dir].files;
    var s2 := MoveToRun(s1.fs, n2, r2, t2);
    assert s2.Moved?;
  }

  // ---------------------------------------------------------------------
  // A batch

  /** The record `process_all_prompts` logs for each prompt it filed. */
  datatype ExecutionRecord = ExecutionRecord(
    originalFile: string,
    topic: Topic,
    filesCreated: CreatedFiles,
    processedAt: string)

  /** How `process_all_prompts` ends: with the records of the whole batch,
      or with the exception that stopped it; either way with the file system
      as the batch left it. */
  datatype Batch = Completed(fs: FileSystem, records: seq<ExecutionRecord>) | Aborted(fs: FileSystem, err: MoveError)

  /** The `k`-th prompt of a batch reads the clock three times, in this
      order: for the `timestamp` of its prompt data, for `processed_at`, and
      for the stamp of its run directory. */
  function ReadAt(clock: nat -> Reading, k: nat): Reading { clock(3 * k) }
  function ProcessAt(clock: nat -> Reading, k: nat): Reading { clock(3 * k + 1) }
  function StampAt(clock: nat -> Reading, k: nat): Reading { clock(3 * k + 2) }

  /** The run directory the `k`-th prompt of a batch, `name`, is filed
      under. */
  function TargetDir(clock: nat -> Reading, k: nat, name: string): string {
    RunDirName(StampAt(clock, k).stamp, name)
  }

  /** What `process_prompt` answers for the `k`-th prompt of a batch, `name`
      holding `text`. */
  function Answer(name: string, text: string, clock: nat -> Reading, k: nat,
                  agent: TemplateKind -> Artifacts): ProcessResult
  {
    ProcessPrompt(ParsePrompt(name, text, ReadAt(clock, k).iso), ProcessAt(clock, k), agent)
  }

  /** How one pass of the loop of `process_all_prompts` ends: the prompt
      is filed and its record logged, or an exception is raised. */
  datatype Pass = Logged(fs: FileSystem, record: ExecutionRecord) | Raised(fs: FileSystem, err: MoveError)

  /** `r` is the record of the `k`-th prompt of a batch, `name` holding
      `text`: it names the prompt, the topic of its body, the paths filed in
      its run directory and the reading taken for `processed_at`. */
  ghost predicate RecordOf(r: ExecutionRecord, name: string, text: string, clock: nat -> Reading, k: nat) {
    var dir := TargetDir(clock, k, name);
    && r.originalFile == name
    && r.topic == ExtractTopic(Body(Newlines(text)))
    && r.processedAt == ProcessAt(clock, k).iso
    && r.filesCreated == CreatedFiles(Path(dir, name), Path(dir, LogicFileName),
                                      Path(dir, FlowchartFileName), Path(dir, MetadataFileName))
  }

  /** One pass of the loop of `process_all_prompts`, for its `k`-th prompt
      `name`: read the file (which raises when it is gone), process it, file
      it under `run/` and log its record. */
  method ProcessOne(fs: FileSystem, name: string, clock: nat -> Reading, k: nat,
                    agent: TemplateKind -> Artifacts) returns (p: Pass)
    ensures name !in fs.queued ==> p == Raised(fs, SourceMissing)
    ensures name in fs.queued ==> (p.Raised? <==> Blocked(fs.run, TargetDir(clock, k, name)))
    ensures name in fs.queued && p.Raised? ==> p == Raised(fs, DirectoryBlocked)
    ensures p.Logged? ==>
      && name in fs.queued
      && p.fs.queued == fs.queued - {name}
      && RecordOf(p.record, name, fs.queued[name], clock, k)
    ensures var dir := TargetDir(clock, k, name);
      p.Logged? ==>
        && SameExcept(fs.run, p.fs.run, dir)
        && dir in p.fs.run && p.fs.run[dir].RunDir?
        && Filed(p.fs.run[dir].files, FilesOf(fs.run, dir), name, fs.queued[name],
                 Answer(name, fs.queued[name], clock, k, agent))
  {
    if name !in fs.queued {
      return Raised(fs, SourceMissing);
    }
    var result := Answer(name, fs.queued[name], clock, k, agent);
    var step := MoveToRun(fs, name, result, StampAt(clock, k));
    if step.StepFailed? {
      return Raised(step.fs, step.err);
    }
    p := Logged(step.fs, ExecutionRecord(name, result.topic, step.created, result.processedAt));
  }

  /** Every metadata file of a run directory holds a JSON document, as
      `move_to_run` writes it. */
  ghost predicate MetadataIsJson(run: map<string, RunEntry>) {
    forall d :: d in run && run[d].RunDir? && MetadataFileName in run[d].files ==>
      run[d].files[MetadataFileName].JsonFile?
  }

  /** The first `|records|` prompts of a batch over `names` were logged, in
      order. */
  ghost predicate RecordsMatch(records: seq<ExecutionRecord>, names: seq<string>,
                               queued: map<string, string>, clock: nat -> Reading)
  {
    && |records| <= |names|
    && forall j :: 0 <= j < |records| ==>
         names[j] in queued && RecordOf(records[j], names[j], queued[names[j]], clock, j)
  }

  /** `queued/` holds what it held at first, less the prompts in `done`. */
  ghost predicate QueueAfter(queued: map<string, string>, queued0: map<string, string>, done: seq<string>) {
    forall x :: (x in queued <==> x in queued0 && x !in done) && (x in queued ==> queued[x] == queued0[x])
  }

  /** None of the first `n` prompts of a batch over `names` meets a plain
      file where its run directory should go. */
  ghost predicate Unblocked(run: map<string, RunEntry>, names: seq<string>, clock: nat -> Reading, n: nat) {
    forall j :: 0 <= j < n && j < |names| ==> !Blocked(run, TargetDir(clock, j, names[j]))
  }

  /** `run` and `run0` have plain files under the same names. */
  ghost predicate SameBlocked(run: map<string, RunEntry>, run0: map<string, RunEntry>) {
    forall d :: Blocked(run, d) <==> Blocked(run0, d)
  }

  /** The run directories of the prompts of a batch over `names`, in
      order. */
  function TargetDirs(names: seq<string>, clock: nat -> Reading): seq<string> {
    seq(|names|, j requires 0 <= j < |names| => TargetDir(clock, j, names[j]))
  }

  /** Every entry of `run/` that is none of `targets` is as it was in
      `run0`. */
  ghost predicate UntouchedOutside(run: map<string, RunEntry>, run0: map<string, RunEntry>, targets: seq<string>) {
    forall d :: d !in targets ==> (d in run <==> d in run0) && (d in run0 ==> run[d] == run0[d])
  }

  /** The run directories a batch over `names` files into are new and
      pairwise different. */
  ghost predicate FreshTargets(run: map<string, RunEntry>, names: seq<string>, clock: nat -> Reading) {
    && (forall i :: 0 <= i < |names| ==> TargetDir(clock, i, names[i]) !in run)
    && (forall i, j :: 0 <= i < j < |names| ==> TargetDir(clock, i, names[i]) != TargetDir(clock, j, names[j]))
  }

  /** What `process_prompt` answers for each prompt of a batch over
      `names`, in order. */
  function Replies(names: seq<string>, queued: map<string, string>, clock: nat -> Reading,
                   agent: TemplateKind -> Artifacts): seq<ProcessResult>
    requires forall n :: n in names ==> n in queued
  {
    seq(|names|, j requires 0 <= j < |names| => Answer(names[j], queued[names[j]], clock, j, agent))
  }

  /** The run directory of each of the first `n` prompts holds exactly that
      prompt's outputs, `results` being the answers, and the prompt itself. */
  ghost predicate AllFiled(run: map<string, RunEntry>, queued: map<string, string>, names: seq<string>,
                           clock: nat -> Reading, results: seq<ProcessResult>, n: nat)
  {
    forall j :: 0 <= j < n && j < |names| && j < |results| ==>
      var dir := TargetDir(clock, j, names[j]);
      && names[j] in queued && dir in run && run[dir].RunDir?
      && Filed(run[dir].files, map[], names[j], queued[names[j]], results[j])
  }

  /** What holds once a batch over `names`, begun on `fs0`, has filed its
      first `i` prompts and reached `fs` with `records` logged. */
  ghost predicate Progress(fs0: FileSystem, names: seq<string>, clock: nat -> Reading,
                           agent: TemplateKind -> Artifacts, i: nat, fs: FileSystem,
                           records: seq<ExecutionRecord>)
  {
    && i <= |names| && |records| == i
    && RecordsMatch(records, names, fs0.queued, clock)
    && QueueAfter(fs.queued, fs0.queued, names[..i])
    && Unblocked(fs0.run, names, clock, i)
    && SameBlocked(fs.run, fs0.run)
    && (MetadataIsJson(fs0.run) ==> MetadataIsJson(fs.run))
    && UntouchedOutside(fs.run, fs0.run, TargetDirs(names, clock)[..i])
    && (forall n :: n in names ==> n in fs0.queued)
    && (FreshTargets(fs0.run, names, clock) ==>
          AllFiled(fs.run, fs0.queued, names, clock, Replies(names, fs0.queued, clock, agent), i))
  }

  lemma RecordsStep(records: seq<ExecutionRecord>, names: seq<string>, queued: map<string, string>,
                    clock: nat -> Reading, r: ExecutionRecord)
    requires RecordsMatch(records, names, queued, clock) && |records| < |names|
    requires names[|records|] in queued
    requires RecordOf(r, names[|records|], queued[names[|records|]], clock, |records|)
    ensures RecordsMatch(records + [r], names, queued, clock)
  {
  }

  lemma QueueStep(queued: map<string, string>, queued0: map<string, string>, names: seq<string>, i: nat)
    requires i < |names| && QueueAfter(queued, queued0, names[..i])
    ensures QueueAfter(queued - {names[i]}, queued0, names[..i + 1])
  {
    assert names[..i + 1] == names[..i] + [names[i]];
  }

  /** Filing one prompt into a directory that was not a plain file keeps
      the plain files of `run/`, keeps metadata JSON, and changes no other
      entry. */
  lemma RunStep(run: map<string, RunEntry>, run': map<string, RunEntry>, run0: map<string, RunEntry>,
                names: seq<string>, clock: nat -> Reading, i: nat, original: string, result: ProcessResult)
    requires i < |names|
    requires var dir := TargetDir(clock, i, names[i]);
      && !Blocked(run, dir) && SameExcept(run, run', dir) && dir in run' && run'[dir].RunDir?
      && Filed(run'[dir].files, FilesOf(run, dir), names[i], original, result)
    requires SameBlocked(run, run0)
    requires UntouchedOutside(run, run0, TargetDirs(names, clock)[..i])
    ensures SameBlocked(run', run0)
    ensures MetadataIsJson(run) ==> MetadataIsJson(run')
    ensures UntouchedOutside(run', run0, TargetDirs(names, clock)[..i + 1])
  {
    RunStepUntouched(run, run', run0, names, clock, i);
    var dir := TargetDir(clock, i, names[i]);
    if MetadataIsJson(run) {
      forall d | d in run' && run'[d].RunDir? && MetadataFileName in run'[d].files
        ensures run'[d].files[MetadataFileName].JsonFile?
      {
        if d != dir {
          assert d in run && run'[d] == run[d];
        }
      }
    }
  }

  /** Changing only the `i`-th prompt's directory keeps every entry outside
      the first `i + 1` targets as it was. */
  lemma RunStepUntouched(run: map<string, RunEntry>, run': map<string, RunEntry>, run0: map<string, RunEntry>,
                         names: seq<string>, clock: nat -> Reading, i: nat)
    requires i < |names|
    requires SameExcept(run, run', TargetDir(clock, i, names[i]))
    requires UntouchedOutside(run, run0, TargetDirs(names, clock)[..i])
    ensures UntouchedOutside(run', run0, TargetDirs(names, clock)[..i + 1])
  {
    var targets := TargetDirs(names, clock);
    assert targets[..i + 1] == targets[..i] + [TargetDir(clock, i, names[i])];
  }

  /** Before the `i`-th prompt is filed, its fresh directory is still
      absent from `run/`. */
  lemma FreshTargetAbsent(run: map<string, RunEntry>, run0: map<string, RunEntry>,
                          names: seq<string>, clock: nat -> Reading, i: nat)
    requires i < |names|
    requires FreshTargets(run0, names, clock)
    requires UntouchedOutside(run, run0, TargetDirs(names, clock)[..i])
    ensures TargetDir(clock, i, names[i]) !in run
  {
    var dir := TargetDir(clock, i, names[i]);
    var earlier := TargetDirs(names, clock)[..i];
    forall j | 0 <= j < i
      ensures earlier[j] != dir
    {
    }
    assert dir !in earlier;
  }

  /** With fresh, pairwise different run directories, filing the `i`-th
      prompt into its own directory keeps the earlier ones filed. */
  lemma FiledStep(run: map<string, RunEntry>, run': map<string, RunEntry>, run0: map<string, RunEntry>,
                  queued: map<string, string>, names: seq<string>, clock: nat -> Reading,
                  results: seq<ProcessResult>, i: nat)
    requires i < |names| && i < |results| && names[i] in queued
    requires FreshTargets(run0, names, clock)
    requires TargetDir(clock, i, names[i]) !in run
    requires AllFiled(run, queued, names, clock, results, i)
    requires var dir := TargetDir(clock, i, names[i]);
      && SameExcept(run, run', dir) && dir in run' && run'[dir].RunDir?
      && Filed(run'[dir].files, map[], names[i], queued[names[i]], results[i])
    ensures AllFiled(run', queued, names, clock, results, i + 1)
  {
    var dir := TargetDir(clock, i, names[i]);
    forall j | 0 <= j < i
      ensures TargetDir(clock, j, names[j]) != dir
    {
    }
  }

  /** One pass of the loop of `process_all_prompts` over `names`, for its
      `i`-th prompt: a logged pass advances the batch by one prompt, and a
      pass raises only where the prompt's run directory is a plain file. */
  method Advance(fs0: FileSystem, names: seq<string>, clock: nat -> Reading, agent: TemplateKind -> Artifacts,
                 i: nat, fs: FileSystem, records: seq<ExecutionRecord>) returns (p: Pass)
    requires names == ScanQueue(fs0.queued)
    requires i < |names| && Progress(fs0, names, clock, agent, i, fs, records)
    ensures p.Logged? ==> Progress(fs0, names, clock, agent, i + 1, p.fs, records + [p.record])
    ensures p.Raised? ==>
      p.fs == fs && p.err == DirectoryBlocked && Blocked(fs0.run, TargetDir(clock, i, names[i]))
  {
    var name := names[i];
    assert name !in names[..i] && name in fs.queued;
    p := ProcessOne(fs, name, clock, i, agent);
    if p.Logged? {
      RecordsStep(records, names, fs0.queued, clock, p.record);
      QueueStep(fs.queued, fs0.queued, names, i);
      RunStep(fs.run, p.fs.run, fs0.run, names, clock, i, fs.queued[name],
              Answer(name, fs.queued[name], clock, i, agent));
      if FreshTargets(fs0.run, names, clock) {
        FreshTargetAbsent(fs.run, fs0.run, names, clock, i);
        FiledStep(fs.run, p.fs.run, fs0.run, fs0.queued, names, clock, Replies(names, fs0.queued, clock, agent), i);
      }
    }
  }

  /** Nothing is filed before the first prompt. */
  lemma Started(fs0: FileSystem, names: seq<string>, clock: nat -> Reading, agent: TemplateKind -> Artifacts)
    requires names == ScanQueue(fs0.queued)
    ensures Progress(fs0, names, clock, agent, 0, fs0, [])
  {
    assert names[..0] == [];
  }

  /** A batch stopped at its `i`-th prompt: some prompt's run directory was
      a plain file, so the targets were not all fresh, and no entry outside
      the batch's targets was touched. */
  lemma Halted(fs0: FileSystem, names: seq<string>, clock: nat -> Reading, agent: TemplateKind -> Artifacts,
               i: nat, fs: FileSystem, records: seq<ExecutionRecord>)
    requires i < |names| && Progress(fs0, names, clock, agent, i, fs, records)
    requires Blocked(fs0.run, TargetDir(clock, i, names[i]))
    ensures !Unblocked(fs0.run, names, clock, |names|)
    ensures !FreshTargets(fs0.run, names, clock)
    ensures UntouchedOutside(fs.run, fs0.run, TargetDirs(names, clock))
  {
    var targets := TargetDirs(names, clock);
    forall d | d !in targets
      ensures d !in targets[..i]
    {
    }
  }

  /** A batch that filed every prompt leaves in `queued/` exactly the files
      that are not prompts. */
  lemma Finished(fs0: FileSystem, names: seq<string>, clock: nat -> Reading, agent: TemplateKind -> Artifacts,
                 fs: FileSystem, records: seq<ExecutionRecord>)
    requires names == ScanQueue(fs0.queued)
    requires Progress(fs0, names, clock, agent, |names|, fs, records)
    ensures forall x :: x in fs.queued <==> x in fs0.queued && !IsPromptName(x)
    ensures forall x :: x in fs.queued ==> fs.queued[x] == fs0.queued[x]
    ensures UntouchedOutside(fs.run, fs0.run, TargetDirs(names, clock))
  {
    assert names[..|names|] == names;
    WholePrefix(fs.run, fs0.run, TargetDirs(names, clock));
  }

  lemma WholePrefix(run: map<string, RunEntry>, run0: map<string, RunEntry>, targets: seq<string>)
    requires UntouchedOutside(run, run0, targets[..|targets|])
    ensures UntouchedOutside(run, run0, targets)
  {
    assert targets[..|targets|] == targets;
  }

  /** A batch over an empty queue changes nothing and logs nothing. */
  lemma NothingQueued(fs0: FileSystem, names: seq<string>, clock: nat -> Reading, agent: TemplateKind -> Artifacts,
                      fs: FileSystem, records: seq<ExecutionRecord>)
    requires names == [] && Progress(fs0, names, clock, agent, 0, fs, records)
    ensures fs == fs0 && records == []
  {
    assert fs.queued == fs0.queued;
    assert fs.run == fs0.run;
  }

  /** `process_all_prompts()`: every queued prompt is read, processed and
      filed, in name order; with no prompt queued, nothing changes and no
      record is logged. The batch stops at the first `mkdir` that meets
      a plain file, and only there; it never meets a missing prompt. A
      completed batch logs one record per prompt, in order, and leaves in
      `queued/` exactly the files that are not prompts. Run entries no
      prompt is filed under are untouched and metadata files stay JSON; when
      every prompt gets a new directory of its own, each directory holds
      exactly that prompt's outputs. */
  method ProcessAll(fs0: FileSystem, clock: nat -> Reading, agent: TemplateKind -> Artifacts) returns (b: Batch)
    ensures var names := ScanQueue(fs0.queued);
      b.Completed? ==> |b.records| == |names| && RecordsMatch(b.records, names, fs0.queued, clock)
    ensures b.Completed? ==>
      && (forall x :: x in b.fs.queued <==> x in fs0.queued && !IsPromptName(x))
      && (forall x :: x in b.fs.queued ==> b.fs.queued[x] == fs0.queued[x])
    ensures b.Aborted? ==> b.err == DirectoryBlocked
    ensures ScanQueue(fs0.queued) == [] ==> b == Completed(fs0, [])
    ensures var names := ScanQueue(fs0.queued);
      b.Completed? <==> Unblocked(fs0.run, names, clock, |names|)
    ensures MetadataIsJson(fs0.run) ==> MetadataIsJson(b.fs.run)
    ensures UntouchedOutside(b.fs.run, fs0.run, TargetDirs(ScanQueue(fs0.queued), clock))
    ensures var names := ScanQueue(fs0.queued);
      FreshTargets(fs0.run, names, clock) ==>
        b.Completed? && AllFiled(b.fs.run, fs0.queued, names, clock, Replies(names, fs0.queued, clock, agent), |names|)
  {
    var names := ScanQueue(fs0.queued);
    Started(fs0, names, clock, agent);
    var fs := fs0;
    var records: seq<ExecutionRecord> := [];
    var i := 0;
    while i < |names|
      invariant Progress(fs0, names, clock, agent, i, fs, records)
    {
      var p := Advance(fs0, names, clock, agent, i, fs, records);
      if p.Raised? {
        Halted(fs0, names, clock, agent, i, fs, records);
        return Aborted(p.fs, p.err);
      }
      fs, records, i := p.fs, records + [p.record], i + 1;
    }
    Finished(fs0, names, clock, agent, fs, records);
    if names == [] {
      NothingQueued(fs0, names, clock, agent, fs, records);
    }
    b := Completed(fs, records);
  }

  // ---------------------------------------------------------------------
  // Run history

  /** How `get_run_history()` ends: with the metadata documents it read, or
      with the exception `json.loads` raises on the metadata file of `dir`,
      the first undecodable one it meets. */
  datatype History = Listed(docs: seq<ExecMetadata>) | Undecodable(dir: string)

  /** `dir` is a run directory holding a metadata file. */
  predicate HasMetadata(run: map<string, RunEntry>, dir: string) {
    dir in run && run[dir].RunDir? && MetadataFileName in run[dir].files
  }

  /** `dir` is a run directory whose metadata file is not JSON. */
  predicate BadMetadata(run: map<string, RunEntry>, dir: string) {
    HasMetadata(run, dir) && run[dir].files[MetadataFileName].TextFile?
  }

  /** The loop of `get_run_history` over the directories `dirs`, in order:
      a directory without a metadata file is skipped, a metadata file that
      is not JSON stops the listing, and a JSON one is appended. The
      listing stops at the first such file. */
  function CollectHistory(run: map<string, RunEntry>, dirs: seq<string>): (h: History)
    ensures h.Undecodable? ==> h.dir in dirs && BadMetadata(run, h.dir)
    ensures h.Undecodable? ==>
      forall j :: 0 <= j < |dirs| && BadMetadata(run, dirs[j]) ==> h.dir in dirs[..j + 1]
    ensures h.Listed? <==>
      forall j :: 0 <= j < |dirs| && HasMetadata(run, dirs[j]) ==> run[dirs[j]].files[MetadataFileName].JsonFile?
    decreases |dirs|
  {
    if |dirs| == 0 then Listed([])
    else
      var d := dirs[0];
      var rest := CollectHistory(run, dirs[1..]);
      assert forall j :: 1 <= j < |dirs| ==> dirs[j] == dirs[1..][j - 1];
      assert rest.Undecodable? && !BadMetadata(run, d) ==>
        forall j :: 0 <= j < |dirs| && BadMetadata(run, dirs[j]) ==> rest.dir in dirs[..j + 1] by {
        if rest.Undecodable? && !BadMetadata(run, d) {
          BadAfterHead(run, dirs, rest.dir);
        }
      }
      if !HasMetadata(run, d) then rest
      else match run[d].files[MetadataFileName]
        case TextFile(_) => Undecodable(d)
        case JsonFile(doc) => if rest.Listed? then Listed([doc] + rest.docs) else rest
  }

  /** A stop found after the head, when the head is not a stop itself, is
      still the first one. */
  lemma BadAfterHead(run: map<string, RunEntry>, dirs: seq<string>, dir: string)
    requires |dirs| > 0 && !BadMetadata(run, dirs[0])
    requires forall j :: 0 <= j < |dirs| - 1 && BadMetadata(run, dirs[1..][j]) ==> dir in dirs[1..][..j + 1]
    ensures forall j :: 0 <= j < |dirs| && BadMetadata(run, dirs[j]) ==> dir in dirs[..j + 1]
  {
    forall j | 0 <= j < |dirs| && BadMetadata(run, dirs[j])
      ensures dir in dirs[..j + 1]
    {
      assert j > 0;
      assert dirs[1..][j - 1] == dirs[j];
      assert dirs[1..][..j] == dirs[1..j + 1];
      var k :| 0 <= k < j && dirs[1..][..j][k] == dir;
      assert dirs[..j + 1][k + 1] == dir;
    }
  }

  /** The run directories of `run/`, newest name first, as
      `get_run_history` visits them. */
  function HistoryOrder(run: map<string, RunEntry>): (dirs: seq<string>)
    ensures Descending(dirs)
    ensures forall d :: d in dirs <==> d in run && run[d].RunDir?
  {
    SortedSetDescending(set d | d in run && run[d].RunDir?)
  }

  /** `get_run_history()`: the history is listed exactly when every
      metadata file of `run/` holds JSON, which is what `move_to_run`
      writes; otherwise it stops at the first directory, in descending name
      order, whose metadata file does not. */
  function RunHistory(run: map<string, RunEntry>): (h: History)
    ensures h.Listed? <==> MetadataIsJson(run)
    ensures h.Undecodable? ==> BadMetadata(run, h.dir)
    ensures h.Undecodable? ==> forall d :: BadMetadata(run, d) ==> d == h.dir || Less(d, h.dir)
  {
    var dirs := HistoryOrder(run);
    var h := CollectHistory(run, dirs);
    assert MetadataIsJson(run) ==> forall j :: 0 <= j < |dirs| && HasMetadata(run, dirs[j]) ==>
      run[dirs[j]].files[MetadataFileName].JsonFile?;
    assert !MetadataIsJson(run) ==> h.Undecodable? by {
      if !MetadataIsJson(run) {
        var d :| d in run && run[d].RunDir? && MetadataFileName in run[d].files
                 && !run[d].files[MetadataFileName].JsonFile?;
        assert d in dirs;
      }
    }
    assert h.Undecodable? ==> forall d :: BadMetadata(run, d) ==> d == h.dir || Less(d, h.dir) by {
      if h.Undecodable? {
        forall d | BadMetadata(run, d) ensures d == h.dir || Less(d, h.dir) {
          FirstStopIsNewest(dirs, d, h.dir);
        }
      }
    }
    h
  }

  /** In a descending listing, a name that occurs no later than `x`'s
      position is `x` or greater. */
  lemma FirstStopIsNewest(dirs: seq<string>, x: string, stop: string)
    requires Descending(dirs) && x in dirs
    requires forall j :: 0 <= j < |dirs| && dirs[j] == x ==> stop in dirs[..j + 1]
    ensures x == stop || Less(x, stop)
  {
    var j :| 0 <= j < |dirs| && dirs[j] == x;
    var k :| 0 <= k <= j && dirs[k] == stop;
    if k < j {
      assert Less(dirs[j], dirs[k]);
    }
  }

  /** The directories of `dirs` that hold a metadata file, in the order of
      `dirs`. */
  function WithMetadata(run: map<string, RunEntry>, dirs: seq<string>): (ws: seq<string>)
    ensures forall d :: d in ws <==> d in dirs && HasMetadata(run, d)
    ensures Descending(dirs) ==> Descending(ws)
    decreases |dirs|
  {
    if |dirs| == 0 then []
    else
      var rest := WithMetadata(run, dirs[1..]);
      assert forall d :: d in dirs <==> d == dirs[0] || d in dirs[1..];
      if HasMetadata(run, dirs[0]) then
        assert Descending(dirs) ==> forall x :: x in rest ==> Less(x, dirs[0]) by {
          if Descending(dirs) {
            forall x | x in rest ensures Less(x, dirs[0]) {
              var k :| 0 <= k < |dirs[1..]| && dirs[1..][k] == x;
              assert dirs[k + 1] == x;
            }
          }
        }
        [dirs[0]] + rest
      else rest
  }

  /** `docs` are the JSON documents of the metadata files of `dirs`, one
      each, in the same order. */
  ghost predicate Documents(run: map<string, RunEntry>, dirs: seq<string>, docs: seq<ExecMetadata>) {
    && |docs| == |dirs|
    && forall k :: 0 <= k < |dirs| ==>
         HasMetadata(run, dirs[k]) && run[dirs[k]].files[MetadataFileName] == JsonFile(docs[k])
  }

  lemma DocumentsCons(run: map<string, RunEntry>, d: string, dirs: seq<string>,
                      doc: ExecMetadata, docs: seq<ExecMetadata>)
    requires HasMetadata(run, d) && run[d].files[MetadataFileName] == JsonFile(doc)
    requires Documents(run, dirs, docs)
    ensures Documents(run, [d] + dirs, [doc] + docs)
  {
    assert forall k :: 1 <= k <= |dirs| ==> ([d] + dirs)[k] == dirs[k - 1] && ([doc] + docs)[k] == docs[k - 1];
  }

  /** The documents a listed history holds are those of the directories
      of `dirs` that have a metadata file, in the same order. */
  lemma {:induction false} CollectedDocs(run: map<string, RunEntry>, dirs: seq<string>)
    requires CollectHistory(run, dirs).Listed?
    ensures Documents(run, WithMetadata(run, dirs), CollectHistory(run, dirs).docs)
    decreases |dirs|
  {
    if |dirs| > 0 {
      CollectedDocs(run, dirs[1..]);
      var d := dirs[0];
      if HasMetadata(run, d) {
        var rest := CollectHistory(run, dirs[1..]);
        DocumentsCons(run, d, WithMetadata(run, dirs[1..]), run[d].files[MetadataFileName].doc, rest.docs);
      }
    }
  }

  /** The run directories that hold a metadata file, newest name first. */
  function MetadataDirs(run: map<string, RunEntry>): (dirs: seq<string>)
    ensures Descending(dirs)
    ensures forall d :: d in dirs <==> HasMetadata(run, d)
  {
    SortedSetDescending(set d | d in run && HasMetadata(run, d))
  }

  /** A listed history holds one document per run directory that has a
      metadata file, newest directory name first. */
  lemma HistoryDocs(run: map<string, RunEntry>)
    requires RunHistory(run).Listed?
    ensures Documents(run, MetadataDirs(run), RunHistory(run).docs)
  {
    var order := HistoryOrder(run);
    var ws := WithMetadata(run, order);
    CollectedDocs(run, order);
    forall x ensures x in ws <==> x in MetadataDirs(run) {
    }
    DescendingUnique(ws, MetadataDirs(run));
  }

  /** With two run directories, the history visits the greater name
      first. */
  lemma NewestFirst(run: map<string, RunEntry>, a: string, b: string)
    requires a in run && run[a].RunDir? && b in run && run[b].RunDir?
    requires forall d :: d in run && run[d].RunDir? ==> d == a || d == b
    requires Less(b, a)
    ensures HistoryOrder(run) == [a, b]
  {
    forall x ensures x in HistoryOrder(run) <==> x in [a, b] {
    }
    DescendingUnique(HistoryOrder(run), [a, b]);
  }

  /** Directory names start with a `%Y%m%d_%H%M%S` stamp, so a run from a
      later day sorts first whatever the prompt names. */
  lemma StampOrder()
    ensures Less("20250101_090000_zebra", "20250102_090000_apple")
  {
    var a := "20250101_090000_zebra";
    var b := "20250102_090000_apple";
    assert a[..7] == b[..7];
    LessAtFirstDifference(a, b, 7);
  }
}
