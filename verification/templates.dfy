/** `DualOutputDecisionAgent`: the three fixed (logic text, Mermaid
    flowchart) pairs, and the file naming of `save_dual_outputs` and
    `generate_all_examples`. The generators take no input and read no
    state of the agent, so each is a constant here. Each logic text is its
    title, a line of `=`, and the rule listing; each flowchart is the
    opening of a Mermaid `flowchart TD` block, the graph, and the closing
    fence. The pieces below reassemble the source's literals exactly. */
module Templates {
  import opened Strings
  import opened Classifier

  /** A (logic text, flowchart) pair as the generators return it. */
  datatype Artifacts = Artifacts(logic: string, flowchart: string)

  /** The first line of every flowchart. */
  const FlowchartOpening: string := "```mermaid\nflowchart TD"

  /** The line that closes every flowchart. */
  const Fence: string := "```"

  /** A line of `width` `=` characters. */
  function Underline(width: nat): (r: string)
    ensures |r| == width
    ensures forall i :: 0 <= i < width ==> r[i] == '='
  {
    seq(width, _ => '=')
  }

  /** `title`, a `width`-wide line of `=` under it, then the rules. */
  function LogicDocument(title: string, width: nat, rules: string): string {
    title + "\n" + Underline(width) + "\n" + rules
  }

  /** A Mermaid flowchart block around `graph`. */
  function MermaidDocument(graph: string): string {
    FlowchartOpening + "\n" + graph + Fence
  }

  /** `text` starts with `title` on its own line, underlined by `width`
      `=` characters. */
  predicate HeadedBy(text: string, title: string, width: nat) {
    StartsWith(text, title + "\n" + Underline(width) + "\n")
  }

  /** `text` opens a Mermaid `flowchart TD` block and ends with its closing
      fence. */
  predicate IsFlowchart(text: string) {
    StartsWith(text, FlowchartOpening) && EndsWith(text, Fence)
  }

  lemma LogicDocumentHeaded(title: string, width: nat, rules: string)
    ensures HeadedBy(LogicDocument(title, width, rules), title, width)
  {
    var head := title + "\n" + Underline(width) + "\n";
    assert LogicDocument(title, width, rules) == head + rules;
    assert (head + rules)[..|head|] == head;
  }

  lemma MermaidDocumentIsFlowchart(graph: string)
    ensures IsFlowchart(MermaidDocument(graph))
  {
    var d := MermaidDocument(graph);
    assert d == FlowchartOpening + ("\n" + graph + Fence);
    assert d == (FlowchartOpening + "\n" + graph) + Fence;
  }

  /** The rule listing under each logic text's heading, verbatim. */
  function RulesText(k: TemplateKind): string {
    match k
    case EmergencyTemplate => Passage(0)
    case SoftwareTemplate => Passage(1)
    case BusinessTemplate => Passage(2)
  }

  /** The graph inside each flowchart block, verbatim. */
  function GraphText(k: TemplateKind): string {
    match k
    case EmergencyTemplate => Passage(3)
    case SoftwareTemplate => Passage(4)
    case BusinessTemplate => Passage(5)
  }

  /** The six verbatim passages of the generators, numbered: rule listings
      0 to 2, graphs 3 to 5. Keeping them in one numbered table means that
      reasoning about a kind that is not fixed never has to unfold them. */
  function Passage(n: nat): string {
    if n == 0 then @"
IF patient_experiencing_symptoms THEN
    IF severe_symptoms = TRUE THEN
        action = call_911_immediately
        outcome = emergency_transport
    ELSE IF severe_symptoms = FALSE THEN
        evaluate_urgency_level()
        
        IF urgency_level = HIGH THEN
            IF urgent_care_available = TRUE THEN
                action = visit_emergency_room
                outcome = receive_urgent_care
            ELSE
                action = schedule_primary_care
                outcome = receive_standard_care
        ELSE IF urgency_level = LOW THEN
            action = schedule_primary_care
            outcome = receive_standard_care
        END IF
    END IF
END IF

CONDITION DEFINITIONS:
- severe_symptoms: chest_pain OR difficulty_breathing OR severe_bleeding OR loss_of_consciousness
- high_urgency: temperature > 39°C OR severe_pain OR breathing_difficulty
- urgent_care_available: emergency_room_wait_time < 2_hours

ACTION PRIORITIES:
1. life_threatening = call_911
2. high_urgency = emergency_room
3. low_urgency = primary_care
"
    else if n == 1 then @"
IF code_ready_for_deployment THEN
    IF all_tests_passing = TRUE THEN
        IF code_review_required = TRUE THEN
            request_code_review()
            
            IF review_approved = TRUE THEN
                proceed_to_staging()
            ELSE
                fix_review_comments()
                GOTO code_review_required
            END IF
        ELSE
            proceed_to_staging()
        END IF
        
        staging_deployment()
        
        IF staging_tests_pass = TRUE THEN
            production_deployment()
            monitor_deployment()
            outcome = deployment_successful
        ELSE
            rollback_deployment()
            outcome = deployment_failed
        END IF
    ELSE
        fix_failing_tests()
        GOTO all_tests_passing
    END IF
END IF

GATE CONDITIONS:
- all_tests_passing: unit_tests AND integration_tests AND security_tests
- code_review_required: team_size > 3 OR production_system
- staging_tests_pass: functional_tests AND performance_tests

ROLLBACK TRIGGERS:
- error_rate > 1%
- response_time > 2x_baseline
- critical_functionality_broken
"
    else if n == 2 then @"
IF investment_opportunity_identified THEN
    conduct_market_research()
    
    IF market_size > $1M THEN
        analyze_competitive_landscape()
        
        IF competitive_advantage = TRUE THEN
            conduct_financial_analysis()
            
            IF ROI > 20% AND payback_period < 3_years THEN
                assess_risks()
                
                IF risk_score < risk_tolerance THEN
                    action = proceed_with_investment
                    outcome = investment_approved
                ELSE IF risk_score >= risk_tolerance THEN
                    IF renegotiation_possible = TRUE THEN
                        renegotiate_terms()
                        GOTO conduct_financial_analysis
                    ELSE
                        action = decline_investment
                        outcome = investment_rejected
                    END IF
                END IF
            ELSE
                action = decline_investment
                outcome = investment_rejected
            END IF
        ELSE
            action = decline_investment
            outcome = investment_rejected
        END IF
    ELSE
        action = decline_investment
        outcome = investment_rejected
    END IF
END IF

EVALUATION CRITERIA:
- market_size: total_addressable_market > $1M
- competitive_advantage: unique_value_proposition OR cost_advantage OR differentiation
- ROI_calculation: (expected_return - investment_cost) / investment_cost
- risk_score: market_risk + execution_risk + financial_risk + regulatory_risk
- risk_tolerance: organization_risk_appetite AND available_capital
"
    else if n == 3 then @"    A[Patient experiencing symptoms] --> B{Severe symptoms?}
    B -->|Yes| C[Call 911 immediately]
    B -->|No| D[Evaluate urgency level]
    C --> E[Emergency transport]
    D --> F{Urgent care needed?}
    F -->|High urgency| G{Emergency room available?}
    F -->|Low urgency| H[Schedule primary care]
    G -->|Yes| I[Visit emergency room]
    G -->|No| H
    H --> J[Receive standard care]
    I --> K[Receive urgent care]
    E --> K
    J --> L[Decision complete]
    K --> L
"
    else if n == 4 then @"    A[Code ready for deployment] --> B{All tests passing?}
    B -->|No| C[Fix failing tests]
    C --> B
    B -->|Yes| D{Code review required?}
    D -->|Yes| E[Request code review]
    D -->|No| F[Proceed to staging]
    E --> G{Review approved?}
    G -->|No| H[Fix review comments]
    H --> E
    G -->|Yes| F
    F --> I[Staging deployment]
    I --> J{Staging tests pass?}
    J -->|No| K[Rollback deployment]
    J -->|Yes| L[Production deployment]
    L --> M[Monitor deployment]
    M --> N[Deployment successful]
    K --> O[Deployment failed]
    N --> P[Process complete]
    O --> P
"
    else if n == 5 then @"    A[Investment opportunity identified] --> B[Conduct market research]
    B --> C{Market size > $1M?}
    C -->|No| D[Decline investment]
    C -->|Yes| E[Analyze competitive landscape]
    E --> F{Competitive advantage?}
    F -->|No| D
    F -->|Yes| G[Conduct financial analysis]
    G --> H{ROI > 20% AND payback < 3 years?}
    H -->|No| D
    H -->|Yes| I[Assess risks]
    I --> J{Risk score < tolerance?}
    J -->|Yes| K[Proceed with investment]
    J -->|No| L{Renegotiation possible?}
    L -->|Yes| M[Renegotiate terms]
    M --> G
    L -->|No| D
    K --> N[Investment approved]
    D --> O[Investment rejected]
    N --> P[Decision complete]
    O --> P
"
    else ""
  }

  /** The heading of each logic text. */
  function Title(k: TemplateKind): string {
    match k
    case EmergencyTemplate => "EMERGENCY ROOM DECISION LOGIC"
    case SoftwareTemplate => "SOFTWARE DEPLOYMENT DECISION LOGIC"
    case BusinessTemplate => "BUSINESS INVESTMENT DECISION LOGIC"
  }

  /** The number of `=` under each heading. */
  function UnderlineWidth(k: TemplateKind): nat {
    match k
    case EmergencyTemplate => 32
    case SoftwareTemplate => 35
    case BusinessTemplate => 35
  }

  /** The pair the generator of kind `k` returns:
      `create_emergency_room_logic()`, `create_software_deployment_logic()`
      or `create_business_investment_logic()`. The logic text carries the
      kind's heading and the flowchart is a Mermaid block. */
  function ForTemplate(k: TemplateKind): (a: Artifacts)
    ensures HeadedBy(a.logic, Title(k), UnderlineWidth(k))
    ensures IsFlowchart(a.flowchart)
  {
    LogicDocumentHeaded(Title(k), UnderlineWidth(k), RulesText(k));
    MermaidDocumentIsFlowchart(GraphText(k));
    Artifacts(LogicDocument(Title(k), UnderlineWidth(k), RulesText(k)), MermaidDocument(GraphText(k)))
  }

  /** A text headed by `title` starts with the title's first character. */
  lemma HeadedFirstChar(text: string, title: string, width: nat)
    requires HeadedBy(text, title, width) && |title| > 0
    ensures |text| > 0 && text[0] == title[0]
  {
    assert text[..|title| + 1 + width + 1][0] == (title + "\n" + Underline(width) + "\n")[0];
  }

  /** The three headings start with different letters. */
  lemma TitleInitialsDiffer(k: TemplateKind, j: TemplateKind)
    requires k != j
    ensures |Title(k)| > 0 && |Title(j)| > 0 && Title(k)[0] != Title(j)[0]
  {
  }

  /** The three generators produce three different logic texts: the
      heading tells which pair a file holds. */
  lemma ForTemplateInjective(k: TemplateKind, j: TemplateKind)
    requires ForTemplate(k).logic == ForTemplate(j).logic
    ensures k == j
  {
    if k != j {
      TitleInitialsDiffer(k, j);
      HeadedFirstChar(ForTemplate(k).logic, Title(k), UnderlineWidth(k));
      HeadedFirstChar(ForTemplate(j).logic, Title(j), UnderlineWidth(j));
    }
  }

  /** The file `save_dual_outputs` writes the logic text of `topic` to. */
  function LogicFileFor(topic: string): string {
    topic + "_logic.txt"
  }

  /** The file `save_dual_outputs` writes the flowchart of `topic` to. */
  function FlowchartFileFor(topic: string): string {
    topic + "_flowchart.md"
  }

  /** Both output names begin with the topic and carry the extension the
      two `*.txt` and `*.md` kinds of file are told apart by. */
  lemma OutputNameShape(topic: string)
    ensures var l := LogicFileFor(topic);
      |l| > |topic| + 4 && StartsWith(l, topic) && EndsWith(l, ".txt")
    ensures var f := FlowchartFileFor(topic);
      |f| > |topic| + 3 && StartsWith(f, topic) && EndsWith(f, ".md")
  {
  }

  /** Equal strings with a common suffix removed are equal. */
  lemma SuffixCancels(a: string, b: string, suffix: string)
    requires a + suffix == b + suffix
    ensures a == b
  {
    assert |a| == |b|;
    assert a == (a + suffix)[..|a|];
    assert b == (b + suffix)[..|b|];
  }

  /** A logic file never shares its name with a flowchart file: the one
      ends in `t`, the other in `d`. */
  lemma OutputNamesDiffer(topic: string, other: string)
    ensures LogicFileFor(topic) != FlowchartFileFor(other)
  {
    var l := LogicFileFor(topic);
    var f := FlowchartFileFor(other);
    assert l[|l| - 1] == 't';
    assert f[|f| - 1] == 'd';
  }

  /** Distinct topics get distinct file names. */
  lemma OutputNamesInjective(a: string, b: string)
    requires LogicFileFor(a) == LogicFileFor(b) || FlowchartFileFor(a) == FlowchartFileFor(b)
    ensures a == b
  {
    if LogicFileFor(a) == LogicFileFor(b) {
      SuffixCancels(a, b, "_logic.txt");
    } else {
      SuffixCancels(a, b, "_flowchart.md");
    }
  }

  /** The output directory after `save_dual_outputs`, and the two files it
      names. */
  datatype Saved = Saved(dir: map<string, string>, logicFile: string, flowchartFile: string)

  /** `save_dual_outputs(topic, logic_text, mermaid_chart)` on an output
      directory holding `dir` (file name to text): the logic text goes to
      `<topic>_logic.txt`, the flowchart to `<topic>_flowchart.md`, an
      existing file of either name is replaced, and nothing else changes. */
  function SaveDualOutputs(dir: map<string, string>, topic: string, a: Artifacts): (r: Saved)
    ensures r.logicFile == LogicFileFor(topic) && r.flowchartFile == FlowchartFileFor(topic)
    ensures r.logicFile in r.dir && r.dir[r.logicFile] == a.logic
    ensures r.flowchartFile in r.dir && r.dir[r.flowchartFile] == a.flowchart
    ensures forall f :: f != r.logicFile && f != r.flowchartFile ==>
              (f in r.dir <==> f in dir) && (f in dir ==> r.dir[f] == dir[f])
  {
    var logicFile := LogicFileFor(topic);
    var flowchartFile := FlowchartFileFor(topic);
    OutputNamesDiffer(topic, topic);
    Saved(dir[logicFile := a.logic][flowchartFile := a.flowchart], logicFile, flowchartFile)
  }

  /** Saving the pair of one topic leaves the files of every other topic
      as they were. */
  lemma SaveKeepsOthers(dir: map<string, string>, topic: string, a: Artifacts)
    ensures forall other :: other != topic ==>
              (LogicFileFor(other) in SaveDualOutputs(dir, topic, a).dir <==> LogicFileFor(other) in dir)
              && (FlowchartFileFor(other) in SaveDualOutputs(dir, topic, a).dir <==> FlowchartFileFor(other) in dir)
    ensures forall other :: other != topic && LogicFileFor(other) in dir ==>
              SaveDualOutputs(dir, topic, a).dir[LogicFileFor(other)] == dir[LogicFileFor(other)]
    ensures forall other :: other != topic && FlowchartFileFor(other) in dir ==>
              SaveDualOutputs(dir, topic, a).dir[FlowchartFileFor(other)] == dir[FlowchartFileFor(other)]
  {
    forall other | other != topic
      ensures LogicFileFor(other) != LogicFileFor(topic) && LogicFileFor(other) != FlowchartFileFor(topic)
      ensures FlowchartFileFor(other) != LogicFileFor(topic) && FlowchartFileFor(other) != FlowchartFileFor(topic)
    {
      if LogicFileFor(other) == LogicFileFor(topic) || FlowchartFileFor(other) == FlowchartFileFor(topic) {
        OutputNamesInjective(other, topic);
      }
      OutputNamesDiffer(other, topic);
      OutputNamesDiffer(topic, other);
    }
  }

  /** A generated pair to be saved under a topic name. */
  datatype Output = Output(name: string, artifacts: Artifacts)

  /** No entry after `i` and before `n` reuses the name of entry `i`. */
  predicate LastWithName(outputs: seq<Output>, i: nat, n: nat)
    requires i < n <= |outputs|
  {
    forall j :: i < j < n ==> outputs[j].name != outputs[i].name
  }

  /** The loop of `generate_all_examples` over generated pairs:
      `save_dual_outputs` stores each pair under its name in turn, and both
      file names are collected, logic file first. An entry's files hold
      its pair unless a later entry of the same name replaced them; files
      of other names are left alone. */
  method SaveAll(outDir: map<string, string>, outputs: seq<Output>) returns (dir: map<string, string>, files: seq<string>)
    ensures |files| == 2 * |outputs|
    ensures forall i :: 0 <= i < |outputs| ==>
              files[2 * i] == LogicFileFor(outputs[i].name) && files[2 * i + 1] == FlowchartFileFor(outputs[i].name)
    ensures forall f :: f in files ==> f in dir
    ensures forall i :: 0 <= i < |outputs| && LastWithName(outputs, i, |outputs|) ==>
              dir[LogicFileFor(outputs[i].name)] == outputs[i].artifacts.logic
              && dir[FlowchartFileFor(outputs[i].name)] == outputs[i].artifacts.flowchart
    ensures forall f :: f !in files ==> (f in dir <==> f in outDir) && (f in outDir ==> dir[f] == outDir[f])
  {
    dir := outDir;
    files := [];
    var n := 0;
    while n < |outputs|
      invariant 0 <= n <= |outputs|
      invariant |files| == 2 * n
      invariant forall i :: 0 <= i < n ==>
                  files[2 * i] == LogicFileFor(outputs[i].name) && files[2 * i + 1] == FlowchartFileFor(outputs[i].name)
      invariant forall f :: f in files ==> f in dir
      invariant forall i :: 0 <= i < n && LastWithName(outputs, i, n) ==>
                  LogicFileFor(outputs[i].name) in dir && FlowchartFileFor(outputs[i].name) in dir
                  && dir[LogicFileFor(outputs[i].name)] == outputs[i].artifacts.logic
                  && dir[FlowchartFileFor(outputs[i].name)] == outputs[i].artifacts.flowchart
      invariant forall f :: f !in files ==> (f in dir <==> f in outDir) && (f in outDir ==> dir[f] == outDir[f])
    {
      var o := outputs[n];
      var saved := SaveDualOutputs(dir, o.name, o.artifacts);
      SaveKeepsOthers(dir, o.name, o.artifacts);
      forall i | 0 <= i < n && LastWithName(outputs, i, n + 1)
        ensures LastWithName(outputs, i, n) && outputs[i].name != o.name
      {
      }
      dir := saved.dir;
      files := files + [saved.logicFile, saved.flowchartFile];
      n := n + 1;
    }
  }

  /** One entry of the table `generate_all_examples` walks: a topic name
      and the generator of its pair. */
  datatype Example = Example(name: string, kind: TemplateKind)

  /** The examples in the order `generate_all_examples` writes them. */
  const Examples: seq<Example> := [
    Example("emergency_room", EmergencyTemplate),
    Example("software_deployment", SoftwareTemplate),
    Example("business_investment", BusinessTemplate)
  ]

  /** Each example is named after the topic whose pair it writes. */
  lemma ExampleNamesAreTopicNames()
    ensures Examples[0].name == TopicName(EmergencyRoom) && Examples[0].kind == TemplateOf(EmergencyRoom)
    ensures Examples[1].name == TopicName(SoftwareDeployment) && Examples[1].kind == TemplateOf(SoftwareDeployment)
    ensures Examples[2].name == TopicName(BusinessInvestment) && Examples[2].kind == TemplateOf(BusinessInvestment)
  {
  }

  /** No two examples share a name. */
  lemma ExampleNamesDistinct()
    ensures forall i, j :: 0 <= i < j < |Examples| ==> Examples[i].name != Examples[j].name
  {
    assert Examples[0].name[0] == 'e';
    assert Examples[1].name[0] == 's';
    assert Examples[2].name[0] == 'b';
  }

  /** Every example's generator called, in table order. */
  function Generate(examples: seq<Example>): (outputs: seq<Output>)
    ensures |outputs| == |examples|
    ensures forall i :: 0 <= i < |examples| ==>
              outputs[i].name == examples[i].name && outputs[i].artifacts == ForTemplate(examples[i].kind)
  {
    seq(|examples|, i requires 0 <= i < |examples| => Output(examples[i].name, ForTemplate(examples[i].kind)))
  }

  /** The six names, logic file then flowchart for each example in table
      order. */
  lemma ExampleFileNames(files: seq<string>)
    requires |files| == 2 * |Examples|
    requires forall i :: 0 <= i < |Examples| ==>
               files[2 * i] == LogicFileFor(Examples[i].name) && files[2 * i + 1] == FlowchartFileFor(Examples[i].name)
    ensures files == ["emergency_room_logic.txt", "emergency_room_flowchart.md",
                      "software_deployment_logic.txt", "software_deployment_flowchart.md",
                      "business_investment_logic.txt", "business_investment_flowchart.md"]
  {
    ExamplePair(files[0], files[1], 0);
    ExamplePair(files[2], files[3], 1);
    ExamplePair(files[4], files[5], 2);
    assert files == [files[0], files[1], files[2], files[3], files[4], files[5]];
  }

  /** The two names of the `i`-th example, written out. */
  lemma ExamplePair(logic: string, flowchart: string, i: nat)
    requires i < |Examples|
    requires logic == LogicFileFor(Examples[i].name) && flowchart == FlowchartFileFor(Examples[i].name)
    ensures i == 0 ==> logic == "emergency_room_logic.txt" && flowchart == "emergency_room_flowchart.md"
    ensures i == 1 ==> logic == "software_deployment_logic.txt" && flowchart == "software_deployment_flowchart.md"
    ensures i == 2 ==> logic == "business_investment_logic.txt" && flowchart == "business_investment_flowchart.md"
  {
    if i == 0 {
      EmergencyFileNames();
    } else if i == 1 {
      SoftwareFileNames();
    } else {
      BusinessFileNames();
    }
  }

  lemma EmergencyFileNames()
    ensures LogicFileFor("emergency_room") == "emergency_room_logic.txt"
    ensures FlowchartFileFor("emergency_room") == "emergency_room_flowchart.md"
  {
  }

  lemma SoftwareFileNames()
    ensures LogicFileFor("software_deployment") == "software_deployment_logic.txt"
    ensures FlowchartFileFor("software_deployment") == "software_deployment_flowchart.md"
  {
  }

  lemma BusinessFileNames()
    ensures LogicFileFor("business_investment") == "business_investment_logic.txt"
    ensures FlowchartFileFor("business_investment") == "business_investment_flowchart.md"
  {
  }

  /** `generate_all_examples(output_dir)`: the six file names in writing
      order, and an output directory where each example's files hold its
      pair and other files are untouched. */
  method GenerateAllExamples(outDir: map<string, string>) returns (dir: map<string, string>, files: seq<string>)
    ensures files == ["emergency_room_logic.txt", "emergency_room_flowchart.md",
                      "software_deployment_logic.txt", "software_deployment_flowchart.md",
                      "business_investment_logic.txt", "business_investment_flowchart.md"]
    ensures forall i :: 0 <= i < |Examples| ==>
              LogicFileFor(Examples[i].name) in dir && FlowchartFileFor(Examples[i].name) in dir
              && dir[LogicFileFor(Examples[i].name)] == ForTemplate(Examples[i].kind).logic
              && dir[FlowchartFileFor(Examples[i].name)] == ForTemplate(Examples[i].kind).flowchart
    ensures forall f :: f !in files ==> (f in dir <==> f in outDir) && (f in outDir ==> dir[f] == outDir[f])
  {
    var outputs := Generate(Examples);
    dir, files := SaveAll(outDir, outputs);
    ExampleNamesDistinct();
    forall i | 0 <= i < |Examples|
      ensures LastWithName(outputs, i, |outputs|)
      ensures files[2 * i] in dir && files[2 * i + 1] in dir
    {
    }
    ExampleFileNames(files);
  }
}
