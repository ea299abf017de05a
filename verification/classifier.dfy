/** The two keyword tests of `PromptQueueSystem`: `extract_topic`, which
    labels a prompt body with a topic, and the template choice inside
    `process_prompt`, which picks one of the three fixed artifact pairs.
    Both lower-case the body and take the first group of keywords of which
    some member occurs as a substring. The two keyword lists differ:
    `hospital` appears only in the template choice. */
module Classifier {
  import opened Strings

  /** The topic labels `extract_topic` can return. */
  datatype Topic = EmergencyRoom | SoftwareDeployment | BusinessInvestment | GenericDecision

  /** The three (logic, flowchart) pairs the agent can produce. */
  datatype TemplateKind = EmergencyTemplate | SoftwareTemplate | BusinessTemplate

  /** The string a topic is written as in metadata and file names. */
  function TopicName(t: Topic): (name: string)
    ensures |name| > 0 && IsLower(name)
  {
    match t
    case EmergencyRoom => "emergency_room"
    case SoftwareDeployment => "software_deployment"
    case BusinessInvestment => "business_investment"
    case GenericDecision => "generic_decision"
  }

  /** Distinct topics are written differently, so the label recorded in a
      run's metadata identifies the topic. */
  lemma TopicNameInjective(t: Topic, u: Topic)
    requires TopicName(t) == TopicName(u)
    ensures t == u
  {
    assert TopicName(t)[0] == TopicName(u)[0];
    assert |TopicName(t)| == |TopicName(u)|;
  }

  /** One group of an ordered first-match test: it fires when any of its
      keywords occurs in the text. */
  datatype KeywordRule<L> = KeywordRule(keywords: seq<string>, outcome: L)

  predicate Fires<L>(rule: KeywordRule<L>, text: string) {
    exists k :: 0 <= k < |rule.keywords| && Contains(text, rule.keywords[k])
  }

  /** Position of the first rule that fires, or `|rules|` when none does. */
  function FirstFiring<L>(rules: seq<KeywordRule<L>>, text: string): (i: nat)
    ensures i <= |rules|
    ensures i < |rules| ==> Fires(rules[i], text)
    ensures forall j :: 0 <= j < i ==> !Fires(rules[j], text)
    decreases |rules|
  {
    if |rules| == 0 then 0
    else if Fires(rules[0], text) then 0
    else 1 + FirstFiring(rules[1..], text)
  }

  /** The label of the first rule that fires, or `fallback`. */
  function FirstMatch<L>(rules: seq<KeywordRule<L>>, text: string, fallback: L): L {
    var i := FirstFiring(rules, text);
    if i < |rules| then rules[i].outcome else fallback
  }

  /** The keyword groups of `extract_topic`, in the order it tests them. */
  const TopicRules: seq<KeywordRule<Topic>> := [
    KeywordRule(["emergency"], EmergencyRoom),
    KeywordRule(["software", "deployment"], SoftwareDeployment),
    KeywordRule(["business", "investment"], BusinessInvestment)
  ]

  /** The keyword groups of the template choice in `process_prompt`, in the
      order it tests them; its final `else` also yields the business pair. */
  const TemplateRules: seq<KeywordRule<TemplateKind>> := [
    KeywordRule(["emergency", "hospital"], EmergencyTemplate),
    KeywordRule(["software", "deployment"], SoftwareTemplate),
    KeywordRule(["business", "investment"], BusinessTemplate)
  ]

  /** `extract_topic(content)`: the ordered first match over its keyword
      table on the lower-cased body, with `generic_decision` as the
      fallback. */
  function ExtractTopic(content: string): (t: Topic)
    ensures t == FirstMatch(TopicRules, Lower(content), GenericDecision)
  {
    var text := Lower(content);
    FiresOne(TopicRules[0], text);
    FiresTwo(TopicRules[1], text);
    FiresTwo(TopicRules[2], text);
    assert TopicRules[1..][1..] == [TopicRules[2]];
    assert TopicRules[1..][1..][1..] == [];
    if Contains(text, "emergency") then EmergencyRoom
    else if Contains(text, "software") || Contains(text, "deployment") then SoftwareDeployment
    else if Contains(text, "business") || Contains(text, "investment") then BusinessInvestment
    else GenericDecision
  }

  /** The template choice of `process_prompt(prompt_data)`: the ordered
      first match over its own keyword table, with the business pair as the
      fallback. */
  function ChooseTemplate(content: string): (k: TemplateKind)
    ensures k == FirstMatch(TemplateRules, Lower(content), BusinessTemplate)
  {
    var text := Lower(content);
    FiresTwo(TemplateRules[0], text);
    FiresTwo(TemplateRules[1], text);
    FiresTwo(TemplateRules[2], text);
    assert TemplateRules[1..][1..] == [TemplateRules[2]];
    assert TemplateRules[1..][1..][1..] == [];
    if Contains(text, "emergency") || Contains(text, "hospital") then EmergencyTemplate
    else if Contains(text, "software") || Contains(text, "deployment") then SoftwareTemplate
    else if Contains(text, "business") || Contains(text, "investment") then BusinessTemplate
    else BusinessTemplate
  }

  lemma FiresOne<L>(rule: KeywordRule<L>, text: string)
    requires |rule.keywords| == 1
    ensures Fires(rule, text) <==> Contains(text, rule.keywords[0])
  {
    if Contains(text, rule.keywords[0]) {
      assert 0 < |rule.keywords|;
    }
  }

  lemma FiresTwo<L>(rule: KeywordRule<L>, text: string)
    requires |rule.keywords| == 2
    ensures Fires(rule, text) <==> Contains(text, rule.keywords[0]) || Contains(text, rule.keywords[1])
  {
    if Contains(text, rule.keywords[0]) {
      assert 0 < |rule.keywords|;
    }
    if Contains(text, rule.keywords[1]) {
      assert 1 < |rule.keywords|;
    }
  }

  /** What `extract_topic` returns, keyword by keyword: `emergency` wins
      over everything, and `generic_decision` means that none of the five
      keywords occurs. */
  lemma TopicByKeywords(content: string)
    ensures var text := Lower(content);
      && (ExtractTopic(content) == EmergencyRoom <==> Contains(text, "emergency"))
      && (ExtractTopic(content) == SoftwareDeployment <==>
            !Contains(text, "emergency") && (Contains(text, "software") || Contains(text, "deployment")))
      && (ExtractTopic(content) == BusinessInvestment <==>
            !Contains(text, "emergency") && !Contains(text, "software") && !Contains(text, "deployment")
            && (Contains(text, "business") || Contains(text, "investment")))
      && (ExtractTopic(content) == GenericDecision <==>
            !Contains(text, "emergency") && !Contains(text, "software") && !Contains(text, "deployment")
            && !Contains(text, "business") && !Contains(text, "investment"))
  {
  }

  /** Classification ignores ASCII case: a body and its lower-cased form get
      the same topic and the same template. */
  lemma CaseInsensitive(content: string)
    ensures ExtractTopic(Lower(content)) == ExtractTopic(content)
    ensures ChooseTemplate(Lower(content)) == ChooseTemplate(content)
  {
    LowerIdempotent(content);
  }

  /** The pair a topic label stands for; the generic label reuses the
      business pair, as the default branch of `process_prompt` does. */
  function TemplateOf(t: Topic): TemplateKind {
    match t
    case EmergencyRoom => EmergencyTemplate
    case SoftwareDeployment => SoftwareTemplate
    case BusinessInvestment => BusinessTemplate
    case GenericDecision => BusinessTemplate
  }

  /** Topic and template agree except through `hospital`: a body that
      mentions `hospital` always gets the emergency pair, and the chosen
      pair differs from the one the topic stands for exactly when the body
      mentions `hospital` but not `emergency`. */
  lemma TemplateVersusTopic(content: string)
    ensures var text := Lower(content);
      && (!Contains(text, "hospital") ==> ChooseTemplate(content) == TemplateOf(ExtractTopic(content)))
      && (Contains(text, "hospital") ==> ChooseTemplate(content) == EmergencyTemplate)
      && (ChooseTemplate(content) != TemplateOf(ExtractTopic(content)) <==>
            Contains(text, "hospital") && !Contains(text, "emergency"))
  {
  }

  /** A text lacking the letters `y`, `w`, `b` and `v` contains none of the
      five topic keywords. */
  lemma NoKeywordLetters(text: string)
    requires 'y' !in text && 'w' !in text && 'b' !in text && 'v' !in text
    ensures !Contains(text, "emergency") && !Contains(text, "software") && !Contains(text, "deployment")
    ensures !Contains(text, "business") && !Contains(text, "investment")
  {
    MissingCharMeansAbsent(text, "emergency", 'y');
    MissingCharMeansAbsent(text, "software", 'w');
    MissingCharMeansAbsent(text, "deployment", 'y');
    MissingCharMeansAbsent(text, "business", 'b');
    MissingCharMeansAbsent(text, "investment", 'v');
  }

  // Worked examples. Those that need a string in several steps take it as
  // a parameter fixed by `requires x == "..."`, so that the verifier
  // reasons about a symbolic string and does not unfold `Lower` and
  // `Contains` over the literal at every step.

  /** A body that only mentions a hospital is labelled `generic_decision`
      yet gets the emergency pair. */
  lemma HospitalOnly()
    ensures ExtractTopic("Go to the Hospital?") == GenericDecision
    ensures ChooseTemplate("Go to the Hospital?") == EmergencyTemplate
  {
    HospitalOnlyLowered();
    HospitalOnlyKeywords("go to the hospital?");
  }

  lemma HospitalOnlyLowered()
    ensures Lower("Go to the Hospital?") == "go to the hospital?"
  {
  }

  lemma HospitalOnlyKeywords(text: string)
    requires text == "go to the hospital?"
    ensures Contains(text, "hospital")
    ensures !Contains(text, "emergency") && !Contains(text, "software") && !Contains(text, "deployment")
    ensures !Contains(text, "business") && !Contains(text, "investment")
  {
    HospitalOccurs(text);
    HospitalOnlyAbsent(text);
  }

  lemma HospitalOccurs(text: string)
    requires text == "go to the hospital?"
    ensures Contains(text, "hospital")
  {
    var w := text[10..18];
    forall k | 0 <= k < 8
      ensures w[k] == "hospital"[k]
    {
      assert w[k] == text[10 + k];
    }
    assert w == "hospital";
    assert OccursAt(text, "hospital", 10);
  }

  lemma HospitalOnlyAbsent(text: string)
    requires text == "go to the hospital?"
    ensures !Contains(text, "emergency") && !Contains(text, "software") && !Contains(text, "deployment")
    ensures !Contains(text, "business") && !Contains(text, "investment")
  {
    assert 'y' !in text && 'w' !in text && 'b' !in text && 'v' !in text;
    NoKeywordLetters(text);
  }

  /** A body that mentions none of the keywords of either table is labelled
      `generic_decision` and gets the business pair. */
  lemma ChestPainIsGeneric(body: string)
    requires body == "Patient has chest pain"
    ensures ExtractTopic(body) == GenericDecision
    ensures ChooseTemplate(body) == BusinessTemplate
  {
    ChestPainLowered(body);
    ChestPainKeywords(Lower(body));
  }

  lemma ChestPainLowered(body: string)
    requires body == "Patient has chest pain"
    ensures Lower(body) == "patient has chest pain"
  {
  }

  lemma ChestPainKeywords(text: string)
    requires text == "patient has chest pain"
    ensures !Contains(text, "emergency") && !Contains(text, "software") && !Contains(text, "deployment")
    ensures !Contains(text, "business") && !Contains(text, "investment") && !Contains(text, "hospital")
  {
    ChestPainLetters(text);
    NoKeywordLetters(text);
    MissingCharMeansAbsent(text, "hospital", 'o');
  }

  lemma ChestPainLetters(text: string)
    requires text == "patient has chest pain"
    ensures 'y' !in text && 'w' !in text && 'b' !in text && 'v' !in text && 'o' !in text
  {
  }
}
