/** The Hugging Face client: the request headers, the text pulled out of a model's
    JSON result and its acceptance, the re-wrapping of accepted text into the
    three-section layout, the keyword, industry and seniority detection of the
    template fallback, and the models-by-attempts loop of `get_ai_response`. The HTTP
    call is a parameter: the decoded result of the n-th query. */
module HuggingFace {
  import opened Strings
  import opened Sequences
  import Sections

  /** `get_headers`, with the `HUGGINGFACE_API_KEY` setting as a parameter (`None` when
      it is unset). An empty key is falsy and sends no authorization. */
  function GetHeaders(apiKey: Option<string>): (h: map<string, string>)
    ensures "Content-Type" in h && h["Content-Type"] == "application/json"
    ensures "User-Agent" in h && h["User-Agent"] == "ResumeMatch/1.0"
    ensures "Authorization" in h <==> apiKey.Some? && apiKey.value != []
    ensures "Authorization" in h ==> h["Authorization"] == "Bearer " + apiKey.value
    ensures h.Keys <= {"Content-Type", "User-Agent", "Authorization"}
  {
    var base := map["Content-Type" := "application/json", "User-Agent" := "ResumeMatch/1.0"];
    if apiKey.Some? && apiKey.value != [] then base["Authorization" := "Bearer " + apiKey.value] else base
  }

  /** A JSON value as `response.json()` decodes it (numbers kept as integers). */
  datatype Json =
    | JNull
    | JBool(b: bool)
    | JNumber(n: int)
    | JString(s: string)
    | JList(items: seq<Json>)
    | JObject(fields: map<string, Json>)

  /** Python truthiness of a decoded value: the `if result:` test. The falsy values
      are `None`, `False`, `0`, `""`, `[]` and `{}`. */
  function Truthy(j: Json): (b: bool)
    ensures !b <==> j in {JNull, JBool(false), JNumber(0), JString([]), JList([]), JObject(map[])}
  {
    match j
    case JNull => false
    case JBool(b) => b
    case JNumber(n) => n != 0
    case JString(s) => s != []
    case JList(items) => |items| > 0
    case JObject(fields) => |fields| > 0
  }

  /** What the extraction block leaves in `response_text`, or that it raised (which the
      attempt's handler catches). */
  datatype Extracted = Value(v: Json) | Raised

  const Empty: Extracted := Value(JString(""))

  /** `"generated_text" in rec`, then `"text" in rec`, each followed by `rec[key]`: a key
      test on a dict; on a string a substring test and on a list an element test, after
      which the index raises; on any other value the `in` itself raises. */
  function ReadRecord(rec: Json): (e: Extracted)
    ensures rec.JObject? && "generated_text" in rec.fields ==> e == Value(rec.fields["generated_text"])
    ensures rec.JObject? && "generated_text" !in rec.fields && "text" in rec.fields ==> e == Value(rec.fields["text"])
    ensures rec.JObject? && "generated_text" !in rec.fields && "text" !in rec.fields ==> e == Empty
    ensures !rec.JObject? ==> e == Empty || e == Raised
  {
    match rec
    case JObject(fields) =>
      if "generated_text" in fields then Value(fields["generated_text"])
      else if "text" in fields then Value(fields["text"])
      else Empty
    case JString(s) =>
      if Contains(s, "generated_text") || Contains(s, "text") then Raised else Empty
    case JList(items) =>
      if JString("generated_text") in items || JString("text") in items then Raised else Empty
    case _ => Raised
  }

  /** Lines 99-110: a non-empty list is read through its first element, a dict
      directly; any other result leaves the empty string. */
  function ExtractResponseText(result: Json): (e: Extracted)
    ensures result.JList? && |result.items| > 0 ==> e == ReadRecord(result.items[0])
    ensures result.JObject? ==> e == ReadRecord(result)
    ensures !result.JList? && !result.JObject? ==> e == Empty
  {
    match result
    case JList(items) => if |items| > 0 then ReadRecord(items[0]) else Empty
    case JObject(_) => ReadRecord(result)
    case _ => Empty
  }

  /** A dict result and a list holding that dict first give the same text. */
  lemma {:induction false} ListOfRecordReadsRecord(rec: Json, rest: seq<Json>)
    requires rec.JObject?
    ensures ExtractResponseText(JList([rec] + rest)) == ExtractResponseText(rec)
  {
    assert ([rec] + rest)[0] == rec;
  }

  const MinAcceptedLength: nat := 100

  /** Line 112: the response is accepted when the extracted value is a non-empty
      string more than 100 characters long once stripped; `None` when the query
      failed, the result is falsy, or the extracted value is anything else. */
  function AcceptedText(result: Option<Json>): (t: Option<string>)
    ensures t.Some? ==> |Strip(t.value)| > MinAcceptedLength
    ensures t.Some? ==>
      result.Some? && Truthy(result.value) && ExtractResponseText(result.value) == Value(JString(t.value))
    ensures forall s ::
      (result.Some? && Truthy(result.value) && ExtractResponseText(result.value) == Value(JString(s))
        && |Strip(s)| > MinAcceptedLength) ==> t == Some(s)
  {
    if result.None? || !Truthy(result.value) then None
    else
      match ExtractResponseText(result.value)
      case Value(JString(s)) => if s != [] && |Strip(s)| > MinAcceptedLength then Some(s) else None
      case _ => None
  }

  /** `xs[:n]`. */
  function Take<T>(xs: seq<T>, n: nat): (r: seq<T>)
    ensures |r| <= n && |r| <= |xs| && r == xs[..|r|]
    ensures |xs| <= n ==> r == xs
    ensures |xs| >= n ==> |r| == n
  {
    if |xs| <= n then xs else xs[..n]
  }

  /** The terms of `terms` that occur in `text`, in list order: the loops of lines
      184-186 and 217-219. */
  function Mentioned(terms: seq<string>, text: string): (r: seq<string>)
    ensures IsSubsequence(r, terms)
    ensures forall w :: w in r ==> w in terms && Contains(text, w)
    ensures forall k :: 0 <= k < |terms| && Contains(text, terms[k]) ==> terms[k] in r
  {
    if |terms| == 0 then []
    else if Contains(text, terms[0]) then
      var rest := Mentioned(terms[1..], text);
      assert ([terms[0]] + rest)[1..] == rest;
      [terms[0]] + rest
    else Mentioned(terms[1..], text)
  }

  const JobTerms: seq<string> := [
    "python", "javascript", "java", "react", "angular", "sql", "aws", "docker",
    "kubernetes", "machine learning", "data science", "project management",
    "agile", "scrum", "leadership", "management", "database", "api", "cloud"
  ]

  const ResumeTerms: seq<string> := [
    "experience", "development", "management", "analysis", "design",
    "implementation", "optimization", "collaboration", "leadership", "technical"
  ]

  const MaxPromptKeywords: nat := 8

  /** The first `n` terms of `terms` that occur in `text`, in list order: all of the
      occurring terms when fewer than `n` occur. */
  function FirstMentioned(terms: seq<string>, text: string, n: nat): (r: seq<string>)
    ensures |r| <= n
    ensures IsSubsequence(r, terms)
    ensures forall w :: w in r ==> Contains(text, w)
    ensures |r| < n ==> forall k :: 0 <= k < |terms| && Contains(text, terms[k]) ==> terms[k] in r
    ensures |r| <= |Mentioned(terms, text)| && r == Mentioned(terms, text)[..|r|]
    ensures |Mentioned(terms, text)| >= n ==> |r| == n
  {
    var found := Mentioned(terms, text);
    SubsequenceOfPrefix(found, terms, n);
    Take(found, n)
  }

  /** The term list `extract_keywords_from_prompt` scans for a section type. */
  function PromptTerms(sectionType: string): seq<string> {
    if sectionType == "job" then JobTerms else ResumeTerms
  }

  /** `extract_keywords_from_prompt`: the first eight terms of the job list (for
      `section_type == "job"`) or the resume list (for anything else) that occur in the
      lower-cased prompt, in list order; all of them when fewer than eight occur. */
  function ExtractKeywordsFromPrompt(prompt: string, sectionType: string): (r: seq<string>)
    ensures |r| <= MaxPromptKeywords
    ensures IsSubsequence(r, PromptTerms(sectionType))
    ensures forall w :: w in r ==> Contains(Lower(prompt), w)
    ensures |r| < MaxPromptKeywords ==>
      var terms := PromptTerms(sectionType);
      forall k :: 0 <= k < |terms| && Contains(Lower(prompt), terms[k]) ==> terms[k] in r
    ensures var found := Mentioned(PromptTerms(sectionType), Lower(prompt));
      && |r| <= |found| && r == found[..|r|]
      && (|found| >= MaxPromptKeywords ==> |r| == MaxPromptKeywords)
  {
    FirstMentioned(PromptTerms(sectionType), Lower(prompt), MaxPromptKeywords)
  }

  /** The marker layout both templates share: the strengths marker and its text, the
      improvements marker and its text, the pro-tip marker and its text. */
  function Layout(strengths: string, improvements: string, tip: string): (r: string)
    ensures Contains(r, Sections.Strengths)
    ensures Contains(r, Sections.Improvements)
    ensures Contains(r, Sections.ProTip)
  {
    var head := Sections.Strengths + strengths;
    ContainsPrefix(Sections.Strengths, strengths);
    ContainsLeft(head, Sections.Improvements, Sections.Strengths);
    ContainsLeft(head + Sections.Improvements, improvements, Sections.Strengths);
    ContainsLeft(head + Sections.Improvements + improvements, Sections.ProTip, Sections.Strengths);
    ContainsLeft(head + Sections.Improvements + improvements + Sections.ProTip, tip, Sections.Strengths);
    ContainsSecondOfFive(head, Sections.Improvements, improvements, Sections.ProTip, tip);
    ContainsSelf(Sections.ProTip);
    ContainsRight(head + Sections.Improvements + improvements, Sections.ProTip, Sections.ProTip);
    ContainsLeft(head + Sections.Improvements + improvements + Sections.ProTip, tip, Sections.ProTip);
    head + Sections.Improvements + improvements + Sections.ProTip + tip
  }

  /** Text inside the pro-tip part of the layout is inside the layout. */
  lemma LayoutKeepsTip(strengths: string, improvements: string, tip: string, x: string)
    requires Contains(tip, x)
    ensures Contains(Layout(strengths, improvements, tip), x)
  {
    ContainsRight(Sections.Strengths + strengths + Sections.Improvements + improvements + Sections.ProTip, tip, x);
  }

  /** Text inside the improvements part of the layout is inside the layout. */
  lemma LayoutKeepsImprovements(strengths: string, improvements: string, tip: string, x: string)
    requires Contains(improvements, x)
    ensures Contains(Layout(strengths, improvements, tip), x)
  {
    var a := Sections.Strengths + strengths + Sections.Improvements;
    ContainsRight(a, improvements, x);
    ContainsLeft(a + improvements, Sections.ProTip, x);
    ContainsLeft(a + improvements + Sections.ProTip, tip, x);
  }

  /** The fixed sentences of the two templates around their substituted parts (the
      section markers are not part of it). */
  datatype EnhanceWording = EnhanceWording(
    strengthsLead: string, strengthsTail: string,
    improvementsLead: string, afterJobKeywords: string, afterResumeKeywords: string,
    defaultImprovement: string, improvementsTail: string,
    tipLead: string, defaultTip: string)

  datatype FallbackWording = FallbackWording(
    strengthsLead: string, afterIndustry: string, afterSkills: string, afterLevel: string,
    improvementsLead: string, beforeIndustry: string, beforeSkills: string,
    afterSkillList: string, improvementsTail: string,
    tipLead: string, tipTail: string)

  datatype Wording = Wording(enhance: EnhanceWording, fallback: FallbackWording)

  /** The wording of lines 148-164 and 229-246. */
  const SourceWording: Wording := Wording(
    EnhanceWording(
      "\n\U{2022} Your professional background demonstrates relevant experience in the field\n\U{2022} Technical skills and competencies align with several job requirements\n\U{2022} ",
      "...\n\U{2022} Experience shows progressive career development and growth\n\n",
      " NEEDED\n\U{2022} Incorporate key missing keywords: ",
      " naturally throughout your resume\n\U{2022} Quantify achievements with specific metrics and numbers where possible\n\U{2022} Strengthen your professional summary to highlight most relevant experience\n\U{2022} Add technical skills section if missing, emphasizing: ",
      "\n\U{2022} Optimize resume formatting for ATS compatibility\n\U{2022} Include relevant certifications or projects that demonstrate expertise\n\U{2022} ",
      "Focus on industry-specific terminology and accomplishments",
      "\n\n",
      "\nPosition yourself as the ideal candidate by leading with your strongest qualifications that directly match this role. ",
      "Tailor your resume specifically for this position, emphasizing relevant experience and using keywords from the job description naturally throughout your content."),
    FallbackWording(
      "\n\U{2022} Your background in ",
      " demonstrates relevant industry knowledge and experience\n\U{2022} Technical competencies in ",
      " align with job requirements\n\U{2022} Professional experience shows progressive career development appropriate for ",
      " roles\n\U{2022} Demonstrated ability to work in collaborative environments and deliver results\n\n",
      " NEEDED\n\U{2022} Integrate high-impact keywords naturally: ",
      ", project management, problem-solving\n\U{2022} Quantify achievements with specific metrics (e.g., \"increased efficiency by 25%\", \"managed team of 8\", \"reduced costs by $50K\")\n\U{2022} Strengthen your professional summary to immediately highlight your most relevant ",
      " experience\n\U{2022} Add a dedicated technical skills section showcasing: ",
      "\n\U{2022} Include 2-3 bullet points per role focusing on accomplishments rather than responsibilities\n\U{2022} Optimize resume structure for ATS systems with clear section headers and standard formatting\n\U{2022} Incorporate action verbs like \"developed\", \"implemented\", \"optimized\", \"managed\", \"delivered\"\n\U{2022} Add relevant certifications, projects, or training that demonstrate continuous learning in ",
      "\n\n",
      "\nFor ",
      " roles, lead with your technical achievements and quantifiable business impact. Recruiters scan for specific technologies and measurable results first. Position your most relevant experience prominently and use the exact terminology from the job posting. Consider adding a brief \"Key Achievements\" section at the top highlighting your 3 most impressive accomplishments with numbers and context."))

  /** The text after the fixed pro-tip sentence: the last 200 characters of a text
      longer than 400, characters 100 to 300 of one longer than 100, otherwise a fixed
      sentence. */
  function ProTipTail(t: string, defaultTip: string): (r: string)
    ensures |t| > 400 ==> |r| == 200 && EndsWith(t, r)
    ensures 100 < |t| <= 400 ==> r == t[100..if |t| < 300 then |t| else 300]
    ensures |t| <= 100 ==> r == defaultTip
  {
    if |t| > 400 then t[|t| - 200..] else if |t| > 100 then Slice(t, 100, 300) else defaultTip
  }

  /** `enhance_ai_response`: the stripped text itself when it already holds both the
      strengths and the improvements marker, otherwise the text re-wrapped into the
      three-section template around the prompt's keywords. */
  function EnhanceAIResponse(w: EnhanceWording, aiText: string, prompt: string): (r: string)
    ensures Contains(r, Sections.Strengths) && Contains(r, Sections.Improvements)
    ensures var t := Strip(aiText);
      Contains(t, Sections.Strengths) && Contains(t, Sections.Improvements) ==> r == t
    ensures var t := Strip(aiText);
      !(Contains(t, Sections.Strengths) && Contains(t, Sections.Improvements)) ==>
        Contains(r, Sections.ProTip) && Contains(r, ProTipTail(t, w.defaultTip))
  {
    var t := Strip(aiText);
    if Contains(t, Sections.Strengths) && Contains(t, Sections.Improvements) then t
    else
      var jobKeywords := ExtractKeywordsFromPrompt(prompt, "job");
      var resumeKeywords := ExtractKeywordsFromPrompt(prompt, "resume");
      var strengths := w.strengthsLead + Slice(t, 0, 200) + w.strengthsTail;
      var improvements := w.improvementsLead + Join(Take(jobKeywords, 5), ", ")
        + w.afterJobKeywords + Join(Take(resumeKeywords, 4), ", ")
        + w.afterResumeKeywords + (if |t| > 200 then Slice(t, 200, 400) else w.defaultImprovement)
        + w.improvementsTail;
      var tail := ProTipTail(t, w.defaultTip);
      var tip := w.tipLead + tail;
      ContainsSelf(tail);
      ContainsRight(w.tipLead, tail, tail);
      LayoutKeepsTip(strengths, improvements, tip, tail);
      Layout(strengths, improvements, tip)
  }

  /** Enhancing an already structured reply a second time changes nothing. */
  lemma EnhanceStructuredIsFixed(w: EnhanceWording, aiText: string, prompt: string)
    requires Contains(Strip(aiText), Sections.Strengths) && Contains(Strip(aiText), Sections.Improvements)
    ensures EnhanceAIResponse(w, EnhanceAIResponse(w, aiText, prompt), prompt) == EnhanceAIResponse(w, aiText, prompt)
  {
    StripIdempotent(aiText);
  }

  /** A detection rule: `name` is chosen when any of `words` occurs. */
  datatype Rule = Rule(name: string, words: seq<string>)

  /** The name of the first rule one of whose words occurs in `text`, else
      `otherwise`: the reference reading of an if/elif chain of `in` tests. */
  function FirstMatch(rules: seq<Rule>, text: string, otherwise: string): (name: string)
    ensures name == otherwise || exists k :: 0 <= k < |rules| && name == rules[k].name
  {
    if |rules| == 0 then otherwise
    else if Mentioned(rules[0].words, text) != [] then rules[0].name
    else FirstMatch(rules[1..], text, otherwise)
  }

  const IndustryRules: seq<Rule> := [
    Rule("healthcare", ["healthcare", "medical"]),
    Rule("finance", ["finance", "banking"]),
    Rule("marketing", ["marketing", "sales"]),
    Rule("education", ["education", "teaching"])
  ]

  const LevelRules: seq<Rule> := [
    Rule("senior", ["senior", "lead", "manager"]),
    Rule("junior", ["junior", "entry", "graduate"])
  ]

  /** Lines 202-210 over the lower-cased prompt. */
  function DetectIndustry(p: string): (industry: string)
    ensures industry in {"healthcare", "finance", "marketing", "education", "technology"}
    ensures Contains(p, "healthcare") || Contains(p, "medical") ==> industry == "healthcare"
    ensures industry == "technology" <==>
      !Contains(p, "healthcare") && !Contains(p, "medical") && !Contains(p, "finance") && !Contains(p, "banking")
      && !Contains(p, "marketing") && !Contains(p, "sales") && !Contains(p, "education") && !Contains(p, "teaching")
  {
    if Contains(p, "healthcare") || Contains(p, "medical") then "healthcare"
    else if Contains(p, "finance") || Contains(p, "banking") then "finance"
    else if Contains(p, "marketing") || Contains(p, "sales") then "marketing"
    else if Contains(p, "education") || Contains(p, "teaching") then "education"
    else "technology"
  }

  /** Lines 222-226 over the lower-cased prompt. */
  function DetectLevel(p: string): (level: string)
    ensures level in {"senior", "junior", "mid-level"}
    ensures Contains(p, "senior") || Contains(p, "lead") || Contains(p, "manager") ==> level == "senior"
  {
    if Contains(p, "senior") || Contains(p, "lead") || Contains(p, "manager") then "senior"
    else if Contains(p, "junior") || Contains(p, "entry") || Contains(p, "graduate") then "junior"
    else "mid-level"
  }

  /** A rule fires exactly when one of its words occurs. */
  lemma RuleFires(r: Rule, text: string)
    ensures Mentioned(r.words, text) != [] <==> exists k :: 0 <= k < |r.words| && Contains(text, r.words[k])
  {
    var found := Mentioned(r.words, text);
    if exists k :: 0 <= k < |r.words| && Contains(text, r.words[k]) {
      var k :| 0 <= k < |r.words| && Contains(text, r.words[k]);
      assert r.words[k] in found;
    }
    if found != [] {
      assert found[0] in found;
      var k :| 0 <= k < |r.words| && r.words[k] == found[0];
      assert Contains(text, r.words[k]);
    }
  }

  /** A two-word rule fires when either word occurs. */
  lemma FiresOnTwo(name: string, a: string, b: string, text: string)
    ensures Mentioned(Rule(name, [a, b]).words, text) != [] <==> Contains(text, a) || Contains(text, b)
  {
    RuleFires(Rule(name, [a, b]), text);
  }

  /** A three-word rule fires when any of its words occurs. */
  lemma FiresOnThree(name: string, a: string, b: string, c: string, text: string)
    ensures Mentioned(Rule(name, [a, b, c]).words, text) != [] <==> Contains(text, a) || Contains(text, b) || Contains(text, c)
  {
    var words := [a, b, c];
    RuleFires(Rule(name, words), text);
    if Contains(text, a) { assert Contains(text, words[0]); }
    if Contains(text, b) { assert Contains(text, words[1]); }
    if Contains(text, c) { assert Contains(text, words[2]); }
  }

  /** First-match over a table of two rules. */
  lemma FirstMatchOfTwo(r0: Rule, r1: Rule, text: string, otherwise: string)
    ensures FirstMatch([r0, r1], text, otherwise) ==
      if Mentioned(r0.words, text) != [] then r0.name
      else if Mentioned(r1.words, text) != [] then r1.name
      else otherwise
  {
    assert [r0, r1][1..] == [r1];
    assert [r1][1..] == [];
  }

  /** First-match over a table of four rules. */
  lemma FirstMatchOfFour(r0: Rule, r1: Rule, r2: Rule, r3: Rule, text: string, otherwise: string)
    ensures FirstMatch([r0, r1, r2, r3], text, otherwise) ==
      if Mentioned(r0.words, text) != [] then r0.name
      else if Mentioned(r1.words, text) != [] then r1.name
      else FirstMatch([r2, r3], text, otherwise)
  {
    assert [r0, r1, r2, r3][1..] == [r1, r2, r3];
    assert [r1, r2, r3][1..] == [r2, r3];
  }

  /** The industry chain is the first-match reading of its rule table. */
  lemma IndustryFollowsRules(p: string)
    ensures DetectIndustry(p) == FirstMatch(IndustryRules, p, "technology")
  {
    FirstMatchOfFour(IndustryRules[0], IndustryRules[1], IndustryRules[2], IndustryRules[3], p, "technology");
    assert IndustryRules == [IndustryRules[0], IndustryRules[1], IndustryRules[2], IndustryRules[3]];
    FirstMatchOfTwo(IndustryRules[2], IndustryRules[3], p, "technology");
    FiresOnTwo("healthcare", "healthcare", "medical", p);
    FiresOnTwo("finance", "finance", "banking", p);
    FiresOnTwo("marketing", "marketing", "sales", p);
    FiresOnTwo("education", "education", "teaching", p);
  }

  /** The seniority chain is the first-match reading of its rule table. */
  lemma LevelFollowsRules(p: string)
    ensures DetectLevel(p) == FirstMatch(LevelRules, p, "mid-level")
  {
    FirstMatchOfTwo(LevelRules[0], LevelRules[1], p, "mid-level");
    assert LevelRules == [LevelRules[0], LevelRules[1]];
    FiresOnThree("senior", "senior", "lead", "manager", p);
    FiresOnThree("junior", "junior", "entry", "graduate", p);
  }

  const TechnicalTerms: seq<string> := [
    "python", "javascript", "java", "react", "angular", "node", "sql",
    "aws", "azure", "docker", "kubernetes", "mongodb", "postgresql", "git"
  ]

  /** `", ".join(xs)`, or `fallback` when `xs` is empty. */
  function JoinOr(xs: seq<string>, fallback: string): string {
    if xs != [] then Join(xs, ", ") else fallback
  }

  /** `generate_intelligent_fallback_response`: the template filled with the detected
      industry, the technical terms the prompt mentions (in list order) and the
      detected seniority. */
  function GenerateFallbackResponse(w: FallbackWording, prompt: string): (r: string)
    ensures Contains(r, Sections.Strengths) && Contains(r, Sections.Improvements) && Contains(r, Sections.ProTip)
    ensures var skills := Mentioned(TechnicalTerms, Lower(prompt));
      skills != [] ==> Contains(r, Join(skills, ", "))
  {
    var p := Lower(prompt);
    var industry := DetectIndustry(p);
    var skills := Mentioned(TechnicalTerms, p);
    var level := DetectLevel(p);
    var strengths := w.strengthsLead + industry + w.afterIndustry + JoinOr(Take(skills, 4), "key technologies")
      + w.afterSkills + level + w.afterLevel;
    var allSkills := JoinOr(skills, "programming languages, frameworks, and tools");
    var lead := w.improvementsLead + JoinOr(Take(skills, 3), "industry-specific terms")
      + w.beforeIndustry + industry + w.beforeSkills;
    var improvements := lead + allSkills + w.afterSkillList + industry + w.improvementsTail;
    var tip := w.tipLead + industry + w.tipTail;
    ContainsSecondOfFive(lead, allSkills, w.afterSkillList, industry, w.improvementsTail);
    LayoutKeepsImprovements(strengths, improvements, tip, allSkills);
    Layout(strengths, improvements, tip)
  }

  const BackupModels: seq<string> := [
    "microsoft/DialoGPT-large",
    "facebook/blenderbot-400M-distill",
    "microsoft/DialoGPT-medium",
    "facebook/blenderbot-1B-distill"
  ]

  const MaxInputLength: nat := 2000

  /** The payload's `inputs`: `prompt[:2000]`. */
  function PayloadInput(prompt: string): (input: string)
    ensures |input| == if |prompt| < MaxInputLength then |prompt| else MaxInputLength
    ensures input == prompt[..|input|]
  {
    Slice(prompt, 0, MaxInputLength)
  }

  /** The attempts per model: `range(max_retries)` is empty for a non-positive count. */
  function AttemptsPerModel(maxRetries: int): nat {
    if maxRetries > 0 then maxRetries else 0
  }

  /** The model of each query the nested loops may send, in order: every model of
      `models` repeated `perModel` times. */
  function Schedule(models: seq<string>, perModel: nat): (s: seq<string>)
    ensures |s| == |models| * perModel
    ensures forall i :: 0 <= i < |s| ==> s[i] in models
  {
    if |models| == 0 then []
    else seq(perModel, _ => models[0]) + Schedule(models[1..], perModel)
  }

  /** Query `m * perModel + a` of the schedule goes to model `m`. */
  lemma {:induction false} ScheduleBlocks(models: seq<string>, perModel: nat, m: nat, a: nat)
    requires m < |models| && a < perModel
    ensures m * perModel + a < |Schedule(models, perModel)|
    ensures Schedule(models, perModel)[m * perModel + a] == models[m]
    decreases m
  {
    var head := seq(perModel, _ => models[0]);
    var rest := Schedule(models[1..], perModel);
    assert Schedule(models, perModel) == head + rest;
    if m > 0 {
      ScheduleBlocks(models[1..], perModel, m - 1, a);
      assert m * perModel + a == perModel + ((m - 1) * perModel + a);
    }
  }

  /** One query: the model it is sent to and the payload input. */
  datatype Query = Query(model: string, input: string)

  /** The decoded result of the n-th query, `None` when `query_huggingface_model`
      returned `None` (a non-200 status, a loading model, or an exception). */
  type Responder = (nat, Query) -> Option<Json>

  /** The first query from `n` on whose result is accepted. */
  function FirstAccepted(respond: Responder, schedule: seq<string>, input: string, n: nat): (r: Option<nat>)
    requires n <= |schedule|
    ensures r.Some? ==> n <= r.value < |schedule|
    ensures r.Some? ==> AcceptedText(respond(r.value, Query(schedule[r.value], input))).Some?
    ensures r.Some? ==> forall j :: n <= j < r.value ==> AcceptedText(respond(j, Query(schedule[j], input))).None?
    ensures r.None? ==> forall j :: n <= j < |schedule| ==> AcceptedText(respond(j, Query(schedule[j], input))).None?
    decreases |schedule| - n
  {
    if n == |schedule| then None
    else if AcceptedText(respond(n, Query(schedule[n], input))).Some? then Some(n)
    else FirstAccepted(respond, schedule, input, n + 1)
  }

  /** The first `n` queries of the schedule, all with the same input. */
  function Sent(schedule: seq<string>, input: string, n: nat): (qs: seq<Query>)
    requires n <= |schedule|
    ensures |qs| == n
    ensures forall i :: 0 <= i < n ==> qs[i] == Query(schedule[i], input)
  {
    seq(n, i requires 0 <= i < n => Query(schedule[i], input))
  }

  /** The result of `get_ai_response`: the returned text, the queries sent, and the
      index of the query whose response was used (`None` for the template fallback). */
  datatype AIRun = AIRun(response: string, queries: seq<Query>, used: Option<nat>)

  /** `get_ai_response`: each backup model in turn, `max_retries` queries each, all with
      the prompt cut to 2000 characters; the first accepted response is enhanced and
      returned, and when none is accepted the template fallback is returned. */
  function GetAIResponse(w: Wording, prompt: string, maxRetries: int, respond: Responder): (r: AIRun)
    ensures |r.queries| <= |BackupModels| * AttemptsPerModel(maxRetries)
    ensures forall i :: 0 <= i < |r.queries| ==>
      r.queries[i] == Query(Schedule(BackupModels, AttemptsPerModel(maxRetries))[i], PayloadInput(prompt))
    ensures Contains(r.response, Sections.Strengths) && Contains(r.response, Sections.Improvements)
    ensures r.used.Some? ==>
      && |r.queries| == r.used.value + 1
      && var text := AcceptedText(respond(r.used.value, r.queries[r.used.value]));
        text.Some? && r.response == EnhanceAIResponse(w.enhance, text.value, prompt)
    ensures r.used.Some? ==>
      forall j :: 0 <= j < r.used.value ==> AcceptedText(respond(j, r.queries[j])).None?
    ensures r.used.None? ==>
      && |r.queries| == |BackupModels| * AttemptsPerModel(maxRetries)
      && (forall j :: 0 <= j < |r.queries| ==> AcceptedText(respond(j, r.queries[j])).None?)
      && r.response == GenerateFallbackResponse(w.fallback, prompt)
  {
    var input := PayloadInput(prompt);
    var schedule := Schedule(BackupModels, AttemptsPerModel(maxRetries));
    match FirstAccepted(respond, schedule, input, 0)
    case Some(n) =>
      var text := AcceptedText(respond(n, Query(schedule[n], input))).value;
      AIRun(EnhanceAIResponse(w.enhance, text, prompt), Sent(schedule, input, n + 1), Some(n))
    case None =>
      AIRun(GenerateFallbackResponse(w.fallback, prompt), Sent(schedule, input, |schedule|), None)
  }
}
