/** `validate_response_quality`: the structural and length checks a generated
    suggestion must pass before the OpenAI client accepts it. */
module QualityGate {
  import opened Strings
  import opened Sequences
  import Sections

  const MinResponseLength: nat := 300
  const MinStrengthsLength: nat := 100
  const MinImprovementsLength: nat := 200
  const MinImprovementBullets: nat := 4
  const MinProTipLength: nat := 50
  const MaxGenericPhrases: nat := 2

  const GenericPhrases: seq<string> :=
    ["customize your resume", "tailor your application", "add more keywords", "improve your resume"]

  /** `phrase.lower() in text.lower()`. */
  predicate OccursIgnoringCase(phrase: string, text: string) {
    Contains(Lower(text), Lower(phrase))
  }

  /** How many of `phrases` occur in `text`, both lower-cased. */
  function CountContained(phrases: seq<string>, text: string): (n: nat)
    ensures n == |set k | 0 <= k < |phrases| && OccursIgnoringCase(phrases[k], text)|
    ensures n <= |phrases|
    ensures n == 0 <==> forall k :: 0 <= k < |phrases| ==> !OccursIgnoringCase(phrases[k], text)
  {
    var flags := seq(|phrases|, k requires 0 <= k < |phrases| => OccursIgnoringCase(phrases[k], text));
    assert forall k :: 0 <= k < |phrases| ==> flags[k] == OccursIgnoringCase(phrases[k], text);
    assert (set k | 0 <= k < |phrases| && OccursIgnoringCase(phrases[k], text))
      == (set k | 0 <= k < |flags| && flags[k]);
    CountTrue(flags)
  }

  function GenericCount(response: string): nat {
    CountContained(GenericPhrases, response)
  }

  predicate HasAllMarkers(response: string) {
    Contains(response, Sections.Strengths)
    && Contains(response, Sections.Improvements)
    && Contains(response, Sections.ProTip)
  }

  /** The text after the first strengths marker, up to the next one. */
  function StrengthsTail(response: string): string
    requires Contains(response, Sections.Strengths)
  {
    Between(response, Sections.Strengths)
  }

  /** The strengths section: the strengths tail cut at the improvements marker. */
  function StrengthsSection(response: string): string
    requires Contains(response, Sections.Strengths)
  {
    Before(StrengthsTail(response), Sections.Improvements)
  }

  /** The improvements section: the part of the strengths tail after its first
      improvements marker (up to a second one), cut at the pro-tip marker. */
  function ImprovementsSection(response: string): string
    requires Contains(response, Sections.Strengths)
    requires Contains(StrengthsTail(response), Sections.Improvements)
  {
    var tail := Between(StrengthsTail(response), Sections.Improvements);
    if Contains(tail, Sections.ProTip) then Before(tail, Sections.ProTip) else tail
  }

  /** The pro-tip section: the text after the first pro-tip marker, up to the next one. */
  function ProTipSection(response: string): string
    requires Contains(response, Sections.ProTip)
  {
    Between(response, Sections.ProTip)
  }

  /** The per-section checks, applied only when an improvements marker follows the
      first strengths marker (before any second strengths marker). */
  predicate SectionsAdequate(response: string)
    requires Contains(response, Sections.Strengths)
  {
    Contains(StrengthsTail(response), Sections.Improvements) ==>
      && |Strip(StrengthsSection(response))| >= MinStrengthsLength
      && |Strip(ImprovementsSection(response))| >= MinImprovementsLength
      && CountChar(ImprovementsSection(response), Sections.Bullet) >= MinImprovementBullets
  }

  /** `validate_response_quality`; `QualityGateSound` and `QualityGateComplete` state
      what it accepts. */
  function ValidateResponseQuality(response: string): (ok: bool)
    ensures ok ==> |Strip(response)| >= MinResponseLength
  {
    if response == [] || |Strip(response)| < MinResponseLength then false
    else if !HasAllMarkers(response) then false
    else if !SectionsAdequate(response) then false
    else if |Strip(ProTipSection(response))| < MinProTipLength then false
    else GenericCount(response) <= MaxGenericPhrases
  }

  /** A response that passes meets every check: its stripped length, the three markers,
      the section lengths and bullets when the improvements marker follows the strengths
      marker, the pro tip, and the cap on generic phrases. */
  lemma QualityGateSound(response: string)
    requires ValidateResponseQuality(response)
    ensures |Strip(response)| >= MinResponseLength
    ensures HasAllMarkers(response)
    ensures Contains(StrengthsTail(response), Sections.Improvements) ==>
      && |Strip(StrengthsSection(response))| >= MinStrengthsLength
      && |Strip(ImprovementsSection(response))| >= MinImprovementsLength
      && CountChar(ImprovementsSection(response), Sections.Bullet) >= MinImprovementBullets
    ensures |Strip(ProTipSection(response))| >= MinProTipLength
    ensures GenericCount(response) <= MaxGenericPhrases
  {
  }

  /** The checks `QualityGateSound` lists are also sufficient: a response meeting all of
      them passes. */
  lemma QualityGateComplete(response: string)
    requires |Strip(response)| >= MinResponseLength
    requires HasAllMarkers(response)
    requires Contains(StrengthsTail(response), Sections.Improvements) ==>
      && |Strip(StrengthsSection(response))| >= MinStrengthsLength
      && |Strip(ImprovementsSection(response))| >= MinImprovementsLength
      && CountChar(ImprovementsSection(response), Sections.Bullet) >= MinImprovementBullets
    requires |Strip(ProTipSection(response))| >= MinProTipLength
    requires GenericCount(response) <= MaxGenericPhrases
    ensures ValidateResponseQuality(response)
  {
  }
}
