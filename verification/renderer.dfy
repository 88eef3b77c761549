/** `formatSuggestions` of `frontend/script.js`: the suggestion text is rendered line by
    line into HTML, with the open list or tip block tracked in a state that the section
    header lines switch and that decides the closing tags. */
module Renderer {
  import opened Strings
  import Sections

  /** The value passed in: a string, or anything else (`typeof text !== 'string'`). */
  datatype Input = Text(s: string) | NotText

  /** `currentList`: `null`, `'strength'`, `'improvement'` or `'tip'`. */
  datatype ListState = NoList | StrengthList | ImprovementList | TipList

  /** The fragment one line adds and the state after it. */
  datatype Step = Step(state: ListState, html: string)

  /** The markup around each header title: what opens the section up to the title,
      and what follows the title up to the opened list or tip block. Opening the
      improvements and the tip section starts by closing a list. */
  datatype Markup = Markup(
    strengthOpen: string, strengthClose: string,
    improvementOpen: string, improvementClose: string,
    tipOpen: string, tipClose: string)

  /** The markup of lines 137-160. */
  const SourceMarkup: Markup := Markup(
    "<div class=\"suggestion-section strength-section\">\n                <div class=\"section-header strength-header\">\n                  <i class=\"fas fa-check-circle\"></i> ",
    "\n                </div>\n                <ul class=\"suggestion-list\">",
    "</ul></div>\n              <div class=\"suggestion-section improvement-section\">\n                <div class=\"section-header improvement-header\">\n                  <i class=\"fas fa-search-plus\"></i> ",
    "\n                </div>\n                <ul class=\"suggestion-list\">",
    "</ul></div>\n              <div class=\"suggestion-section tip-section\">\n                <div class=\"section-header tip-header\">\n                  <i class=\"fas fa-lightbulb\"></i> ",
    "\n                </div>\n                <div class=\"tip-content\">")

  const NoSuggestions: string := "<p class=\"no-suggestions\">No suggestions available</p>"

  /** The UTF-16 code units of a character: two for one outside the basic plane. */
  function CodeUnits(c: char): nat {
    if c as int >= 0x1_0000 then 2 else 1
  }

  /** The UTF-16 length of a string. */
  function Units(s: string): nat {
    if |s| == 0 then 0 else CodeUnits(s[0]) + Units(s[1..])
  }

  /** JavaScript's `s.substring(n)`: drops the first `n` UTF-16 code units (see
      `SubstringDropsUnits`). A cut through a surrogate pair drops the whole character
      (a lone surrogate is not a character here). */
  function Substring(s: string, n: nat): (r: string)
    ensures |r| <= |s| && r == s[|s| - |r|..]
  {
    if n == 0 || |s| == 0 then s
    else if CodeUnits(s[0]) >= n then s[1..]
    else Substring(s[1..], n - CodeUnits(s[0]))
  }

  /** The units of a non-empty prefix: its first character's and those of the rest. */
  lemma UnitsOfPrefix(s: string, k: nat)
    requires 1 <= k <= |s|
    ensures Units(s[..k]) == CodeUnits(s[0]) + Units(s[1..][..k - 1])
  {
    assert s[..k][1..] == s[1..][..k - 1];
  }

  /** The prefix `substring(n)` drops is the shortest one of at least `n` code units,
      or the whole string when it has fewer. */
  lemma SubstringDropsUnits(s: string, n: nat)
    ensures var r := Substring(s, n);
      Units(s[..|s| - |r|]) >= n || r == []
    ensures var r := Substring(s, n);
      |r| < |s| ==> Units(s[..|s| - |r| - 1]) < n
  {
    SubstringDropsEnough(s, n);
    SubstringDropsNoMore(s, n);
  }

  /** The dropped prefix holds at least `n` code units unless nothing is left. */
  lemma {:induction false} SubstringDropsEnough(s: string, n: nat)
    ensures Units(s[..|s| - |Substring(s, n)|]) >= n || Substring(s, n) == []
    decreases |s|
  {
    if n == 0 || |s| == 0 {
    } else if CodeUnits(s[0]) >= n {
      UnitsOfPrefix(s, 1);
    } else {
      var t := s[1..];
      SubstringDropsEnough(t, n - CodeUnits(s[0]));
      if Substring(t, n - CodeUnits(s[0])) != [] {
        UnitsOfPrefix(s, |s| - |Substring(t, n - CodeUnits(s[0]))|);
      }
    }
  }

  /** Without its last character the dropped prefix holds fewer than `n` code units. */
  lemma {:induction false} SubstringDropsNoMore(s: string, n: nat)
    ensures |Substring(s, n)| < |s| ==> Units(s[..|s| - |Substring(s, n)| - 1]) < n
    decreases |s|
  {
    if n == 0 || |s| == 0 {
    } else if CodeUnits(s[0]) >= n {
      assert s[..0] == [];
    } else {
      var t := s[1..];
      var cut := |s| - |Substring(t, n - CodeUnits(s[0]))|;
      SubstringDropsNoMore(t, n - CodeUnits(s[0]));
      if cut >= 2 {
        UnitsOfPrefix(s, cut - 1);
      } else {
        assert s[..cut - 1] == [];
      }
    }
  }

  /** The header title of a strengths line: the sparkle is one code unit, so
      `substring(2)` drops it and the space after it. */
  lemma StrengthTitle(line: string)
    requires StartsWith(line, Sections.Strengths)
    ensures Substring(line, 2) == line[2..]
  {
    assert line[0] == Sections.Strengths[0];
    assert line[1] == Sections.Strengths[1];
    assert line[1..][1..] == line[2..];
  }

  /** The header title of an improvements line: the magnifier is a surrogate pair, so
      `substring(2)` drops only the emoji and keeps the space. */
  lemma ImprovementTitle(line: string)
    requires StartsWith(line, Sections.Improvements)
    ensures Substring(line, 2) == line[1..]
  {
    assert line[0] == Sections.Improvements[0];
  }

  /** The header title of a pro-tip line: the light bulb is a surrogate pair too. */
  lemma TipTitle(line: string)
    requires StartsWith(line, Sections.ProTip)
    ensures Substring(line, 2) == line[1..]
  {
    assert line[0] == Sections.ProTip[0];
  }

  /** The state a header line switches to, if the line is a header. */
  function HeaderState(line: string): Option<ListState> {
    if StartsWith(line, Sections.Strengths) then Some(StrengthList)
    else if StartsWith(line, Sections.Improvements) then Some(ImprovementList)
    else if StartsWith(line, Sections.ProTip) then Some(TipList)
    else None
  }

  /** An item line: a paragraph inside the tip block, a list item elsewhere. */
  function Item(state: ListState, content: string): string {
    if state == TipList then "<p>" + content + "</p>" else "<li>" + content + "</li>"
  }

  /** Lines 136-180: the fragment for one line. */
  function LineStep(m: Markup, state: ListState, line: string): (step: Step)
    ensures step.state == if HeaderState(line).Some? then HeaderState(line).value else state
    ensures StartsWith(line, Sections.Strengths) ==> step.html == m.strengthOpen + line[2..] + m.strengthClose
    ensures StartsWith(line, Sections.Improvements) ==> step.html == m.improvementOpen + line[1..] + m.improvementClose
    ensures StartsWith(line, Sections.ProTip) ==> step.html == m.tipOpen + line[1..] + m.tipClose
    ensures HeaderState(line).None? && StartsWith(line, [Sections.Bullet]) ==>
      step.html == Item(state, Strip(line[1..]))
    ensures HeaderState(line).None? && !StartsWith(line, [Sections.Bullet]) && Strip(line) != [] ==>
      step.html == if state == NoList then "" else Item(state, line)
  {
    if StartsWith(line, Sections.Strengths) then
      StrengthTitle(line);
      Step(StrengthList, m.strengthOpen + Substring(line, 2) + m.strengthClose)
    else if StartsWith(line, Sections.Improvements) then
      ImprovementTitle(line);
      Step(ImprovementList, m.improvementOpen + Substring(line, 2) + m.improvementClose)
    else if StartsWith(line, Sections.ProTip) then
      TipTitle(line);
      Step(TipList, m.tipOpen + Substring(line, 2) + m.tipClose)
    else if StartsWith(line, [Sections.Bullet]) then
      Step(state, Item(state, Strip(Substring(line, 1))))
    else if Strip(line) == [] then
      Step(state, "")
    else if state == TipList then
      Step(state, "<p>" + line + "</p>")
    else if state != NoList then
      Step(state, "<li>" + line + "</li>")
    else
      Step(state, "")
  }

  /** A blank or whitespace-only line adds nothing and keeps the state. */
  lemma BlankLineSilent(m: Markup, state: ListState, line: string)
    requires Strip(line) == []
    ensures LineStep(m, state, line) == Step(state, "")
  {
    StripKeepsHead(line);
  }

  /** The `forEach` over the lines with the per-line step `step`: the fragments in
      order and the final state. */
  function Fold(step: (ListState, string) -> Step, state: ListState, lines: seq<string>): Step
    decreases |lines|
  {
    if |lines| == 0 then Step(state, "")
    else
      var first := step(state, lines[0]);
      var rest := Fold(step, first.state, lines[1..]);
      Step(rest.state, first.html + rest.html)
  }

  /** Folding two blocks of lines in turn is folding them together, for any step. */
  lemma {:induction false} FoldAppend(step: (ListState, string) -> Step, state: ListState, a: seq<string>, b: seq<string>)
    ensures Fold(step, state, a + b) ==
      Step(Fold(step, Fold(step, state, a).state, b).state, Fold(step, state, a).html + Fold(step, Fold(step, state, a).state, b).html)
    decreases |a|
  {
    if |a| == 0 {
      assert a + b == b;
    } else {
      assert (a + b)[0] == a[0];
      assert (a + b)[1..] == a[1..] + b;
      FoldAppend(step, step(state, a[0]).state, a[1..], b);
    }
  }

  /** A step that never leaves an open section keeps every fold's section open. */
  lemma {:induction false} FoldKeepsOpen(step: (ListState, string) -> Step, state: ListState, lines: seq<string>)
    requires forall st, line :: st != NoList ==> step(st, line).state != NoList
    requires state != NoList
    ensures Fold(step, state, lines).state != NoList
    decreases |lines|
  {
    if |lines| > 0 {
      FoldKeepsOpen(step, step(state, lines[0]).state, lines[1..]);
    }
  }

  /** `LineStep` with the markup `m`, as the step of the fold. */
  function StepOf(m: Markup): (ListState, string) -> Step {
    (state: ListState, line: string) => LineStep(m, state, line)
  }

  /** The `forEach` over the lines: the fragments in order and the final state. No
      line sets `currentList` back to `null`, so an open section stays open. */
  function Run(m: Markup, state: ListState, lines: seq<string>): (r: Step)
    ensures state != NoList ==> r.state != NoList
  {
    if state != NoList then FoldKeepsOpen(StepOf(m), state, lines); Fold(StepOf(m), state, lines)
    else Fold(StepOf(m), state, lines)
  }

  /** Rendering two blocks of lines in turn is rendering them together. */
  lemma RunAppend(m: Markup, state: ListState, a: seq<string>, b: seq<string>)
    ensures Run(m, state, a + b) ==
      Step(Run(m, Run(m, state, a).state, b).state, Run(m, state, a).html + Run(m, Run(m, state, a).state, b).html)
  {
    FoldAppend(StepOf(m), state, a, b);
  }

  /** Rendering one line is that line's step. */
  lemma RunOne(m: Markup, state: ListState, line: string)
    ensures Run(m, state, [line]) == LineStep(m, state, line)
  {
    var step := LineStep(m, state, line);
    assert [line][1..] == [];
    assert StepOf(m)(state, line) == step;
    assert Fold(StepOf(m), step.state, []) == Step(step.state, "");
    assert step.html + "" == step.html;
  }

  /** A blank line anywhere can be removed without changing the output. */
  lemma BlankLineRemovable(m: Markup, state: ListState, a: seq<string>, blank: string, b: seq<string>)
    requires Strip(blank) == []
    ensures Run(m, state, a + [blank] + b) == Run(m, state, a + b)
  {
    var mid := Run(m, state, a).state;
    RunAppend(m, state, a + [blank], b);
    RunAppend(m, state, a, [blank]);
    BlankLineSilent(m, mid, blank);
    RunOne(m, mid, blank);
    RunAppend(m, state, a, b);
  }

  /** The state set by the last header line, scanning back from the end; `initial`
      when no line is a header. */
  function LastHeader(lines: seq<string>, initial: ListState): ListState {
    if |lines| == 0 then initial
    else if HeaderState(lines[|lines| - 1]).Some? then HeaderState(lines[|lines| - 1]).value
    else LastHeader(lines[..|lines| - 1], initial)
  }

  /** The final state of the fold is the state named by the last header line. */
  lemma {:induction false} RunEndsInLastHeader(m: Markup, state: ListState, lines: seq<string>)
    ensures Run(m, state, lines).state == LastHeader(lines, state)
    decreases |lines|
  {
    if |lines| > 0 {
      var init := lines[..|lines| - 1];
      var last := lines[|lines| - 1];
      assert lines == init + [last];
      RunAppend(m, state, init, [last]);
      RunOne(m, Run(m, state, init).state, last);
      RunEndsInLastHeader(m, state, init);
    }
  }

  /** Before the first header, only bullet lines produce anything. */
  lemma {:induction false} NothingBeforeHeaders(m: Markup, lines: seq<string>)
    requires forall i :: 0 <= i < |lines| ==> HeaderState(lines[i]).None? && !StartsWith(lines[i], [Sections.Bullet])
    ensures Run(m, NoList, lines) == Step(NoList, "")
    decreases |lines|
  {
    if |lines| > 0 {
      if Strip(lines[0]) == [] {
        BlankLineSilent(m, NoList, lines[0]);
      }
      NothingBeforeHeaders(m, lines[1..]);
    }
  }

  /** Lines 182-186: the tags that close the block left open. */
  function Suffix(state: ListState): (s: string)
    ensures s == [] <==> state == NoList
    ensures state != NoList ==> |s| >= 6 && s[|s| - 6..] == "</div>"
    ensures state == StrengthList || state == ImprovementList ==> s[..5] == "</ul>"
    ensures state == TipList ==> s[..6] == "</div>"
  {
    match state
    case StrengthList => "</ul></div>"
    case ImprovementList => "</ul></div>"
    case TipList => "</div></div>"
    case NoList => ""
  }

  /** `formatSuggestions` (with the markup of `SourceMarkup`): the fixed paragraph for a non-string value; otherwise the
      fragments of the lines split at '\n', closed according to the last header. */
  function FormatSuggestions(m: Markup, input: Input): (html: string)
    ensures input.NotText? ==> html == NoSuggestions
    ensures input.Text? ==>
      var lines := SplitOn(input.s, '\n');
      html == Run(m, NoList, lines).html + Suffix(LastHeader(lines, NoList))
  {
    match input
    case NotText => NoSuggestions
    case Text(s) =>
      var lines := SplitOn(s, '\n');
      var r := Run(m, NoList, lines);
      RunEndsInLastHeader(m, NoList, lines);
      r.html + Suffix(r.state)
  }
}
