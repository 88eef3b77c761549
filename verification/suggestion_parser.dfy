/** The line parser of `get_resume_improvement_suggestions` (lines 37-47 of
    `backend/utils/openai_client.py`): the model's stripped reply is split into lines,
    and every bulleted or numbered line becomes one suggestion. */
module SuggestionParser {
  import opened Strings
  import Sections

  /** The character for a digit value 0..9. */
  function DigitChar(i: nat): char
    requires i < 10
  {
    ('0' as int + i) as char
  }

  /** The label `f"{i}."`. */
  function NumberLabel(i: nat): string
    requires i < 10
  {
    [DigitChar(i), '.']
  }

  /** A line opening with a digit 1..9 and a dot starts with that digit's label. */
  lemma NumberedLine(line: string)
    ensures |line| >= 2 && '1' <= line[0] <= '9' && line[1] == '.' ==>
      exists i :: 1 <= i < 10 && StartsWith(line, NumberLabel(i))
  {
    if |line| >= 2 && '1' <= line[0] <= '9' && line[1] == '.' {
      var i := line[0] as int - '0' as int;
      assert line[..2] == NumberLabel(i);
    }
  }

  /** Lines 40-41: a non-empty line starting with '-', the bullet, '*', or one of
      "1." to "9." (the labels of `range(1, 10)`). */
  function IsListLine(line: string): (b: bool)
    ensures b <==> (
      && |line| > 0
      && (line[0] == '-' || line[0] == Sections.Bullet || line[0] == '*'
          || (|line| >= 2 && '1' <= line[0] <= '9' && line[1] == '.')))
    ensures |line| >= 3 && IsDigit(line[0]) && IsDigit(line[1]) && line[2] == '.' ==> !b
  {
    NumberedLine(line);
    line != []
    && (|| StartsWith(line, "-")
        || StartsWith(line, [Sections.Bullet])
        || StartsWith(line, "*")
        || exists i :: 1 <= i < 10 && StartsWith(line, NumberLabel(i)))
  }

  /** Line 43: the stripped text after the first space; `find` gives -1 on a line
      without a space, so the whole line is kept. */
  function ItemText(line: string): (item: string)
    ensures (forall j :: 0 <= j < |line| ==> line[j] != ' ') ==> item == Strip(line)
    ensures forall k :: 0 <= k < |line| && line[k] == ' ' && (forall j :: 0 <= j < k ==> line[j] != ' ') ==>
      item == Strip(line[k + 1..])
    ensures |item| <= |line|
  {
    var k := FindChar(line, ' ');
    Strip(line[k + 1..])
  }

  /** Whether a raw line yields a suggestion (it is stripped first, line 39). */
  predicate Qualifies(line: string) {
    IsListLine(Strip(line))
  }

  /** No line of `lines` yields a suggestion. */
  predicate NoneQualify(lines: seq<string>) {
    forall i :: 0 <= i < |lines| ==> !Qualifies(lines[i])
  }

  /** The suggestion of a qualifying raw line. */
  function ItemOf(line: string): string {
    ItemText(Strip(line))
  }

  /** `x` is the suggestion of some qualifying line of `lines`. */
  predicate ItemOfSomeLine(x: string, lines: seq<string>) {
    exists i :: 0 <= i < |lines| && Qualifies(lines[i]) && x == ItemOf(lines[i])
  }

  /** The loop of lines 38-43 over the lines of the text. */
  function Items(lines: seq<string>): (items: seq<string>)
    ensures |items| <= |lines|
    ensures items == [] <==> NoneQualify(lines)
    ensures forall x :: x in items ==> ItemOfSomeLine(x, lines)
  {
    if |lines| == 0 then []
    else
      var rest := Items(lines[1..]);
      assert forall i :: 1 <= i < |lines| ==> lines[i] == lines[1..][i - 1];
      assert forall x :: ItemOfSomeLine(x, lines[1..]) ==> ItemOfSomeLine(x, lines);
      if Qualifies(lines[0]) then [ItemOf(lines[0])] + rest else rest
  }

  /** The items of a line alone: one item exactly when the line qualifies. */
  lemma ItemsOfOneLine(line: string)
    ensures Items([line]) == if Qualifies(line) then [ItemOf(line)] else []
  {
    assert [line][1..] == [];
  }

  /** The items of two blocks of lines are the items of the first block followed by
      those of the second: suggestions keep the order of their lines. */
  lemma {:induction false} ItemsOfAppend(a: seq<string>, b: seq<string>)
    ensures Items(a + b) == Items(a) + Items(b)
  {
    if |a| == 0 {
      assert a + b == b;
    } else {
      assert (a + b)[0] == a[0];
      assert (a + b)[1..] == a[1..] + b;
      ItemsOfAppend(a[1..], b);
    }
  }

  /** Lines 37-49: the suggestions of the text, or the whole text as the only
      suggestion when no line qualifies. */
  function ParseSuggestions(text: string): (suggestions: seq<string>)
    ensures |suggestions| >= 1
    ensures NoneQualify(SplitOn(text, '\n')) ==> suggestions == [text]
    ensures !NoneQualify(SplitOn(text, '\n')) ==> suggestions == Items(SplitOn(text, '\n'))
  {
    var items := Items(SplitOn(text, '\n'));
    if items == [] then [text] else items
  }
}
