/** Text preprocessing and the industry-keyword partition of `calculate_match`.

    The NLTK tokenizer is modelled as a split on whitespace runs and the NLTK stopword
    corpus as a parameter `stop`; the TF-IDF score is not part of this model. */
module Matcher {
  import opened Strings
  import opened Sequences

  /** Python's `string.punctuation`. */
  const Punctuation: string := "!\"#$%&'()*+,-./:;<=>?@[\\]^_`{|}~"

  /** A punctuation character: the four ASCII ranges between the digits and the
      letters that `string.punctuation` lists. */
  predicate IsPunct(c: char) {
    ('!' <= c <= '/') || (':' <= c <= '@') || ('[' <= c <= '`') || ('{' <= c <= '~')
  }

  /** Every character of `string.punctuation` lies in the ranges. */
  lemma PunctuationInRanges(i: nat)
    requires i < |Punctuation|
    ensures IsPunct(Punctuation[i])
  {
  }

  /** The ranges are exactly the characters of `string.punctuation`. */
  lemma PunctuationRanges(c: char)
    ensures IsPunct(c) <==> c in Punctuation
  {
    if IsPunct(c) {
      var i := if c <= '/' then c as int - '!' as int
        else if c <= '@' then c as int - ':' as int + 15
        else if c <= '`' then c as int - '[' as int + 22
        else c as int - '{' as int + 28;
      assert Punctuation[i] == c;
    }
    if c in Punctuation {
      var i :| 0 <= i < |Punctuation| && Punctuation[i] == c;
      PunctuationInRanges(i);
    }
  }

  /** `INDUSTRY_KEYWORDS`, duplicates ("testing") collapsed as in the Python set. */
  const IndustryKeywords: set<string> := {
    "team", "development", "design", "management", "leadership", "testing",
    "research", "analysis", "strategy", "marketing", "data", "operations",
    "programming", "frontend", "backend", "AI", "machine learning",
    "project management", "cloud", "security", "optimization", "UI", "UX",
    "testing", "devops", "business", "sales", "communication", "customer"
  }

  /** The entries no preprocessed token can equal: they hold an upper-case letter
      or a space. */
  const UnreachableKeywords: set<string> :=
    {"AI", "UI", "UX", "machine learning", "project management"}

  /** A character that survives preprocessing. */
  predicate CleanChar(c: char) {
    !IsUpper(c) && !IsDigit(c) && !IsPunct(c)
  }

  predicate NotDigit(c: char) { !IsDigit(c) }

  predicate NotPunct(c: char) { !IsPunct(c) }

  predicate NotDigitOrPunct(c: char) { !IsDigit(c) && !IsPunct(c) }

  /** No character of a lower-cased string is an upper-case letter. */
  lemma LowerHasNoUpper(s: string)
    ensures forall c :: c in Lower(s) ==> !IsUpper(c)
  {
    forall c | c in Lower(s) ensures !IsUpper(c) {
      var i :| 0 <= i < |s| && Lower(s)[i] == c;
    }
  }

  /** A character whose lower-cased form survives preprocessing. */
  predicate CleanOnceLowered(c: char) { CleanChar(LowerChar(c)) }

  /** Lower-casing, `re.sub(r'\d+', '', ...)` and the punctuation translation table,
      in the order the source applies them: the lower-cased text with its digits and
      punctuation removed, every other character kept in order, one for each position
      of `text` whose lower-cased character is clean. */
  function CleanText(text: string): (r: string)
    ensures forall i :: 0 <= i < |r| ==> CleanChar(r[i])
    ensures IsSubsequence(r, Lower(text))
    ensures |r| == CountWhere(text, CleanOnceLowered)
  {
    var lowered := Lower(text);
    FilterTwice(lowered, NotDigit, NotPunct, NotDigitOrPunct);
    FilterIsSubsequence(lowered, NotDigitOrPunct);
    FilterCount(lowered, NotDigitOrPunct);
    CountWhereSame(lowered, NotDigitOrPunct, text, CleanOnceLowered);
    LowerHasNoUpper(text);
    Filter(Filter(lowered, NotDigit), NotPunct)
  }

  lemma CleanTextOfClean(s: string)
    requires forall i :: 0 <= i < |s| ==> CleanChar(s[i])
    ensures CleanText(s) == s
  {
    assert Lower(s) == s;
    assert Filter(s, NotDigit) == s;
  }

  /** The filter of line 30: not a stopword and not a one-character punctuation string. */
  predicate KeepToken(w: string, stop: set<string>) {
    w !in stop && !(|w| == 1 && IsPunct(w[0]))
  }

  /** The list comprehension of line 30: every token that passes the filter, in
      order, as many times as it occurs. */
  function FilterTokens(ws: seq<string>, stop: set<string>): (r: seq<string>)
    ensures IsSubsequence(r, ws)
    ensures forall w :: w in r <==> w in ws && KeepToken(w, stop)
    ensures |r| == CountWhere(ws, w => KeepToken(w, stop))
    ensures (forall k :: 0 <= k < |ws| ==> KeepToken(ws[k], stop)) ==> r == ws
  {
    var keep := w => KeepToken(w, stop);
    FilterIsSubsequence(ws, keep);
    FilterCount(ws, keep);
    Filter(ws, keep)
  }

  /** The list comprehension of line 30 over the tokens of the cleaned text. */
  function Tokens(text: string, stop: set<string>): seq<string>
  {
    FilterTokens(Words(CleanText(text)), stop)
  }

  /** Every character of a whitespace token comes from the split string. */
  lemma {:induction false} WordsCharsFrom(s: string)
    ensures forall k, i :: 0 <= k < |Words(s)| && 0 <= i < |Words(s)[k]| ==> Words(s)[k][i] in s
    decreases |s|
  {
    if |s| > 0 {
      if IsSpace(s[0]) {
        WordsCharsFrom(s[1..]);
      } else {
        var n := WordLength(s);
        WordsCharsFrom(s[n..]);
        assert Words(s) == [s[..n]] + Words(s[n..]);
      }
    }
  }

  lemma {:induction false} JoinCharsClean(ws: seq<string>)
    requires forall k, i :: 0 <= k < |ws| && 0 <= i < |ws[k]| ==> CleanChar(ws[k][i])
    ensures forall i :: 0 <= i < |Join(ws, " ")| ==> CleanChar(Join(ws, " ")[i])
    decreases |ws|
  {
    if |ws| >= 2 {
      JoinCharsClean(ws[1..]);
      var rest := Join(ws[1..], " ");
      assert Join(ws, " ") == ws[0] + " " + rest;
      forall i | 0 <= i < |Join(ws, " ")| ensures CleanChar(Join(ws, " ")[i]) {
        if i < |ws[0]| {
        } else if i == |ws[0]| {
        } else {
          assert Join(ws, " ")[i] == rest[i - |ws[0]| - 1];
        }
      }
    }
  }

  /** `preprocess_text`: the kept tokens joined by single spaces (`" ".join`). */
  function PreprocessText(text: string, stop: set<string>): (r: string)
    ensures forall i :: 0 <= i < |r| ==> !IsUpper(r[i]) && !IsDigit(r[i]) && !IsPunct(r[i])
    ensures SingleSpaced(r)
    ensures Words(r) == Tokens(text, stop)
    ensures forall w :: w in Words(r) ==> w !in stop && IsWord(w)
    ensures forall w :: w in Words(r) <==> w in Words(CleanText(text)) && KeepToken(w, stop)
  {
    var cleaned := CleanText(text);
    var toks := Tokens(text, stop);
    WordsCharsFrom(cleaned);
    assert forall k, i :: 0 <= k < |toks| && 0 <= i < |toks[k]| ==> CleanChar(toks[k][i]) by {
      forall k, i | 0 <= k < |toks| && 0 <= i < |toks[k]| ensures CleanChar(toks[k][i]) {
        assert toks[k] in Words(cleaned);
        var m :| 0 <= m < |Words(cleaned)| && Words(cleaned)[m] == toks[k];
        var j :| 0 <= j < |cleaned| && cleaned[j] == toks[k][i];
      }
    }
    JoinCharsClean(toks);
    assert forall k :: 0 <= k < |toks| ==> IsWord(toks[k]) by {
      forall k | 0 <= k < |toks| ensures IsWord(toks[k]) {
        assert toks[k] in Words(cleaned);
      }
    }
    WordsOfJoin(toks);
    JoinSingleSpaced(toks);
    Join(toks, " ")
  }

  /** Preprocessing an already preprocessed text changes nothing. */
  lemma PreprocessIdempotent(text: string, stop: set<string>)
    ensures PreprocessText(PreprocessText(text, stop), stop) == PreprocessText(text, stop)
  {
    var r := PreprocessText(text, stop);
    CleanTextOfClean(r);
    var toks := Tokens(text, stop);
    assert Words(r) == toks;
    assert forall k :: 0 <= k < |toks| ==> KeepToken(toks[k], stop) by {
      forall k | 0 <= k < |toks| ensures KeepToken(toks[k], stop) {
        assert toks[k] in Words(r);
      }
    }
    assert Tokens(r, stop) == toks;
  }

  function TokenSet(cleaned: string): set<string> {
    set w | w in Words(cleaned)
  }

  datatype KeywordPartition = KeywordPartition(matched: set<string>, missing: set<string>)

  /** The keyword block of `calculate_match`: the industry keywords among the job
      tokens, split by presence among the resume tokens. */
  function PartitionKeywords(resumeText: string, jobText: string, stop: set<string>): (p: KeywordPartition)
    ensures p.matched + p.missing == TokenSet(PreprocessText(jobText, stop)) * IndustryKeywords
    ensures p.matched !! p.missing
    ensures p.matched <= TokenSet(PreprocessText(resumeText, stop))
    ensures p.missing !! TokenSet(PreprocessText(resumeText, stop))
  {
    var jobKeywords := TokenSet(PreprocessText(jobText, stop)) * IndustryKeywords;
    var resumeKeywords := TokenSet(PreprocessText(resumeText, stop)) * IndustryKeywords;
    KeywordPartition(jobKeywords * resumeKeywords, jobKeywords - resumeKeywords)
  }

  /** A lower-case whitespace-free token is none of the unreachable entries. */
  lemma LowerWordNotUnreachable(w: string)
    requires IsWord(w)
    requires forall i :: 0 <= i < |w| ==> !IsUpper(w[i])
    ensures w !in UnreachableKeywords
  {
    assert IsSpace("machine learning"[7]) && IsSpace("project management"[7]);
    assert IsUpper("AI"[0]) && IsUpper("UI"[0]) && IsUpper("UX"[0]);
    assert |w| > 7 ==> !IsSpace(w[7]);
    assert !IsUpper(w[0]);
  }

  /** "AI", "UI", "UX", "machine learning" and "project management" never reach
      either list. */
  lemma UnreachableKeywordsNeverListed(resumeText: string, jobText: string, stop: set<string>)
    ensures UnreachableKeywords !! PartitionKeywords(resumeText, jobText, stop).matched
    ensures UnreachableKeywords !! PartitionKeywords(resumeText, jobText, stop).missing
  {
    var job := PreprocessText(jobText, stop);
    var p := PartitionKeywords(resumeText, jobText, stop);
    WordsCharsFrom(job);
    forall w | w in TokenSet(job) ensures w !in UnreachableKeywords {
      var k :| 0 <= k < |Words(job)| && Words(job)[k] == w;
      forall i | 0 <= i < |w| ensures !IsUpper(w[i]) {
        var j :| 0 <= j < |job| && job[j] == w[i];
      }
      LowerWordNotUnreachable(w);
    }
    assert p.matched + p.missing <= TokenSet(job);
  }

  /** A job text with no industry-keyword token yields two empty lists. */
  lemma NoJobKeywordsBothEmpty(resumeText: string, jobText: string, stop: set<string>)
    requires forall w :: w in Words(PreprocessText(jobText, stop)) ==> w !in IndustryKeywords
    ensures PartitionKeywords(resumeText, jobText, stop).matched == {}
    ensures PartitionKeywords(resumeText, jobText, stop).missing == {}
  {
    var p := PartitionKeywords(resumeText, jobText, stop);
    assert p.matched + p.missing == {};
  }
}
