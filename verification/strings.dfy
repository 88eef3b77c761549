/** Python and JavaScript string primitives the application relies on, stated over
    `seq<char>`: whitespace stripping, ASCII case folding, prefix and substring
    search, splitting on a separator or on whitespace runs, and joining. */
module Strings {
  import opened Sequences

  datatype Option<T> = None | Some(value: T)

  /** The whitespace both `str.strip()`/`str.split()` and `String.prototype.trim()`
      remove in this model: the six ASCII whitespace characters. */
  predicate IsSpace(c: char) {
    c == ' ' || c == '\t' || c == '\n' || c == '\r' || c == '\U{000B}' || c == '\U{000C}'
  }

  predicate IsUpper(c: char) { 'A' <= c <= 'Z' }

  predicate IsDigit(c: char) { '0' <= c <= '9' }

  function LowerChar(c: char): char {
    if IsUpper(c) then (c as int - 'A' as int + 'a' as int) as char else c
  }

  /** `str.lower()` / `toLowerCase()` restricted to the ASCII letters. */
  function Lower(s: string): (r: string)
    ensures |r| == |s|
    ensures forall i :: 0 <= i < |s| ==> r[i] == LowerChar(s[i])
  {
    seq(|s|, i requires 0 <= i < |s| => LowerChar(s[i]))
  }

  /** A string with no whitespace at its front. */
  function TrimLeft(s: string): (r: string)
    ensures |r| <= |s|
    ensures r == [] || !IsSpace(r[0])
  {
    if |s| > 0 && IsSpace(s[0]) then TrimLeft(s[1..]) else s
  }

  /** `TrimLeft` drops a whitespace-only prefix. */
  lemma {:induction false} TrimLeftDropsSpace(s: string)
    ensures TrimLeft(s) == s[|s| - |TrimLeft(s)|..]
    ensures forall i :: 0 <= i < |s| - |TrimLeft(s)| ==> IsSpace(s[i])
    decreases |s|
  {
    if |s| > 0 && IsSpace(s[0]) {
      TrimLeftDropsSpace(s[1..]);
    }
  }

  function TrimRight(s: string): (r: string)
    ensures |r| <= |s|
    ensures r == [] || !IsSpace(r[|r| - 1])
    ensures |s| > 0 && !IsSpace(s[0]) ==> |r| > 0 && r[0] == s[0]
  {
    if |s| > 0 && IsSpace(s[|s| - 1]) then TrimRight(s[..|s| - 1]) else s
  }

  /** `TrimRight` drops a whitespace-only suffix. */
  lemma {:induction false} TrimRightDropsSpace(s: string)
    ensures TrimRight(s) == s[..|TrimRight(s)|]
    ensures forall i :: |TrimRight(s)| <= i < |s| ==> IsSpace(s[i])
    decreases |s|
  {
    if |s| > 0 && IsSpace(s[|s| - 1]) {
      TrimRightDropsSpace(s[..|s| - 1]);
    }
  }

  /** `str.strip()` and `String.prototype.trim()`. */
  function Strip(s: string): (r: string)
    ensures r == [] || (!IsSpace(r[0]) && !IsSpace(r[|r| - 1]))
    ensures |r| <= |s|
  {
    TrimRight(TrimLeft(s))
  }

  /** The stripped text is the slice of `s` after its leading whitespace. */
  lemma StripIsSlice(s: string)
    ensures var i := |s| - |TrimLeft(s)|;
      i + |Strip(s)| <= |s| && Strip(s) == s[i..i + |Strip(s)|]
  {
    var i := |s| - |TrimLeft(s)|;
    TrimLeftDropsSpace(s);
    TrimRightDropsSpace(TrimLeft(s));
    SliceOfSuffix(s, i, |Strip(s)|);
  }

  /** Only whitespace follows the stripped text in `s`. */
  lemma StripDropsTrailingSpace(s: string)
    ensures forall k :: |s| - |TrimLeft(s)| + |Strip(s)| <= k < |s| ==> IsSpace(s[k])
  {
    var t := TrimLeft(s);
    var i := |s| - |t|;
    TrimLeftDropsSpace(s);
    TrimRightDropsSpace(t);
    forall k | i + |Strip(s)| <= k < |s|
      ensures IsSpace(s[k])
    {
      assert s[k] == t[k - i];
    }
  }

  /** `Strip` removes exactly the whitespace at both ends: the result is the slice of
      `s` that starts after the leading whitespace, and only whitespace follows it. */
  lemma StripDropsOuterSpace(s: string)
    ensures var i := |s| - |TrimLeft(s)|; var r := Strip(s);
      && i + |r| <= |s| && r == s[i..i + |r|]
      && (forall k :: 0 <= k < i ==> IsSpace(s[k]))
      && (forall k :: i + |r| <= k < |s| ==> IsSpace(s[k]))
  {
    TrimLeftDropsSpace(s);
    StripIsSlice(s);
    StripDropsTrailingSpace(s);
  }

  lemma StripIdempotent(s: string)
    ensures Strip(Strip(s)) == Strip(s)
  {
    var r := Strip(s);
    assert TrimLeft(r) == r;
    assert TrimRight(r) == r;
  }

  /** Stripping leaves a string without outer whitespace as it is. */
  lemma StripOfStripped(s: string)
    requires s == [] || (!IsSpace(s[0]) && !IsSpace(s[|s| - 1]))
    ensures Strip(s) == s
  {
    assert TrimLeft(s) == s;
  }

  /** A string opening with a non-space character does not strip to nothing. */
  lemma StripKeepsHead(s: string)
    ensures |s| > 0 && !IsSpace(s[0]) ==> Strip(s) != []
  {
    if |s| > 0 && !IsSpace(s[0]) {
      assert TrimLeft(s) == s;
    }
  }

  predicate StartsWith(s: string, p: string) {
    |p| <= |s| && s[..|p|] == p
  }

  predicate EndsWith(s: string, p: string) {
    |p| <= |s| && s[|s| - |p|..] == p
  }

  predicate OccursAt(s: string, p: string, i: nat) {
    i + |p| <= |s| && s[i..i + |p|] == p
  }

  /** Python's `p in s` and JavaScript's `s.includes(p)`. */
  predicate Contains(s: string, p: string)
    decreases |s|
  {
    StartsWith(s, p) || (|s| > 0 && Contains(s[1..], p))
  }

  lemma {:induction false} ContainsIffOccurs(s: string, p: string)
    ensures Contains(s, p) <==> exists i: nat :: OccursAt(s, p, i)
    decreases |s|
  {
    if StartsWith(s, p) {
      assert OccursAt(s, p, 0);
    } else if |s| > 0 {
      ContainsIffOccurs(s[1..], p);
      forall i: nat | 0 < i && i + |p| <= |s|
        ensures OccursAt(s, p, i) == OccursAt(s[1..], p, i - 1)
      {
        assert s[1..][i - 1..i - 1 + |p|] == s[i..i + |p|];
      }
      if Contains(s[1..], p) {
        var i: nat :| OccursAt(s[1..], p, i);
        assert OccursAt(s, p, i + 1);
      }
    }
  }

  lemma ContainsAt(s: string, p: string, i: nat)
    requires OccursAt(s, p, i)
    ensures Contains(s, p)
  {
    ContainsIffOccurs(s, p);
  }

  lemma ContainsPrefix(p: string, rest: string)
    ensures Contains(p + rest, p)
  {
    assert (p + rest)[..|p|] == p;
  }

  lemma ContainsSelf(s: string)
    ensures Contains(s, s)
  {
    assert s[..|s|] == s;
  }

  /** An occurrence survives putting text on either side. */
  lemma ContainsWithin(a: string, s: string, b: string, p: string)
    requires Contains(s, p)
    ensures Contains(a + s + b, p)
  {
    ContainsIffOccurs(s, p);
    var i: nat :| OccursAt(s, p, i);
    assert (a + s + b)[|a| + i..|a| + i + |p|] == s[i..i + |p|];
    ContainsAt(a + s + b, p, |a| + i);
  }

  lemma ContainsLeft(s: string, b: string, p: string)
    requires Contains(s, p)
    ensures Contains(s + b, p)
  {
    ContainsWithin([], s, b, p);
    assert [] + s + b == s + b;
  }

  lemma ContainsRight(a: string, s: string, p: string)
    requires Contains(s, p)
    ensures Contains(a + s, p)
  {
    ContainsWithin(a, s, [], p);
    assert a + s + [] == a + s;
  }

  /** The second of five concatenated pieces occurs in the whole. */
  lemma ContainsSecondOfFive(a: string, m: string, b: string, c: string, d: string)
    ensures Contains(a + m + b + c + d, m)
  {
    ContainsSelf(m);
    ContainsRight(a, m, m);
    ContainsLeft(a + m, b, m);
    ContainsLeft(a + m + b, c, m);
    ContainsLeft(a + m + b + c, d, m);
  }

  /** `s.find(p)`: the first occurrence of `p`, if any. */
  function IndexOf(s: string, p: string): (r: Option<nat>)
    ensures r.Some? ==> OccursAt(s, p, r.value)
    ensures r.Some? ==> forall j: nat :: j < r.value ==> !OccursAt(s, p, j)
    ensures r.None? <==> !Contains(s, p)
    decreases |s|
  {
    ContainsIffOccurs(s, p);
    if StartsWith(s, p) then Some(0)
    else if |s| == 0 then None
    else
      assert forall j: nat :: 0 < j && j + |p| <= |s| ==> OccursAt(s, p, j) == OccursAt(s[1..], p, j - 1) by {
        forall j: nat | 0 < j && j + |p| <= |s|
          ensures OccursAt(s, p, j) == OccursAt(s[1..], p, j - 1)
        {
          assert s[1..][j - 1..j - 1 + |p|] == s[j..j + |p|];
        }
      }
      ContainsIffOccurs(s[1..], p);
      match IndexOf(s[1..], p)
      case None => None
      case Some(i) => Some(i + 1)
  }

  /** `s.split(sep)[0]`: the text before the first occurrence of `sep` (all of `s`
      when there is none). */
  function Before(s: string, sep: string): (r: string)
    ensures Contains(s, sep) ==> OccursAt(s, sep, |r|)
    ensures !Contains(s, sep) ==> r == s
    ensures r == s[..|r|]
    ensures forall j: nat :: j < |r| ==> !OccursAt(s, sep, j)
  {
    ContainsIffOccurs(s, sep);
    match IndexOf(s, sep)
    case None => s
    case Some(i) => s[..i]
  }

  /** A prefix has the occurrences of the whole string that fit inside it. */
  lemma OccursInPrefix(s: string, r: string, p: string, m: nat)
    requires |r| <= |s| && r == s[..|r|] && m + |p| <= |r|
    ensures OccursAt(r, p, m) == OccursAt(s, p, m)
  {
    assert r[m..m + |p|] == s[m..m + |p|];
  }

  /** The text before the first occurrence of `sep` contains no occurrence of it. */
  lemma BeforeExcludesSep(s: string, sep: string)
    requires |sep| > 0
    ensures !Contains(Before(s, sep), sep)
  {
    var r := Before(s, sep);
    forall m: nat ensures !OccursAt(r, sep, m) {
      if m + |sep| <= |r| {
        OccursInPrefix(s, r, sep, m);
      }
    }
    ContainsIffOccurs(r, sep);
  }

  /** `s.split(sep)[1]` for a non-empty `sep` that occurs in `s`: the text between
      its first and its second occurrence, or up to the end when there is no second. */
  function Between(s: string, sep: string): (r: string)
    requires |sep| > 0 && Contains(s, sep)
    ensures exists i: nat :: FirstOccurrence(s, sep, i) && PieceAfter(s, sep, i, r)
    ensures !Contains(r, sep)
  {
    var i := IndexOf(s, sep).value;
    assert FirstOccurrence(s, sep, i);
    var r := Before(s[i + |sep|..], sep);
    BeforeExcludesSep(s[i + |sep|..], sep);
    PieceAfterOf(s, sep, i, r);
    r
  }

  /** `r` is the piece of `s` after the occurrence of `sep` at `i`: the slice starting
      right after it, passed over by no occurrence of `sep` (overlapping ones included),
      and ending where the next occurrence starts or at the end of `s`. */
  predicate PieceAfter(s: string, sep: string, i: nat, r: string) {
    && i + |sep| + |r| <= |s| && r == s[i + |sep|..i + |sep| + |r|]
    && NoOccurrenceFrom(s, sep, i + |sep|, i + |sep| + |r|)
    && (i + |sep| + |r| == |s| || OccursAt(s, sep, i + |sep| + |r|))
  }

  /** A prefix `r` of the text after the occurrence at `i`, in which `sep` does not
      occur, and which is followed by `sep` or is all of that text, is the piece after `i`. */
  lemma PieceAfterOf(s: string, sep: string, i: nat, r: string)
    requires i + |sep| + |r| <= |s| && r == s[i + |sep|..][..|r|]
    requires NoOccurrenceFrom(s[i + |sep|..], sep, 0, |r|)
    requires i + |sep| + |r| == |s| || OccursAt(s[i + |sep|..], sep, |r|)
    ensures PieceAfter(s, sep, i, r)
  {
    var k := i + |sep|;
    SliceOfSuffix(s, k, |r|);
    OccursInSuffix(s, sep, k, |r|);
    forall j: nat | k <= j < k + |r|
      ensures !OccursAt(s, sep, j)
    {
      OccursInSuffix(s, sep, k, j - k);
    }
  }

  /** An occurrence in a suffix `s[k..]` is an occurrence in `s`, shifted by `k`. */
  lemma OccursInSuffix(s: string, sep: string, k: nat, j: nat)
    requires k <= |s|
    ensures OccursAt(s[k..], sep, j) == OccursAt(s, sep, k + j)
  {
    if k + j + |sep| <= |s| {
      SubsliceOfSuffix(s, k, j, j + |sep|);
    }
  }

  /** `sep` occurs at `i` and nowhere before it. */
  predicate FirstOccurrence(s: string, sep: string, i: nat) {
    OccursAt(s, sep, i) && forall j: nat :: j < i ==> !OccursAt(s, sep, j)
  }

  /** No occurrence of `sep` in `s` starts at a position from `lo` up to, not
      including, `hi`. */
  predicate NoOccurrenceFrom(s: string, sep: string, lo: nat, hi: nat) {
    forall j: nat :: lo <= j < hi ==> !OccursAt(s, sep, j)
  }

  /** The number of occurrences of `c` in `s` (`s.count(c)` for a single character). */
  function CountChar(s: string, c: char): (n: nat)
    ensures n == |set i | 0 <= i < |s| && s[i] == c|
    ensures n <= |s|
    ensures n == 0 <==> forall i :: 0 <= i < |s| ==> s[i] != c
  {
    var flags := seq(|s|, i requires 0 <= i < |s| => s[i] == c);
    assert forall i :: 0 <= i < |s| ==> flags[i] == (s[i] == c);
    assert (set i | 0 <= i < |s| && s[i] == c) == (set i | 0 <= i < |flags| && flags[i]);
    CountTrue(flags)
  }

  /** Python's slice `s[i:j]` for non-negative bounds: out-of-range bounds are clamped. */
  function Slice(s: string, i: nat, j: nat): (r: string)
    ensures |r| <= |s|
    ensures i <= j && j <= |s| ==> r == s[i..j]
  {
    var lo := if i < |s| then i else |s|;
    var hi := if j < |s| then j else |s|;
    if lo <= hi then s[lo..hi] else []
  }

  /** `sep.join(xs)`. */
  function Join(xs: seq<string>, sep: string): string
  {
    if |xs| == 0 then [] else if |xs| == 1 then xs[0] else xs[0] + sep + Join(xs[1..], sep)
  }

  lemma JoinTwoOrMore(xs: seq<string>, sep: string)
    requires |xs| >= 2
    ensures Join(xs, sep) == xs[0] + sep + Join(xs[1..], sep)
  {
  }

  /** Python's `s.find(c)` for one character: the first position of `c`, or -1. */
  function FindChar(s: string, c: char): (i: int)
    ensures -1 <= i < |s|
    ensures i >= 0 ==> s[i] == c && forall j :: 0 <= j < i ==> s[j] != c
    ensures i == -1 ==> forall j :: 0 <= j < |s| ==> s[j] != c
  {
    if |s| == 0 then -1
    else if s[0] == c then 0
    else
      var k := FindChar(s[1..], c);
      if k == -1 then -1 else k + 1
  }

  /** `s.split(sep)` for a one-character separator: the pieces between occurrences,
      empty pieces included. */
  function SplitOn(s: string, sep: char): (parts: seq<string>)
    ensures |parts| >= 1
    ensures forall k, i :: 0 <= k < |parts| && 0 <= i < |parts[k]| ==> parts[k][i] != sep
    decreases |s|
  {
    ContainsIffOccurs(s, [sep]);
    match IndexOf(s, [sep])
    case None =>
      assert forall i :: 0 <= i < |s| ==> s[i] != sep by {
        forall i | 0 <= i < |s| ensures s[i] != sep {
          assert !OccursAt(s, [sep], i);
          assert s[i..i + 1] == [s[i]];
        }
      }
      [s]
    case Some(i) =>
      assert forall j :: 0 <= j < i ==> s[j] != sep by {
        forall j | 0 <= j < i ensures s[j] != sep {
          assert !OccursAt(s, [sep], j);
          assert s[j..j + 1] == [s[j]];
        }
      }
      [s[..i]] + SplitOn(s[i + 1..], sep)
  }

  lemma SplitAround(s: string, i: nat)
    requires i < |s|
    ensures s == s[..i] + [s[i]] + s[i + 1..]
  {
  }

  /** Splitting on a separator and joining with it again gives back the string. */
  lemma {:induction false} SplitOnJoin(s: string, sep: char)
    ensures Join(SplitOn(s, sep), [sep]) == s
    decreases |s|
  {
    match IndexOf(s, [sep])
    case None =>
    case Some(i) =>
      var head := s[..i];
      var rest := SplitOn(s[i + 1..], sep);
      SplitOnJoin(s[i + 1..], sep);
      assert SplitOn(s, sep) == [head] + rest;
      JoinTwoOrMore([head] + rest, [sep]);
      assert ([head] + rest)[1..] == rest;
      assert Join(SplitOn(s, sep), [sep]) == head + [sep] + s[i + 1..];
      assert s[i..i + 1] == [sep];
      SplitAround(s, i);
  }

  /** A token of the whitespace tokenizer: non-empty, no whitespace inside. */
  predicate IsWord(w: string) {
    |w| > 0 && forall i :: 0 <= i < |w| ==> !IsSpace(w[i])
  }

  /** The length of the longest prefix of `s` without whitespace. */
  function WordLength(s: string): (n: nat)
    ensures n <= |s|
    ensures forall i :: 0 <= i < n ==> !IsSpace(s[i])
    ensures n == |s| || IsSpace(s[n])
  {
    if |s| == 0 || IsSpace(s[0]) then 0 else 1 + WordLength(s[1..])
  }

  /** Only one length meets the contract of `WordLength`. */
  lemma WordLengthUnique(s: string, n: nat)
    requires n <= |s|
    requires forall i :: 0 <= i < n ==> !IsSpace(s[i])
    requires n == |s| || IsSpace(s[n])
    ensures WordLength(s) == n
  {
  }

  /** A text followed by whitespace, or by nothing, has the same leading word. */
  lemma WordLengthAppend(a: string, u: string)
    requires u == [] || IsSpace(u[0])
    ensures WordLength(a + u) == WordLength(a)
  {
    var n := WordLength(a);
    if n == |a| && u != [] {
      assert (a + u)[n] == u[0];
    } else if n < |a| {
      assert (a + u)[n] == a[n];
    }
    WordLengthUnique(a + u, n);
  }

  predicate NonSpace(c: char) { !IsSpace(c) }

  /** The strings of `ws` one after the other (`"".join(ws)`). */
  function Concat(ws: seq<string>): string {
    if |ws| == 0 then [] else ws[0] + Concat(ws[1..])
  }

  /** `s.split()` with no argument: the maximal runs of non-whitespace characters. */
  function Words(s: string): (ws: seq<string>)
    ensures forall k :: 0 <= k < |ws| ==> IsWord(ws[k])
    decreases |s|
  {
    if |s| == 0 then []
    else if IsSpace(s[0]) then Words(s[1..])
    else
      var n := WordLength(s);
      [s[..n]] + Words(s[n..])
  }

  /** A leading whitespace character adds no token and no kept character. */
  lemma CoverSpaceStep(s: string)
    requires |s| > 0 && IsSpace(s[0])
    requires Concat(Words(s[1..])) == Filter(s[1..], NonSpace)
    ensures Concat(Words(s)) == Filter(s, NonSpace)
  {
    FilterAppend([s[0]], s[1..], NonSpace);
    FilterOne(s[0], NonSpace);
    assert [s[0]] + s[1..] == s;
  }

  /** A leading word is the first token and the first kept characters. */
  lemma CoverWordStep(s: string)
    requires |s| > 0 && !IsSpace(s[0])
    requires Concat(Words(s[WordLength(s)..])) == Filter(s[WordLength(s)..], NonSpace)
    ensures Concat(Words(s)) == Filter(s, NonSpace)
  {
    var n := WordLength(s);
    var w := s[..n];
    var t := s[n..];
    var rest := Words(t);
    ConsParts(w, rest);
    assert Concat(Words(s)) == w + Concat(rest);
    FilterAppend(w, t, NonSpace);
    TakeDrop(s, n);
    assert Filter(w, NonSpace) == w;
  }

  /** The tokens hold every non-whitespace character of `s`, in order, and nothing
      else. */
  lemma {:induction false} WordsCoverText(s: string)
    ensures Concat(Words(s)) == Filter(s, NonSpace)
    decreases |s|
  {
    if |s| > 0 && IsSpace(s[0]) {
      WordsCoverText(s[1..]);
      CoverSpaceStep(s);
    } else if |s| > 0 {
      WordsCoverText(s[WordLength(s)..]);
      CoverWordStep(s);
    }
  }

  /** The leading word of `a` is the leading token of `a + u` when `u` starts with
      whitespace, and the rest of `a + u` follows it. */
  lemma WordsHeadOfAppend(a: string, u: string)
    requires |u| > 0 && IsSpace(u[0]) && |a| > 0 && !IsSpace(a[0])
    requires WordLength(a + u) == WordLength(a)
    ensures Words(a + u) == [a[..WordLength(a)]] + Words(a[WordLength(a)..] + u)
  {
    var n := WordLength(a);
    assert (a + u)[0] == a[0];
    SliceAppend(a, u, n);
  }

  /** The word case of `WordsSplitAtSpace`. */
  lemma SplitWordStep(a: string, u: string)
    requires |u| > 0 && IsSpace(u[0]) && |a| > 0 && !IsSpace(a[0])
    requires WordLength(a + u) == WordLength(a)
    requires Words(a[WordLength(a)..] + u) == Words(a[WordLength(a)..]) + Words(u)
    ensures Words(a + u) == Words(a) + Words(u)
  {
    var n := WordLength(a);
    var t := a[n..];
    WordsHeadOfAppend(a, u);
    assert Words(a) == [a[..n]] + Words(t);
    AppendAssoc([a[..n]], Words(t), Words(u));
  }

  /** Whitespace separates tokens: the tokens of a text followed by text that starts
      with whitespace are the tokens of the one, then those of the other. */
  lemma {:induction false} WordsSplitAtSpace(a: string, u: string)
    requires |u| > 0 && IsSpace(u[0])
    ensures Words(a + u) == Words(a) + Words(u)
    decreases |a|
  {
    if |a| == 0 {
      assert a + u == u;
    } else if IsSpace(a[0]) {
      assert (a + u)[1..] == a[1..] + u;
      WordsSplitAtSpace(a[1..], u);
    } else {
      WordsSplitAtSpace(a[WordLength(a)..], u);
      WordLengthAppend(a, u);
      SplitWordStep(a, u);
    }
  }

  /** Position `i` of `s` starts a token: a non-whitespace character at the start of
      `s` or right after whitespace. */
  predicate StartsWord(s: string, i: int)
    requires 0 <= i < |s|
  {
    !IsSpace(s[i]) && (i == 0 || IsSpace(s[i - 1]))
  }

  /** Whether each position of `s` starts a token. */
  function WordStarts(s: string): (m: seq<bool>)
    ensures |m| == |s|
    ensures forall i :: 0 <= i < |s| ==> m[i] == StartsWord(s, i)
  {
    seq(|s|, i requires 0 <= i < |s| => StartsWord(s, i))
  }

  /** After a leading whitespace character, the token starts are those of the rest. */
  lemma WordStartsAfterSpace(s: string)
    requires |s| > 0 && IsSpace(s[0])
    ensures WordStarts(s) == [false] + WordStarts(s[1..])
  {
    assert forall i :: 1 <= i < |s| ==> WordStarts(s)[i] == WordStarts(s[1..])[i - 1];
  }

  /** A leading word has exactly one token start, at its first character. */
  lemma LeadingWordStarts(s: string)
    requires |s| > 0 && !IsSpace(s[0])
    ensures CountTrue(WordStarts(s)[..WordLength(s)]) == 1
  {
    var m := WordStarts(s)[..WordLength(s)];
    var tail := m[1..];
    assert forall i :: 0 <= i < |tail| ==> tail[i] == StartsWord(s, i + 1);
    assert forall i :: 0 <= i < |tail| ==> !tail[i];
    assert m == [true] + tail;
    CountTrueAppend([true], tail);
  }

  /** After the leading word, the token starts are those of the rest of the text. */
  lemma WordStartsAfterWord(s: string)
    requires |s| > 0 && !IsSpace(s[0])
    ensures WordStarts(s)[WordLength(s)..] == WordStarts(s[WordLength(s)..])
  {
    var n := WordLength(s);
    var rest := s[n..];
    forall j | 0 <= j < |rest|
      ensures WordStarts(s)[n + j] == WordStarts(rest)[j]
    {
      if j > 0 {
        assert rest[j - 1] == s[n + j - 1];
      }
    }
  }

  /** As `WordsCount`, with the starts counted as `true` marks. */
  lemma {:induction false} WordsCountStarts(s: string)
    ensures |Words(s)| == CountTrue(WordStarts(s))
    decreases |s|
  {
    if |s| == 0 {
    } else if IsSpace(s[0]) {
      WordsCountStarts(s[1..]);
      WordStartsAfterSpace(s);
      CountTrueAppend([false], WordStarts(s[1..]));
    } else {
      var n := WordLength(s);
      WordsCountStarts(s[n..]);
      LeadingWordStarts(s);
      WordStartsAfterWord(s);
      TakeDrop(WordStarts(s), n);
      CountTrueAppend(WordStarts(s)[..n], WordStarts(s)[n..]);
    }
  }

  /** `split()` gives one token for each position that starts a run of non-whitespace:
      no run is dropped and none is split. */
  lemma WordsCount(s: string)
    ensures |Words(s)| == |set i | 0 <= i < |s| && StartsWord(s, i)|
  {
    WordsCountStarts(s);
    var m := WordStarts(s);
    assert (set i | 0 <= i < |m| && m[i]) == (set i | 0 <= i < |s| && StartsWord(s, i));
  }

  /** Words separated by single spaces split back into the same words. */
  lemma {:induction false} WordsOfJoin(ws: seq<string>)
    requires forall k :: 0 <= k < |ws| ==> IsWord(ws[k])
    ensures Words(Join(ws, " ")) == ws
    decreases |ws|
  {
    if |ws| == 1 {
      var w := ws[0];
      WordLengthUnique(w, |w|);
      assert w[..|w|] == w;
      assert w[|w|..] == [];
    } else if |ws| >= 2 {
      var w := ws[0];
      var rest := Join(ws[1..], " ");
      var s := w + " " + rest;
      assert Join(ws, " ") == s;
      assert s[|w|] == ' ';
      WordLengthUnique(s, |w|);
      assert s[..|w|] == w;
      assert s[|w|..] == " " + rest;
      assert (" " + rest)[1..] == rest;
      WordsOfJoin(ws[1..]);
      assert [w] + ws[1..] == ws;
    }
  }

  /** Words separated by single spaces: no whitespace at either end, no whitespace
      other than ' ', and never two spaces in a row. */
  predicate SingleSpaced(s: string) {
    && (s == [] || (!IsSpace(s[0]) && !IsSpace(s[|s| - 1])))
    && (forall i :: 0 <= i < |s| && IsSpace(s[i]) ==> s[i] == ' ')
    && (forall i :: 0 <= i < |s| - 1 && s[i] == ' ' ==> s[i + 1] != ' ')
  }

  /** `" ".join(ws)` of whitespace-free, non-empty words is single-spaced. */
  lemma {:induction false} JoinSingleSpaced(ws: seq<string>)
    requires forall k :: 0 <= k < |ws| ==> IsWord(ws[k])
    ensures SingleSpaced(Join(ws, " "))
    ensures |ws| > 0 ==> Join(ws, " ") != [] && Join(ws, " ")[0] == ws[0][0]
    decreases |ws|
  {
    if |ws| == 1 {
      assert Join(ws, " ") == ws[0];
    } else if |ws| >= 2 {
      JoinSingleSpaced(ws[1..]);
      var w := ws[0];
      var rest := Join(ws[1..], " ");
      var s := w + " " + rest;
      assert Join(ws, " ") == s;
      assert ws[1..][0] == ws[1];
      forall i | 0 <= i < |s|
        ensures s[i] == if i < |w| then w[i] else if i == |w| then ' ' else rest[i - |w| - 1]
      {
      }
      assert IsWord(w);
    }
  }
}
