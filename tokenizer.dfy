/** The pattern tokenizer, MessageFormatter.splitWithDelimiter: a left-to-right
    scan for the regular expression `\{\w+}|\{new-line}` that cuts a pattern
    into placeholders and the literal runs between them. */
module Tokenizer {
  import opened Text

  /** `\w` in a Java regular expression without UNICODE_CHARACTER_CLASS. */
  predicate IsWordChar(c: char)
  {
    'a' <= c <= 'z' || 'A' <= c <= 'Z' || '0' <= c <= '9' || c == '_'
  }

  const NewLineTag: string := "{new-line}"

  /** A whole match of `\{\w+}|\{new-line}`. */
  predicate IsPlaceholder(t: string)
  {
    || t == NewLineTag
    || (|t| >= 3 && t[0] == '{' && t[|t| - 1] == '}' && forall k :: 0 < k < |t| - 1 ==> IsWordChar(t[k]))
  }

  /** A literal run: no part of it matches the pattern. */
  predicate IsLiteral(t: string)
  {
    forall i, j :: 0 <= i < j <= |t| ==> !IsPlaceholder(t[i..j])
  }

  /** Number of word characters starting at k (the greedy `\w+`). */
  function WordRun(s: string, k: nat): (n: nat)
    requires k <= |s|
    ensures k + n <= |s|
    decreases |s| - k
  {
    if k < |s| && IsWordChar(s[k]) then 1 + WordRun(s, k + 1) else 0
  }

  /** The run is all word characters and stops at a non-word character or the end. */
  lemma {:induction false} WordRunSpec(s: string, k: nat)
    requires k <= |s|
    ensures forall j :: k <= j < k + WordRun(s, k) ==> IsWordChar(s[j])
    ensures k + WordRun(s, k) == |s| || !IsWordChar(s[k + WordRun(s, k)])
    decreases |s| - k
  {
    if k < |s| && IsWordChar(s[k]) {
      WordRunSpec(s, k + 1);
    }
  }

  /** End of the match that starts at position i, trying the alternatives in
      the regular expression's order; i itself when no match starts there. */
  function MatchEnd(s: string, i: nat): (e: nat)
    requires i <= |s|
    ensures i <= e <= |s|
  {
    if i < |s| && s[i] == '{' then
      var w := WordRun(s, i + 1);
      if w >= 1 && i + 1 + w < |s| && s[i + 1 + w] == '}' then i + 2 + w
      else if i + |NewLineTag| <= |s| && s[i..i + |NewLineTag|] == NewLineTag then i + |NewLineTag|
      else i
    else i
  }

  /** A match starting at i, if any, is unique, and MatchEnd finds its end:
      s[i..j] is a placeholder exactly when j is MatchEnd(s, i). */
  lemma MatchEndSpec(s: string, i: nat)
    requires i <= |s|
    ensures forall j :: i < j <= |s| ==> (IsPlaceholder(s[i..j]) <==> j == MatchEnd(s, i))
  {
    forall j | i < j <= |s|
      ensures IsPlaceholder(s[i..j]) <==> j == MatchEnd(s, i)
    {
      if IsPlaceholder(s[i..j]) {
        MatchEndComplete(s, i, j);
      }
      if j == MatchEnd(s, i) {
        MatchEndSound(s, i, j);
      }
    }
  }

  /** Every placeholder starting at i ends at MatchEnd(s, i). */
  lemma MatchEndComplete(s: string, i: nat, j: nat)
    requires i < j <= |s| && IsPlaceholder(s[i..j])
    ensures j == MatchEnd(s, i)
  {
    var t := s[i..j];
    var w := WordRun(s, i + 1);
    WordRunSpec(s, i + 1);
    assert s[i] == t[0] == '{';
    if t == NewLineTag {
      assert s[i + 4] == t[4] == '-';
      assert s[i + 1] == t[1] && s[i + 2] == t[2] && s[i + 3] == t[3];
      assert w == 3;
      assert s[i..i + |NewLineTag|] == t;
    } else {
      assert s[j - 1] == t[|t| - 1] == '}';
      forall k | i + 1 <= k < j - 1 ensures IsWordChar(s[k]) {
        assert s[k] == t[k - i];
      }
      assert w == j - 2 - i;
    }
  }

  /** What MatchEnd finds beyond i is a placeholder. */
  lemma MatchEndSound(s: string, i: nat, j: nat)
    requires i < j <= |s| && j == MatchEnd(s, i)
    ensures IsPlaceholder(s[i..j])
  {
    var t := s[i..j];
    var w := WordRun(s, i + 1);
    WordRunSpec(s, i + 1);
    if w >= 1 && i + 1 + w < |s| && s[i + 1 + w] == '}' {
      assert j == i + 2 + w;
      assert t[0] == s[i] && t[|t| - 1] == s[i + 1 + w];
      forall k | 0 < k < |t| - 1 ensures IsWordChar(t[k]) {
        assert t[k] == s[i + k];
      }
    } else {
      assert t == NewLineTag;
    }
  }

  /** Matcher.find from position `from`: the start of the leftmost match at or
      after `from`, if any. */
  function NextMatch(s: string, from: nat): (m: Option<nat>)
    requires from <= |s|
    ensures m.Some? ==> from <= m.value < |s| && MatchEnd(s, m.value) > m.value
    ensures forall k :: from <= k < (if m.Some? then m.value else |s|) ==> MatchEnd(s, k) == k
    decreases |s| - from
  {
    if from == |s| then None
    else if MatchEnd(s, from) > from then Some(from)
    else NextMatch(s, from + 1)
  }

  /** What the scan emits from `lastEnd` on: the non-empty literal run before
      the next match, the match, and the rest; or the non-empty remainder. */
  function SplitFrom(s: string, lastEnd: nat): seq<string>
    requires lastEnd <= |s|
    decreases |s| - lastEnd
  {
    match NextMatch(s, lastEnd)
    case None => if lastEnd != |s| then [s[lastEnd..]] else []
    case Some(start) =>
      var end := MatchEnd(s, start);
      (if lastEnd != start then [s[lastEnd..start]] else []) + [s[start..end]] + SplitFrom(s, end)
  }

  function Split(s: string): seq<string>
  {
    SplitFrom(s, 0)
  }

  /** MessageFormatter.splitWithDelimiter: the `while (matcher.find())` loop. */
  method SplitWithDelimiter(placeholder: string) returns (result: seq<string>)
    ensures result == Split(placeholder)
    ensures Concat(result) == placeholder
    ensures forall t :: t in result ==> t != [] && (IsPlaceholder(t) <==> !IsLiteral(t))
  {
    result := [];
    var lastEnd := 0;
    var found := NextMatch(placeholder, 0);
    while found.Some?
      invariant lastEnd <= |placeholder|
      invariant found == NextMatch(placeholder, lastEnd)
      invariant result + SplitFrom(placeholder, lastEnd) == Split(placeholder)
      decreases |placeholder| - lastEnd
    {
      var start := found.value;
      var end := MatchEnd(placeholder, start);
      ScanStep(placeholder, result, lastEnd, start);
      if lastEnd != start {
        result := result + [placeholder[lastEnd..start]];
      }
      result := result + [placeholder[start..end]];
      lastEnd := end;
      found := NextMatch(placeholder, lastEnd);
    }
    if lastEnd != |placeholder| {
      result := result + [placeholder[lastEnd..]];
    }
    SplitConcat(placeholder);
    SplitElements(placeholder);
  }

  /** One turn of the scan loop: the literal run before the match (if any), then the match. */
  lemma SplitFromStep(s: string, lastEnd: nat, start: nat)
    requires lastEnd <= |s| && NextMatch(s, lastEnd) == Some(start)
    ensures var end := MatchEnd(s, start);
      SplitFrom(s, lastEnd) ==
        (if lastEnd != start then [s[lastEnd..start]] else []) + [s[start..end]] + SplitFrom(s, end)
  {
  }

  lemma ScanStep(s: string, done: seq<string>, lastEnd: nat, start: nat)
    requires lastEnd <= |s| && NextMatch(s, lastEnd) == Some(start)
    requires done + SplitFrom(s, lastEnd) == Split(s)
    ensures var end := MatchEnd(s, start);
      (if lastEnd != start then done + [s[lastEnd..start]] else done) + [s[start..end]] + SplitFrom(s, end) == Split(s)
  {
    SplitFromStep(s, lastEnd, start);
  }

  /** No match starts anywhere in [a, b), so s[a..b] is a literal run. */
  lemma LiteralRun(s: string, a: nat, b: nat)
    requires a <= b <= |s|
    requires forall k :: a <= k < b ==> MatchEnd(s, k) == k
    ensures IsLiteral(s[a..b])
  {
    var t := s[a..b];
    forall i, j | 0 <= i < j <= |t| ensures !IsPlaceholder(t[i..j]) {
      SliceOfSlice(s, a, b, i, j);
      MatchEndSpec(s, a + i);
    }
  }

  /** A non-empty string cannot be both a placeholder and a literal run. */
  lemma PlaceholderOrLiteral(t: string)
    requires t != []
    requires IsPlaceholder(t) || IsLiteral(t)
    ensures IsPlaceholder(t) <==> !IsLiteral(t)
  {
    if IsPlaceholder(t) {
      assert t[0..|t|] == t;
    }
  }

  /** One step of the scan in terms of text: literal run, match, rest. */
  lemma ConcatStep(s: string, a: nat, b: nat, c: nat, rest: seq<string>)
    requires a <= b <= c <= |s|
    requires Concat(rest) == s[c..]
    ensures Concat((if a != b then [s[a..b]] else []) + [s[b..c]] + rest) == s[a..]
  {
  }

  lemma {:induction false} SplitFromConcat(s: string, lastEnd: nat)
    requires lastEnd <= |s|
    ensures Concat(SplitFrom(s, lastEnd)) == s[lastEnd..]
    decreases |s| - lastEnd
  {
    match NextMatch(s, lastEnd)
    case None =>
      if lastEnd != |s| {
        assert Concat([s[lastEnd..]]) == s[lastEnd..] + Concat([]);
      }
    case Some(start) =>
      var end := MatchEnd(s, start);
      SplitFromConcat(s, end);
      ConcatStep(s, lastEnd, start, end, SplitFrom(s, end));
  }

  /** Concatenating the elements reproduces the pattern exactly, in order. */
  lemma SplitConcat(s: string)
    ensures Concat(Split(s)) == s
  {
    SplitFromConcat(s, 0);
  }

  lemma {:induction false} SplitFromElements(s: string, lastEnd: nat)
    requires lastEnd <= |s|
    ensures forall t :: t in SplitFrom(s, lastEnd) ==> t != [] && (IsPlaceholder(t) <==> !IsLiteral(t))
    decreases |s| - lastEnd
  {
    match NextMatch(s, lastEnd)
    case None =>
      if lastEnd != |s| {
        LiteralRun(s, lastEnd, |s|);
        assert s[lastEnd..|s|] == s[lastEnd..];
        PlaceholderOrLiteral(s[lastEnd..]);
      }
    case Some(start) =>
      var end := MatchEnd(s, start);
      SplitFromStep(s, lastEnd, start);
      SplitFromElements(s, end);
      MatchEndSpec(s, start);
      assert IsPlaceholder(s[start..end]);
      PlaceholderOrLiteral(s[start..end]);
      if lastEnd != start {
        LiteralRun(s, lastEnd, start);
        PlaceholderOrLiteral(s[lastEnd..start]);
      }
  }

  lemma {:induction false} SplitFromAlternates(s: string, lastEnd: nat)
    requires lastEnd <= |s|
    ensures forall k :: 0 <= k < |SplitFrom(s, lastEnd)| - 1 ==>
      IsPlaceholder(SplitFrom(s, lastEnd)[k]) || IsPlaceholder(SplitFrom(s, lastEnd)[k + 1])
    decreases |s| - lastEnd
  {
    var r := SplitFrom(s, lastEnd);
    match NextMatch(s, lastEnd)
    case None =>
    case Some(start) =>
      var end := MatchEnd(s, start);
      var rest := SplitFrom(s, end);
      SplitFromStep(s, lastEnd, start);
      SplitFromAlternates(s, end);
      MatchEndSpec(s, start);
      assert IsPlaceholder(s[start..end]);
      var n := if lastEnd != start then 2 else 1;
      assert r[n - 1] == s[start..end];
      assert r[n..] == rest;
      forall k | 0 <= k < |r| - 1 ensures IsPlaceholder(r[k]) || IsPlaceholder(r[k + 1]) {
        if k >= n {
          assert r[k] == rest[k - n] && r[k + 1] == rest[k + 1 - n];
        }
      }
  }

  /** Every element is non-empty and is either one whole placeholder or a
      literal run containing none; two literal runs are never adjacent. */
  lemma SplitElements(s: string)
    ensures forall t :: t in Split(s) ==> t != [] && (IsPlaceholder(t) <==> !IsLiteral(t))
    ensures forall k :: 0 <= k < |Split(s)| - 1 ==> IsPlaceholder(Split(s)[k]) || IsPlaceholder(Split(s)[k + 1])
  {
    SplitFromElements(s, 0);
    SplitFromAlternates(s, 0);
  }

  /** A pattern without placeholders is one literal element, and the empty
      pattern gives no element at all. */
  lemma SplitLiteral(s: string)
    requires IsLiteral(s)
    ensures Split(s) == if s == [] then [] else [s]
  {
    forall k | 0 <= k < |s| ensures MatchEnd(s, k) == k {
      MatchEndSpec(s, k);
      var e := MatchEnd(s, k);
      assert e > k ==> IsPlaceholder(s[k..e]);
    }
    assert s[0..] == s;
  }
}
