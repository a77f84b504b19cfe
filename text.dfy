/** String helpers shared by the formatting pipeline and the file sink:
    string concatenation, Java's literal String.replace, "%Ns" padding and
    the decimal rendering of an int. */
module Text {

  datatype Option<T> = None | Some(value: T)

  /** The parts joined in order, as a StringBuilder appending each one. */
  function Concat(parts: seq<string>): string
  {
    if parts == [] then [] else parts[0] + Concat(parts[1..])
  }

  lemma {:induction false} ConcatAppend(a: seq<string>, b: seq<string>)
    ensures Concat(a + b) == Concat(a) + Concat(b)
  {
    if a == [] {
      assert a + b == b;
    } else {
      assert (a + b)[1..] == a[1..] + b;
      ConcatAppend(a[1..], b);
    }
  }

  /** Appending one more part appends its text: what each step of a builder loop relies on. */
  lemma ConcatSnoc(parts: seq<string>, last: string)
    ensures Concat(parts + [last]) == Concat(parts) + last
  {
    ConcatAppend(parts, [last]);
    assert Concat([last]) == last + Concat([]);
  }

  /** A slice of a slice is the slice at the shifted bounds. */
  lemma SliceOfSlice<T>(s: seq<T>, a: nat, b: nat, i: nat, j: nat)
    requires a <= b <= |s| && i <= j <= b - a
    ensures s[a..b][i..j] == s[a + i..a + j]
  {
    forall k | 0 <= k < j - i ensures s[a..b][i..j][k] == s[a + i..a + j][k] {}
  }

  /** True when `target` occurs in `s` at some position. */
  predicate Contains(s: string, target: string)
    decreases |s|
  {
    target <= s || (s != [] && Contains(s[1..], target))
  }

  /** Java's String.replace(CharSequence, CharSequence): a left-to-right scan that
      replaces every non-overlapping occurrence of `target` literally. An empty
      target inserts the replacement before every character and at the end. */
  function ReplaceAll(s: string, target: string, repl: string): string
    decreases |s|
  {
    if target == [] then
      if s == [] then repl else repl + [s[0]] + ReplaceAll(s[1..], target, repl)
    else if s == [] then []
    else if target <= s then repl + ReplaceAll(s[|target|..], target, repl)
    else [s[0]] + ReplaceAll(s[1..], target, repl)
  }

  /** A string in which the target never occurs comes back unchanged. */
  lemma {:induction false} ReplaceAbsent(s: string, target: string, repl: string)
    requires target != [] && !Contains(s, target)
    ensures ReplaceAll(s, target, repl) == s
    decreases |s|
  {
    if s != [] {
      ReplaceAbsent(s[1..], target, repl);
    }
  }

  /** A longer replacement never gives a shorter result, and a strictly longer
      one gives a strictly longer result as soon as the target occurs. */
  lemma {:induction false} ReplaceLengthMonotone(s: string, target: string, r1: string, r2: string)
    requires target != [] && |r1| < |r2|
    ensures |ReplaceAll(s, target, r1)| <= |ReplaceAll(s, target, r2)|
    ensures Contains(s, target) ==> |ReplaceAll(s, target, r1)| < |ReplaceAll(s, target, r2)|
    decreases |s|
  {
    if s == [] {
    } else if target <= s {
      ReplaceLengthMonotone(s[|target|..], target, r1, r2);
    } else {
      ReplaceLengthMonotone(s[1..], target, r1, r2);
    }
  }

  /** Once the target occurs, different replacements give different results. */
  lemma ReplaceInjective(s: string, target: string, r1: string, r2: string)
    requires target != [] && Contains(s, target)
    ensures ReplaceAll(s, target, r1) == ReplaceAll(s, target, r2) <==> r1 == r2
  {
    if ReplaceAll(s, target, r1) == ReplaceAll(s, target, r2) {
      if |r1| < |r2| {
        ReplaceLengthMonotone(s, target, r1, r2);
      } else if |r2| < |r1| {
        ReplaceLengthMonotone(s, target, r2, r1);
      } else {
        ReplaceSameLength(s, target, r1, r2);
      }
    }
  }

  lemma {:induction false} ReplaceSameLength(s: string, target: string, r1: string, r2: string)
    requires target != [] && Contains(s, target) && |r1| == |r2|
    requires ReplaceAll(s, target, r1) == ReplaceAll(s, target, r2)
    ensures r1 == r2
    decreases |s|
  {
    if target <= s {
      var x1, x2 := ReplaceAll(s, target, r1), ReplaceAll(s, target, r2);
      assert x1[..|r1|] == r1;
      assert x2[..|r2|] == r2;
    } else {
      var t1, t2 := ReplaceAll(s[1..], target, r1), ReplaceAll(s[1..], target, r2);
      assert [s[0]] + t1 == [s[0]] + t2;
      assert t1 == ([s[0]] + t1)[1..];
      assert t2 == ([s[0]] + t2)[1..];
      ReplaceSameLength(s[1..], target, r1, r2);
    }
  }

  function Spaces(n: nat): (r: string)
    ensures |r| == n && forall k :: 0 <= k < n ==> r[k] == ' '
  {
    seq(n, _ => ' ')
  }

  /** Java's String.format("%<width>s", s): right-justified in a field of the
      given width, padded with spaces on the left, never truncated. */
  function PadLeft(s: string, width: nat): (r: string)
    ensures |r| == if |s| >= width then |s| else width
    ensures |s| <= |r| && r[|r| - |s|..] == s
    ensures forall k :: 0 <= k < |r| - |s| ==> r[k] == ' '
  {
    if |s| >= width then s else Spaces(width - |s|) + s
  }

  predicate IsDigit(c: char) { '0' <= c <= '9' }

  /** Decimal digits of n, most significant first, as Integer.toString. */
  function NatText(n: nat): (r: string)
    ensures r != [] && forall k :: 0 <= k < |r| ==> IsDigit(r[k])
    ensures |r| > 1 ==> r[0] != '0'
    decreases n
  {
    if n < 10 then [('0' as int + n) as char]
    else NatText(n / 10) + [('0' as int + n % 10) as char]
  }

  /** An int as Java's string concatenation renders it. */
  function IntText(i: int): string
  {
    if i < 0 then "-" + NatText(-i) else NatText(i)
  }

  /** The value of a string of decimal digits (its reading, the partner of NatText). */
  function DigitsValue(s: string): nat
    requires forall k :: 0 <= k < |s| ==> IsDigit(s[k])
  {
    if s == [] then 0
    else
      assert IsDigit(s[|s| - 1]);
      10 * DigitsValue(s[..|s| - 1]) + (s[|s| - 1] as int - '0' as int)
  }

  function ParseInt(s: string): int
    requires s != []
    requires forall k :: 0 <= k < |s| ==> IsDigit(s[k]) || (k == 0 && s[k] == '-')
  {
    if s[0] == '-' then -(DigitsValue(s[1..]) as int) else DigitsValue(s)
  }

  lemma {:induction false} NatTextRoundTrip(n: nat)
    ensures DigitsValue(NatText(n)) == n
    decreases n
  {
    if n >= 10 {
      var r := NatText(n);
      assert r[..|r| - 1] == NatText(n / 10);
      NatTextRoundTrip(n / 10);
    }
  }

  /** Reading back the rendered line number gives the line number. */
  lemma IntTextRoundTrip(i: int)
    ensures ParseInt(IntText(i)) == i
  {
    if i < 0 {
      NatTextRoundTrip(-i);
      assert IntText(i)[1..] == NatText(-i);
    } else {
      NatTextRoundTrip(i);
    }
  }
}
