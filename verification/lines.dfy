/**
 * Text as the crontab rewrite sees it: the lines that Python's
 * `readlines()` yields (each keeps its trailing '\n', the last one may lack
 * it), their concatenation (what `clean += line` accumulates and what
 * `write(clean)` puts back), the substring test behind `marker in line`, and
 * the subsequence order that the rewrite keeps.
 */
module Lines {

  /** One line of a text file, including its terminating '\n' if it has one. */
  type Line = string

  // ---------------------------------------------------------------------
  // `m in s` on Python strings
  // ---------------------------------------------------------------------

  /** `m in s`: the string m occurs somewhere inside s. */
  predicate Contains(s: string, m: string)
    decreases |s|
  {
    m <= s || (|s| > 0 && Contains(s[1..], m))
  }

  /** m occurs in s starting at index i. */
  ghost predicate OccursAt(s: string, m: string, i: nat)
  {
    i + |m| <= |s| && s[i..i + |m|] == m
  }

  /** Contains is exactly the substring relation. */
  lemma {:induction false} ContainsIffOccurs(s: string, m: string)
    ensures Contains(s, m) <==> exists i: nat :: OccursAt(s, m, i)
    decreases |s|
  {
    if m <= s {
      assert OccursAt(s, m, 0);
    } else if |s| == 0 {
      forall i: nat ensures !OccursAt(s, m, i) {
      }
    } else {
      ContainsIffOccurs(s[1..], m);
      if Contains(s[1..], m) {
        var i: nat :| OccursAt(s[1..], m, i);
        OccursShift(s, m, i);
      } else {
        forall i: nat | OccursAt(s, m, i) ensures false {
          if i > 0 {
            OccursShift(s, m, i - 1);
          }
        }
      }
    }
  }

  /** An occurrence in the tail is an occurrence one place further on. */
  lemma OccursShift(s: string, m: string, i: nat)
    requires |s| > 0
    ensures OccursAt(s[1..], m, i) <==> OccursAt(s, m, i + 1)
  {
    if i + 1 + |m| <= |s| {
      assert s[1..][i..i + |m|] == s[i + 1..i + 1 + |m|];
    }
  }

  // ---------------------------------------------------------------------
  // readlines() and its inverse
  // ---------------------------------------------------------------------

  /** l is a line: not empty, and no '\n' anywhere but possibly at its end. */
  ghost predicate IsLine(l: Line)
  {
    l != [] && forall j :: 0 <= j < |l| - 1 ==> l[j] != '\n'
  }

  /** l is terminated by '\n'. */
  predicate EndsLine(l: Line)
  {
    l != [] && l[|l| - 1] == '\n'
  }

  /** ls is what readlines() can yield: lines, all but the last terminated. */
  ghost predicate IsLineSplit(ls: seq<Line>)
  {
    && (forall i :: 0 <= i < |ls| ==> IsLine(ls[i]))
    && (forall i :: 0 <= i < |ls| - 1 ==> EndsLine(ls[i]))
  }

  /** The text of a sequence of lines, joined without separators. */
  function Concat(ls: seq<Line>): (s: string)
  {
    if ls == [] then [] else ls[0] + Concat(ls[1..])
  }

  /** Length of the first line of s: up to and including the first '\n',
      or the whole of s when it has none. */
  function FirstLineLength(s: string): (k: nat)
    ensures s == [] <==> k == 0
    ensures k <= |s|
    ensures forall j :: 0 <= j < k - 1 ==> s[j] != '\n'
    ensures 0 < k < |s| ==> s[k - 1] == '\n'
    ensures k == |s| || s[k - 1] == '\n'
  {
    if s == [] then 0
    else if s[0] == '\n' then 1
    else 1 + FirstLineLength(s[1..])
  }

  /** Python's `readlines()` on text s: s cut after every '\n'. */
  function ReadLines(s: string): (ls: seq<Line>)
    ensures IsLineSplit(ls)
    ensures Concat(ls) == s
    decreases |s|
  {
    if s == [] then []
    else
      var k := FirstLineLength(s);
      var rest := ReadLines(s[k..]);
      assert ([s[..k]] + rest)[1..] == rest;
      assert s[..k] + s[k..] == s;
      [s[..k]] + rest
  }

  lemma {:induction false} FirstLineLengthOfLine(l: Line, rest: string)
    requires IsLine(l)
    requires EndsLine(l) || rest == []
    ensures FirstLineLength(l + rest) == |l|
    decreases |l|
  {
    if |l| > 1 {
      assert (l + rest)[1..] == l[1..] + rest;
      FirstLineLengthOfLine(l[1..], rest);
    }
  }

  /** Reading back the text of a line split yields that split. */
  lemma {:induction false} ReadLinesOfConcat(ls: seq<Line>)
    requires IsLineSplit(ls)
    ensures ReadLines(Concat(ls)) == ls
  {
    if ls != [] {
      var rest := Concat(ls[1..]);
      assert ls[1..] == [] ==> rest == [];
      FirstLineLengthOfLine(ls[0], rest);
      var s := ls[0] + rest;
      assert s[..|ls[0]|] == ls[0];
      assert s[|ls[0]|..] == rest;
      ReadLinesOfConcat(ls[1..]);
      assert ls == [ls[0]] + ls[1..];
    }
  }

  lemma {:induction false} ConcatAppend(a: seq<Line>, b: seq<Line>)
    ensures Concat(a + b) == Concat(a) + Concat(b)
  {
    if a != [] {
      assert (a + b)[1..] == a[1..] + b;
      ConcatAppend(a[1..], b);
    } else {
      assert a + b == b;
    }
  }

  lemma LineSplitSlice(ls: seq<Line>, i: nat, j: nat)
    requires IsLineSplit(ls) && i <= j <= |ls|
    ensures IsLineSplit(ls[i..j])
  {
  }

  lemma LineSplitJoin(a: seq<Line>, b: seq<Line>)
    requires IsLineSplit(a) && IsLineSplit(b)
    requires a != [] ==> EndsLine(a[|a| - 1])
    ensures IsLineSplit(a + b)
  {
  }

  // ---------------------------------------------------------------------
  // Subsequences
  // ---------------------------------------------------------------------

  /** a can be obtained from b by deleting elements, keeping the order. */
  predicate IsSubsequence(a: seq<Line>, b: seq<Line>)
    decreases |b|
  {
    if a == [] then true
    else if b == [] then false
    else
      || (a[|a| - 1] == b[|b| - 1] && IsSubsequence(a[..|a| - 1], b[..|b| - 1]))
      || IsSubsequence(a, b[..|b| - 1])
  }

  lemma SubsequenceSkip(a: seq<Line>, b: seq<Line>, x: Line)
    requires IsSubsequence(a, b)
    ensures IsSubsequence(a, b + [x])
  {
    assert (b + [x])[..|b|] == b;
  }

  lemma SubsequenceKeep(a: seq<Line>, b: seq<Line>, x: Line)
    requires IsSubsequence(a, b)
    ensures IsSubsequence(a + [x], b + [x])
  {
    assert (b + [x])[..|b|] == b;
    assert (a + [x])[..|a|] == a;
  }
}
