/**
 * The allow-list gate of the calculator tool (calculate in app.py). The
 * expression is scanned, as re.findall(r'[a-zA-Z_]+', expression) does, into
 * its maximal runs of ASCII letters and underscores, left to right; the first
 * run whose lower-case form is not one of the fourteen allowed names is
 * reported and nothing is evaluated. Python's eval is not modelled: what it
 * would reply is a parameter.
 */
module Calculator {
  import opened PyText

  /** The names the evaluator is given: math functions and constants. */
  const Allowed: set<string> := {
    "sqrt", "abs", "round", "pow", "min", "max", "sin", "cos",
    "tan", "log", "pi", "e", "floor", "ceil"
  }

  /** The character class [a-zA-Z_]. */
  predicate IsWordChar(c: char)
  {
    'a' <= c <= 'z' || 'A' <= c <= 'Z' || c == '_'
  }

  /** The span s[start..end] of one match. */
  datatype Run = Run(start: nat, end: nat)

  /** s[a..b] is a run of word characters that cannot be extended on either side. */
  predicate MaximalRun(s: string, r: Run)
  {
    r.start < r.end <= |s|
    && (forall k :: r.start <= k < r.end ==> IsWordChar(s[k]))
    && (r.start == 0 || !IsWordChar(s[r.start - 1]))
    && (r.end == |s| || !IsWordChar(s[r.end]))
  }

  /** The end of the run of word characters that starts at i. */
  function RunEnd(s: string, i: nat): (r: nat)
    requires i <= |s|
    decreases |s| - i
    ensures i <= r <= |s|
  {
    if i < |s| && IsWordChar(s[i]) then RunEnd(s, i + 1) else i
  }

  /** Everything from i up to RunEnd(s, i) is a word character, and the run stops there. */
  lemma {:induction false} RunEndFacts(s: string, i: nat)
    requires i <= |s|
    decreases |s| - i
    ensures forall k :: i <= k < RunEnd(s, i) ==> IsWordChar(s[k])
    ensures RunEnd(s, i) == |s| || !IsWordChar(s[RunEnd(s, i)])
  {
    if i < |s| && IsWordChar(s[i]) {
      RunEndFacts(s, i + 1);
    }
  }

  /** The matches of [a-zA-Z_]+ in s from position i on, as the scanner finds them. */
  function RunsFrom(s: string, i: nat): seq<Run>
    requires i <= |s|
    decreases |s| - i
  {
    if i == |s| then []
    else if !IsWordChar(s[i]) then RunsFrom(s, i + 1)
    else
      var e := RunEnd(s, i + 1);
      [Run(i, e)] + RunsFrom(s, e)
  }

  /** The matches of [a-zA-Z_]+ in s, left to right. */
  function Runs(s: string): seq<Run>
  {
    RunsFrom(s, 0)
  }

  /** re.findall(r'[a-zA-Z_]+', s): the text of every match, left to right. */
  function Words(s: string): (r: seq<string>)
    ensures |r| == |Runs(s)|
  {
    var runs := Runs(s);
    seq(|runs|, k requires 0 <= k < |runs| => RunText(s, runs[k]))
  }

  /** The text of a run, empty when the run does not lie in s. */
  function RunText(s: string, r: Run): string
  {
    if r.start <= r.end <= |s| then s[r.start..r.end] else []
  }

  /** Position i does not lie strictly inside a run of word characters. */
  predicate AtRunBoundary(s: string, i: nat)
  {
    i == 0 || i >= |s| || !IsWordChar(s[i - 1]) || !IsWordChar(s[i])
  }

  /** Every match found from a boundary on is a maximal run that starts at or after i. */
  lemma {:induction false} RunsFromMaximal(s: string, i: nat)
    requires i <= |s| && AtRunBoundary(s, i)
    decreases |s| - i
    ensures forall k :: 0 <= k < |RunsFrom(s, i)| ==>
      MaximalRun(s, RunsFrom(s, i)[k]) && i <= RunsFrom(s, i)[k].start
  {
    if i < |s| {
      if !IsWordChar(s[i]) {
        RunsFromMaximal(s, i + 1);
      } else {
        var e := RunEnd(s, i + 1);
        RunEndFacts(s, i + 1);
        RunsFromMaximal(s, e);
        assert MaximalRun(s, Run(i, e));
      }
    }
  }

  /** Every maximal run that starts at or after a boundary i is found. */
  lemma {:induction false} MaximalRunsFound(s: string, i: nat, r: Run)
    requires i <= |s| && MaximalRun(s, r) && i <= r.start
    decreases |s| - i
    ensures r in RunsFrom(s, i)
  {
    if i < r.start {
      if IsWordChar(s[i]) {
        var e := RunEnd(s, i + 1);
        RunEndFacts(s, i + 1);
        if r.start < e {
          // s[r.start - 1] would be a word character inside the run from i
          assert false;
        }
        MaximalRunsFound(s, e, r);
      } else {
        MaximalRunsFound(s, i + 1, r);
      }
    } else {
      var e := RunEnd(s, i + 1);
      RunEndFacts(s, i + 1);
      assert RunsFrom(s, i)[0] == Run(i, e);
      if e != r.end {
        assert false;
      }
    }
  }

  /** The matches found from a boundary on come left to right, each ending before the next starts. */
  lemma {:induction false} RunsFromOrdered(s: string, i: nat)
    requires i <= |s| && AtRunBoundary(s, i)
    decreases |s| - i
    ensures forall a, b :: 0 <= a < b < |RunsFrom(s, i)| ==> RunsFrom(s, i)[a].end < RunsFrom(s, i)[b].start
  {
    if i < |s| {
      if !IsWordChar(s[i]) {
        RunsFromOrdered(s, i + 1);
      } else {
        var e := RunEnd(s, i + 1);
        RunEndFacts(s, i + 1);
        RunsFromOrdered(s, e);
        RunsFromMaximal(s, e);
        var later := RunsFrom(s, e);
        var rs := RunsFrom(s, i);
        assert rs == [Run(i, e)] + later;
        forall a, b | 0 <= a < b < |rs|
          ensures rs[a].end < rs[b].start
        {
          assert rs[b] == later[b - 1];
          if a == 0 {
            // later runs start at a word character at or after e, and s[e] is not one
            assert MaximalRun(s, later[b - 1]);
            assert IsWordChar(s[later[b - 1].start]);
          } else {
            assert rs[a] == later[a - 1];
          }
        }
      }
    }
  }

  /**
   * The scanner finds exactly the maximal runs of s, left to right, each once:
   * every match is a maximal run, every maximal run is matched, each match
   * ends before the next one starts, and the k-th word is the text of the
   * k-th match.
   */
  lemma RunsAreMaximalRuns(s: string)
    ensures forall k :: 0 <= k < |Runs(s)| ==>
      MaximalRun(s, Runs(s)[k]) && Words(s)[k] == s[Runs(s)[k].start..Runs(s)[k].end]
    ensures forall r :: MaximalRun(s, r) ==> r in Runs(s)
    ensures forall a, b :: 0 <= a < b < |Runs(s)| ==> Runs(s)[a].end < Runs(s)[b].start
  {
    RunsFromMaximal(s, 0);
    RunsFromOrdered(s, 0);
    forall r | MaximalRun(s, r)
      ensures r in Runs(s)
    {
      MaximalRunsFound(s, 0, r);
    }
  }

  /** The name is one the evaluator is given, compared in lower case as the source does. */
  predicate Permitted(word: string)
  {
    Lower(word) in Allowed
  }

  /** The reply when `word` is refused. */
  function Refusal(word: string): string
  {
    "Error: '" + word + "' not allowed"
  }

  /**
   * The tool: scan the expression and refuse the first word that is not
   * permitted; when every word is permitted, the reply is what evaluating the
   * expression gives, `evaluated`.
   */
  method Calculate(expression: string, evaluated: string) returns (reply: string)
    ensures (forall j :: 0 <= j < |Words(expression)| ==> Permitted(Words(expression)[j])) ==> reply == evaluated
    ensures forall k :: 0 <= k < |Words(expression)| && !Permitted(Words(expression)[k])
                        && (forall j :: 0 <= j < k ==> Permitted(Words(expression)[j]))
                        ==> reply == Refusal(Words(expression)[k])
  {
    var words := Words(expression);
    for i := 0 to |words|
      invariant forall j :: 0 <= j < i ==> Permitted(words[j])
    {
      if Lower(words[i]) !in Allowed {
        return Refusal(words[i]);
      }
    }
    return evaluated;
  }

  /** From i on there is no letter or underscore, so nothing more is matched. */
  lemma {:induction false} NoWordCharsNoRuns(s: string, i: nat)
    requires i <= |s|
    requires forall k :: i <= k < |s| ==> !IsWordChar(s[k])
    decreases |s| - i
    ensures RunsFrom(s, i) == []
  {
    if i < |s| {
      NoWordCharsNoRuns(s, i + 1);
    }
  }

  /** An expression without letters or underscores has no words, so the gate lets it through. */
  lemma NoLettersNoWords(expression: string)
    requires forall i :: 0 <= i < |expression| ==> !IsWordChar(expression[i])
    ensures Words(expression) == []
  {
    NoWordCharsNoRuns(expression, 0);
  }

  /**
   * When the gate lets an expression through, every maximal run of ASCII
   * letters and underscores in it is, lower-cased, one of the allowed names.
   * The scan sees only ASCII identifiers: other characters that Python accepts
   * in identifiers are outside the gate, as they are in the source.
   */
  lemma GatePassesOnlyAllowedNames(expression: string, r: Run)
    requires forall j :: 0 <= j < |Words(expression)| ==> Permitted(Words(expression)[j])
    requires MaximalRun(expression, r)
    ensures Lower(expression[r.start..r.end]) in Allowed
  {
    RunsAreMaximalRuns(expression);
    var k :| 0 <= k < |Runs(expression)| && Runs(expression)[k] == r;
    assert Words(expression)[k] == expression[r.start..r.end];
  }

  /** A refusal names the refused word, so different refused words give different replies. */
  lemma RefusalNamesWord(w1: string, w2: string)
    requires Refusal(w1) == Refusal(w2)
    ensures w1 == w2
  {
    var p := "Error: '";
    assert Refusal(w1)[|p|..|p| + |w1|] == w1;
    assert Refusal(w2)[|p|..|p| + |w2|] == w2;
  }
}
