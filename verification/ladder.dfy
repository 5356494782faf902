/**
 First-match-wins keyword ladders, the shape of every classifier in the
 scanner: an `if / else if` chain whose tests are "the text contains one of
 these words" (or, once, "contains this word and one of those"), each rung
 with its own outcome, and a fallback after the last rung.
 */
module Ladder {
  import opened Wrappers
  import opened Strings

  /** Some word of `words` occurs in `s`. */
  predicate ContainsAny(s: string, words: seq<string>) {
    exists k :: 0 <= k < |words| && Contains(s, words[k])
  }

  /** A rung's test: any of some words, or one required word together with any of some others. */
  datatype Test = AnyOf(words: seq<string>) | AllOf(required: string, anyOf: seq<string>)

  predicate Holds(t: Test, s: string) {
    match t
    case AnyOf(ws) => ContainsAny(s, ws)
    case AllOf(w, ws) => Contains(s, w) && ContainsAny(s, ws)
  }

  datatype Rung = Rung(test: Test, outcome: string)

  /** Rung `j` decides `s`: its test holds and no earlier rung's does. */
  predicate Decides(rungs: seq<Rung>, s: string, j: nat) {
    j < |rungs| && Holds(rungs[j].test, s) && forall i :: 0 <= i < j ==> !Holds(rungs[i].test, s)
  }

  /** The index of the first rung whose test holds of `s`. */
  function FirstMatch(rungs: seq<Rung>, s: string): (r: Option<nat>)
    ensures r.Some? ==> r.value < |rungs| && Holds(rungs[r.value].test, s)
    ensures r.Some? ==> forall j :: 0 <= j < r.value ==> !Holds(rungs[j].test, s)
    ensures r.None? <==> forall j :: 0 <= j < |rungs| ==> !Holds(rungs[j].test, s)
  {
    if |rungs| == 0 then None
    else if Holds(rungs[0].test, s) then Some(0)
    else
      match FirstMatch(rungs[1..], s)
      case None => None
      case Some(i) => Some(i + 1)
  }

  /** The outcome of the first rung that holds, else `fallback`. */
  function Classify(rungs: seq<Rung>, s: string, fallback: string): string {
    match FirstMatch(rungs, s)
    case Some(i) => rungs[i].outcome
    case None => fallback
  }

  /**
   The rung that decides: when rung `i` holds and no earlier rung does, its
   label is the answer, whatever later rungs would say.
   */
  lemma ClassifyPicks(rungs: seq<Rung>, s: string, fallback: string, i: nat)
    requires i < |rungs| && Holds(rungs[i].test, s)
    requires forall j :: 0 <= j < i ==> !Holds(rungs[j].test, s)
    ensures Classify(rungs, s, fallback) == rungs[i].outcome
  {
    var m := FirstMatch(rungs, s);
    assert m.Some?;
  }

  /** An outcome that no other rung and not the fallback gives is reached only through its own rung. */
  lemma ClassifyReached(rungs: seq<Rung>, s: string, fallback: string, i: nat)
    requires i < |rungs| && Classify(rungs, s, fallback) == rungs[i].outcome
    requires rungs[i].outcome != fallback
    requires forall j :: 0 <= j < |rungs| && j != i ==> rungs[j].outcome != rungs[i].outcome
    ensures Holds(rungs[i].test, s)
  {
    var m := FirstMatch(rungs, s);
    assert m.Some? && m.value == i;
  }

  /** With no rung holding, the answer is the fallback. */
  lemma ClassifyDefault(rungs: seq<Rung>, s: string, fallback: string)
    requires forall j :: 0 <= j < |rungs| ==> !Holds(rungs[j].test, s)
    ensures Classify(rungs, s, fallback) == fallback
  {
  }

  /** The answer is always one of the rungs' outcomes or the fallback. */
  lemma ClassifyTotal(rungs: seq<Rung>, s: string, fallback: string)
    ensures Classify(rungs, s, fallback) == fallback ||
            exists i :: 0 <= i < |rungs| && Classify(rungs, s, fallback) == rungs[i].outcome
  {
    var m := FirstMatch(rungs, s);
    if m.Some? {
      assert Classify(rungs, s, fallback) == rungs[m.value].outcome;
    }
  }

  /** A word occurs whenever a longer word containing it does. */
  lemma ContainsTransitive(s: string, mid: string, sub: string)
    requires Contains(s, mid) && Contains(mid, sub)
    ensures Contains(s, sub)
  {
    ContainsIff(s, mid);
    ContainsIff(mid, sub);
    var i :| OccursAt(s, mid, i);
    var j :| OccursAt(mid, sub, j);
    assert forall k :: 0 <= k < |mid| ==> s[i + k] == mid[k] by {
      forall k | 0 <= k < |mid| ensures s[i + k] == mid[k] {
        assert s[i..i + |mid|][k] == s[i + k];
      }
    }
    assert s[i + j..i + j + |sub|] == mid[j..j + |sub|];
    ContainsAt(s, sub, i + j);
  }
}
