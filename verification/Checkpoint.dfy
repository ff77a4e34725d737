/** Pipeline and flow checkpoints: orchestrator/engine/checkpoint.go. */
module Checkpoints {
  import opened Common

  type Vars = map<string, string>

  datatype Checkpoint = Checkpoint(
    pipeline: string, variables: Vars, completedSteps: seq<string>, nextStep: string, rateLimited: bool)

  datatype SegmentState = SegmentState(pipelinePath: string, vars: Vars)

  datatype FlowCheckpoint = FlowCheckpoint(segments: seq<SegmentState>, completedSegments: nat)

  // ---------------------------------------------------------------------
  // The file of a pipeline
  // ---------------------------------------------------------------------

  function TrimSuffix(s: string, suffix: string): string {
    if |suffix| <= |s| && s[|s| - |suffix|..] == suffix then s[..|s| - |suffix|] else s
  }

  /** strings.Split(s, "/") */
  function SplitSlash(s: string): (parts: seq<string>)
    ensures |parts| > 0
  {
    if s == "" then [""]
    else
      var rest := SplitSlash(s[1..]);
      if s[0] == '/' then [""] + rest else [[s[0]] + rest[0]] + rest[1..]
  }

  function Sanitize(s: string): string {
    if s == "" then "" else (if s[0] == '/' || s[0] == '\\' then "--" else [s[0]]) + Sanitize(s[1..])
  }

  /** checkpointPath: named after the last two components of the pipeline's path. */
  function CheckpointPath(pipelineName: string): string {
    var name := TrimSuffix(TrimSuffix(pipelineName, ".yaml"), ".yml");
    var parts := SplitSlash(name);
    ".agents/checkpoints/checkpoint-"
    + Sanitize(if |parts| >= 2 then parts[|parts| - 2] + "--" + parts[|parts| - 1] else parts[0])
  }

  // ---------------------------------------------------------------------
  // Matching a stored checkpoint
  // ---------------------------------------------------------------------

  /** A Go map read: the empty string for a missing key. */
  function Lookup(m: Vars, k: string): string {
    if k in m then m[k] else ""
  }

  predicate SameVars(stored: Vars, vars: Vars) {
    |stored| == |vars| && forall k :: k in stored ==> Lookup(vars, k) == stored[k]
  }

  predicate Matches(cp: Checkpoint, pipelineName: string, vars: Vars) {
    cp.pipeline == pipelineName && SameVars(cp.variables, vars)
  }

  predicate FlowMatches(fcp: FlowCheckpoint, segments: seq<SegmentState>) {
    && |fcp.segments| == |segments|
    && forall i :: 0 <= i < |segments| ==>
         fcp.segments[i].pipelinePath == segments[i].pipelinePath && SameVars(fcp.segments[i].vars, segments[i].vars)
  }

  /** The comparison loop of LoadCheckpoint. */
  method CompareVars(stored: Vars, vars: Vars) returns (same: bool)
    ensures same <==> SameVars(stored, vars)
  {
    if |stored| != |vars| {
      return false;
    }
    var rest := stored.Keys;
    while rest != {}
      invariant rest <= stored.Keys
      invariant forall k :: k in stored && k !in rest ==> Lookup(vars, k) == stored[k]
      decreases |rest|
    {
      var k :| k in rest;
      if Lookup(vars, k) != stored[k] {
        return false;
      }
      rest := rest - {k};
    }
    return true;
  }

  method IsStepCompleted(cp: Checkpoint, stepName: string) returns (r: bool)
    ensures r <==> stepName in cp.completedSteps
  {
    for i := 0 to |cp.completedSteps|
      invariant forall j :: 0 <= j < i ==> cp.completedSteps[j] != stepName
    {
      if cp.completedSteps[i] == stepName {
        return true;
      }
    }
    return false;
  }

  lemma SubsetOfSameSize<T>(a: set<T>, b: set<T>)
    requires a <= b && |a| == |b|
    ensures a == b
  {
    if x :| x in b && x !in a {
      SubsetSize(a, b - {x});
      assert false;
    }
  }

  lemma {:induction false} SubsetSize<T>(a: set<T>, b: set<T>)
    requires a <= b
    ensures |a| <= |b|
    decreases a
  {
    if x :| x in a {
      SubsetSize(a - {x}, b - {x});
    }
  }

  /** The match means equality exactly when no key stored with an empty value is missing. */
  lemma MatchIsEquality(stored: Vars, vars: Vars)
    ensures stored == vars <==> SameVars(stored, vars) && forall k :: k in stored && stored[k] == "" ==> k in vars
  {
    if SameVars(stored, vars) && forall k :: k in stored && stored[k] == "" ==> k in vars {
      assert forall k :: k in stored ==> k in vars;
      assert stored.Keys <= vars.Keys;
      assert |stored.Keys| == |stored| && |vars.Keys| == |vars|;
      SubsetOfSameSize(stored.Keys, vars.Keys);
    }
  }

  /** A key longer than all others. */
  lemma {:induction false} NewKey(keys: set<string>) returns (k: string)
    ensures k !in keys && forall x :: x in keys ==> |x| < |k|
    decreases keys
  {
    if x :| x in keys {
      var y := NewKey(keys - {x});
      k := if |x| < |y| then y else x + "x";
    } else {
      k := "x";
    }
  }

  /** Matching is map equality, whatever the variables of the new run, if and only if no stored value is empty. */
  lemma MatchMeansEqualityIffNoEmptyValue(stored: Vars)
    ensures (forall vars :: SameVars(stored, vars) <==> stored == vars) <==> (forall k :: k in stored ==> stored[k] != "")
  {
    if forall k :: k in stored ==> stored[k] != "" {
      forall vars
        ensures SameVars(stored, vars) <==> stored == vars
      {
        MatchIsEquality(stored, vars);
      }
    } else {
      var k :| k in stored && stored[k] == "";
      var k' := NewKey(stored.Keys);
      var vars := (stored - {k})[k' := "x"];
      assert |stored - {k}| == |stored| - 1 by {
        assert (stored - {k}).Keys == stored.Keys - {k};
        assert |stored.Keys| == |stored| && |(stored - {k}).Keys| == |stored - {k}|;
      }
      assert vars.Keys == (stored - {k}).Keys + {k'};
      assert |vars| == |vars.Keys| && |(stored - {k}).Keys| == |stored - {k}|;
      assert SameVars(stored, vars) && k !in vars;
    }
  }
}
