/** Pipelines and their validation: orchestrator/core/pipeline.go. */
module Pipelines {
  import opened Common

  datatype Condition = Condition(
    prompt: string, file: string, target: string,  // target is the goto field
    contains: string, notContains: string, matches: string, notMatches: string)

  datatype Step = Step(
    name: string, agent: string, model: string, effort: string, prompt: string, command: string,
    projectDir: string, skip: string, log: bool, condition: Option<Condition>)

  datatype Loop = Loop(maxIterations: int, elements: seq<Element>, condition: Condition)

  datatype Element = StepElement(step: Step) | LoopElement(loop: Loop)

  datatype Error =
    | DuplicateName(name: string)
    | MissingName
    | BothAgentAndCommand(step: string)
    | NeitherAgentNorCommand(step: string)
    | InvalidAgent(step: string)
    | MissingPrompt(step: string)
    | NoConditionMode(step: string)
    | SeveralConditionModes(step: string)
    | InvalidRegex(step: string)
    | GotoNotFound(step: string, target: string)
    | GotoInLoop(step: string)
    | NoIterations
    | EmptyLoop
    | LoopWithoutCondition

  /** The number of elements, inside loops too: what recursion into a pipeline decreases. */
  function Size(e: Element): nat
    decreases e
  {
    match e
    case StepElement(_) => 1
    case LoopElement(l) => 1 + SizeFrom(l, 0)
  }

  function SizeFrom(l: Loop, i: nat): nat
    decreases l, |l.elements| - i
  {
    if i >= |l.elements| then 0 else Size(l.elements[i]) + SizeFrom(l, i + 1)
  }

  function Total(es: seq<Element>): nat {
    if es == [] then 0 else Size(es[0]) + Total(es[1..])
  }

  lemma {:induction false} SizeIsTotal(l: Loop, i: nat)
    requires i <= |l.elements|
    ensures SizeFrom(l, i) == Total(l.elements[i..])
    decreases |l.elements| - i
  {
    if i < |l.elements| {
      SizeIsTotal(l, i + 1);
      assert l.elements[i..][1..] == l.elements[i + 1..];
    }
  }

  lemma {:induction false} NestedSmaller(es: seq<Element>, i: nat)
    requires i < |es|
    ensures Size(es[i]) <= Total(es)
    ensures es[i].LoopElement? ==> Size(es[i]) == 1 + Total(es[i].loop.elements)
  {
    if i > 0 {
      NestedSmaller(es[1..], i - 1);
    }
    if es[i].LoopElement? {
      SizeIsTotal(es[i].loop, 0);
      assert es[i].loop.elements[0..] == es[i].loop.elements;
    }
  }

  lemma TailSmaller(es: seq<Element>)
    requires es != []
    ensures Total(es[1..]) < Total(es)
  {
  }

  /** FlattenStepNames: every step name, inside loops too, in order. */
  function StepNames(es: seq<Element>): seq<string>
    decreases Total(es)
  {
    if es == [] then []
    else
      NestedSmaller(es, 0);
      TailSmaller(es);
      (match es[0] case StepElement(s) => [s.name] case LoopElement(l) => StepNames(l.elements)) + StepNames(es[1..])
  }

  lemma NoNames()
    ensures StepNames([]) == []
  {
  }

  lemma NamesOfOne(e: Element)
    ensures StepNames([e]) == match e case StepElement(s) => [s.name] case LoopElement(l) => StepNames(l.elements)
  {
    assert [e][1..] == [];
  }

  lemma {:induction false} NamesConcat(a: seq<Element>, b: seq<Element>)
    ensures StepNames(a + b) == StepNames(a) + StepNames(b)
    decreases |a|
  {
    if a == [] {
      assert a + b == b;
    } else {
      NamesConcat(a[1..], b);
      assert (a + b)[0] == a[0] && (a + b)[1..] == a[1..] + b;
      NamesOfOne(a[0]);
      NamesStep(a);
      NamesStep(a + b);
      hide StepNames;
      assert StepNames([a[0]]) + (StepNames(a[1..]) + StepNames(b)) == (StepNames([a[0]]) + StepNames(a[1..])) + StepNames(b);
    }
  }

  lemma NamesStep(es: seq<Element>)
    requires es != []
    ensures StepNames(es) == StepNames([es[0]]) + StepNames(es[1..])
  {
    NamesOfOne(es[0]);
  }

  function TopLevelStepNames(es: seq<Element>): seq<string> {
    if es == [] then []
    else (if es[0].StepElement? then [es[0].step.name] else []) + TopLevelStepNames(es[1..])
  }

  // ---------------------------------------------------------------------
  // What a valid pipeline is
  // ---------------------------------------------------------------------

  function Modes(c: Condition): nat {
    (if c.prompt != "" then 1 else 0) + (if c.contains != "" then 1 else 0) + (if c.notContains != "" then 1 else 0)
    + (if c.matches != "" then 1 else 0) + (if c.notMatches != "" then 1 else 0)
  }

  /** `regex` tells which expressions compile. */
  predicate GoodCondition(c: Condition, targets: seq<string>, regex: string -> bool) {
    && Modes(c) == 1
    && (c.matches == "" || regex(c.matches)) && (c.notMatches == "" || regex(c.notMatches))
    && (c.target == "" || c.target in targets)
  }

  predicate GoodStep(s: Step, targets: seq<string>, regex: string -> bool) {
    && s.name != ""
    && (if s.agent != "" then s.agent in {"kiro", "claude", "cline"} && s.prompt != "" && s.command == ""
        else s.command != "" && s.prompt == "")
    && (s.condition.Some? ==> GoodCondition(s.condition.value, targets, regex))
  }

  /** Inside a loop no step may jump; some condition must be able to end the loop. */
  predicate GoodLoop(l: Loop, regex: string -> bool)
    decreases l
  {
    && l.maxIterations > 0 && l.elements != []
    && (forall i :: 0 <= i < |l.elements| ==>
          match l.elements[i]
          case StepElement(s) =>
            GoodStep(s, [], regex) && (s.condition.Some? ==> s.condition.value.target == "")
          case LoopElement(inner) => GoodLoop(inner, regex))
    && (Modes(l.condition) > 0
        || exists i :: 0 <= i < |l.elements| && l.elements[i].StepElement? && l.elements[i].step.condition.Some?)
  }

  ghost predicate GoodElement(e: Element, targets: seq<string>, regex: string -> bool) {
    match e
    case StepElement(s) => GoodStep(s, targets, regex)
    case LoopElement(l) => GoodLoop(l, regex)
  }

  ghost predicate Good(es: seq<Element>, regex: string -> bool) {
    && Distinct(StepNames(es))
    && forall i :: 0 <= i < |es| ==> GoodElement(es[i], TopLevelStepNames(es), regex)
  }

  // ---------------------------------------------------------------------
  // The validators
  // ---------------------------------------------------------------------

  /** flattenElements: appends the step names of `elements` to `names`. */
  method FlattenElements(elements: seq<Element>, names: seq<string>) returns (r: seq<string>)
    ensures r == names + StepNames(elements)
    decreases Total(elements)
  {
    hide StepNames, Total, Size;
    r := names;
    NoNames();
    for i := 0 to |elements|
      invariant r == names + StepNames(elements[..i])
    {
      assert elements[..i + 1] == elements[..i] + [elements[i]];
      NamesConcat(elements[..i], [elements[i]]);
      NamesOfOne(elements[i]);
      NestedSmaller(elements, i);
      match elements[i] {
        case StepElement(s) => r := r + [s.name];
        case LoopElement(l) => r := FlattenElements(l.elements, r);
      }
    }
    assert elements[..|elements|] == elements;
  }

  method TopLevel(elements: seq<Element>) returns (r: seq<string>)
    ensures r == TopLevelStepNames(elements)
  {
    r := [];
    for i := 0 to |elements|
      invariant r + TopLevelStepNames(elements[i..]) == TopLevelStepNames(elements)
    {
      assert elements[i..][0] == elements[i] && elements[i..][1..] == elements[i + 1..];
      if elements[i].StepElement? {
        ghost var rest := TopLevelStepNames(elements[i + 1..]);
        assert r + ([elements[i].step.name] + rest) == (r + [elements[i].step.name]) + rest;
        r := r + [elements[i].step.name];
      }
    }
  }

  method ValidateCondition(step: string, c: Condition, targets: seq<string>, regex: string -> bool)
    returns (e: Option<Error>)
    ensures e.None? <==> GoodCondition(c, targets, regex)
  {
    var modes := 0;
    if c.prompt != "" { modes := modes + 1; }
    if c.contains != "" { modes := modes + 1; }
    if c.notContains != "" { modes := modes + 1; }
    if c.matches != "" { modes := modes + 1; }
    if c.notMatches != "" { modes := modes + 1; }
    if modes == 0 { return Some(NoConditionMode(step)); }
    if modes > 1 { return Some(SeveralConditionModes(step)); }
    if c.matches != "" && !regex(c.matches) { return Some(InvalidRegex(step)); }
    if c.notMatches != "" && !regex(c.notMatches) { return Some(InvalidRegex(step)); }
    if c.target != "" {
      var found := false;
      for i := 0 to |targets|
        invariant !found && forall j :: 0 <= j < i ==> targets[j] != c.target
      {
        if targets[i] == c.target {
          found := true;
          break;
        }
      }
      if !found { return Some(GotoNotFound(step, c.target)); }
    }
    return None;
  }

  method ValidateStep(s: Step, targets: seq<string>, regex: string -> bool) returns (e: Option<Error>)
    ensures e.None? <==> GoodStep(s, targets, regex)
  {
    if s.name == "" { return Some(MissingName); }
    var isAgentStep, hasCommand := s.agent != "", s.command != "";
    if (isAgentStep || s.prompt != "") && hasCommand { return Some(BothAgentAndCommand(s.name)); }
    if !isAgentStep && !hasCommand { return Some(NeitherAgentNorCommand(s.name)); }
    if isAgentStep {
      if s.agent != "kiro" && s.agent != "claude" && s.agent != "cline" { return Some(InvalidAgent(s.name)); }
      if s.prompt == "" { return Some(MissingPrompt(s.name)); }
    }
    if s.condition.Some? {
      e := ValidateCondition(s.name, s.condition.value, targets, regex);
      return;
    }
    return None;
  }

  method ValidateLoop(l: Loop, regex: string -> bool) returns (e: Option<Error>)
    ensures e.None? <==> GoodLoop(l, regex)
    decreases l
  {
    if l.maxIterations <= 0 { return Some(NoIterations); }
    if |l.elements| == 0 { return Some(EmptyLoop); }
    var hasStepCondition := false;
    for i := 0 to |l.elements|
      invariant hasStepCondition <==>
                exists j :: 0 <= j < i && l.elements[j].StepElement? && l.elements[j].step.condition.Some?
      invariant forall j :: 0 <= j < i ==>
                  match l.elements[j]
                  case StepElement(s) =>
                    GoodStep(s, [], regex) && (s.condition.Some? ==> s.condition.value.target == "")
                  case LoopElement(inner) => GoodLoop(inner, regex)
    {
      match l.elements[i] {
        case StepElement(s) =>
          if s.condition.Some? {
            hasStepCondition := true;
            if s.condition.value.target != "" { return Some(GotoInLoop(s.name)); }
          }
          e := ValidateStep(s, [], regex);
          if e.Some? { return; }
        case LoopElement(inner) =>
          e := ValidateLoop(inner, regex);
          if e.Some? { return; }
      }
    }
    if Modes(l.condition) == 0 && !hasStepCondition { return Some(LoopWithoutCondition); }
    return None;
  }

  /** The validator accepts exactly the good pipelines. */
  method ValidatePipeline(elements: seq<Element>, regex: string -> bool) returns (e: Option<Error>)
    ensures e.None? <==> Good(elements, regex)
  {
    hide StepNames, GoodStep, GoodLoop, TopLevelStepNames;
    var allNames := FlattenElements(elements, []);
    assert allNames == StepNames(elements);
    var duplicate := FindDuplicate(allNames);
    if duplicate.Some? {
      return Some(DuplicateName(duplicate.value));
    }
    var topLevelNames := TopLevel(elements);
    for i := 0 to |elements|
      invariant forall j :: 0 <= j < i ==> GoodElement(elements[j], topLevelNames, regex)
    {
      match elements[i] {
        case StepElement(s) => e := ValidateStep(s, topLevelNames, regex);
        case LoopElement(l) => e := ValidateLoop(l, regex);
      }
      if e.Some? {
        assert !GoodElement(elements[i], topLevelNames, regex);
        return;
      }
    }
    return None;
  }

  /** The loop over the `seen` map. */
  method FindDuplicate(names: seq<string>) returns (r: Option<string>)
    ensures r.None? <==> Distinct(names)
    ensures r.Some? ==> r.value in names
  {
    var seen := {};
    for i := 0 to |names|
      invariant Distinct(names[..i])
      invariant seen == set n | n in names[..i]
    {
      if names[i] in seen {
        return Some(names[i]);
      }
      seen := seen + {names[i]};
      assert names[..i + 1] == names[..i] + [names[i]];
    }
    assert names[..|names|] == names;
    return None;
  }

  // ---------------------------------------------------------------------
  // Where a goto lands
  // ---------------------------------------------------------------------

  /** findElementIndex: the first top-level step of that name, or -1. */
  function IndexOf(name: string, es: seq<Element>): (i: int)
    ensures -1 <= i < |es|
    ensures i >= 0 ==> es[i].StepElement? && es[i].step.name == name
    ensures forall j :: 0 <= j < (if i < 0 then |es| else i) ==> !(es[j].StepElement? && es[j].step.name == name)
  {
    if es == [] then -1
    else if es[0].StepElement? && es[0].step.name == name then 0
    else
      var i := IndexOf(name, es[1..]);
      if i < 0 then -1 else i + 1
  }

  lemma {:induction false} TopLevelNamesAre(es: seq<Element>, name: string)
    ensures name in TopLevelStepNames(es) <==> exists i :: 0 <= i < |es| && es[i].StepElement? && es[i].step.name == name
  {
    if es != [] {
      TopLevelNamesAre(es[1..], name);
      assert forall i :: 0 < i < |es| ==> es[i] == es[1..][i - 1];
    }
  }

  /** In a valid pipeline two top-level steps never share a name. */
  lemma UniqueTopLevelName(es: seq<Element>, i: nat, j: nat)
    requires Distinct(StepNames(es)) && i < j < |es|
    requires es[i].StepElement? && es[j].StepElement?
    ensures es[i].step.name != es[j].step.name
  {
    hide StepNames;
    var before, between, after := es[..i], es[i + 1..j], es[j + 1..];
    assert es == before + ([es[i]] + (between + ([es[j]] + after)));
    NamesOfOne(es[i]);
    NamesOfOne(es[j]);
    NamesConcat(before, [es[i]] + (between + ([es[j]] + after)));
    NamesConcat([es[i]], between + ([es[j]] + after));
    NamesConcat(between, [es[j]] + after);
    NamesConcat([es[j]], after);
    var a, b := StepNames(before), StepNames(between);
    assert StepNames(es)[|a|] == es[i].step.name && StepNames(es)[|a| + 1 + |b|] == es[j].step.name;
  }

  /** A goto of a valid pipeline always lands on the one top-level step of that name. */
  lemma GotoLands(es: seq<Element>, regex: string -> bool, i: nat)
    requires Good(es, regex) && i < |es| && es[i].StepElement?
    requires es[i].step.condition.Some? && es[i].step.condition.value.target != ""
    ensures var target := es[i].step.condition.value.target;
            var j := IndexOf(target, es);
            && j >= 0 && es[j].StepElement? && es[j].step.name == target
            && forall k :: 0 <= k < |es| && es[k].StepElement? && es[k].step.name == target ==> k == j
  {
    var target := es[i].step.condition.value.target;
    assert GoodElement(es[i], TopLevelStepNames(es), regex);
    TopLevelNamesAre(es, target);
    var j := IndexOf(target, es);
    forall k | 0 <= k < |es| && es[k].StepElement? && es[k].step.name == target
      ensures k == j
    {
      if k > j {
        UniqueTopLevelName(es, j, k);
      }
    }
  }
}
