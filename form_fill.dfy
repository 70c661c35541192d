/** The fill helpers of `unitas_helper.py`, with the browser replaced by
    the list of fields it is given: which values they skip and how clock
    fields are formatted. */
module FormFill {
  import opened Common
  import opened JsonValue

  /** One field filled in the browser. */
  datatype Fill =
    | Typed(id: string, value: Json)                      // `fill_input_by_id`
    | Selected(datacy: string, id: string, text: string)  // `fill_input_by_datacy_and_id`
    | Picked(box: string, items: seq<Json>)              // `fill_multiselect_box`

  /** One call a form filler makes. `Clock` is the guarded block around an
      hour or minute selector: `if v.strip() != "": f"{int(v):02d}"`. */
  datatype Step =
    | Input(id: string, value: Json)
    | Clock(datacy: string, id: string, time: Json)
    | Multiselect(box: string, items: Json)

  /** `value is None or value == ""`: the values the input helpers skip. */
  predicate Skipped(v: Json) {
    v.JNull? || v == JStr("")
  }

  /** The entries of a comma-separated list, each stripped. */
  function CommaItems(s: string): (r: seq<Json>)
    ensures |r| == |Split(s, ',')|
    ensures forall k :: 0 <= k < |r| ==> r[k] == JStr(Strip(Split(s, ',')[k]))
  {
    var parts := Split(s, ',');
    seq(|parts|, k requires 0 <= k < |parts| => JStr(Strip(parts[k])))
  }

  /** `fill_multiselect_box`: `""` is skipped; other text is a
      comma-separated list; a list is clicked item by item; anything that
      is not iterable (`None`, a number, a boolean) raises TypeError. The
      keys a dict would iterate are not modelled (no database column holds
      one). */
  function Multiselected(box: string, items: Json): (r: Result<Option<Fill>>)
    ensures r.Raised? <==> items.JNull? || items.JBool? || items.JInt? || items.JFloat?
    ensures r.Raised? ==> r.error == TypeError
    ensures r == Ok(None) <==> items == JStr("")
    ensures items.JStr? && items.s != "" ==> r == Ok(Some(Picked(box, CommaItems(items.s))))
    ensures items.JList? ==> r == Ok(Some(Picked(box, items.items)))
  {
    match items
    case JStr(s) => if s == "" then Ok(None) else Ok(Some(Picked(box, CommaItems(s))))
    case JList(xs) => Ok(Some(Picked(box, xs)))
    case JObj(fields) => Ok(Some(Picked(box, [])))
    case _ => Raised(TypeError)
  }

  /** What one step fills, if anything. A clock value must be text
      (`.strip()` of anything else raises AttributeError), and `int()` of
      text that is not a number raises ValueError. */
  function StepFill(step: Step): (r: Result<Option<Fill>>)
    ensures step.Input? ==> r == Ok(if Skipped(step.value) then None else Some(Typed(step.id, step.value)))
    ensures step.Multiselect? ==> r == Multiselected(step.box, step.items)
    ensures step.Clock? && !step.time.JStr? ==> r == Raised(AttributeError)
    ensures step.Clock? && step.time.JStr? && Strip(step.time.s) == "" ==> r == Ok(None)
    ensures step.Clock? && step.time.JStr? && Strip(step.time.s) != "" ==>
      (r.Raised? <==> ParseInt(step.time.s).None?) &&
      (r.Ok? ==> r.value == Some(Selected(step.datacy, step.id, Format02(ParseInt(step.time.s).value))))
  {
    match step
    case Input(id, value) => Ok(if Skipped(value) then None else Some(Typed(id, value)))
    case Multiselect(box, items) => Multiselected(box, items)
    case Clock(datacy, id, time) =>
      if !time.JStr? then Raised(AttributeError)
      else
      var text := time.s;
      if Strip(text) == "" then Ok(None)
      else
        match ParseInt(text)
        case None => Raised(ValueError)
        case Some(n) => Ok(Some(Selected(datacy, id, Format02(n))))
  }

  /** The fields filled by a run of steps, and the error that stopped it
      (the fields filled before it stay filled). */
  function RunSteps(steps: seq<Step>): (r: (seq<Fill>, Option<PyError>))
    ensures |r.0| <= |steps|
  {
    if steps == [] then ([], None)
    else
      var (fills, err) := RunSteps(steps[..|steps| - 1]);
      if err.Some? then (fills, err)
      else
        match StepFill(steps[|steps| - 1])
        case Raised(e) => (fills, Some(e))
        case Ok(f) => (fills + (if f.Some? then [f.value] else []), None)
  }

  /** Without an error, the fills are exactly those of the steps, one step
      after another. */
  lemma {:induction false} RunStepsAppend(steps: seq<Step>, more: seq<Step>)
    requires RunSteps(steps).1.None?
    ensures RunSteps(steps + more).0 == RunSteps(steps).0 + RunSteps(more).0
    ensures RunSteps(steps + more).1 == RunSteps(more).1
    decreases |more|
  {
    if more == [] {
      assert steps + more == steps;
    } else {
      var init := more[..|more| - 1];
      assert (steps + more)[..|steps + more| - 1] == steps + init;
      RunStepsAppend(steps, init);
    }
  }

  /** One more step after a run that raised changes nothing; after one that
      did not, it adds what the step fills or stops at its error. */
  lemma RunStepsSnoc(steps: seq<Step>, step: Step)
    ensures RunSteps(steps).1.Some? ==> RunSteps(steps + [step]) == RunSteps(steps)
    ensures RunSteps(steps).1.None? && StepFill(step).Raised? ==>
      RunSteps(steps + [step]) == (RunSteps(steps).0, Some(StepFill(step).error))
    ensures RunSteps(steps).1.None? && StepFill(step).Ok? ==>
      RunSteps(steps + [step]) == (RunSteps(steps).0 + (if StepFill(step).value.Some? then [StepFill(step).value.value] else []), None)
  {
    assert (steps + [step])[..|steps|] == steps;
  }

  /** Once a step raises, the steps after it are not run. */
  lemma {:induction false} RunStepsRaisedStays(steps: seq<Step>, more: seq<Step>)
    requires RunSteps(steps).1.Some?
    ensures RunSteps(steps + more) == RunSteps(steps)
    decreases |more|
  {
    if more == [] {
      assert steps + more == steps;
    } else {
      var init := more[..|more| - 1];
      RunStepsRaisedStays(steps, init);
      assert steps + more == (steps + init) + [more[|more| - 1]];
      RunStepsSnoc(steps + init, more[|more| - 1]);
    }
  }

  /** A run that raised within its first `k` steps ends as that prefix did. */
  lemma RunStepsPrefixRaised(steps: seq<Step>, k: nat)
    requires k <= |steps| && RunSteps(steps[..k]).1.Some?
    ensures RunSteps(steps) == RunSteps(steps[..k])
  {
    RunStepsRaisedStays(steps[..k], steps[k..]);
    assert steps[..k] + steps[k..] == steps;
  }

  /** The first `k + 1` steps of a run: the first `k`, then step `k`. */
  lemma RunStepsPrefixSnoc(steps: seq<Step>, k: nat)
    requires k < |steps|
    ensures RunSteps(steps[..k]).1.Some? ==> RunSteps(steps[..k + 1]) == RunSteps(steps[..k])
    ensures RunSteps(steps[..k]).1.None? && StepFill(steps[k]).Raised? ==>
      RunSteps(steps[..k + 1]) == (RunSteps(steps[..k]).0, Some(StepFill(steps[k]).error))
  {
    assert steps[..k + 1] == steps[..k] + [steps[k]];
    RunStepsSnoc(steps[..k], steps[k]);
  }

  /** Steps that each fill one field fill exactly those fields, in order. */
  lemma {:induction false} RunStepsAllFill(steps: seq<Step>, fills: seq<Fill>)
    requires |steps| == |fills|
    requires forall i :: 0 <= i < |steps| ==> StepFill(steps[i]) == Ok(Some(fills[i]))
    ensures RunSteps(steps) == (fills, None)
  {
    if steps != [] {
      var n := |steps| - 1;
      RunStepsAllFill(steps[..n], fills[..n]);
      assert fills == fills[..n] + [fills[n]];
    }
  }

  /** No step of `steps` raises `e` on its own. */
  predicate Avoids(steps: seq<Step>, e: PyError) {
    forall i :: 0 <= i < |steps| ==> StepFill(steps[i]) != Raised(e)
  }

  lemma AvoidsAppend(steps: seq<Step>, more: seq<Step>, e: PyError)
    requires Avoids(steps, e) && Avoids(more, e)
    ensures Avoids(steps + more, e)
  {
    forall i | 0 <= i < |steps + more|
      ensures StepFill((steps + more)[i]) != Raised(e)
    {
      if i >= |steps| {
        assert (steps + more)[i] == more[i - |steps|];
      }
    }
  }

  /** A run of steps none of which raises completes. */
  lemma {:induction false} RunStepsCompletes(steps: seq<Step>)
    requires forall i :: 0 <= i < |steps| ==> StepFill(steps[i]).Ok?
    ensures RunSteps(steps).1.None?
  {
    if steps != [] {
      RunStepsCompletes(steps[..|steps| - 1]);
    }
  }

  /** The error a run stops at is the error of one of its steps. */
  lemma {:induction false} RunStepsErrorFromStep(steps: seq<Step>, e: PyError)
    requires Avoids(steps, e)
    ensures RunSteps(steps).1 != Some(e)
  {
    if steps != [] {
      RunStepsErrorFromStep(steps[..|steps| - 1], e);
    }
  }

  /** A clock value is filled as the number it reads, zero-padded to two
      digits; a blank one is not filled. */
  lemma ClockFilled(datacy: string, id: string, text: string, n: int)
    requires ParseInt(text) == Some(n) && 0 <= n < 100
    ensures RunSteps([Clock(datacy, id, JStr(text))]).1.None?
    ensures var fills := RunSteps([Clock(datacy, id, JStr(text))]).0;
      |fills| == 1 && fills[0].Selected? && |fills[0].text| == 2 && AllDigits(fills[0].text) &&
      DigitsValue(fills[0].text) == n
  {
    assert [Clock(datacy, id, JStr(text))][..0] == [];
    assert ParseSigned(Strip(text)).Some?;
  }

  lemma ClockBlank(datacy: string, id: string, text: string)
    requires Strip(text) == ""
    ensures RunSteps([Clock(datacy, id, JStr(text))]) == ([], None)
  {
    assert [Clock(datacy, id, JStr(text))][..0] == [];
  }
}
