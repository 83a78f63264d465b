/**
 * The multi-step wizard: the step counter kept by `useMultiStepperState`, the ordering
 * of the wizard's step children, the clamp that reconciles an externally set step with
 * the number of steps (and the effect that writes the clamped value back), and the
 * status of each circle and connector of the progress indicator.
 */
module MultiStepper {
  import opened Wrappers

  // ---------------------------------------------------------------- navigation

  /**
   * The `numOfSteps` argument of `nextStep` and `hasNext`: a number, or an array of
   * steps of which only the length is read.
   */
  datatype StepsArg = Count(n: int) | StepList(length: nat) {
    function Size(): int {
      if Count? then n else length
    }
  }

  /** `hasNext`: a step comes after `step` among `n` steps. */
  predicate CanAdvance(step: int, n: int) {
    step < n - 1
  }

  /** `hasPrev`: a step comes before `step`. */
  predicate CanRetreat(step: int) {
    step > 0
  }

  /** The step after `nextStep(numOfSteps)`; `None` is a call without argument. */
  function AfterNext(step: int, numOfSteps: Option<StepsArg>): (r: int)
    ensures r == step || r == step + 1
    ensures numOfSteps.None? ==> r == step + 1
    ensures numOfSteps.Some? && step >= numOfSteps.value.Size() - 1 ==> r == step
  {
    if numOfSteps.None? then step + 1
    else if CanAdvance(step, numOfSteps.value.Size()) then step + 1
    else step
  }

  /** The step after `prevStep(noCheck)`; an omitted `noCheck` is `false`. */
  function AfterPrev(step: int, noCheck: bool): (r: int)
    ensures r == step || r == step - 1
    ensures noCheck ==> r == step - 1
    ensures step <= 0 && !noCheck ==> r == step
  {
    if noCheck then step - 1
    else if CanRetreat(step) then step - 1
    else step
  }

  /** One navigation call, each acting on the step as it currently is. */
  datatype Navigation = Next(numOfSteps: Option<StepsArg>) | Prev(noCheck: bool)

  function Apply(step: int, nav: Navigation): int {
    match nav
    case Next(numOfSteps) => AfterNext(step, numOfSteps)
    case Prev(noCheck) => AfterPrev(step, noCheck)
  }

  /** The step after a sequence of navigation calls. */
  function Run(step: int, navs: seq<Navigation>): int
    decreases |navs|
  {
    if navs == [] then step else Run(Apply(step, navs[0]), navs[1..])
  }

  /** A bounds-checked call for a wizard of `n` steps: `nextStep(n)` or `prevStep()`. */
  predicate Guarded(nav: Navigation, n: nat) {
    match nav
    case Next(numOfSteps) => numOfSteps.Some? && numOfSteps.value.Size() == n
    case Prev(noCheck) => !noCheck
  }

  /** The valid step indices of a wizard of `n` steps: `[0, n-1]`, or just 0 when there are none. */
  predicate InRange(step: int, n: nat) {
    0 <= step && (step < n || step == 0)
  }

  /** `nextStep(n)` moves forward by one exactly when `hasNext(n)`; otherwise nothing changes. */
  lemma NextStepIsGuarded(step: int, numOfSteps: StepsArg)
    ensures AfterNext(step, Some(numOfSteps)) == step + 1 <==> step < numOfSteps.Size() - 1
    ensures AfterNext(step, Some(numOfSteps)) != step + 1 ==> AfterNext(step, Some(numOfSteps)) == step
  {
  }

  /** `prevStep()` moves back by one exactly when `hasPrev()`; otherwise nothing changes. */
  lemma PrevStepIsGuarded(step: int)
    ensures AfterPrev(step, false) == step - 1 <==> step > 0
    ensures AfterPrev(step, false) != step - 1 ==> AfterPrev(step, false) == step
  {
  }

  /** Bounds-checked calls never take the step out of the valid range. */
  lemma {:induction false} GuardedNavigationStaysInRange(step: int, n: nat, navs: seq<Navigation>)
    requires InRange(step, n)
    requires forall i | 0 <= i < |navs| :: Guarded(navs[i], n)
    ensures InRange(Run(step, navs), n)
    decreases |navs|
  {
    if navs != [] {
      var next := Apply(step, navs[0]);
      assert InRange(next, n);
      assert forall i | 0 <= i < |navs[1..]| :: Guarded(navs[1..][i], n) by {
        forall i | 0 <= i < |navs[1..]| ensures Guarded(navs[1..][i], n) {
          assert navs[1..][i] == navs[i + 1];
        }
      }
      GuardedNavigationStaysInRange(next, n, navs[1..]);
    }
  }

  /** `k` calls of `nextStep()` without argument advance by `k`: there is no upper bound. */
  lemma {:induction false} UncheckedNextIsUnbounded(step: int, k: nat)
    ensures Run(step, seq(k, _ => Next(None))) == step + k
    decreases k
  {
    var navs := seq(k, _ => Next(None));
    if k > 0 {
      assert navs[0] == Next(None);
      assert navs[1..] == seq(k - 1, _ => Next(None));
      UncheckedNextIsUnbounded(step + 1, k - 1);
    }
  }

  /** `prevStep(true)` always moves back, so it can leave step 0 for -1. */
  lemma UncheckedPrevGoesNegative(step: int)
    ensures AfterPrev(step, true) == step - 1
    ensures AfterPrev(0, true) == -1 && AfterPrev(0, false) == 0
  {
  }

  /** The wizard state owned by `useMultiStepperState`. */
  class StepperState {
    var step: int

    /** `useState(0)`: a wizard starts at step 0. */
    constructor ()
      ensures step == 0
    {
      step := 0;
    }

    function HasNext(numOfSteps: StepsArg): (r: bool)
      reads this
      ensures r <==> step < numOfSteps.Size() - 1
    {
      CanAdvance(step, numOfSteps.Size())
    }

    function HasPrev(): (r: bool)
      reads this
      ensures r <==> step > 0
    {
      CanRetreat(step)
    }

    method NextStep(numOfSteps: Option<StepsArg>)
      modifies this
      ensures step == AfterNext(old(step), numOfSteps)
    {
      if numOfSteps.None? {
        step := step + 1;
        return;
      }
      if HasNext(numOfSteps.value) {
        step := step + 1;
      }
    }

    method PrevStep(noCheck: bool)
      modifies this
      ensures step == AfterPrev(old(step), noCheck)
    {
      if noCheck {
        step := step - 1;
        return;
      }
      if HasPrev() {
        step := step - 1;
      }
    }

    /** `setStep(n)`: the host may set any value; it is reconciled on the next render. */
    method SetStep(n: int)
      modifies this
      ensures step == n
    {
      step := n;
    }

    /** The auto-correct effect of `MultiStepper`, writing the clamped step back through `setStep`. */
    method AutoCorrect(stepCount: nat, disableAutoState: bool)
      modifies this
      ensures step == Correction(old(step), stepCount, disableAutoState).GetOr(old(step))
    {
      var current := CurrentStep(step, stepCount);
      if step != current && !disableAutoState {
        SetStep(current);
      }
    }
  }

  /** The scenario of a three-step wizard walked forward to the end and back once. */
  method WalkThreeSteps() returns (trace: seq<int>, backAtStart: bool, forwardAtEnd: bool)
    ensures trace == [0, 1, 2, 2, 1]
    ensures !backAtStart && !forwardAtEnd
  {
    var wizard := new StepperState();
    var steps := StepList(3);
    backAtStart := wizard.HasPrev();
    trace := [wizard.step];
    wizard.NextStep(Some(steps));
    trace := trace + [wizard.step];
    wizard.NextStep(Some(steps));
    trace := trace + [wizard.step];
    forwardAtEnd := wizard.HasNext(steps);
    wizard.NextStep(Some(steps));
    trace := trace + [wizard.step];
    wizard.PrevStep(false);
    trace := trace + [wizard.step];
  }

  // ---------------------------------------------------------------- clamp and auto-correction

  /**
   * `currentStep`: a negative step becomes 0, a step past the end the last index; with no
   * steps at all a non-negative step is left as it is.
   */
  function CurrentStep(step: int, stepCount: nat): (r: int)
    ensures r >= 0
    ensures stepCount > 0 ==> r < stepCount
    ensures InRange(step, stepCount) ==> r == step
    ensures step < 0 ==> r == 0
    ensures stepCount > 0 && step >= stepCount ==> r == stepCount - 1
  {
    if step < 0 then 0
    else if stepCount > 0 && step >= stepCount then stepCount - 1
    else step
  }

  /** With no steps the clamp leaves any non-negative step unchanged, however large. */
  lemma ClampUnboundedWithoutSteps(step: int)
    requires step >= 0
    ensures CurrentStep(step, 0) == step
  {
  }

  lemma ClampIdempotent(step: int, stepCount: nat)
    ensures CurrentStep(CurrentStep(step, stepCount), stepCount) == CurrentStep(step, stepCount)
  {
  }

  /** The value the auto-correct effect passes to `setStep`, if it fires. */
  function Correction(step: int, stepCount: nat, disableAutoState: bool): (r: Option<int>)
    ensures r.Some? <==> step != CurrentStep(step, stepCount) && !disableAutoState
    ensures r.Some? ==> r.value == CurrentStep(step, stepCount)
  {
    var current := CurrentStep(step, stepCount);
    if step != current && !disableAutoState then Some(current) else None
  }

  /** One correction settles the step: evaluating again with the same steps corrects nothing. */
  lemma CorrectionSettles(step: int, stepCount: nat, disableAutoState: bool)
    ensures var settled := Correction(step, stepCount, disableAutoState).GetOr(step);
      Correction(settled, stepCount, disableAutoState).None?
    ensures !disableAutoState ==>
      Correction(step, stepCount, disableAutoState).GetOr(step) == CurrentStep(step, stepCount)
  {
  }

  /** Setting step 5 with three steps shows step 2; shrinking from three steps to one at step 2 shows step 0. */
  lemma ClampScenarios()
    ensures CurrentStep(5, 3) == 2 && Correction(5, 3, false) == Some(2)
    ensures CurrentStep(2, 1) == 0 && Correction(2, 1, false) == Some(0)
    ensures Correction(5, 3, true) == None
  {
  }

  // ---------------------------------------------------------------- the steps

  /** A `Step` element: its title, its optional `order` prop and the content it renders. */
  datatype StepElement<C> = StepElement(title: string, order: Option<int>, content: C)

  /** A `StepObject` given to `createSteps`. */
  datatype StepObject<C> = StepObject(title: string, component: C)

  /** The children of `MultiStepper`: one element, or an array of them. */
  datatype Children<C> = Single(child: StepElement<C>) | Many(elements: seq<StepElement<C>>)

  /** `a.props?.order ?? 0`. */
  function OrderKey<C>(e: StepElement<C>): int {
    e.order.GetOr(0)
  }

  ghost predicate SortedByOrder<C>(s: seq<StepElement<C>>) {
    forall i, j | 0 <= i < j < |s| :: OrderKey(s[i]) <= OrderKey(s[j])
  }

  /** The elements of `s` whose order key is `k`, in their order in `s`. */
  function WithOrder<C>(s: seq<StepElement<C>>, k: int): seq<StepElement<C>>
    decreases |s|
  {
    if s == [] then []
    else (if OrderKey(s[0]) == k then [s[0]] else []) + WithOrder(s[1..], k)
  }

  /** Places `x` before the first element whose key is not smaller than its own. */
  function InsertByOrder<C>(x: StepElement<C>, s: seq<StepElement<C>>): (r: seq<StepElement<C>>)
    ensures |r| == |s| + 1
    decreases |s|
  {
    if s == [] then [x]
    else if OrderKey(x) <= OrderKey(s[0]) then [x] + s
    else [s[0]] + InsertByOrder(x, s[1..])
  }

  /** The stable sort by ascending order key that `Array.prototype.sort` performs with the comparator. */
  function SortByOrder<C>(s: seq<StepElement<C>>): (r: seq<StepElement<C>>)
    ensures |r| == |s|
    decreases |s|
  {
    if s == [] then [] else InsertByOrder(s[0], SortByOrder(s[1..]))
  }

  /** `allSteps`: a single child becomes a one-element list, an array is sorted by order. */
  function AllSteps<C>(children: Children<C>): (r: seq<StepElement<C>>)
    ensures children.Single? ==> r == [children.child]
    ensures children.Many? ==> |r| == |children.elements|
  {
    match children
    case Single(child) => [child]
    case Many(elements) => SortByOrder(elements)
  }

  lemma {:induction false} InsertByOrderPermutes<C>(x: StepElement<C>, s: seq<StepElement<C>>)
    ensures multiset(InsertByOrder(x, s)) == multiset(s) + multiset{x}
    decreases |s|
  {
    if s != [] && OrderKey(x) > OrderKey(s[0]) {
      InsertByOrderPermutes(x, s[1..]);
      assert s == [s[0]] + s[1..];
    }
  }

  lemma {:induction false} InsertByOrderSorted<C>(x: StepElement<C>, s: seq<StepElement<C>>)
    requires SortedByOrder(s)
    ensures SortedByOrder(InsertByOrder(x, s))
    decreases |s|
  {
    if s != [] && OrderKey(x) > OrderKey(s[0]) {
      var r := InsertByOrder(x, s);
      var rest := InsertByOrder(x, s[1..]);
      InsertByOrderSorted(x, s[1..]);
      InsertByOrderPermutes(x, s[1..]);
      assert r == [s[0]] + rest;
      forall i | 0 <= i < |rest| ensures OrderKey(s[0]) <= OrderKey(rest[i]) {
        assert rest[i] in multiset(rest);
        if rest[i] != x {
          assert rest[i] in multiset(s[1..]);
          var j :| 0 <= j < |s[1..]| && s[1..][j] == rest[i];
          assert s[1..][j] == s[j + 1];
        }
      }
    }
  }

  lemma {:induction false} InsertByOrderFilters<C>(x: StepElement<C>, s: seq<StepElement<C>>, k: int)
    ensures WithOrder(InsertByOrder(x, s), k) == WithOrder([x] + s, k)
    decreases |s|
  {
    if s != [] && OrderKey(x) > OrderKey(s[0]) {
      var rest := InsertByOrder(x, s[1..]);
      InsertByOrderFilters(x, s[1..], k);
      var r := [s[0]] + rest;
      assert InsertByOrder(x, s) == r;
      assert r[1..] == rest;
      assert ([x] + s)[1..] == s;
      assert ([x] + s[1..])[1..] == s[1..];
    }
  }

  /** The sort result is in ascending order of the keys, and a permutation of its input. */
  lemma {:induction false} SortByOrderSortedPermutation<C>(s: seq<StepElement<C>>)
    ensures SortedByOrder(SortByOrder(s))
    ensures multiset(SortByOrder(s)) == multiset(s)
    decreases |s|
  {
    if s != [] {
      SortByOrderSortedPermutation(s[1..]);
      InsertByOrderSorted(s[0], SortByOrder(s[1..]));
      InsertByOrderPermutes(s[0], SortByOrder(s[1..]));
      assert s == [s[0]] + s[1..];
    }
  }

  /** The sort is stable: elements with the same key keep their relative order. */
  lemma {:induction false} SortByOrderStable<C>(s: seq<StepElement<C>>, k: int)
    ensures WithOrder(SortByOrder(s), k) == WithOrder(s, k)
    decreases |s|
  {
    if s != [] {
      SortByOrderStable(s[1..], k);
      InsertByOrderFilters(s[0], SortByOrder(s[1..]), k);
      var t := SortByOrder(s[1..]);
      assert ([s[0]] + t)[1..] == t;
      assert WithOrder([s[0]] + t, k) == (if OrderKey(s[0]) == k then [s[0]] else []) + WithOrder(t, k);
    }
  }

  /** An input already in ascending key order comes out of the sort unchanged. */
  lemma {:induction false} SortByOrderKeepsSorted<C>(s: seq<StepElement<C>>)
    requires SortedByOrder(s)
    ensures SortByOrder(s) == s
    decreases |s|
  {
    if s != [] {
      assert SortedByOrder(s[1..]) by {
        forall i, j | 0 <= i < j < |s[1..]| ensures OrderKey(s[1..][i]) <= OrderKey(s[1..][j]) {
          assert s[1..][i] == s[i + 1] && s[1..][j] == s[j + 1];
        }
      }
      SortByOrderKeepsSorted(s[1..]);
      assert s == [s[0]] + s[1..];
    }
  }

  /** What `allSteps` promises: one child as a list; an array sorted, stably, as a permutation. */
  lemma AllStepsOrdering<C>(children: Children<C>)
    ensures children.Single? ==> AllSteps(children) == [children.child]
    ensures children.Many? ==>
      && SortedByOrder(AllSteps(children))
      && multiset(AllSteps(children)) == multiset(children.elements)
      && |AllSteps(children)| == |children.elements|
      && forall k :: WithOrder(AllSteps(children), k) == WithOrder(children.elements, k)
  {
    if children.Many? {
      SortByOrderSortedPermutation(children.elements);
      assert |multiset(AllSteps(children))| == |multiset(children.elements)|;
      forall k ensures WithOrder(AllSteps(children), k) == WithOrder(children.elements, k) {
        SortByOrderStable(children.elements, k);
      }
    }
  }

  /** `createSteps`: one `Step` per object, same title and content, no `order`, same order. */
  function CreateSteps<C>(steps: seq<StepObject<C>>): (r: seq<StepElement<C>>)
    ensures |r| == |steps|
    ensures forall i | 0 <= i < |steps| ::
      r[i].title == steps[i].title && r[i].content == steps[i].component && r[i].order.None?
  {
    seq(|steps|, i requires 0 <= i < |steps| => StepElement(steps[i].title, None, steps[i].component))
  }

  /** Steps made by `createSteps` carry no order, so `allSteps` keeps them exactly as given. */
  lemma CreatedStepsKeepTheirOrder<C>(steps: seq<StepObject<C>>)
    ensures AllSteps(Many(CreateSteps(steps))) == CreateSteps(steps)
  {
    SortByOrderKeepsSorted(CreateSteps(steps));
  }

  /** `allSteps[currentStep]`: undefined exactly when there are no steps. */
  function StepComponent<C>(step: int, children: Children<C>): (r: Option<StepElement<C>>)
    ensures r.None? <==> |AllSteps(children)| == 0
    ensures r.Some? ==> r.value == AllSteps(children)[CurrentStep(step, |AllSteps(children)|)]
  {
    var steps := AllSteps(children);
    var current := CurrentStep(step, |steps|);
    if current < |steps| then Some(steps[current]) else None
  }

  // ---------------------------------------------------------------- progress indicator

  /** How the circle of one step is drawn. */
  datatype Status = Completed | Active | Pending

  function StatusOf(currentStep: int, index: int): (r: Status)
    ensures r == Completed <==> index < currentStep
    ensures r == Active <==> index == currentStep
    ensures r == Pending <==> currentStep < index
  {
    if currentStep > index then Completed
    else if currentStep == index then Active
    else Pending
  }

  /** The circles of the progress indicator, one per step. */
  function Indicators(currentStep: int, stepCount: nat): (r: seq<Status>)
    ensures |r| == stepCount
    ensures forall i | 0 <= i < stepCount :: (r[i] == Completed <==> currentStep > i)
    ensures forall i | 0 <= i < stepCount :: (r[i] == Active <==> currentStep == i)
  {
    seq(stepCount, i => StatusOf(currentStep, i))
  }

  /** The connectors drawn before the circles of steps 1 and up: highlighted once reached. */
  function Connectors(currentStep: int, stepCount: nat): (r: seq<bool>)
    ensures stepCount > 0 ==> |r| == stepCount - 1
    ensures stepCount == 0 ==> r == []
    ensures forall i | 0 <= i < |r| :: r[i] <==> currentStep >= i + 1
  {
    if stepCount == 0 then [] else seq(stepCount - 1, i => currentStep >= i + 1)
  }

  /** With the current step in range, exactly one circle is active. */
  lemma {:induction false} ExactlyOneActive(currentStep: int, stepCount: nat)
    requires 0 <= currentStep < stepCount
    ensures var r := Indicators(currentStep, stepCount);
      (set i | 0 <= i < stepCount && r[i] == Active) == {currentStep}
    ensures |set i | 0 <= i < stepCount && Indicators(currentStep, stepCount)[i] == Active| == 1
  {
    var r := Indicators(currentStep, stepCount);
    assert (set i | 0 <= i < stepCount && r[i] == Active) == {currentStep};
  }

  /** The indicator reads: completed up to the current step, then active, then pending. */
  lemma IndicatorShape(currentStep: int, stepCount: nat)
    requires 0 <= currentStep < stepCount
    ensures Indicators(currentStep, stepCount)
      == seq(currentStep, _ => Completed) + [Active] + seq(stepCount - currentStep - 1, _ => Pending)
    ensures Connectors(currentStep, stepCount)
      == seq(currentStep, _ => true) + seq(stepCount - currentStep - 1, _ => false)
  {
    var r := Indicators(currentStep, stepCount);
    var shape := seq(currentStep, _ => Completed) + [Active] + seq(stepCount - currentStep - 1, _ => Pending);
    assert |shape| == stepCount;
    forall i | 0 <= i < stepCount ensures r[i] == shape[i] {
      if i < currentStep {
        assert shape[i] == Completed;
      } else if i == currentStep {
        assert shape[i] == Active;
      } else {
        assert shape[i] == Pending;
      }
    }
    var c := Connectors(currentStep, stepCount);
    var lit := seq(currentStep, _ => true) + seq(stepCount - currentStep - 1, _ => false);
    forall i | 0 <= i < stepCount - 1 ensures c[i] == lit[i] {
      assert c[i] == (currentStep >= i + 1);
    }
  }
}
