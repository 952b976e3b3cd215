/**
 * The system-check sequencer (Tester): a registry of named suites, each an
 * ordered list of unit tests that a suite runs one at a time, stopping at the
 * first failure and passing once it runs past the last test.
 *
 * Command scheduling is abstract. Scheduling a unit test is recorded, by its
 * position in the suite, in the suite's ghost `scheduled` log; launching a
 * suite is recorded in the registry's ghost `launched` log. Pass conditions,
 * interrupts and the wrapped commands' results are boolean inputs.
 */
module TestSequencer {

  /** The state of a suite or of a unit test. */
  datatype TestState = Failed | Running | Passed

  // ---------------------------------------------------------------------
  // Unit tests
  // ---------------------------------------------------------------------

  /**
   * The verdict `end` gives a unit test: it passes only when it was not
   * interrupted (neither through its own flag nor through `end`'s argument)
   * and its pass condition holds.
   */
  function Verdict(flagged: bool, interrupted: bool, passes: bool): (r: TestState)
    ensures r != Running
    ensures r == Passed <==> !flagged && !interrupted && passes
  {
    if flagged || interrupted || !passes then Failed else Passed
  }

  /** A unit test: its name, its interrupt flag and its state. */
  class UnitTest {
    const testName: string
    var interrupted: bool
    var testState: TestState

    constructor (name: string)
      ensures testName == name && testState == Failed && !interrupted
    {
      testName := name;
      interrupted := false;
      testState := Failed;
    }

    /** `initialize`: the flag is cleared and the test is running. */
    method Initialize()
      modifies this`interrupted, this`testState
      ensures !interrupted && testState == Running
    {
      interrupted := false;
      testState := Running;
    }

    /** The interrupt handler attached to the wrapped command: raises the flag. */
    method HandleInterrupt()
      modifies this`interrupted
      ensures interrupted
    {
      interrupted := true;
    }

    /** `end(interrupted)`: the verdict, given whether the pass condition holds now. */
    method End(interruptedNow: bool, passes: bool)
      modifies this`testState
      ensures testState == Verdict(interrupted, interruptedNow, passes)
    {
      testState := if interrupted || interruptedNow || !passes then Failed else Passed;
    }

    /** `isFinished`: the wrapped command has finished or is no longer scheduled. */
    function IsFinished(commandFinished: bool, commandScheduled: bool): (r: bool)
      ensures commandFinished ==> r
      ensures !commandScheduled ==> r
      ensures r ==> commandFinished || !commandScheduled
    {
      commandFinished || !commandScheduled
    }
  }

  // ---------------------------------------------------------------------
  // The suite state machine, on values
  // ---------------------------------------------------------------------

  /** A suite's state and the position of its current unit test. */
  datatype SuiteState = SuiteState(state: TestState, curIndex: nat)

  /** A suite's next state and the positions of the unit tests it schedules, in order. */
  datatype Transition = Transition(next: SuiteState, scheduled: seq<nat>)

  /** The scheduler keeps calling a suite while it is running. */
  predicate Finished(s: SuiteState) {
    s.state != Running
  }

  /** The position never passes the end of the list, and a running suite has a current unit test. */
  predicate Inv(s: SuiteState, size: nat) {
    s.curIndex <= size && (s.state == Running ==> s.curIndex < size)
  }

  /** The positions `i`, `i + 1`, ..., `j - 1`. */
  function Range(i: nat, j: nat): seq<nat>
    decreases j - i
  {
    if i >= j then [] else [i] + Range(i + 1, j)
  }

  /** `n` copies of `x`. */
  function Repeat(x: TestState, n: nat): seq<TestState> {
    seq(n, _ => x)
  }

  /**
   * `initialize` on a suite of `size` unit tests: back to the first test;
   * an empty suite fails at once, any other runs and schedules its first test.
   */
  function Start(size: nat): (t: Transition)
    ensures t.next.curIndex == 0 && Inv(t.next, size)
    ensures t.next.state == Failed <==> size == 0
    ensures t.next.state == Running <==> size > 0
    ensures t.scheduled == Range(0, if size == 0 then 0 else 1)
  {
    if size == 0 then Transition(SuiteState(Failed, 0), [])
    else Transition(SuiteState(Running, 0), [0])
  }

  /**
   * `execute` on a suite of `size` unit tests whose current unit test is in
   * state `current`.
   */
  function Step(s: SuiteState, size: nat, current: TestState): (t: Transition)
    requires size == 0 || s.curIndex < size
    ensures size == 0 ==> t == Transition(s, [])
    ensures s.curIndex <= t.next.curIndex <= s.curIndex + 1
    ensures t.scheduled == [] || t.scheduled == [t.next.curIndex]
    ensures Inv(s, size) && s.state == Running ==> Inv(t.next, size)
  {
    if size == 0 then Transition(s, [])
    else
      match current
      case Failed => Transition(SuiteState(Failed, s.curIndex), [])
      case Running => Transition(s, [])
      case Passed =>
        var i := s.curIndex + 1;
        if i == size then Transition(SuiteState(Passed, i), [])
        else Transition(SuiteState(s.state, i), [i])
  }

  /** A running suite whose current unit test is still running is left as it is. */
  lemma StepIdle(s: SuiteState, size: nat)
    requires Inv(s, size) && s.state == Running
    ensures Step(s, size, Running) == Transition(s, [])
  {
  }

  /**
   * A running suite whose current unit test has failed fails in place; one
   * whose current unit test has passed moves to the next, or passes after the last.
   */
  lemma StepOutcomes(s: SuiteState, size: nat)
    requires Inv(s, size) && s.state == Running
    ensures Step(s, size, Failed).next == SuiteState(Failed, s.curIndex)
    ensures s.curIndex + 1 < size ==> Step(s, size, Passed) == Transition(SuiteState(Running, s.curIndex + 1), [s.curIndex + 1])
    ensures s.curIndex + 1 == size ==> Step(s, size, Passed) == Transition(SuiteState(Passed, size), [])
  {
  }

  /**
   * The scheduler calling `execute` once per observed state of the current
   * unit test, until the suite finishes or the observations run out.
   */
  function Drive(s: SuiteState, size: nat, observed: seq<TestState>): (t: Transition)
    requires Inv(s, size)
    ensures Inv(t.next, size)
    decreases |observed|
  {
    if Finished(s) || observed == [] then Transition(s, [])
    else
      var first := Step(s, size, observed[0]);
      var rest := Drive(first.next, size, observed[1..]);
      Transition(rest.next, first.scheduled + rest.scheduled)
  }

  /** Prepending the start of a range to the rest of it. */
  lemma RangeCons(i: nat, j: nat)
    requires i < j
    ensures [i] + Range(i + 1, j) == Range(i, j)
  {
  }

  /**
   * However the unit tests turn out, a running suite schedules the tests
   * after its current one strictly in order with none skipped, and it
   * passes only by running past the last one.
   */
  lemma {:induction false} DriveInOrder(s: SuiteState, size: nat, observed: seq<TestState>)
    requires Inv(s, size) && s.state == Running
    ensures var t := Drive(s, size, observed);
      && s.curIndex <= t.next.curIndex
      && (t.next.state == Passed ==> t.next.curIndex == size)
      && t.scheduled == Range(s.curIndex + 1, if t.next.state == Passed then size else t.next.curIndex + 1)
    decreases |observed|
  {
    if observed != [] {
      var first := Step(s, size, observed[0]);
      if !Finished(first.next) {
        DriveInOrder(first.next, size, observed[1..]);
        var rest := Drive(first.next, size, observed[1..]);
        if first.scheduled != [] {
          RangeCons(first.next.curIndex, if rest.next.state == Passed then size else rest.next.curIndex + 1);
        }
      } else if observed[0] == Passed {
        assert first.next == SuiteState(Passed, size);
      }
    }
  }

  /** From a running test `i`, every remaining test passing carries the suite to PASSED. */
  lemma {:induction false} DrivePasses(i: nat, size: nat)
    requires i < size
    ensures Drive(SuiteState(Running, i), size, Repeat(Passed, size - i)) == Transition(SuiteState(Passed, size), Range(i + 1, size))
    decreases size - i
  {
    var observed := Repeat(Passed, size - i);
    if i + 1 < size {
      assert observed[1..] == Repeat(Passed, size - (i + 1));
      DrivePasses(i + 1, size);
    }
  }

  /** From a running test `i`, passes up to test `k` and a failure there stop the suite at `k`. */
  lemma {:induction false} DriveFails(i: nat, k: nat, size: nat)
    requires i <= k < size
    ensures Drive(SuiteState(Running, i), size, Repeat(Passed, k - i) + [Failed]) == Transition(SuiteState(Failed, k), Range(i + 1, k + 1))
    decreases k - i
  {
    var observed := Repeat(Passed, k - i) + [Failed];
    if i < k {
      assert observed[1..] == Repeat(Passed, k - (i + 1)) + [Failed];
      DriveFails(i + 1, k, size);
    } else {
      assert observed[1..] == [];
    }
  }

  /** A non-empty suite whose every test passes ends PASSED, having scheduled each test once, in order. */
  lemma SuitePasses(size: nat)
    requires size > 0
    ensures var start := Start(size);
      var run := Drive(start.next, size, Repeat(Passed, size));
      run.next == SuiteState(Passed, size) && start.scheduled + run.scheduled == Range(0, size)
  {
    DrivePasses(0, size);
  }

  /** A suite whose test `k` is the first to fail ends FAILED at `k`, having scheduled tests 0 to `k` and no more. */
  lemma SuiteStopsAtFirstFailure(size: nat, k: nat)
    requires k < size
    ensures var start := Start(size);
      var run := Drive(start.next, size, Repeat(Passed, k) + [Failed]);
      run.next == SuiteState(Failed, k) && start.scheduled + run.scheduled == Range(0, k + 1)
  {
    DriveFails(0, k, size);
  }

  // ---------------------------------------------------------------------
  // Suites and the registry
  // ---------------------------------------------------------------------

  /** A suite of unit tests for one system. */
  class Test {
    const name: string
    var unitTests: seq<UnitTest>
    var state: TestState
    var curIndex: nat

    /** Positions of the unit tests scheduled so far, oldest first. */
    ghost var scheduled: seq<nat>

    function Snapshot(): SuiteState
      reads this`state, this`curIndex
    {
      SuiteState(state, curIndex)
    }

    constructor (name: string)
      ensures this.name == name && unitTests == [] && state == Failed && curIndex == 0 && scheduled == []
    {
      this.name := name;
      unitTests := [];
      state := Failed;
      curIndex := 0;
      scheduled := [];
    }

    /** `addTest`: appends; earlier unit tests keep their positions. */
    method AddTest(test: UnitTest)
      modifies this`unitTests
      ensures unitTests == old(unitTests) + [test]
      ensures Inv(old(Snapshot()), |old(unitTests)|) ==> Inv(Snapshot(), |unitTests|)
    {
      unitTests := unitTests + [test];
    }

    /** `initialize`: restarts the suite as `Start` says. */
    method Initialize()
      modifies this`state, this`curIndex, this`scheduled
      ensures Snapshot() == Start(|unitTests|).next
      ensures scheduled == old(scheduled) + Start(|unitTests|).scheduled
    {
      curIndex := 0;
      state := Running;
      if |unitTests| == 0 {
        state := Failed;
      } else {
        scheduled := scheduled + [0];
      }
    }

    /** `execute`: one step of the suite, as `Step` says, on the current unit test's state. */
    method Execute()
      requires unitTests == [] || curIndex < |unitTests|
      modifies this`state, this`curIndex, this`scheduled
      ensures var t := Step(old(Snapshot()), |unitTests|, old(if unitTests == [] then Running else unitTests[curIndex].testState));
        Snapshot() == t.next && scheduled == old(scheduled) + t.scheduled
    {
      if |unitTests| == 0 {
        return;
      }
      var test := unitTests[curIndex];
      match test.testState
      case Failed =>
        state := Failed;
      case Passed =>
        curIndex := curIndex + 1;
        if curIndex == |unitTests| {
          state := Passed;
          return;
        }
        scheduled := scheduled + [curIndex];
      case Running =>
    }

    /** `isFinished`: the scheduler stops calling the suite once it is no longer running. */
    function IsFinished(): (r: bool)
      reads this`state
      ensures r <==> Finished(Snapshot())
    {
      state != Running
    }

    /** `getTestState`. */
    function GetTestState(): (r: TestState)
      reads this`state
      ensures r == Snapshot().state
    {
      state
    }
  }

  /** The registry of suites by system name. */
  class Tester {
    var systemTests: map<string, Test>

    /** Names of the suites launched so far, oldest first. */
    ghost var launched: seq<string>

    /** Each name has its own suite. */
    ghost predicate Valid()
      reads this`systemTests
    {
      forall n, m :: n in systemTests && m in systemTests && n != m ==> systemTests[n] != systemTests[m]
    }

    constructor ()
      ensures systemTests == map[] && launched == [] && Valid()
    {
      systemTests := map[];
      launched := [];
    }

    /**
     * `addTest(name, test)`: creates an empty suite for `name` if it has
     * none, then appends `test` to that suite; every other suite is unchanged.
     */
    method AddTest(name: string, test: UnitTest)
      requires Valid()
      modifies this`systemTests, systemTests.Values`unitTests
      ensures Valid()
      ensures systemTests.Keys == old(systemTests.Keys) + {name}
      ensures forall n :: n in old(systemTests) ==> systemTests[n] == old(systemTests[n])
      ensures name in old(systemTests) ==> systemTests[name].unitTests == old(systemTests[name].unitTests) + [test]
      ensures name !in old(systemTests) ==>
        fresh(systemTests[name]) && systemTests[name].unitTests == [test] &&
        systemTests[name].name == name && systemTests[name].Snapshot() == SuiteState(Failed, 0)
      ensures forall n :: n in systemTests && n != name ==> systemTests[n].unitTests == old(systemTests[n].unitTests)
    {
      if name !in systemTests {
        var suite := new Test(name);
        systemTests := systemTests[name := suite];
      }
      systemTests[name].AddTest(test);
    }

    /** `runTest(name)`: launches the suite registered under `name`, which must exist. */
    method RunTest(name: string)
      requires name in systemTests
      modifies this`launched
      ensures launched == old(launched) + [name]
    {
      launched := launched + [name];
    }
  }
}
