/**
 * Which mixes of operations can deadlock: exactly those in which a status report, which reads the endpoints
 * twice at once, runs beside an operation that writes them.
 */
module Deadlock {
  import opened Locks

  /** Thread `a` reads the endpoints and queues to read them again behind writer `b`, who waits for `a`. */
  ghost predicate Jammed(ts: seq<Thread>, a: nat, b: nat) {
    && a < |ts| && b < |ts| && a != b
    && Holds(ts[a], Endpoints, Read) && ts[a].waiting
    && Wants(ts[a]) && ts[a].todo[0].code.lock == Endpoints && ts[a].todo[0].code.mode == Read
    && WaitsToWrite(ts[b], Endpoints)
  }

  lemma {:induction false} JamLasts(ts: seq<Thread>, schedule: seq<nat>, a: nat, b: nat)
    requires Jammed(ts, a, b) && Legal(ts, schedule)
    ensures Jammed(End(ts, schedule), a, b)
    decreases |schedule|
  {
    if schedule != [] {
      assert schedule[0] != a && schedule[0] != b;
      JamLasts(StepThread(ts, schedule[0]), schedule[1..], a, b);
    }
  }

  /** Any run can be continued until nothing can step. */
  lemma {:induction false} RunToEnd(ts: seq<Thread>) returns (schedule: seq<nat>)
    requires AllSane(ts)
    ensures Legal(ts, schedule) && Stuck(End(ts, schedule))
    decreases TotalWork(ts)
  {
    if i: nat :| CanStep(ts, i) {
      StepWorks(ts[i]);
      LessWork(ts, i, Stepped(ts[i]));
      var rest := RunToEnd(StepThread(ts, i));
      schedule := [i] + rest;
      assert schedule[1..] == rest;
    } else {
      schedule := [];
    }
  }

  lemma {:induction false} Compose(ts: seq<Thread>, first: seq<nat>, second: seq<nat>)
    requires Legal(ts, first) && Legal(End(ts, first), second)
    ensures Legal(ts, first + second) && End(ts, first + second) == End(End(ts, first), second)
    decreases |first|
  {
    if first == [] {
      assert first + second == second;
    } else {
      Compose(StepThread(ts, first[0]), first[1..], second);
      assert (first + second)[1..] == first[1..] + second;
    }
  }

  /** The other threads do not wait for anything and hold at most read guards of the endpoints. */
  ghost predicate Quiet(ts: seq<Thread>, j: nat) {
    forall k :: 0 <= k < |ts| && k != j ==>
      !ts[k].waiting && forall l, mode :: Holds(ts[k], l, mode) ==> l == Endpoints && mode == Read
  }

  predicate LeavesEndpoints(code: Code) {
    match code
    case Skip => true
    case Then(a, b) => LeavesEndpoints(a) && LeavesEndpoints(b)
    case With(l, mode, body) => (l == Endpoints ==> mode == Read) && LeavesEndpoints(body)
  }

  lemma {:induction false} OneStep(ts: seq<Thread>, i: nat)
    requires CanStep(ts, i)
    ensures Legal(ts, [i]) && End(ts, [i]) == StepThread(ts, i)
  {
    assert [i][1..] == [];
    assert Legal(StepThread(ts, i), []);
  }

  /** Ordered code that does not write the endpoints runs through while nobody else does anything. */
  lemma {:induction false} RunAlone(ts: seq<Thread>, j: nat, code: Code, rest: seq<Item>) returns (schedule: seq<nat>)
    requires j < |ts| && Quiet(ts, j) && ts[j] == Thread([Run(code)] + rest, false)
    requires Ordered(code, Floor(rest), false) && LeavesEndpoints(code)
    ensures Legal(ts, schedule) && End(ts, schedule) == ts[j := Thread(rest, false)]
    decreases code
  {
    assert ([Run(code)] + rest)[1..] == rest;
    match code
    case Skip =>
      OneStep(ts, j);
      schedule := [j];
    case Then(a, b) =>
      var s0 := Split(ts, j, a, b, rest);
      assert ([Run(b)] + rest)[1..] == rest;
      var s1 := RunAlone(End(ts, s0), j, a, [Run(b)] + rest);
      Compose(ts, s0, s1);
      var s2 := RunAlone(End(ts, s0 + s1), j, b, rest);
      Compose(ts, s0 + s1, s2);
      schedule := s0 + s1 + s2;
    case With(l, mode, body) =>
      var guarded := [Unlock(l, mode)] + rest;
      assert guarded[1..] == rest;
      var s0 := Acquire(ts, j, l, mode, body, rest);
      var s1 := RunAlone(End(ts, s0), j, body, guarded);
      Compose(ts, s0, s1);
      OneStep(End(ts, s0 + s1), j);
      Compose(ts, s0 + s1, [j]);
      schedule := s0 + s1 + [j];
  }

  lemma Split(ts: seq<Thread>, j: nat, a: Code, b: Code, rest: seq<Item>) returns (schedule: seq<nat>)
    requires j < |ts| && ts[j] == Thread([Run(Then(a, b))] + rest, false)
    ensures Legal(ts, schedule)
    ensures End(ts, schedule) == ts[j := Thread([Run(a)] + ([Run(b)] + rest), false)]
  {
    assert ([Run(Then(a, b))] + rest)[1..] == rest;
    assert [Run(a), Run(b)] + rest == [Run(a)] + ([Run(b)] + rest);
    OneStep(ts, j);
    schedule := [j];
  }

  lemma {:induction false} Ask(ts: seq<Thread>, j: nat)
    requires j < |ts| && Wants(ts[j]) && !ts[j].waiting
    ensures Legal(ts, [j]) && End(ts, [j]) == ts[j := Thread(ts[j].todo, true)]
  {
    OneStep(ts, j);
  }

  lemma Acquire(ts: seq<Thread>, j: nat, l: Lock, mode: Mode, body: Code, rest: seq<Item>) returns (schedule: seq<nat>)
    requires j < |ts| && Quiet(ts, j) && ts[j] == Thread([Run(With(l, mode, body))] + rest, false)
    requires Floor(rest) <= Rank(l) && (l == Endpoints ==> mode == Read)
    ensures Legal(ts, schedule)
    ensures End(ts, schedule) == ts[j := Thread([Run(body)] + ([Unlock(l, mode)] + rest), false)]
  {
    var todo := [Run(With(l, mode, body))] + rest;
    assert todo[1..] == rest;
    Ask(ts, j);
    var asked := ts[j := Thread(todo, true)];
    forall m
      ensures Unlock(l, m) !in todo
    {
      if Unlock(l, m) in rest {
        HeldBelowFloor(rest, l, m);
      }
    }
    assert Available(asked, l, mode);
    OneStep(asked, j);
    Compose(ts, [j], [j]);
    assert [Run(body), Unlock(l, mode)] + rest == [Run(body)] + ([Unlock(l, mode)] + rest);
    schedule := [j] + [j];
  }

  predicate BeginsWithWrite(code: Code) {
    match code
    case With(l, mode, _) => l == Endpoints && mode == Write
    case Then(With(l, mode, _), _) => l == Endpoints && mode == Write
    case _ => false
  }

  lemma AskToWrite(ts: seq<Thread>, b: nat, code: Code) returns (schedule: seq<nat>, t: Thread)
    requires b < |ts| && ts[b] == Thread([Run(code)], false) && BeginsWithWrite(code)
    ensures Legal(ts, schedule) && End(ts, schedule) == ts[b := t] && WaitsToWrite(t, Endpoints)
  {
    if code.With? {
      Ask(ts, b);
      schedule, t := [b], Thread([Run(code)], true);
    } else {
      assert [Run(code)] == [Run(Then(code.first, code.second))] + [];
      var s0 := Split(ts, b, code.first, code.second, []);
      Ask(End(ts, s0), b);
      Compose(ts, s0, [b]);
      schedule, t := s0 + [b], Thread([Run(code.first)] + ([Run(code.second)] + []), true);
    }
  }

  /** After code that leaves the endpoints alone, a thread asks to write them. */
  lemma ReachRequest(ts: seq<Thread>, b: nat, before: Code, code: Code) returns (schedule: seq<nat>, t: Thread)
    requires b < |ts| && Quiet(ts, b) && ts[b] == Thread([Run(Then(before, code))], false)
    requires Ordered(before, 0, false) && LeavesEndpoints(before) && BeginsWithWrite(code)
    ensures Legal(ts, schedule) && End(ts, schedule) == ts[b := t] && WaitsToWrite(t, Endpoints)
  {
    assert [Run(Then(before, code))] == [Run(Then(before, code))] + [];
    assert [Run(code)] + [] == [Run(code)] && [Run(code)][1..] == [];
    var s0 := Split(ts, b, before, code, []);
    var s1 := RunAlone(End(ts, s0), b, before, [Run(code)]);
    var s2, t' := AskToWrite(End(End(ts, s0), s1), b, code);
    Compose(ts, s0, s1);
    Compose(ts, s0 + s1, s2);
    schedule, t := s0 + s1 + s2, t';
  }

  lemma {:induction false} FieldsLeave(fields: seq<Field>, mode: Mode)
    ensures LeavesEndpoints(TouchAll(fields, mode))
  {
    if fields != [] {
      FieldsLeave(fields[1..], mode);
    }
  }

  lemma {:induction false} RepeatLeaves(n: nat, code: Code)
    requires LeavesEndpoints(code)
    ensures LeavesEndpoints(Repeat(n, code))
  {
    if n > 0 {
      RepeatLeaves(n - 1, code);
    }
  }

  lemma SnapshotLeaves(added: nat)
    ensures LeavesEndpoints(Snapshot(added))
  {
    RepeatLeaves(added, Touch(Scalar(ClientTimeout), Read));
    assert LeavesEndpoints(With(RateLimiters, Read, Repeat(added, Touch(Scalar(ClientTimeout), Read))));
  }

  lemma BeforeCommitLeaves(compared: seq<Field>, rebuilt: bool, added: nat)
    ensures LeavesEndpoints(BeforeCommit(compared, rebuilt, added))
  {
    FieldsLeave(compared, Read);
    FieldsLeave([ClientHandle, ConnectTimeout, ClientTimeout, PoolIdleTimeout, PoolMaxIdle], Write);
    SnapshotLeaves(added);
    assert LeavesEndpoints(Then(Touch(Endpoints, Read), Snapshot(added)));
    assert LeavesEndpoints(RebuildClient(rebuilt)) && LeavesEndpoints(CompareClient(compared));
    assert LeavesEndpoints(Then(RebuildClient(rebuilt), Then(Touch(Endpoints, Read), Snapshot(added))));
  }

  lemma BeforeHealthCommitLeaves(checked: nat)
    ensures LeavesEndpoints(BeforeHealthCommit(checked))
  {
    FieldsLeave([CheckInterval], Read);
    RepeatLeaves(checked, Touch(Scalar(ClientHandle), Read));
    assert LeavesEndpoints(Then(Touch(Scalar(CheckTimeout), Read), Repeat(checked, Touch(Scalar(ClientHandle), Read))));
  }

  /** Every operation that writes the endpoints gets to ask for them while others only read them. */
  lemma WriterAsks(ts: seq<Thread>, b: nat, op: Operation) returns (schedule: seq<nat>, t: Thread)
    requires WellFormed(op) && WritesEndpoints(op)
    requires b < |ts| && Quiet(ts, b) && ts[b] == Thread([Run(Program(op))], false)
    ensures Legal(ts, schedule) && End(ts, schedule) == ts[b := t] && WaitsToWrite(t, Endpoints)
  {
    match op
    case MarkEndpoint(triggers) =>
      schedule, t := AskToWrite(ts, b, Mark(triggers));
    case Forward(found, timedOut, _, triggers) =>
      MetricsBlockOrdered(found, timedOut, false);
      TouchOrdered(Scalar(ClientHandle), Read, 0);
      var before := Then(Touch(Scalar(ClientHandle), Read), MetricsBlock(found, timedOut));
      schedule, t := ReachRequest(ts, b, before, Mark(triggers));
    case HealthRound(checked, failing) =>
      HealthOrdered(checked, failing);
      BeforeHealthCommitLeaves(checked);
      var rest := Then(CommitHealth(failing), Touch(Endpoints, Read));
      schedule, t := ReachRequest(ts, b, BeforeHealthCommit(checked), rest);
    case Reload(compared, rebuilt, added) =>
      BeforeCommitOrdered(compared, rebuilt, added);
      BeforeCommitLeaves(compared, rebuilt, added);
      var rest := Then(Touch(Endpoints, Write), AfterCommit());
      schedule, t := ReachRequest(ts, b, BeforeCommit(compared, rebuilt, added), rest);
  }

  /** A thread about to read the endpoints for the second time. */
  function SecondRead(): Thread {
    Thread([Run(Touch(Endpoints, Read))] + [Unlock(Endpoints, Read)], false)
  }

  lemma ReachSecondRead(ts: seq<Thread>, a: nat, fields: Code) returns (schedule: seq<nat>)
    requires a < |ts| && Quiet(ts, a) && Ordered(fields, 1, false) && LeavesEndpoints(fields)
    requires ts[a] == Thread([Run(With(Endpoints, Read, Then(fields, Touch(Endpoints, Read))))] + [], false)
    ensures Legal(ts, schedule) && End(ts, schedule) == ts[a := SecondRead()]
  {
    var guard := [Unlock(Endpoints, Read)];
    var rest := [Run(Touch(Endpoints, Read))] + guard;
    assert guard + [] == guard && guard[1..] == [] && rest[1..] == guard;
    var s0 := Acquire(ts, a, Endpoints, Read, Then(fields, Touch(Endpoints, Read)), []);
    var s1 := Split(End(ts, s0), a, fields, Touch(Endpoints, Read), guard);
    var s2 := RunAlone(End(End(ts, s0), s1), a, fields, rest);
    Compose(ts, s0, s1);
    Compose(ts, s0 + s1, s2);
    schedule := s0 + s1 + s2;
  }

  lemma StatusReads(ts: seq<Thread>, a: nat, reported: seq<Field>) returns (schedule: seq<nat>)
    requires a < |ts| && Quiet(ts, a) && ts[a] == Thread([Run(Report(reported))], false)
    ensures Legal(ts, schedule) && End(ts, schedule) == ts[a := SecondRead()]
  {
    FieldsOrdered(reported, Read, 1, false);
    FieldsLeave(reported, Read);
    assert [Run(Report(reported))] == [Run(Report(reported))] + [];
    schedule := ReachSecondRead(ts, a, TouchAll(reported, Read));
  }

  predicate AllWellFormed(ops: seq<Operation>) {
    forall k :: 0 <= k < |ops| ==> WellFormed(ops[k])
  }

  lemma StartIsIdle(ops: seq<Operation>, j: nat)
    ensures AllSane(Start(ops)) && Quiet(Start(ops), j)
  {
  }

  /** A status report and a writer can block each other. */
  lemma JamReachable(ops: seq<Operation>, a: nat, b: nat) returns (schedule: seq<nat>)
    requires AllWellFormed(ops) && a < |ops| && b < |ops|
    requires ops[a].GetStatus? && WritesEndpoints(ops[b])
    ensures Legal(Start(ops), schedule) && Jammed(End(Start(ops), schedule), a, b)
  {
    var ts := Start(ops);
    StartIsIdle(ops, a);
    var s0 := StatusReads(ts, a, ops[a].reported);
    var ts0 := ts[a := SecondRead()];
    var s1, t := WriterAsks(ts0, b, ops[b]);
    Compose(ts, s0, s1);
    var ts1 := ts0[b := t];
    Ask(ts1, a);
    Compose(ts, s0 + s1, [a]);
    schedule := s0 + s1 + [a];
    assert SecondRead().todo[1] == Unlock(Endpoints, Read);
  }

  lemma NotDeadlockFree(ops: seq<Operation>, a: nat, b: nat)
    requires AllWellFormed(ops) && a < |ops| && b < |ops|
    requires ops[a].GetStatus? && WritesEndpoints(ops[b])
    ensures !DeadlockFree(ops)
  {
    StartIsIdle(ops, a);
    var s0 := JamReachable(ops, a, b);
    RunsEnd(Start(ops), s0);
    var s1 := StayJammed(End(Start(ops), s0), a, b);
    Compose(Start(ops), s0, s1);
    assert Legal(Start(ops), s0 + s1);
  }

  lemma StayJammed(ts: seq<Thread>, a: nat, b: nat) returns (schedule: seq<nat>)
    requires AllSane(ts) && Jammed(ts, a, b)
    ensures Legal(ts, schedule) && Stuck(End(ts, schedule)) && !AllDone(End(ts, schedule))
  {
    schedule := RunToEnd(ts);
    JamLasts(ts, schedule, a, b);
    assert !Done(End(ts, schedule)[a]);
  }

  lemma {:induction false} StartItemOrdered(code: Code, frozen: bool)
    requires Ordered(code, 0, frozen)
    ensures OrderedItems([Run(code)], frozen)
  {
    var todo := [Run(code)];
    assert todo[1..] == [];
    assert Floor(todo[1..]) == 0;
  }

  lemma StartOrdered(ops: seq<Operation>, frozen: bool)
    requires AllWellFormed(ops)
    requires forall k :: 0 <= k < |ops| ==> if frozen then !WritesEndpoints(ops[k]) else !ops[k].GetStatus?
    ensures AllOrdered(Start(ops), frozen)
  {
    forall k | 0 <= k < |ops|
      ensures OrderedItems(Start(ops)[k].todo, frozen)
    {
      ProgramsOrdered(ops[k], frozen);
      StartItemOrdered(Program(ops[k]), frozen);
    }
  }

  ghost predicate Harmless(ops: seq<Operation>) {
    || (forall k :: 0 <= k < |ops| ==> !ops[k].GetStatus?)
    || (forall k :: 0 <= k < |ops| ==> !WritesEndpoints(ops[k]))
  }

  /**
   * Any number of selections, markings, forwards, health rounds, gauge ticks and reloads always run to the
   * end; a status report can join them exactly if none of them writes the endpoints.
   */
  lemma DeadlockFreeIff(ops: seq<Operation>)
    requires AllWellFormed(ops)
    ensures DeadlockFree(ops) <==> Harmless(ops)
  {
    if Harmless(ops) {
      var frozen := exists k :: 0 <= k < |ops| && ops[k].GetStatus?;
      StartOrdered(ops, frozen);
      forall schedule: seq<nat> | Legal(Start(ops), schedule) && Stuck(End(Start(ops), schedule))
        ensures AllDone(End(Start(ops), schedule))
      {
        RunsKeepOrder(Start(ops), schedule, frozen);
        Progress(End(Start(ops), schedule), frozen);
      }
    } else {
      var a: nat :| a < |ops| && ops[a].GetStatus?;
      var b: nat :| b < |ops| && WritesEndpoints(ops[b]);
      NotDeadlockFree(ops, a, b);
    }
  }

  /** And no run goes on for ever. */
  lemma {:induction false} EveryRunIsFinite(ops: seq<Operation>, schedule: seq<nat>)
    requires Legal(Start(ops), schedule)
    ensures AllSane(Start(ops)) && |schedule| <= TotalWork(Start(ops))
  {
    StartIsIdle(ops, 0);
    RunsEnd(Start(ops), schedule);
  }
}
