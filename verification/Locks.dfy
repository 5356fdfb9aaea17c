/**
 * Deadlock freedom. Guards are lexical scopes, so an operation is a tree of nested scopes; any number of
 * operations run concurrently under reader-writer locks whose readers queue behind waiting writers.
 */
module Locks {
  import opened Prelude

  datatype Field =
    | ConfigPath
    | ClientHandle
    | BaseCooldown
    | MaxCooldown
    | ConnectTimeout
    | ClientTimeout
    | PoolIdleTimeout
    | PoolMaxIdle
    | MaxBatchSize
    | CheckInterval
    | CheckTimeout
    | SmoothingFactor

  datatype Lock =
    | Endpoints
    | RateLimiters
    | LimiterMutex(id: nat)
    | Scalar(field: Field)

  /** A mutex is a lock that is only ever taken in write mode. */
  datatype Mode = Read | Write

  datatype Code =
    | Skip
    | Then(first: Code, second: Code)
    | With(lock: Lock, mode: Mode, body: Code)

  /** The order in which locks are acquired. */
  function Rank(l: Lock): nat {
    match l
    case Endpoints => 0
    case RateLimiters => 1
    case LimiterMutex(_) => 2
    case Scalar(BaseCooldown) => 3
    case Scalar(ConnectTimeout) => 3
    case Scalar(_) => 4
  }

  // ---- The operations ----

  function Touch(l: Lock, mode: Mode): Code {
    With(l, mode, Skip)
  }

  function TouchAll(fields: seq<Field>, mode: Mode): Code {
    if fields == [] then Skip else Then(Touch(Scalar(fields[0]), mode), TouchAll(fields[1..], mode))
  }

  function Repeat(n: nat, code: Code): Code {
    if n == 0 then Skip else Then(code, Repeat(n - 1, code))
  }

  function TryLimiters(ids: seq<nat>): Code {
    if ids == [] then Skip else Then(Touch(LimiterMutex(ids[0]), Write), TryLimiters(ids[1..]))
  }

  /** Both cooldown settings are read in one argument list, so the first guard outlives the second read. */
  function CooldownArguments(): Code {
    With(Scalar(BaseCooldown), Read, Touch(Scalar(MaxCooldown), Read))
  }

  function Mark(triggers: bool): Code {
    With(Endpoints, Write, if triggers then CooldownArguments() else Skip)
  }

  function MetricsBlock(found: bool, timedOut: bool): Code {
    With(Endpoints, Read,
         if !found then Skip
         else Then(Touch(Scalar(SmoothingFactor), Read), if timedOut then Touch(Scalar(ClientTimeout), Read) else Skip))
  }

  function BeforeHealthCommit(checked: nat): Code {
    Then(TouchAll([CheckInterval], Read),
    Then(Touch(Endpoints, Read),
    Then(Touch(Scalar(CheckTimeout), Read), Repeat(checked, Touch(Scalar(ClientHandle), Read)))))
  }

  function CommitHealth(failing: nat): Code {
    With(Endpoints, Write, Then(Then(Touch(Scalar(BaseCooldown), Read), Touch(Scalar(MaxCooldown), Read)),
                                Repeat(failing, Touch(Scalar(SmoothingFactor), Read))))
  }

  /** The first guard of the comparison lives to its end, each of the others only in its own operand. */
  function CompareClient(compared: seq<Field>): Code {
    With(Scalar(ConnectTimeout), Read, TouchAll(compared, Read))
  }

  predicate ClientFields(fields: seq<Field>) {
    forall k :: 0 <= k < |fields| ==> fields[k] in {ClientTimeout, PoolIdleTimeout, PoolMaxIdle}
  }

  function RebuildClient(rebuilt: bool): Code {
    if rebuilt
    then TouchAll([ClientHandle, ConnectTimeout, ClientTimeout, PoolIdleTimeout, PoolMaxIdle], Write)
    else Skip
  }

  function Snapshot(added: nat): Code {
    With(Endpoints, Read, With(RateLimiters, Read, Repeat(added, Touch(Scalar(ClientTimeout), Read))))
  }

  function BeforeCommit(compared: seq<Field>, rebuilt: bool, added: nat): Code {
    Then(Touch(Scalar(ConfigPath), Read),
    Then(CompareClient(compared),
    Then(RebuildClient(rebuilt),
    Then(Touch(Endpoints, Read), Snapshot(added)))))
  }

  function AfterCommit(): Code {
    Then(Touch(RateLimiters, Write),
    Then(TouchAll([MaxBatchSize, BaseCooldown, MaxCooldown, CheckInterval, CheckTimeout, SmoothingFactor], Write),
         Touch(Endpoints, Read)))
  }

  /** The status report, whatever settings it reports: the ranking it contains reads the endpoints again. */
  function Report(reported: seq<Field>): Code {
    With(Endpoints, Read, Then(TouchAll(reported, Read), Touch(Endpoints, Read)))
  }

  /** A failed reload is one whose file does not parse or finalize: it ends before it reads any state. */
  datatype Operation =
    | CheckBatch
    | SelectEndpoint(tried: seq<nat>)
    | MarkEndpoint(triggers: bool)
    | Forward(found: bool, timedOut: bool, marks: bool, triggers: bool)
    | HealthRound(checked: nat, failing: nat)
    | GaugeTick
    | Reload(compared: seq<Field>, rebuilt: bool, added: nat)
    | FailedReload
    | GetStatus(reported: seq<Field>)

  function Program(op: Operation): Code {
    match op
    case CheckBatch => Touch(Scalar(MaxBatchSize), Read)
    case SelectEndpoint(tried) => With(Endpoints, Read, With(RateLimiters, Read, TryLimiters(tried)))
    case MarkEndpoint(triggers) => Mark(triggers)
    case Forward(found, timedOut, marks, triggers) =>
      Then(Then(Touch(Scalar(ClientHandle), Read), MetricsBlock(found, timedOut)),
           if marks then Mark(triggers) else Skip)
    case HealthRound(checked, failing) =>
      Then(BeforeHealthCommit(checked), Then(CommitHealth(failing), Touch(Endpoints, Read)))
    case GaugeTick => Then(Touch(Endpoints, Read), Touch(Endpoints, Read))
    case Reload(compared, rebuilt, added) =>
      Then(BeforeCommit(compared, rebuilt, added), Then(Touch(Endpoints, Write), AfterCommit()))
    case FailedReload => Touch(Scalar(ConfigPath), Read)
    case GetStatus(reported) => Report(reported)
  }

  predicate WellFormed(op: Operation) {
    op.Reload? ==> ClientFields(op.compared)
  }

  predicate WritesEndpoints(op: Operation) {
    match op
    case MarkEndpoint(_) => true
    case Forward(_, _, marks, _) => marks
    case HealthRound(_, _) => true
    case Reload(_, _, _) => true
    case _ => false
  }

  // ---- Threads ----

  /** What a thread still has to do; an `Unlock` below means that it holds the guard now. */
  datatype Item =
    | Run(code: Code)
    | Unlock(lock: Lock, mode: Mode)

  datatype Thread = Thread(todo: seq<Item>, waiting: bool)

  predicate Done(t: Thread) {
    t.todo == []
  }

  predicate Wants(t: Thread) {
    t.todo != [] && t.todo[0].Run? && t.todo[0].code.With?
  }

  predicate Holds(t: Thread, l: Lock, mode: Mode) {
    Unlock(l, mode) in t.todo
  }

  predicate WaitsToWrite(t: Thread, l: Lock) {
    t.waiting && Wants(t) && t.todo[0].code.lock == l && t.todo[0].code.mode == Write
  }

  /** A writer needs the lock free; a reader needs it free of writers, including those that wait. */
  ghost predicate Available(ts: seq<Thread>, l: Lock, mode: Mode) {
    forall k :: 0 <= k < |ts| ==>
      !Holds(ts[k], l, Write) && if mode == Write then !Holds(ts[k], l, Read) else !WaitsToWrite(ts[k], l)
  }

  /** Announcing a request is always possible; obtaining the lock may have to wait. */
  ghost predicate CanStep(ts: seq<Thread>, i: nat) {
    && i < |ts| && !Done(ts[i])
    && (Wants(ts[i]) && ts[i].waiting ==> Available(ts, ts[i].todo[0].code.lock, ts[i].todo[0].code.mode))
  }

  function Stepped(t: Thread): Thread
    requires !Done(t)
  {
    var rest := t.todo[1..];
    match t.todo[0]
    case Unlock(_, _) => Thread(rest, false)
    case Run(Skip) => Thread(rest, false)
    case Run(Then(a, b)) => Thread([Run(a), Run(b)] + rest, false)
    case Run(With(l, mode, body)) =>
      if t.waiting then Thread([Run(body), Unlock(l, mode)] + rest, false) else Thread(t.todo, true)
  }

  ghost function StepThread(ts: seq<Thread>, i: nat): seq<Thread>
    requires CanStep(ts, i)
  {
    ts[i := Stepped(ts[i])]
  }

  ghost predicate Legal(ts: seq<Thread>, schedule: seq<nat>)
    decreases |schedule|
  {
    schedule == [] || (CanStep(ts, schedule[0]) && Legal(StepThread(ts, schedule[0]), schedule[1..]))
  }

  ghost function End(ts: seq<Thread>, schedule: seq<nat>): seq<Thread>
    requires Legal(ts, schedule)
    decreases |schedule|
  {
    if schedule == [] then ts else End(StepThread(ts, schedule[0]), schedule[1..])
  }

  function Start(ops: seq<Operation>): seq<Thread> {
    seq(|ops|, k requires 0 <= k < |ops| => Thread([Run(Program(ops[k]))], false))
  }

  ghost predicate AllDone(ts: seq<Thread>) {
    forall k :: 0 <= k < |ts| ==> Done(ts[k])
  }

  ghost predicate Stuck(ts: seq<Thread>) {
    forall i: nat :: !CanStep(ts, i)
  }

  /** Every run of the operations that cannot go on has finished all of them. */
  ghost predicate DeadlockFree(ops: seq<Operation>) {
    forall schedule: seq<nat> :: Legal(Start(ops), schedule) && Stuck(End(Start(ops), schedule))
      ==> AllDone(End(Start(ops), schedule))
  }

  // ---- Lock order ----

  /**
   * Locks are acquired in ascending rank above `floor`. When nobody writes the endpoints (`frozen`), their
   * readers are exempt.
   */
  predicate Ordered(code: Code, floor: nat, frozen: bool) {
    match code
    case Skip => true
    case Then(a, b) => Ordered(a, floor, frozen) && Ordered(b, floor, frozen)
    case With(l, mode, body) =>
      && (floor <= Rank(l) || (frozen && l == Endpoints && mode == Read))
      && (frozen && l == Endpoints ==> mode == Read)
      && Ordered(body, Max(floor, Rank(l) + 1), frozen)
  }

  /** One more than the highest rank held. */
  function Floor(todo: seq<Item>): nat {
    if todo == [] then 0
    else if todo[0].Unlock? then Max(Floor(todo[1..]), Rank(todo[0].lock) + 1)
    else Floor(todo[1..])
  }

  predicate OrderedItems(todo: seq<Item>, frozen: bool) {
    todo == [] || (
      && OrderedItems(todo[1..], frozen)
      && match todo[0]
         case Run(code) => Ordered(code, Floor(todo[1..]), frozen)
         case Unlock(l, mode) => frozen && l == Endpoints ==> mode == Read)
  }

  ghost predicate AllOrdered(ts: seq<Thread>, frozen: bool) {
    forall k :: 0 <= k < |ts| ==> OrderedItems(ts[k].todo, frozen)
  }

  lemma {:induction false} HeldBelowFloor(todo: seq<Item>, l: Lock, mode: Mode)
    requires Unlock(l, mode) in todo
    ensures Rank(l) < Floor(todo)
  {
    if todo[0] != Unlock(l, mode) {
      HeldBelowFloor(todo[1..], l, mode);
    }
  }

  lemma {:induction false} FrozenHoldsRead(todo: seq<Item>, mode: Mode)
    requires OrderedItems(todo, true) && Unlock(Endpoints, mode) in todo
    ensures mode == Read
  {
    if todo[0] != Unlock(Endpoints, mode) {
      FrozenHoldsRead(todo[1..], mode);
    }
  }

  lemma {:induction false} StepKeepsOrder(t: Thread, frozen: bool)
    requires OrderedItems(t.todo, frozen) && !Done(t)
    ensures OrderedItems(Stepped(t).todo, frozen)
  {
    var rest := t.todo[1..];
    match t.todo[0]
    case Unlock(_, _) =>
    case Run(Skip) =>
    case Run(Then(a, b)) =>
      assert ([Run(b)] + rest)[1..] == rest;
      assert OrderedItems([Run(b)] + rest, frozen) && Floor([Run(b)] + rest) == Floor(rest);
      assert ([Run(a), Run(b)] + rest)[1..] == [Run(b)] + rest;
    case Run(With(l, mode, body)) =>
      assert ([Unlock(l, mode)] + rest)[1..] == rest;
      assert OrderedItems([Unlock(l, mode)] + rest, frozen);
      assert Floor([Unlock(l, mode)] + rest) == Max(Floor(rest), Rank(l) + 1);
      assert ([Run(body), Unlock(l, mode)] + rest)[1..] == [Unlock(l, mode)] + rest;
  }

  // ---- Progress ----

  /** The rank of the lock an unfinished waiting thread is after. */
  function Goal(t: Thread): int {
    if Wants(t) then Rank(t.todo[0].code.lock) else -1
  }

  lemma {:induction false} HighestGoal(ts: seq<Thread>, n: nat) returns (top: nat)
    requires n <= |ts| && exists k :: 0 <= k < n && !Done(ts[k])
    ensures top < n && !Done(ts[top])
    ensures forall k :: 0 <= k < n && !Done(ts[k]) ==> Goal(ts[k]) <= Goal(ts[top])
  {
    if exists k :: 0 <= k < n - 1 && !Done(ts[k]) {
      top := HighestGoal(ts, n - 1);
      if !Done(ts[n - 1]) && Goal(ts[top]) < Goal(ts[n - 1]) {
        top := n - 1;
      }
    } else {
      top := n - 1;
    }
  }

  /** A thread that holds a lock and is itself blocked waits for a lock of higher rank. */
  lemma HolderWantsMore(ts: seq<Thread>, k: nat, l: Lock, mode: Mode, frozen: bool)
    requires AllOrdered(ts, frozen) && k < |ts| && Holds(ts[k], l, mode) && !CanStep(ts, k)
    ensures Goal(ts[k]) > Rank(l) || (frozen && ts[k].todo[0].code.lock == Endpoints)
    ensures Wants(ts[k])
  {
    var todo := ts[k].todo;
    assert Unlock(l, mode) in todo[1..];
    HeldBelowFloor(todo[1..], l, mode);
  }

  /** When nobody writes the endpoints, nobody waits to read them. */
  lemma FrozenNeverBlocks(ts: seq<Thread>, k: nat)
    requires AllOrdered(ts, true) && k < |ts| && Wants(ts[k]) && ts[k].todo[0].code.lock == Endpoints
    ensures CanStep(ts, k)
  {
    forall j | 0 <= j < |ts|
      ensures !Holds(ts[j], Endpoints, Write) && !WaitsToWrite(ts[j], Endpoints)
    {
      if Holds(ts[j], Endpoints, Write) {
        FrozenHoldsRead(ts[j].todo, Write);
      }
    }
  }

  /** If the highest lock anyone waits for is held or awaited by a writer, its holder could not be blocked. */
  lemma Progress(ts: seq<Thread>, frozen: bool)
    requires AllOrdered(ts, frozen) && Stuck(ts)
    ensures AllDone(ts)
  {
    if exists k :: 0 <= k < |ts| && !Done(ts[k]) {
      var top := HighestGoal(ts, |ts|);
      assert !CanStep(ts, top);
      var l := ts[top].todo[0].code.lock;
      if frozen && l == Endpoints {
        FrozenNeverBlocks(ts, top);
      } else {
        NobodyHolds(ts, top, frozen);
        var w :| 0 <= w < |ts| && WaitsToWrite(ts[w], l);
        assert !CanStep(ts, w);
        NobodyHolds(ts, w, frozen);
      }
    }
  }

  /** Nobody holds a lock of the highest rank that a blocked thread waits for. */
  lemma NobodyHolds(ts: seq<Thread>, top: nat, frozen: bool)
    requires AllOrdered(ts, frozen) && Stuck(ts) && top < |ts| && Wants(ts[top])
    requires !(frozen && ts[top].todo[0].code.lock == Endpoints)
    requires forall k :: 0 <= k < |ts| && !Done(ts[k]) ==> Goal(ts[k]) <= Goal(ts[top])
    ensures forall k, mode :: 0 <= k < |ts| ==> !Holds(ts[k], ts[top].todo[0].code.lock, mode)
  {
    var l := ts[top].todo[0].code.lock;
    forall k, mode | 0 <= k < |ts|
      ensures !Holds(ts[k], l, mode)
    {
      if Holds(ts[k], l, mode) {
        assert !CanStep(ts, k);
        HolderWantsMore(ts, k, l, mode, frozen);
        if frozen && ts[k].todo[0].code.lock == Endpoints {
          FrozenNeverBlocks(ts, k);
        }
      }
    }
  }

  // ---- Every run ends ----

  function Size(code: Code): nat {
    match code
    case Skip => 1
    case Then(a, b) => 1 + Size(a) + Size(b)
    case With(_, _, body) => 3 + Size(body)
  }

  function ItemsWork(todo: seq<Item>): nat {
    if todo == [] then 0
    else (if todo[0].Run? then Size(todo[0].code) else 1) + ItemsWork(todo[1..])
  }

  predicate Sane(t: Thread) {
    t.waiting ==> Wants(t)
  }

  function Work(t: Thread): nat
    requires Sane(t)
  {
    ItemsWork(t.todo) - (if t.waiting then 1 else 0)
  }

  ghost predicate AllSane(ts: seq<Thread>) {
    forall k :: 0 <= k < |ts| ==> Sane(ts[k])
  }

  function TotalWork(ts: seq<Thread>): nat
    requires AllSane(ts)
  {
    if ts == [] then 0 else TotalWork(ts[..|ts| - 1]) + Work(ts[|ts| - 1])
  }

  lemma StepWorks(t: Thread)
    requires Sane(t) && !Done(t)
    ensures Sane(Stepped(t)) && Work(Stepped(t)) < Work(t)
  {
    var rest := t.todo[1..];
    match t.todo[0]
    case Unlock(_, _) =>
    case Run(Skip) =>
    case Run(Then(a, b)) =>
      assert ([Run(b)] + rest)[1..] == rest;
      assert ItemsWork([Run(b)] + rest) == Size(b) + ItemsWork(rest);
      assert ([Run(a), Run(b)] + rest)[1..] == [Run(b)] + rest;
    case Run(With(l, mode, body)) =>
      assert ([Unlock(l, mode)] + rest)[1..] == rest;
      assert ItemsWork([Unlock(l, mode)] + rest) == 1 + ItemsWork(rest);
      assert ([Run(body), Unlock(l, mode)] + rest)[1..] == [Unlock(l, mode)] + rest;
  }

  lemma {:induction false} LessWork(ts: seq<Thread>, i: nat, t: Thread)
    requires AllSane(ts) && i < |ts| && Sane(t) && Work(t) < Work(ts[i])
    ensures AllSane(ts[i := t]) && TotalWork(ts[i := t]) < TotalWork(ts)
    decreases |ts|
  {
    var last := |ts| - 1;
    if i == last {
      assert ts[i := t][..last] == ts[..last];
    } else {
      LessWork(ts[..last], i, t);
      assert ts[i := t][..last] == ts[..last][i := t];
    }
  }

  /** A run is never longer than the work there is. */
  lemma {:induction false} RunsEnd(ts: seq<Thread>, schedule: seq<nat>)
    requires AllSane(ts) && Legal(ts, schedule)
    ensures AllSane(End(ts, schedule)) && |schedule| + TotalWork(End(ts, schedule)) <= TotalWork(ts)
    decreases |schedule|
  {
    if schedule != [] {
      var i := schedule[0];
      StepWorks(ts[i]);
      LessWork(ts, i, Stepped(ts[i]));
      RunsEnd(StepThread(ts, i), schedule[1..]);
    }
  }

  lemma {:induction false} RunsKeepOrder(ts: seq<Thread>, schedule: seq<nat>, frozen: bool)
    requires AllOrdered(ts, frozen) && Legal(ts, schedule)
    ensures AllOrdered(End(ts, schedule), frozen)
    decreases |schedule|
  {
    if schedule != [] {
      StepKeepsOrder(ts[schedule[0]], frozen);
      RunsKeepOrder(StepThread(ts, schedule[0]), schedule[1..], frozen);
    }
  }

  // ---- Exclusion ----

  /** A write guard excludes every other guard of its lock. */
  ghost predicate Exclusive(ts: seq<Thread>) {
    forall j, k, l, mode :: 0 <= j < |ts| && 0 <= k < |ts| && j != k && Holds(ts[j], l, Write) ==>
      !Holds(ts[k], l, mode)
  }

  lemma StepKeepsExclusion(ts: seq<Thread>, i: nat)
    requires Exclusive(ts) && CanStep(ts, i)
    ensures Exclusive(StepThread(ts, i))
  {
    var t, ts' := Stepped(ts[i]), StepThread(ts, i);
    forall l, mode | Holds(t, l, mode)
      ensures Holds(ts[i], l, mode) || Available(ts, l, mode)
    {
    }
    forall j, k, l, mode | 0 <= j < |ts| && 0 <= k < |ts| && j != k && Holds(ts'[j], l, Write)
      ensures !Holds(ts'[k], l, mode)
    {
      assert j != i ==> Holds(ts[j], l, Write);
      assert mode == Read || mode == Write;
    }
  }

  /** The scopes of a write guard are atomic: this is what lets the other modules treat them as single steps. */
  lemma {:induction false} RunsKeepExclusion(ts: seq<Thread>, schedule: seq<nat>)
    requires Exclusive(ts) && Legal(ts, schedule)
    ensures Exclusive(End(ts, schedule))
    decreases |schedule|
  {
    if schedule != [] {
      StepKeepsExclusion(ts, schedule[0]);
      RunsKeepExclusion(StepThread(ts, schedule[0]), schedule[1..]);
    }
  }

  // ---- The operations respect the order ----

  lemma {:induction false} FieldsOrdered(fields: seq<Field>, mode: Mode, floor: nat, frozen: bool)
    requires floor <= 3 || (floor <= 4 && forall k :: 0 <= k < |fields| ==> Rank(Scalar(fields[k])) == 4)
    ensures Ordered(TouchAll(fields, mode), floor, frozen)
  {
    if fields != [] {
      FieldsOrdered(fields[1..], mode, floor, frozen);
    }
  }

  lemma {:induction false} RepeatOrdered(n: nat, code: Code, floor: nat, frozen: bool)
    requires Ordered(code, floor, frozen)
    ensures Ordered(Repeat(n, code), floor, frozen)
  {
    if n > 0 {
      RepeatOrdered(n - 1, code, floor, frozen);
    }
  }

  lemma {:induction false} LimitersOrdered(ids: seq<nat>, frozen: bool)
    ensures Ordered(TryLimiters(ids), 2, frozen)
  {
    if ids != [] {
      LimitersOrdered(ids[1..], frozen);
    }
  }

  lemma {:induction false} TouchOrdered(l: Lock, mode: Mode, floor: nat)
    requires floor <= Rank(l)
    ensures Ordered(Touch(l, mode), floor, false)
  {
  }

  lemma SnapshotOrdered(added: nat)
    ensures Ordered(Snapshot(added), 0, false)
  {
    RepeatOrdered(added, Touch(Scalar(ClientTimeout), Read), 2, false);
    assert Ordered(With(RateLimiters, Read, Repeat(added, Touch(Scalar(ClientTimeout), Read))), 1, false);
  }

  lemma CompareClientOrdered(compared: seq<Field>)
    requires ClientFields(compared)
    ensures Ordered(CompareClient(compared), 0, false)
  {
    FieldsOrdered(compared, Read, 4, false);
  }

  lemma {:induction false} ThenOrdered(a: Code, b: Code, floor: nat)
    requires Ordered(a, floor, false) && Ordered(b, floor, false)
    ensures Ordered(Then(a, b), floor, false)
  {
  }

  lemma BeforeCommitOrdered(compared: seq<Field>, rebuilt: bool, added: nat)
    requires ClientFields(compared)
    ensures Ordered(BeforeCommit(compared, rebuilt, added), 0, false)
  {
    TouchOrdered(Scalar(ConfigPath), Read, 0);
    CompareClientOrdered(compared);
    FieldsOrdered([ClientHandle, ConnectTimeout, ClientTimeout, PoolIdleTimeout, PoolMaxIdle], Write, 0, false);
    TouchOrdered(Endpoints, Read, 0);
    SnapshotOrdered(added);
    ThenOrdered(Touch(Endpoints, Read), Snapshot(added), 0);
    ThenOrdered(RebuildClient(rebuilt), Then(Touch(Endpoints, Read), Snapshot(added)), 0);
  }

  lemma AfterCommitOrdered()
    ensures Ordered(AfterCommit(), 0, false)
  {
    var written := [MaxBatchSize, BaseCooldown, MaxCooldown, CheckInterval, CheckTimeout, SmoothingFactor];
    FieldsOrdered(written, Write, 0, false);
    TouchOrdered(RateLimiters, Write, 0);
    TouchOrdered(Endpoints, Read, 0);
  }

  lemma MarkOrdered(triggers: bool)
    ensures Ordered(Mark(triggers), 0, false)
  {
    assert Ordered(Touch(Scalar(MaxCooldown), Read), 4, false);
    assert Ordered(CooldownArguments(), 1, false);
  }

  lemma {:induction false} MetricsBlockOrdered(found: bool, timedOut: bool, frozen: bool)
    ensures Ordered(MetricsBlock(found, timedOut), 0, frozen)
  {
    assert Ordered(Touch(Scalar(SmoothingFactor), Read), 1, frozen);
    assert Ordered(Touch(Scalar(ClientTimeout), Read), 1, frozen);
  }

  lemma HealthOrdered(checked: nat, failing: nat)
    ensures Ordered(BeforeHealthCommit(checked), 0, false) && Ordered(CommitHealth(failing), 0, false)
  {
    FieldsOrdered([CheckInterval], Read, 0, false);
    RepeatOrdered(checked, Touch(Scalar(ClientHandle), Read), 0, false);
    TouchOrdered(Scalar(CheckTimeout), Read, 0);
    TouchOrdered(Endpoints, Read, 0);
    var clients := Repeat(checked, Touch(Scalar(ClientHandle), Read));
    ThenOrdered(Touch(Scalar(CheckTimeout), Read), clients, 0);
    ThenOrdered(Touch(Endpoints, Read), Then(Touch(Scalar(CheckTimeout), Read), clients), 0);
    HealthCommitOrdered(failing);
  }

  lemma HealthCommitOrdered(failing: nat)
    ensures Ordered(CommitHealth(failing), 0, false)
  {
    var base, max := Touch(Scalar(BaseCooldown), Read), Touch(Scalar(MaxCooldown), Read);
    TouchOrdered(Scalar(BaseCooldown), Read, 1);
    TouchOrdered(Scalar(MaxCooldown), Read, 1);
    ThenOrdered(base, max, 1);
    TouchOrdered(Scalar(SmoothingFactor), Read, 1);
    RepeatOrdered(failing, Touch(Scalar(SmoothingFactor), Read), 1, false);
  }

  lemma {:induction false} ReadersOrdered(op: Operation, frozen: bool)
    requires op.SelectEndpoint? || (op.GetStatus? && frozen)
    ensures Ordered(Program(op), 0, frozen)
  {
    match op
    case SelectEndpoint(tried) =>
      LimitersOrdered(tried, frozen);
      assert Ordered(With(RateLimiters, Read, TryLimiters(tried)), 1, frozen);
    case GetStatus(reported) =>
      FieldsOrdered(reported, Read, 1, frozen);
      assert Ordered(Touch(Endpoints, Read), 1, frozen);
  }

  lemma {:induction false} ForwardOrdered(op: Operation, frozen: bool)
    requires op.Forward? && (frozen ==> !op.marks)
    ensures Ordered(Program(op), 0, frozen)
  {
    MetricsBlockOrdered(op.found, op.timedOut, frozen);
    MarkOrdered(op.triggers);
    assert Ordered(Touch(Scalar(ClientHandle), Read), 0, frozen);
  }

  lemma WritersOrdered(op: Operation)
    requires WellFormed(op) && (op.MarkEndpoint? || op.HealthRound? || op.Reload?)
    ensures Ordered(Program(op), 0, false)
  {
    match op
    case MarkEndpoint(triggers) => MarkOrdered(triggers);
    case HealthRound(checked, failing) =>
      HealthOrdered(checked, failing);
      TouchOrdered(Endpoints, Read, 0);
      ThenOrdered(CommitHealth(failing), Touch(Endpoints, Read), 0);
    case Reload(compared, rebuilt, added) =>
      BeforeCommitOrdered(compared, rebuilt, added);
      AfterCommitOrdered();
      TouchOrdered(Endpoints, Write, 0);
      ThenOrdered(Touch(Endpoints, Write), AfterCommit(), 0);
  }

  /** Every operation but the status report acquires its locks in order; that one too if nobody writes the endpoints. */
  lemma {:induction false} ProgramsOrdered(op: Operation, frozen: bool)
    requires WellFormed(op) && if frozen then !WritesEndpoints(op) else !op.GetStatus?
    ensures Ordered(Program(op), 0, frozen)
  {
    match op
    case CheckBatch =>
    case FailedReload =>
    case GaugeTick => assert Ordered(Touch(Endpoints, Read), 0, frozen);
    case SelectEndpoint(_) => ReadersOrdered(op, frozen);
    case GetStatus(_) => ReadersOrdered(op, frozen);
    case Forward(_, _, _, _) => ForwardOrdered(op, frozen);
    case _ => WritersOrdered(op);
  }
}
