/** Which operations can jam, read off what their code does with the endpoints lock. */
module LockUse {
  import opened Locks
  import opened Deadlock

  /** Somewhere in the code a scope writes the endpoints. */
  predicate TakesWrite(code: Code) {
    match code
    case Skip => false
    case Then(a, b) => TakesWrite(a) || TakesWrite(b)
    case With(l, mode, body) => (l == Endpoints && mode == Write) || TakesWrite(body)
  }

  /** Somewhere in the code the endpoints are locked inside a scope that has them locked already. */
  predicate Relocks(code: Code, held: bool) {
    match code
    case Skip => false
    case Then(a, b) => Relocks(a, held) || Relocks(b, held)
    case With(l, _, body) => (l == Endpoints && held) || Relocks(body, held || l == Endpoints)
  }

  /** Code that does neither. */
  predicate Clear(code: Code) {
    !TakesWrite(code) && !Relocks(code, false)
  }

  /** Code that leaves the endpoints alone. */
  predicate Aside(code: Code) {
    match code
    case Skip => true
    case Then(a, b) => Aside(a) && Aside(b)
    case With(l, _, body) => l != Endpoints && Aside(body)
  }

  lemma {:induction false} AsideIsClear(code: Code, held: bool)
    requires Aside(code)
    ensures Clear(code) && !Relocks(code, held)
    decreases code
  {
    match code
    case Skip =>
    case Then(a, b) =>
      AsideIsClear(a, held);
      AsideIsClear(b, held);
    case With(_, _, body) => AsideIsClear(body, held);
  }

  lemma {:induction false} TouchAllAside(fields: seq<Field>, mode: Mode)
    ensures Aside(TouchAll(fields, mode))
  {
    if fields != [] {
      TouchAllAside(fields[1..], mode);
      assert Aside(Touch(Scalar(fields[0]), mode));
    }
  }

  lemma {:induction false} RepeatAside(n: nat, code: Code)
    requires Aside(code)
    ensures Aside(Repeat(n, code))
  {
    if n > 0 {
      RepeatAside(n - 1, code);
    }
  }

  lemma {:induction false} TryLimitersAside(ids: seq<nat>)
    ensures Aside(TryLimiters(ids))
  {
    if ids != [] {
      TryLimitersAside(ids[1..]);
      assert Aside(Touch(LimiterMutex(ids[0]), Write));
    }
  }

  /** A read scope of the endpoints around code that leaves them alone. */
  lemma {:induction false} ScopeIsClear(body: Code)
    requires Aside(body)
    ensures Clear(With(Endpoints, Read, body))
  {
    AsideIsClear(body, true);
  }

  lemma {:induction false} ScopeWrites(body: Code)
    requires Aside(body)
    ensures TakesWrite(With(Endpoints, Write, body)) && !Relocks(With(Endpoints, Write, body), false)
  {
    AsideIsClear(body, true);
  }

  lemma ThenIsClear(a: Code, b: Code)
    requires Clear(a) && Clear(b)
    ensures Clear(Then(a, b))
  {
  }

  lemma {:induction false} ThenWrites(a: Code, b: Code)
    requires !Relocks(a, false) && !Relocks(b, false)
    ensures TakesWrite(Then(a, b)) <==> TakesWrite(a) || TakesWrite(b)
    ensures !Relocks(Then(a, b), false)
  {
  }

  lemma HealthParts(checked: nat, failing: nat)
    ensures Clear(BeforeHealthCommit(checked))
    ensures TakesWrite(CommitHealth(failing)) && !Relocks(CommitHealth(failing), false)
  {
    var clients := Repeat(checked, Touch(Scalar(ClientHandle), Read));
    TouchAllAside([CheckInterval], Read);
    AsideIsClear(TouchAll([CheckInterval], Read), false);
    RepeatAside(checked, Touch(Scalar(ClientHandle), Read));
    AsideIsClear(Then(Touch(Scalar(CheckTimeout), Read), clients), false);
    ScopeIsClear(Skip);
    ThenIsClear(Touch(Endpoints, Read), Then(Touch(Scalar(CheckTimeout), Read), clients));
    var failures := Repeat(failing, Touch(Scalar(SmoothingFactor), Read));
    RepeatAside(failing, Touch(Scalar(SmoothingFactor), Read));
    var settings := Then(Touch(Scalar(BaseCooldown), Read), Touch(Scalar(MaxCooldown), Read));
    assert Aside(settings);
    ScopeWrites(Then(settings, failures));
  }

  lemma BeforeCommitClear(compared: seq<Field>, rebuilt: bool, added: nat)
    ensures Clear(BeforeCommit(compared, rebuilt, added))
  {
    TouchAllAside(compared, Read);
    AsideIsClear(CompareClient(compared), false);
    TouchAllAside([ClientHandle, ConnectTimeout, ClientTimeout, PoolIdleTimeout, PoolMaxIdle], Write);
    AsideIsClear(RebuildClient(rebuilt), false);
    var timeouts := Repeat(added, Touch(Scalar(ClientTimeout), Read));
    RepeatAside(added, Touch(Scalar(ClientTimeout), Read));
    ScopeIsClear(With(RateLimiters, Read, timeouts));
    ScopeIsClear(Skip);
    var snapshot := Then(Touch(Endpoints, Read), Snapshot(added));
    ThenIsClear(Touch(Endpoints, Read), Snapshot(added));
    ThenIsClear(RebuildClient(rebuilt), snapshot);
    ThenIsClear(CompareClient(compared), Then(RebuildClient(rebuilt), snapshot));
    AsideIsClear(Touch(Scalar(ConfigPath), Read), false);
  }

  lemma AfterCommitClear()
    ensures Clear(AfterCommit())
  {
    var fields := [MaxBatchSize, BaseCooldown, MaxCooldown, CheckInterval, CheckTimeout, SmoothingFactor];
    var written := TouchAll(fields, Write);
    TouchAllAside(fields, Write);
    AsideIsClear(written, false);
    AsideIsClear(Touch(RateLimiters, Write), false);
    ScopeIsClear(Skip);
    ThenIsClear(written, Touch(Endpoints, Read));
  }

  lemma MarkWrites(triggers: bool)
    ensures TakesWrite(Mark(triggers)) && !Relocks(Mark(triggers), false)
  {
    assert Aside(Touch(Scalar(MaxCooldown), Read));
    ScopeWrites(if triggers then CooldownArguments() else Skip);
  }

  lemma ForwardParts(found: bool, timedOut: bool)
    ensures Clear(Then(Touch(Scalar(ClientHandle), Read), MetricsBlock(found, timedOut)))
  {
    var smoothing, timeout := Touch(Scalar(SmoothingFactor), Read), Touch(Scalar(ClientTimeout), Read);
    assert Aside(smoothing) && Aside(timeout);
    ScopeIsClear(if !found then Skip else Then(smoothing, if timedOut then timeout else Skip));
    AsideIsClear(Touch(Scalar(ClientHandle), Read), false);
    ThenIsClear(Touch(Scalar(ClientHandle), Read), MetricsBlock(found, timedOut));
  }

  lemma ReportRelocks(reported: seq<Field>)
    ensures Relocks(Report(reported), false) && !TakesWrite(Report(reported))
  {
    TouchAllAside(reported, Read);
    AsideIsClear(TouchAll(reported, Read), true);
    assert Relocks(Touch(Endpoints, Read), true) && !TakesWrite(Touch(Endpoints, Read));
  }

  lemma ReadersClear(op: Operation)
    requires op.CheckBatch? || op.SelectEndpoint? || op.GaugeTick? || op.FailedReload?
    ensures Clear(Program(op))
  {
    ScopeIsClear(Skip);
    match op
    case SelectEndpoint(tried) =>
      TryLimitersAside(tried);
      ScopeIsClear(With(RateLimiters, Read, TryLimiters(tried)));
    case GaugeTick => ThenIsClear(Touch(Endpoints, Read), Touch(Endpoints, Read));
    case _ => AsideIsClear(Program(op), false);
  }

  lemma ForwardByCode(op: Operation)
    requires op.Forward?
    ensures TakesWrite(Program(op)) <==> op.marks
    ensures !Relocks(Program(op), false)
  {
    ForwardParts(op.found, op.timedOut);
    MarkWrites(op.triggers);
  }

  lemma RoundByCode(op: Operation)
    requires op.HealthRound?
    ensures TakesWrite(Program(op)) && !Relocks(Program(op), false)
  {
    HealthParts(op.checked, op.failing);
    ScopeIsClear(Skip);
  }

  lemma ReloadByCode(op: Operation)
    requires op.Reload?
    ensures TakesWrite(Program(op)) && !Relocks(Program(op), false)
  {
    var before, write := BeforeCommit(op.compared, op.rebuilt, op.added), Touch(Endpoints, Write);
    BeforeCommitClear(op.compared, op.rebuilt, op.added);
    AfterCommitClear();
    ScopeWrites(Skip);
    ThenWrites(write, AfterCommit());
    ThenWrites(before, Then(write, AfterCommit()));
  }

  /** The operations that can jam, by what their code does with the endpoints lock. */
  lemma {:induction false} JammersByCode(op: Operation)
    ensures WritesEndpoints(op) <==> TakesWrite(Program(op))
    ensures op.GetStatus? <==> Relocks(Program(op), false)
  {
    match op
    case MarkEndpoint(triggers) => MarkWrites(triggers);
    case Forward(_, _, _, _) => ForwardByCode(op);
    case HealthRound(_, _) => RoundByCode(op);
    case Reload(_, _, _) => ReloadByCode(op);
    case GetStatus(reported) => ReportRelocks(reported);
    case _ => ReadersClear(op);
  }

  /** A mix always runs to its end exactly if no code in it locks the endpoints twice, or none writes them. */
  lemma DeadlockFreeByCode(ops: seq<Operation>)
    requires AllWellFormed(ops)
    ensures DeadlockFree(ops)
      <==> (forall k :: 0 <= k < |ops| ==> !Relocks(Program(ops[k]), false))
           || (forall k :: 0 <= k < |ops| ==> !TakesWrite(Program(ops[k])))
  {
    DeadlockFreeIff(ops);
    forall k | 0 <= k < |ops|
      ensures WritesEndpoints(ops[k]) <==> TakesWrite(Program(ops[k]))
      ensures ops[k].GetStatus? <==> Relocks(Program(ops[k]), false)
    {
      JammersByCode(ops[k]);
    }
  }
}
