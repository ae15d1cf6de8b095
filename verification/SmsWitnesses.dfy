/** Two short runs: a retryable rejection whose fate depends on recovery, and a direct answer that comes too late to be stored. */
module SmsWitnesses {
  import opened Basics
  import opened SmsStatus
  import opened SmsStore
  import opened SmsTransactions
  import opened SmsProtocol
  import opened SmsTheorems

  const K: Key := "m"
  const TOKEN := Token(K, 0)
  const OPEN := Policy(false, None)

  // ----- a queued message that one worker has dispatched -----

  const JOB := Snapshot(K, 1, 0, 2)
  const READING := Timing(0, 0, 1000, 500)
  const LEASED := Job(Leased(1, 1000), 0, 1, 0, 2)
  const WAITING := NewRow(true, Some(LEASED))
  const STARTED := WAITING.(attempts := [Attempt(Started, Queued(1), 0)], reservation := Held(0))

  const STEPS := [Enqueue(K, 2, 0), LeaseSend(K, 0, 1000), Prepare(JOB, READING, true, OPEN), Clear(TOKEN, READING), Send(TOKEN)]

  function Enqueued(): State { INIT.(db := Db(map[K := NewRow(true, Some(NewJob(0, 2)))], map[])) }

  function Taken(): State { INIT.(db := Db(map[K := WAITING], map[]), leases := {JOB}) }

  function Working(phase: Phase): State {
    State(Db(map[K := STARTED], map[0 := 1]), map[TOKEN := Flight(phase, Some(JOB))], if phase.Dispatched? then [TOKEN] else [], {JOB}, {})
  }

  lemma EnqueueStep()
    ensures Next(INIT, STEPS[0]) == Enqueued()
  {
  }

  lemma LeaseStep()
    ensures Next(Enqueued(), STEPS[1]) == Taken()
  {
    assert Enqueued().db.rows[K := WAITING] == map[K := WAITING];
    assert {} + {JOB} == {JOB};
  }

  lemma PrepareStep()
    ensures Next(Taken(), STEPS[2]) == Working(Ready)
  {
    var db := Taken().db;
    assert WAITING.attempts + [Attempt(Started, Queued(1), 0)] == STARTED.attempts;
    assert UtcDay(0) == 0 && HeldOn(db, 0) == 0;
    assert MarkedRow(WAITING, 1, READING, Held(0)) == STARTED;
    assert db.rows[K := STARTED] == map[K := STARTED] && db.held[0 := 1] == map[0 := 1];
    assert PrepareTx(db, JOB, READING, true, OPEN) == Ok((Working(Ready).db, Some(TOKEN)));
    assert Taken().flights[TOKEN := Flight(Ready, Some(JOB))] == Working(Ready).flights;
  }

  lemma ClearStep()
    ensures Next(Working(Ready), STEPS[3]) == Working(Cleared)
  {
    var s := Working(Ready);
    assert RenewedRow(STARTED, 1, 1000) == STARTED && s.db.rows[K := STARTED] == s.db.rows;
    assert ClearTx(s.db, JOB, READING) == Ok(s.db);
    assert s.flights[TOKEN := Flight(Cleared, Some(JOB))] == Working(Cleared).flights;
  }

  lemma SendStep()
    ensures Next(Working(Cleared), STEPS[4]) == Working(Dispatched)
  {
    assert Working(Cleared).flights[TOKEN := Flight(Dispatched, Some(JOB))] == Working(Dispatched).flights;
    assert [] + [TOKEN] == [TOKEN];
  }

  lemma {:induction false} RunNext(steps: seq<Step>, n: nat)
    requires n < |steps|
    ensures Run(INIT, steps[..n + 1]) == Next(Run(INIT, steps[..n]), steps[n])
  {
    assert steps[..n + 1][..n] == steps[..n];
  }

  lemma DispatchedInRun()
    ensures Run(INIT, STEPS) == Working(Dispatched)
  {
    assert STEPS[..0] == [] && STEPS[..5] == STEPS;
    EnqueueStep();
    LeaseStep();
    PrepareStep();
    ClearStep();
    SendStep();
    RunNext(STEPS, 0);
    RunNext(STEPS, 1);
    RunNext(STEPS, 2);
    RunNext(STEPS, 3);
    RunNext(STEPS, 4);
  }

  const BATCH := Selection([K], [], [K])

  lemma MarkerIsAbandoned()
    ensures ValidSelection(Working(Dispatched).db, BATCH, 2000, 1) && BATCH.Marks(K)
  {
    var r := Working(Dispatched).db.rows[K];
    assert r.attempts[0].status.Started? && HasStarted(r) && StartedNo(r.attempts) == 0;
  }

  /** After this run the order of recovery and the worker's retryable rejection decides between a rejected and a waiting message. */
  lemma RecoveryDecides()
    ensures var s := Run(INIT, STEPS);
            var result := ProviderRejected(true);
            && TOKEN in s.flights && s.flights[TOKEN].phase.Dispatched? && WouldRetry(s.flights[TOKEN], result)
            && ValidSelection(s.db, BATCH, 2000, 1) && BATCH.Marks(K) && RecoverTx(s.db, BATCH, 2000, 1, 2000).Ok?
            && var recovered := Settle(RecoverTx(s.db, BATCH, 2000, 1, 2000).value, TOKEN, s.flights[TOKEN].job, result, 2000);
               var completed := Settle(s.db, TOKEN, s.flights[TOKEN].job, result, 2000);
               && K in recovered.rows && K in completed.rows
               && recovered.rows[K].acceptance.Rejected? && recovered.rows[K].reservation == Released(0)
               && completed.rows[K].acceptance.Pending? && completed.rows[K].reservation == Held(0)
  {
    DispatchedInRun();
    MarkerIsAbandoned();
    FlightInRun(STEPS, TOKEN);
    var s, f, result := Working(Dispatched), Flight(Dispatched, Some(JOB)), ProviderRejected(true);
    AbandonedKeepsToken(s.db, TOKEN, f, BATCH, 2000, 1, 2000);
    SettleOutcome(s.db, TOKEN, f, result, 2000);
    SettleOutcome(RecoverTx(s.db, BATCH, 2000, 1, 2000).value, TOKEN, f, result, 2000);
  }

  // ----- a direct message recovered before its answer -----

  const DIRECT_BATCH := Selection([], [K], [])
  const DIRECT_STEPS := [DirectPrepare(K, true, OPEN, true, 0), Send(TOKEN), Recover(DIRECT_BATCH, 1000, 1, 2000)]
  const DIRECT_ROW := NewRow(false, None).(attempts := [Attempt(Started, Direct, 0)], reservation := Held(0))

  function Asked(phase: Phase): State {
    State(Db(map[K := DIRECT_ROW], map[0 := 1]), map[TOKEN := Flight(phase, None)], if phase.Dispatched? then [TOKEN] else [], {}, {})
  }

  lemma DirectSteps()
    ensures Next(INIT, DIRECT_STEPS[0]) == Asked(Ready) && Next(Asked(Ready), DIRECT_STEPS[1]) == Asked(Dispatched)
  {
    assert UtcDay(0) == 0 && HeldOn(INIT.db, 0) == 0;
    assert INIT.db.rows[K := DIRECT_ROW] == map[K := DIRECT_ROW] && INIT.db.held[0 := 1] == map[0 := 1];
    assert INIT.flights[TOKEN := Flight(Ready, None)] == Asked(Ready).flights;
    assert Asked(Ready).flights[TOKEN := Flight(Dispatched, None)] == Asked(Dispatched).flights && [] + [TOKEN] == [TOKEN];
  }

  lemma DirectInRun()
    ensures Run(INIT, DIRECT_STEPS[..2]) == Asked(Dispatched)
    ensures Run(INIT, DIRECT_STEPS) == Next(Asked(Dispatched), DIRECT_STEPS[2])
  {
    assert DIRECT_STEPS[..0] == [] && DIRECT_STEPS[..3] == DIRECT_STEPS;
    DirectSteps();
    RunNext(DIRECT_STEPS, 0);
    RunNext(DIRECT_STEPS, 1);
    RunNext(DIRECT_STEPS, 2);
  }

  lemma DirectMarkerIsAbandoned()
    ensures ValidSelection(Asked(Dispatched).db, DIRECT_BATCH, 1000, 1) && DIRECT_BATCH.Marks(K)
  {
    var r := Asked(Dispatched).db.rows[K];
    assert r.attempts[0].status.Started? && HasStarted(r) && StartedNo(r.attempts) == 0;
  }

  /** The provider was asked and its answer, an unknown outcome, arrives after recovery: its transaction rolls back. */
  lemma LateUnknownRollsBack()
    ensures var s := Run(INIT, DIRECT_STEPS);
            && TOKEN in s.flights && s.flights[TOKEN] == Flight(Dispatched, None)
            && DirectCompleteTx(s.db, TOKEN, ProviderUnknown, 3000) == Err(ConcurrentModification)
  {
    DirectInRun();
    DirectMarkerIsAbandoned();
    FlightInRun(DIRECT_STEPS[..2], TOKEN);
    AbandonedKeepsToken(Asked(Dispatched).db, TOKEN, Flight(Dispatched, None), DIRECT_BATCH, 1000, 1, 2000);
  }
}
