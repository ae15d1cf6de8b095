/** What is taken from a worker: only what it has let run out. */
module SmsLeases {
  import opened Basics
  import opened SmsStatus
  import opened SmsStore
  import opened SmsTransactions
  import opened SmsProtocol

  // ----- recovery -----

  /** A leased job whose time is up. */
  predicate RanOut(job: Option<Job>, at: int) { job.Some? && job.value.state.Leased? && job.value.state.until < at }

  predicate StartedDirectlyBefore(a: Attempt, at: int) { a.status.Started? && a.mode.Direct? && a.markedAt < at }

  lemma SelectedIsAbandoned(db: Db, sel: Selection, before: int, limit: nat, key: Key)
    requires ValidSelection(db, sel, before, limit) && (key in sel.expired || sel.Marks(key))
    ensures key in db.rows
    ensures RanOut(db.rows[key].sendJob, before) || exists i :: 0 <= i < |db.rows[key].attempts| && StartedDirectlyBefore(db.rows[key].attempts[i], before)
  {
    if key in sel.direct {
      assert StartedDirectlyBefore(db.rows[key].attempts[StartedNo(db.rows[key].attempts)], before);
    }
  }

  /** Recovery touches a message only if its lease ran out or its direct marker is older than the horizon. */
  lemma OnlyAbandonedAreRecovered(s: State, step: Step, key: Key)
    requires step.Recover? && key in s.db.rows
    ensures key in Next(s, step).db.rows
    ensures Next(s, step).db.rows[key] == s.db.rows[key] || RanOut(s.db.rows[key].sendJob, step.before)
            || exists i :: 0 <= i < |s.db.rows[key].attempts| && StartedDirectlyBefore(s.db.rows[key].attempts[i], step.before)
  {
    if ValidSelection(s.db, step.sel, step.before, step.limit) && (key in step.sel.expired || step.sel.Marks(key)) {
      SelectedIsAbandoned(s.db, step.sel, step.before, step.limit, key);
    }
  }

  // ----- reconciliation jobs -----

  /** The lease this job is under. */
  predicate Under(db: Db, key: Key, token: nat, until: int) {
    key in db.rows && db.rows[key].reconcileJob.Some? && db.rows[key].reconcileJob.value.state == Leased(token, until)
  }

  lemma CompletionAsksOnce(s: State, step: Step, key: Key, token: nat, until: int)
    requires step.Complete? && Under(s.db, key, token, until)
    ensures Under(Next(s, step).db, key, token, until)
  {
  }

  /** A second reconciler gets a leased job only after the lease ran out, and under the next generation. */
  lemma TakenOverAfterItsEnd(s: State, step: Step, key: Key, token: nat, until: int, token': nat, until': int)
    requires Under(s.db, key, token, until) && Under(Next(s, step).db, key, token', until') && (token' != token || until' != until)
    ensures step.LeaseReconcile? && step.key == key && until < step.now
    ensures token' == s.db.rows[key].reconcileJob.value.generation + 1 && until' == step.now + step.leaseMs
  {
    if step.Complete? { CompletionAsksOnce(s, step, key, token, until); }
  }

  // ----- send jobs -----

  predicate SendsUnder(db: Db, key: Key, token: nat, until: int) {
    key in db.rows && db.rows[key].sendJob.Some? && db.rows[key].sendJob.value.state == Leased(token, until)
  }

  lemma HolderRenews(s: State, step: Step, key: Key, token: nat, until: int, token': nat, until': int)
    requires step.Prepare? || step.Clear?
    requires SendsUnder(s.db, key, token, until) && SendsUnder(Next(s, step).db, key, token', until')
    ensures token' == token
    ensures until' != until ==> step.t.now < until && until' == step.t.now + step.t.leaseMs
  {
  }

  lemma CompletionKeepsOrEnds(s: State, step: Step, key: Key, token: nat, until: int, token': nat, until': int)
    requires step.Complete? && SendsUnder(s.db, key, token, until) && SendsUnder(Next(s, step).db, key, token', until')
    ensures token' == token && until' == until
  {
  }

  /** A leased send job is never handed to another worker; only its holder renews it, and only while the lease is in force. */
  lemma NeverTakenOver(s: State, step: Step, key: Key, token: nat, until: int, token': nat, until': int)
    requires SendsUnder(s.db, key, token, until) && SendsUnder(Next(s, step).db, key, token', until')
    ensures token' == token
    ensures until' != until ==> (step.Prepare? || step.Clear?) && step.t.now < until && until' == step.t.now + step.t.leaseMs
  {
    if step.Prepare? || step.Clear? {
      HolderRenews(s, step, key, token, until, token', until');
    } else if step.Complete? {
      CompletionKeepsOrEnds(s, step, key, token, until, token', until');
    }
  }
}
