/** The leased queue as a transition system: any number of workers interleave the three statements
    of a claim, heartbeats and completions with crashes, enqueues, manual retries and the passing
    of time (backend/poi_admin/operations/service.py, backend/poi_admin/operations/worker.py).
    The results are about every run of that system. */
module OperationRuns {
  import opened Wrappers
  import opened Redaction
  import opened Operations

  /** What a worker has in memory between two of its statements. `Selected` carries the clock
      reading its claim started with; `Holding` the attempt counters of the row it read back. */
  datatype Local =
    | Idle
    | Selected(candidate: OpId, since: real)
    | Won(claimed: OpId)
    | Holding(id: OpId, attempts: int, maxAttempts: int)
    | Dead

  datatype System = System(clock: real, ops: Table, workers: map<WorkerId, Local>)

  /** Each statement that uses the time carries `at`, the clock reading it was built with. */
  datatype Event =
    | Tick(to: real)
    | Enqueue(newId: OpId, tenant: string, key: string, request: Request, max: int, at: real)
    | Select(w: WorkerId, id: OpId, at: real)
    | Claim(w: WorkerId, leaseSeconds: nat)
    | Load(w: WorkerId)
    | Renew(w: WorkerId, leaseSeconds: nat, at: real)
    | Succeed(w: WorkerId, response: Option<Json>, at: real)
    | Fail(w: WorkerId, failure: Failure, at: real, jitter: real)
    | Crash(w: WorkerId)
    | Retry(tenant: string, id: OpId, at: real)

  function At(s: System, w: WorkerId): Local {
    if w in s.workers then s.workers[w] else Idle
  }

  predicate Enabled(s: System, e: Event) {
    match e
    case Tick(to) => s.clock <= to
    case Enqueue(id, _, _, _, _, at) => id !in s.ops && at <= s.clock
    case Select(w, id, at) => At(s, w).Idle? && at <= s.clock && id in s.ops && Claimable(s.ops[id], at)
    case Claim(w, _) => At(s, w).Selected?
    case Load(w) => At(s, w).Won? && At(s, w).claimed in s.ops
    case Renew(w, _, at) => At(s, w).Holding? && at <= s.clock
    case Succeed(w, _, at) => At(s, w).Holding? && at <= s.clock
    case Fail(w, _, at, jitter) => At(s, w).Holding? && at <= s.clock && IsJitter(jitter)
    case Crash(w) => true
    case Retry(_, _, at) => at <= s.clock
  }

  /** The table after the event's statement. */
  function OpsAfter(s: System, e: Event): Table
    requires Enabled(s, e)
  {
    match e
    case Enqueue(id, tenant, key, request, max, at) =>
      s.ops[id := NewOperation(tenant, key, request, max, at)]
    case Claim(w, lease) => ClaimIn(s.ops, At(s, w).candidate, w, At(s, w).since, lease)
    case Renew(w, lease, at) => RenewIn(s.ops, At(s, w).id, w, at, lease)
    case Succeed(w, response, at) => SucceedIn(s.ops, At(s, w).id, w, response, at)
    case Fail(w, f, at, jitter) =>
      FailIn(s.ops, At(s, w).id, w, At(s, w).attempts, At(s, w).maxAttempts, f, at, jitter)
    case Retry(tenant, id, at) => RetryIn(s.ops, tenant, id, at)
    case _ => s.ops
  }

  function WorkersAfter(s: System, e: Event): map<WorkerId, Local>
    requires Enabled(s, e)
  {
    match e
    case Select(w, id, at) => s.workers[w := Selected(id, at)]
    case Claim(w, _) =>
      var l := At(s, w);
      s.workers[w := if l.candidate in s.ops && Claimable(s.ops[l.candidate], l.since)
                     then Won(l.candidate) else Idle]
    case Load(w) =>
      var id := At(s, w).claimed;
      s.workers[w := Holding(id, s.ops[id].attempts, s.ops[id].maxAttempts)]
    case Succeed(w, _, _) => s.workers[w := Idle]
    case Fail(w, _, _, _) => s.workers[w := Idle]
    case Crash(w) => s.workers[w := Dead]
    case _ => s.workers
  }

  function Apply(s: System, e: Event): System
    requires Enabled(s, e)
  {
    System(if e.Tick? then e.to else s.clock, OpsAfter(s, e), WorkersAfter(s, e))
  }

  ghost predicate IsRun(ss: seq<System>, es: seq<Event>) {
    && |ss| == |es| + 1
    && ss[0].ops == map[] && ss[0].workers == map[]
    && forall i {:trigger Enabled(ss[i], es[i])} {:trigger Apply(ss[i], es[i])} | 0 <= i < |es| ::
         Enabled(ss[i], es[i]) && ss[i + 1] == Apply(ss[i], es[i])
  }

  /** A statement may use any clock reading up to the present, and none from the future; the clock never
      goes back; anyone may crash at any time. */
  lemma ClockReadingsAre(s: System, e: Event)
    ensures e.Tick? ==> (Enabled(s, e) <==> e.to >= s.clock) && (Enabled(s, e) ==> Apply(s, e) == s.(clock := e.to))
    ensures Enabled(s, e) && !e.Tick? ==> Apply(s, e).clock == s.clock
    ensures (e.Enqueue? || e.Select? || e.Renew? || e.Succeed? || e.Fail? || e.Retry?) && Enabled(s, e) ==>
              e.at <= s.clock
    ensures e.Enqueue? && e.at <= s.clock && e.newId !in s.ops ==> Enabled(s, e)
    ensures e.Select? && e.at <= s.clock && At(s, e.w).Idle? && e.id in s.ops && Claimable(s.ops[e.id], e.at) ==>
              Enabled(s, e)
    ensures (e.Renew? || e.Succeed?) && e.at <= s.clock && At(s, e.w).Holding? ==> Enabled(s, e)
    ensures e.Fail? && e.at <= s.clock && At(s, e.w).Holding? && 0.0 <= e.jitter <= 1.0 ==> Enabled(s, e)
    ensures e.Retry? && e.at <= s.clock ==> Enabled(s, e)
    ensures e.Crash? ==> Enabled(s, e) && Apply(s, e).ops == s.ops
  {
  }

  /** How a worker moves on: from a candidate to the row if its update took it, and back to idle if not;
      then to the copy it reads back; and back to idle by completing it, whoever owns the row by then.
      A worker that crashed does nothing any more. No other worker is affected. */
  lemma WorkersMoveOn(s: System, e: Event, w: WorkerId)
    requires Enabled(s, e)
    ensures var after := At(Apply(s, e), w);
            var acts := (e.Select? || e.Claim? || e.Load? || e.Renew? || e.Succeed? || e.Fail? || e.Crash?) && e.w == w;
            && (!acts ==> after == At(s, w))
            && (acts && At(s, w).Dead? ==> e.Crash?)
            && (acts && e.Select? ==> after == Selected(e.id, e.at))
            && (acts && e.Claim? ==>
                  after == if Claims(s, e, At(s, w).candidate) then Won(At(s, w).candidate) else Idle)
            && (acts && e.Load? ==>
                  after == Holding(At(s, w).claimed, s.ops[At(s, w).claimed].attempts,
                                   s.ops[At(s, w).claimed].maxAttempts))
            && (acts && e.Renew? ==> after == At(s, w))
            && (acts && (e.Succeed? || e.Fail?) ==> after == Idle)
            && (acts && e.Crash? ==> after == Dead)
  {
  }

  /* ---- What an event did to a row ---- */

  /** The event is a claim update that took the row. */
  predicate Claims(s: System, e: Event, id: OpId) {
    && e.Claim? && At(s, e.w).Selected? && At(s, e.w).candidate == id
    && id in s.ops && Claimable(s.ops[id], At(s, e.w).since)
  }

  /** The event is a completion, successful or failed, that the row accepted. */
  predicate Completes(s: System, e: Event, id: OpId) {
    && (e.Succeed? || e.Fail?) && At(s, e.w).Holding? && At(s, e.w).id == id
    && id in s.ops && OwnedBy(s.ops[id], e.w)
  }

  /** The event is a heartbeat that the row accepted. */
  predicate Renews(s: System, e: Event, id: OpId) {
    && e.Renew? && At(s, e.w).Holding? && At(s, e.w).id == id
    && id in s.ops && OwnedBy(s.ops[id], e.w)
  }

  predicate Resets(s: System, e: Event, id: OpId) {
    && e.Retry? && e.id == id && Visible(s.ops, e.tenant, id) && Retryable(s.ops[id])
  }

  /** The deadline the event recorded on the row, if it recorded one. */
  function LeaseWritten(s: System, e: Event, id: OpId): Option<real> {
    if Claims(s, e, id) then Some(At(s, e.w).since + e.leaseSeconds as real)
    else if Renews(s, e, id) then Some(e.at + e.leaseSeconds as real)
    else None
  }

  /** Every event leaves a row alone except in the four ways above; a completion or heartbeat that
      was not accepted leaves the whole table alone. */
  lemma RowFrame(s: System, e: Event, id: OpId)
    requires Enabled(s, e) && id in s.ops
    ensures id in OpsAfter(s, e)
    ensures !Claims(s, e, id) && !Completes(s, e, id) && !Renews(s, e, id) && !Resets(s, e, id) ==>
              OpsAfter(s, e)[id] == s.ops[id]
    ensures (e.Succeed? || e.Fail?) && !Completes(s, e, At(s, e.w).id) ==> OpsAfter(s, e) == s.ops
    ensures e.Renew? && !Renews(s, e, At(s, e.w).id) ==> OpsAfter(s, e) == s.ops
  {
  }

  /* ---- Invariant ---- */

  /** A worker that still owns the row it holds has the row's own attempt counters in memory. */
  predicate CopyCurrent(s: System, l: Local, w: WorkerId) {
    match l
    case Selected(id, since) => id in s.ops && since <= s.clock
    case Won(id) => id in s.ops
    case Holding(id, attempts, max) =>
      id in s.ops && s.ops[id].maxAttempts == max
      && (OwnedBy(s.ops[id], w) ==> s.ops[id].attempts == attempts)
    case _ => true
  }

  ghost predicate CopiesCurrent(s: System) {
    forall w | w in s.workers :: CopyCurrent(s, s.workers[w], w)
  }

  ghost predicate Inv(s: System) {
    TableOk(s.ops) && CopiesCurrent(s)
  }

  lemma StepKeepsRow(s: System, e: Event, id: OpId)
    requires Inv(s) && Enabled(s, e) && id in OpsAfter(s, e)
    ensures RowOk(OpsAfter(s, e)[id])
  {
    if id in s.ops {
      assert RowOk(s.ops[id]);
      RowFrame(s, e, id);
      if Completes(s, e, id) { assert CopyCurrent(s, s.workers[e.w], e.w); }
    }
  }

  lemma StepKeepsRows(s: System, e: Event)
    requires Inv(s) && Enabled(s, e)
    ensures TableOk(OpsAfter(s, e))
  {
    forall id | id in OpsAfter(s, e) ensures RowOk(OpsAfter(s, e)[id]) { StepKeepsRow(s, e, id); }
  }

  lemma StepKeepsCopy(s: System, e: Event, w: WorkerId)
    requires Inv(s) && Enabled(s, e) && w in WorkersAfter(s, e)
    ensures CopyCurrent(Apply(s, e), WorkersAfter(s, e)[w], w)
  {
    if w in s.workers {
      assert CopyCurrent(s, s.workers[w], w);
      if s.workers[w].Holding? { RowFrame(s, e, s.workers[w].id); }
    }
  }

  lemma StepKeepsCopies(s: System, e: Event)
    requires Inv(s) && Enabled(s, e)
    ensures CopiesCurrent(Apply(s, e))
  {
    forall w | w in WorkersAfter(s, e) ensures CopyCurrent(Apply(s, e), WorkersAfter(s, e)[w], w) {
      StepKeepsCopy(s, e, w);
    }
  }

  lemma {:induction false} RunKeepsInv(ss: seq<System>, es: seq<Event>, i: nat)
    requires IsRun(ss, es) && i < |ss|
    ensures Inv(ss[i])
  {
    if i > 0 {
      RunKeepsInv(ss, es, i - 1);
      assert Enabled(ss[i - 1], es[i - 1]) && ss[i] == Apply(ss[i - 1], es[i - 1]);
      StepKeepsRows(ss[i - 1], es[i - 1]);
      StepKeepsCopies(ss[i - 1], es[i - 1]);
    }
  }

  /** Clocks only move forward and rows are never removed. */
  lemma {:induction false} RunIsMonotone(ss: seq<System>, es: seq<Event>, i: nat, j: nat)
    requires IsRun(ss, es) && i <= j < |ss|
    ensures ss[i].clock <= ss[j].clock
    ensures ss[i].ops.Keys <= ss[j].ops.Keys
    decreases j
  {
    if i < j {
      RunIsMonotone(ss, es, i, j - 1);
      assert Enabled(ss[j - 1], es[j - 1]) && ss[j] == Apply(ss[j - 1], es[j - 1]);
      forall id | id in ss[j - 1].ops ensures id in ss[j].ops { RowFrame(ss[j - 1], es[j - 1], id); }
    }
  }

  /* ---- Row invariants on every run ---- */

  /** In every reachable state: a row is running exactly when a lease is set, and then it has an
      owner; it has a completion time exactly when it succeeded or failed; and it is claimable
      exactly from the time its columns name, which every row short of a final status has. */
  lemma NoRowIsStranded(ss: seq<System>, es: seq<Event>, i: nat, id: OpId, now: real)
    requires IsRun(ss, es) && i < |ss| && id in ss[i].ops
    ensures var o := ss[i].ops[id];
            && (o.status == Running <==> o.lease.Some?)
            && (o.status == Running ==> o.worker.Some?)
            && (o.completedAt.Some? <==> o.status == Succeeded || o.status == Failed)
            && (DueAt(o).None? <==> o.status == Succeeded || o.status == Failed)
            && (Claimable(o, now) <==> DueAt(o).Some? && DueAt(o).value <= now)
  {
    RunKeepsInv(ss, es, i);
    assert RowOk(ss[i].ops[id]);
    DueRowsAreClaimable(ss[i].ops[id], now);
  }

  /** Three events by which an idle worker takes a row that is due at `t`. */
  function TakeEvents(t: real, w: WorkerId, id: OpId, leaseSeconds: nat): seq<Event> {
    [Tick(t), Select(w, id, t), Claim(w, leaseSeconds)]
  }

  lemma DueRowCanBeTaken(s: System, t: real, w: WorkerId, id: OpId, leaseSeconds: nat)
    returns (s1: System, s2: System, s3: System)
    requires s.clock <= t && At(s, w).Idle? && id in s.ops && Claimable(s.ops[id], t)
    ensures var es := TakeEvents(t, w, id, leaseSeconds);
            && Enabled(s, es[0]) && s1 == Apply(s, es[0])
            && Enabled(s1, es[1]) && s2 == Apply(s1, es[1])
            && Enabled(s2, es[2]) && s3 == Apply(s2, es[2])
            && Claims(s2, es[2], id)
            && s3.ops == s.ops[id := Claimed(s.ops[id], w, t, leaseSeconds)]
  {
    s1 := Apply(s, Tick(t));
    s2 := Apply(s1, Select(w, id, t));
    s3 := Apply(s2, Claim(w, leaseSeconds));
  }

  /** Whatever has crashed before, an idle worker can take any unfinished operation after waiting
      until its due time: three more events extend the run to one in which it owns the row. */
  lemma UnfinishedWorkIsRecoverable(
    ss: seq<System>, es: seq<Event>, id: OpId, w: WorkerId, leaseSeconds: nat)
    returns (ss': seq<System>, es': seq<Event>)
    requires IsRun(ss, es) && id in ss[|es|].ops && !Terminal(ss[|es|].ops[id])
    requires At(ss[|es|], w).Idle?
    ensures IsRun(ss', es') && ss <= ss' && es <= es' && |es'| == |es| + 3
    ensures Claims(ss'[|es| + 2], es'[|es| + 2], id)
    ensures id in ss'[|es'|].ops && OwnedBy(ss'[|es'|].ops[id], w)
    ensures ss'[|es'|].ops == ss[|es|].ops[id := ss'[|es'|].ops[id]]
  {
    var n := |es|;
    var s := ss[n];
    RunKeepsInv(ss, es, n);
    assert RowOk(s.ops[id]);
    var due := DueAt(s.ops[id]).value;
    var t := if due <= s.clock then s.clock else due;
    DueRowsAreClaimable(s.ops[id], t);
    var s1, s2, s3 := DueRowCanBeTaken(s, t, w, id, leaseSeconds);
    ss', es' := ss + [s1, s2, s3], es + TakeEvents(t, w, id, leaseSeconds);
    assert ss'[n] == s && ss'[n + 1] == s1 && ss'[n + 2] == s2 && ss'[n + 3] == s3;
    forall i | 0 <= i < |es'| ensures Enabled(ss'[i], es'[i]) && ss'[i + 1] == Apply(ss'[i], es'[i]) {
      if i < n {
        assert Enabled(ss[i], es[i]);
        assert ss'[i] == ss[i] && ss'[i + 1] == ss[i + 1] && es'[i] == es[i];
      }
    }
  }

  /** Success is final: the row, its response included, is the same from then on. */
  lemma {:induction false} SuccessIsFinal(ss: seq<System>, es: seq<Event>, i: nat, j: nat, id: OpId)
    requires IsRun(ss, es) && i <= j < |ss|
    requires id in ss[i].ops && ss[i].ops[id].status == Succeeded
    ensures id in ss[j].ops && ss[j].ops[id] == ss[i].ops[id]
    decreases j
  {
    if i < j {
      SuccessIsFinal(ss, es, i, j - 1, id);
      assert Enabled(ss[j - 1], es[j - 1]) && ss[j] == Apply(ss[j - 1], es[j - 1]);
      RowFrame(ss[j - 1], es[j - 1], id);
    }
  }

  /* ---- Fencing ---- */

  /** A running row is owned by the worker of its latest claim, and has not been completed since. */
  lemma {:induction false} OwnerIsLatestClaimer(ss: seq<System>, es: seq<Event>, i: nat, id: OpId)
    returns (k: nat)
    requires IsRun(ss, es) && i < |ss| && id in ss[i].ops && ss[i].ops[id].status == Running
    ensures k < i && Claims(ss[k], es[k], id) && ss[i].ops[id].worker == Some(es[k].w)
    ensures forall j | k < j < i :: !Claims(ss[j], es[j], id) && !Completes(ss[j], es[j], id)
  {
    RunKeepsInv(ss, es, i);
    assert i > 0;
    var s, e := ss[i - 1], es[i - 1];
    assert Enabled(s, e) && ss[i] == Apply(s, e);
    if Claims(s, e, id) {
      k := i - 1;
    } else {
      assert id in s.ops && s.ops[id].status == Running && s.ops[id].worker == ss[i].ops[id].worker;
      assert !Completes(s, e, id);
      k := OwnerIsLatestClaimer(ss, es, i - 1, id);
    }
  }

  /** Fencing: an accepted completion comes from the worker of the latest claim, and no other
      completion was accepted since that claim. */
  lemma FencedCompletion(ss: seq<System>, es: seq<Event>, i: nat, id: OpId) returns (k: nat)
    requires IsRun(ss, es) && i < |es| && Completes(ss[i], es[i], id)
    ensures k < i && Claims(ss[k], es[k], id) && es[k].w == es[i].w
    ensures forall j | k < j < i :: !Claims(ss[j], es[j], id) && !Completes(ss[j], es[j], id)
    ensures id in ss[i + 1].ops && ss[i + 1].ops[id].status != Running
  {
    k := OwnerIsLatestClaimer(ss, es, i, id);
    assert ss[i + 1] == Apply(ss[i], es[i]);
  }

  /** At most one completion is accepted per claim: two accepted ones have a claim between them. */
  lemma OneCompletionPerClaim(ss: seq<System>, es: seq<Event>, i: nat, j: nat, id: OpId)
    returns (k: nat)
    requires IsRun(ss, es) && i < j < |es|
    requires Completes(ss[i], es[i], id) && Completes(ss[j], es[j], id)
    ensures i < k < j && Claims(ss[k], es[k], id)
  {
    k := FencedCompletion(ss, es, j, id);
  }

  /** A worker that lost its row to another claim can no longer change any row by completing it
      or by a heartbeat. */
  lemma StaleWorkerIsInert(ss: seq<System>, es: seq<Event>, i: nat)
    requires IsRun(ss, es) && i < |es|
    requires (es[i].Succeed? || es[i].Fail? || es[i].Renew?) && At(ss[i], es[i].w).Holding?
    requires var id := At(ss[i], es[i].w).id;
             id in ss[i].ops ==> ss[i].ops[id].worker != Some(es[i].w)
    ensures ss[i + 1].ops == ss[i].ops
  {
    assert Enabled(ss[i], es[i]) && ss[i + 1] == Apply(ss[i], es[i]);
    var w := es[i].w;
    RunKeepsInv(ss, es, i);
    assert w in ss[i].workers;
    RowFrame(ss[i], es[i], At(ss[i], w).id);
  }

  /** A running row that is not completed keeps running, under the deadline the event recorded or
      under the one it had. */
  lemma RunningRowStep(s: System, e: Event, id: OpId)
    requires Enabled(s, e) && id in s.ops && s.ops[id].status == Running && !Completes(s, e, id)
    ensures var s' := Apply(s, e);
            && id in s'.ops && s'.ops[id].status == Running
            && s'.ops[id].lease == (if LeaseWritten(s, e, id).Some? then LeaseWritten(s, e, id) else s.ops[id].lease)
            && (!Claims(s, e, id) ==> s'.ops[id].worker == s.ops[id].worker)
  {
  }

  lemma ClaimStep(s: System, e: Event, id: OpId)
    requires Enabled(s, e) && Claims(s, e, id)
    ensures var s' := Apply(s, e);
            && id in s'.ops && OwnedBy(s'.ops[id], e.w)
            && LeaseWritten(s, e, id).Some? && s'.ops[id].lease == LeaseWritten(s, e, id)
  {
  }

  /** From a claim on, as long as no completion is accepted, the row keeps running under the last
      deadline recorded for it. */
  lemma {:induction false} LeaseProvenance(ss: seq<System>, es: seq<Event>, i: nat, j: nat, id: OpId)
    returns (m: nat)
    requires IsRun(ss, es) && i < j < |ss| && Claims(ss[i], es[i], id)
    requires forall k | i < k < j :: !Completes(ss[k], es[k], id)
    ensures i <= m < j && LeaseWritten(ss[m], es[m], id).Some?
    ensures id in ss[j].ops && ss[j].ops[id].status == Running
    ensures ss[j].ops[id].lease == LeaseWritten(ss[m], es[m], id)
    ensures forall k | m < k < j :: LeaseWritten(ss[k], es[k], id).None?
    decreases j
  {
    assert Enabled(ss[j - 1], es[j - 1]) && ss[j] == Apply(ss[j - 1], es[j - 1]);
    if i == j - 1 {
      ClaimStep(ss[i], es[i], id);
      m := i;
    } else {
      m := LeaseProvenance(ss, es, i, j - 1, id);
      RunningRowStep(ss[j - 1], es[j - 1], id);
      if LeaseWritten(ss[j - 1], es[j - 1], id).Some? { m := j - 1; }
    }
  }

  /** Mutual exclusion: between two claims of one operation with no completion in between, the
      last deadline recorded for the first one had passed by the clock reading the second one began
      with. */
  lemma ClaimsAreSeparatedByExpiry(ss: seq<System>, es: seq<Event>, i: nat, j: nat, id: OpId)
    returns (m: nat)
    requires IsRun(ss, es) && i < j < |es|
    requires Claims(ss[i], es[i], id) && Claims(ss[j], es[j], id)
    requires forall k | i < k < j :: !Completes(ss[k], es[k], id)
    ensures i <= m < j
    ensures forall k | m < k < j :: LeaseWritten(ss[k], es[k], id).None?
    ensures LeaseWritten(ss[m], es[m], id).Some?
    ensures LeaseWritten(ss[m], es[m], id).value <= At(ss[j], es[j].w).since <= ss[j].clock
  {
    m := LeaseProvenance(ss, es, i, j, id);
    RunKeepsInv(ss, es, j);
    assert es[j].w in ss[j].workers;
  }

  /* ---- Attempt budget ---- */

  /** An accepted failure decides on the row's own counter, although it reads the worker's copy:
      the row waits for a retry exactly when the failure is retryable and its budget is not used
      up, and then for the backoff of the attempt that failed. */
  lemma FailureUsesTheRowsAttempts(ss: seq<System>, es: seq<Event>, i: nat, id: OpId)
    requires IsRun(ss, es) && i < |es| && es[i].Fail? && Completes(ss[i], es[i], id)
    ensures At(ss[i], es[i].w).attempts == ss[i].ops[id].attempts
    ensures id in ss[i + 1].ops
    ensures var o, o' := ss[i].ops[id], ss[i + 1].ops[id];
            && (o'.status == RetryWait <==> es[i].failure.retryable && o.attempts < o.maxAttempts)
            && (o'.status == RetryWait ==>
                  o'.nextAttempt == es[i].at + BackoffSeconds(o.attempts, es[i].jitter))
            && (o'.status != RetryWait ==> o'.status == Failed && o'.nextAttempt == o.nextAttempt)
            && o'.attempts == o.attempts
  {
    RunKeepsInv(ss, es, i);
    assert Enabled(ss[i], es[i]) && ss[i + 1] == Apply(ss[i], es[i]);
    assert es[i].w in ss[i].workers;
  }

  predicate IsFreshClaim(s: System, e: Event, id: OpId) {
    Claims(s, e, id) && s.ops[id].status != Running
  }

  /** Claims in events i, ..., j - 1: all of them, or only those not taking over an expired lease. */
  ghost function CountClaims(ss: seq<System>, es: seq<Event>, id: OpId, i: nat, j: nat, waitingOnly: bool): nat
    requires i <= j <= |es| < |ss|
  {
    if i == j then 0
    else
      CountClaims(ss, es, id, i, j - 1, waitingOnly) +
      if (if waitingOnly then IsFreshClaim(ss[j - 1], es[j - 1], id) else Claims(ss[j - 1], es[j - 1], id))
      then 1 else 0
  }

  /** The attempt counter counts every claim since the last reset, take-overs included. */
  lemma {:induction false} AttemptsCountClaims(ss: seq<System>, es: seq<Event>, id: OpId, i: nat, j: nat)
    requires IsRun(ss, es) && i <= j <= |es| && id in ss[i].ops
    requires forall k | i <= k < j :: !Resets(ss[k], es[k], id)
    ensures id in ss[j].ops
    ensures ss[j].ops[id].attempts == ss[i].ops[id].attempts + CountClaims(ss, es, id, i, j, false)
    ensures ss[j].ops[id].maxAttempts == ss[i].ops[id].maxAttempts
    ensures CountClaims(ss, es, id, i, j, true) <= CountClaims(ss, es, id, i, j, false)
    decreases j
  {
    if i < j {
      AttemptsCountClaims(ss, es, id, i, j - 1);
      assert Enabled(ss[j - 1], es[j - 1]) && ss[j] == Apply(ss[j - 1], es[j - 1]);
      RowFrame(ss[j - 1], es[j - 1], id);
    }
  }

  function Budget(o: Operation): int {
    if o.maxAttempts < 1 then 1 else o.maxAttempts
  }

  /** Between two manual resets an operation is claimed from a waiting status at most as often as
      its budget allows (a budget below one still allows the first claim). */
  lemma {:induction false} FreshClaimsWithinBudget(ss: seq<System>, es: seq<Event>, id: OpId, i: nat, j: nat)
    requires IsRun(ss, es) && i <= j <= |es| && id in ss[i].ops
    requires forall k | i <= k < j :: !Resets(ss[k], es[k], id)
    ensures CountClaims(ss, es, id, i, j, true) <= Budget(ss[i].ops[id])
    ensures CountClaims(ss, es, id, i, j, true) <= 1 || CountClaims(ss, es, id, i, j, true) <= ss[i].ops[id].maxAttempts
    decreases j
  {
    if i < j {
      FreshClaimsWithinBudget(ss, es, id, i, j - 1);
      AttemptsCountClaims(ss, es, id, i, j - 1);
      RunKeepsInv(ss, es, i);
      RunKeepsInv(ss, es, j - 1);
      assert RowOk(ss[i].ops[id]) && RowOk(ss[j - 1].ops[id]);
    }
  }

  /** The counter itself is not bounded by the budget: a claim takes it past the budget exactly when
      it takes over an expired lease of an operation whose budget is used up. */
  lemma ClaimsExceedBudgetExactlyByTakeOver(ss: seq<System>, es: seq<Event>, i: nat, id: OpId)
    requires IsRun(ss, es) && i < |es| && Claims(ss[i], es[i], id)
    ensures id in ss[i + 1].ops
    ensures var o := ss[i].ops[id];
            var budget := if o.maxAttempts > 1 then o.maxAttempts else 1;
            ss[i + 1].ops[id].attempts > budget <==> o.status == Running && o.attempts >= budget
  {
    RunKeepsInv(ss, es, i);
    assert Enabled(ss[i], es[i]) && ss[i + 1] == Apply(ss[i], es[i]);
    assert RowOk(ss[i].ops[id]);
  }

  /** Such claims do occur: here an operation with a budget of one is on its second attempt. */
  lemma AttemptsCanExceedBudget() returns (ss: seq<System>, es: seq<Event>)
    ensures IsRun(ss, es)
    ensures "op" in ss[|es|].ops
    ensures ss[|es|].ops["op"].maxAttempts == 1 && ss[|es|].ops["op"].attempts == 2
  {
    var request := Request("local_life.order.sync", None, Null, None);
    var o0 := NewOperation("tenant", "key", request, 1, 0.0);
    var e0 := Enqueue("op", "tenant", "key", request, 1, 0.0);
    var s0 := System(0.0, map[], map[]);
    var s1 := Apply(s0, e0);
    var s2, s3, s4 := DueRowCanBeTaken(s1, 0.0, "w1", "op", 60);
    var o1 := Claimed(o0, "w1", 0.0, 60);
    assert s4.ops == map["op" := o1];
    var s5, s6, s7 := DueRowCanBeTaken(s4, 60.0, "w2", "op", 60);
    es := [e0] + TakeEvents(0.0, "w1", "op", 60) + TakeEvents(60.0, "w2", "op", 60);
    ss := [s0, s1, s2, s3, s4, s5, s6, s7];
  }
}
