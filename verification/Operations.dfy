/** Durable operation rows, their guarded updates, and the service that issues them
    (backend/poi_admin/operations/service.py, backend/poi_admin/operations/models.py).
    Every `...In` function is one UPDATE statement: its guard is evaluated on the stored row. */
module Operations {
  import opened Wrappers
  import opened Redaction
  import opened Text

  type OpId = string
  type WorkerId = string

  datatype Status = Queued | Running | Succeeded | RetryWait | Failed

  /** The part of a row that identifies the request it was enqueued for. */
  datatype Request = Request(
    command: string, connection: Option<string>, payload: Json, resource: Option<string>)

  datatype Operation = Operation(
    tenant: string,
    key: string,
    request: Request,
    status: Status,
    attempts: int,
    maxAttempts: int,
    response: Option<Json>,
    errorCode: Option<string>,
    errorMessage: Option<string>,
    worker: Option<WorkerId>,
    lease: Option<real>,
    nextAttempt: real,
    createdAt: real,
    completedAt: Option<real>)

  type Table = map<OpId, Operation>

  /* ---- Backoff ---- */

  function Pow2(n: nat): nat {
    if n == 0 then 1 else 2 * Pow2(n - 1)
  }

  const MAX_WAIT := 3600.0

  /** Seconds to wait after the given attempt; `jitter` is the random draw from [0, 1]. */
  function BackoffSeconds(attempt: int, jitter: real): real {
    var delay := Pow2(if attempt - 1 < 0 then 0 else attempt - 1) as real * 5.0 + jitter;
    if delay < MAX_WAIT then delay else MAX_WAIT
  }

  /** The waits after attempts 1, 2, ..., |jitters| together. */
  function TotalWait(jitters: seq<real>): real {
    if jitters == [] then 0.0
    else TotalWait(jitters[..|jitters| - 1]) + BackoffSeconds(|jitters|, jitters[|jitters| - 1])
  }

  predicate IsJitter(j: real) { 0.0 <= j <= 1.0 }

  lemma {:induction false} Pow2Monotone(m: nat, n: nat)
    requires m <= n
    ensures Pow2(m) <= Pow2(n)
    decreases n
  {
    if m < n { Pow2Monotone(m, n - 1); }
  }

  /** Whatever the jitter draws, a later attempt waits strictly longer until the cap is hit. */
  lemma {:induction false} BackoffGrows(a: int, b: int, ja: real, jb: real)
    requires 1 <= a < b && IsJitter(ja) && IsJitter(jb)
    ensures BackoffSeconds(a, ja) < BackoffSeconds(b, jb)
            || BackoffSeconds(a, ja) == BackoffSeconds(b, jb) == MAX_WAIT
  {
    Pow2Monotone(a, b - 1);
    Pow2Monotone(0, a - 1);
    assert Pow2(a) == 2 * Pow2(a - 1);
  }

  /** The cap is reached from the eleventh attempt on and never before. */
  lemma {:induction false} BackoffCapsAtEleven(a: int, j: real)
    requires IsJitter(j)
    ensures 0.0 < BackoffSeconds(a, j) <= 3600.0
    ensures BackoffSeconds(a, j) == 3600.0 <==> a >= 11
  {
    assert Pow2(5) == 32;
    assert Pow2(9) == 512 && Pow2(10) == 1024 by { assert Pow2(9) == 16 * Pow2(5); }
    if a >= 11 {
      Pow2Monotone(10, a - 1);
    } else {
      Pow2Monotone(if a - 1 < 0 then 0 else a - 1, 9);
      Pow2Monotone(0, if a - 1 < 0 then 0 else a - 1);
    }
  }

  /** The first wait is five seconds and the jitter, and until the cap each attempt doubles the part
      without the jitter. */
  lemma BackoffDoubles(a: int, j: real)
    requires IsJitter(j)
    ensures a <= 1 ==> BackoffSeconds(a, j) == 5.0 + j
    ensures 1 <= a < 10 ==> BackoffSeconds(a + 1, j) - j == 2.0 * (BackoffSeconds(a, j) - j)
  {
    BackoffCapsAtEleven(a, j);
    BackoffCapsAtEleven(a + 1, j);
    if 1 <= a { assert Pow2(a) == 2 * Pow2(a - 1); }
  }

  /** The first k retry waits together: at most 5 * (2^k - 1) + k seconds. */
  lemma {:induction false} TotalWaitBound(jitters: seq<real>)
    requires forall i | 0 <= i < |jitters| :: IsJitter(jitters[i])
    ensures TotalWait(jitters) <= 5.0 * (Pow2(|jitters|) - 1) as real + |jitters| as real
  {
    if |jitters| > 0 {
      var init := jitters[..|jitters| - 1];
      TotalWaitBound(init);
      assert IsJitter(jitters[|jitters| - 1]);
      assert Pow2(|jitters|) == 2 * Pow2(|jitters| - 1);
    }
  }

  /* ---- Row updates ---- */

  predicate Claimable(o: Operation, now: real) {
    || ((o.status == Queued || o.status == RetryWait) && o.nextAttempt <= now)
    || (o.status == Running && o.lease.Some? && o.lease.value <= now)
  }

  /** What a candidate query at `now` may return: a claimable row no younger one precedes. */
  predicate IsCandidate(ops: Table, id: OpId, now: real) {
    && id in ops && Claimable(ops[id], now)
    && forall k | k in ops && Claimable(ops[k], now) :: ops[id].createdAt <= ops[k].createdAt
  }

  predicate OwnedBy(o: Operation, w: WorkerId) {
    o.status == Running && o.worker == Some(w)
  }

  predicate Retryable(o: Operation) {
    o.status == Failed || o.status == RetryWait
  }

  function Claimed(o: Operation, w: WorkerId, now: real, leaseSeconds: nat): Operation {
    o.(status := Running, worker := Some(w), lease := Some(now + leaseSeconds as real),
       attempts := o.attempts + 1)
  }

  function Completed(o: Operation, response: Option<Json>, now: real): Operation {
    o.(status := Succeeded,
       response := match response case None => None case Some(v) => Some(Redact(v)),
       completedAt := Some(now), lease := None)
  }

  datatype Failure = Failure(code: string, message: string, retryable: bool)

  /** `attempts` and `maxAttempts` come from the worker's copy of the row, not from the row. */
  function FailedWith(
    o: Operation, attempts: int, maxAttempts: int, f: Failure, now: real, jitter: real): Operation
  {
    var message := if |f.message| <= 500 then f.message else f.message[..500];
    var o' := o.(errorCode := Some(f.code), errorMessage := Some(message), lease := None);
    if f.retryable && attempts < maxAttempts then
      o'.(status := RetryWait, nextAttempt := now + BackoffSeconds(attempts, jitter),
          completedAt := None)
    else
      o'.(status := Failed, completedAt := Some(now))
  }

  /** The reset of a single manual retry; it leaves the lease column alone. */
  function Requeued(o: Operation, now: real): Operation {
    o.(status := Queued, nextAttempt := now, errorCode := None, errorMessage := None,
       completedAt := None, worker := None, attempts := 0)
  }

  function ClaimIn(ops: Table, id: OpId, w: WorkerId, now: real, leaseSeconds: nat): Table {
    if id in ops && Claimable(ops[id], now)
    then ops[id := Claimed(ops[id], w, now, leaseSeconds)] else ops
  }

  function RenewIn(ops: Table, id: OpId, w: WorkerId, now: real, leaseSeconds: nat): Table {
    if id in ops && OwnedBy(ops[id], w)
    then ops[id := ops[id].(lease := Some(now + leaseSeconds as real))] else ops
  }

  function SucceedIn(ops: Table, id: OpId, w: WorkerId, response: Option<Json>, now: real): Table {
    if id in ops && OwnedBy(ops[id], w) then ops[id := Completed(ops[id], response, now)] else ops
  }

  function FailIn(
    ops: Table, id: OpId, w: WorkerId, attempts: int, maxAttempts: int,
    f: Failure, now: real, jitter: real): Table
  {
    if id in ops && OwnedBy(ops[id], w)
    then ops[id := FailedWith(ops[id], attempts, maxAttempts, f, now, jitter)] else ops
  }

  /** A tenant sees only its own rows. */
  predicate Visible(ops: Table, tenant: string, id: OpId) {
    id in ops && ops[id].tenant == tenant
  }

  function RetryIn(ops: Table, tenant: string, id: OpId, now: real): Table {
    if Visible(ops, tenant, id) && Retryable(ops[id])
    then ops[id := Requeued(ops[id], now)] else ops
  }

  datatype RetryError = NotFound | NotRetryable

  /** The error a retry of this row raises, if any. */
  function RetryVerdict(ops: Table, tenant: string, id: OpId): Option<RetryError> {
    if !Visible(ops, tenant, id) then Some(NotFound)
    else if !Retryable(ops[id]) then Some(NotRetryable)
    else None
  }

  /** The ids without repetitions, in the order of their first occurrences. */
  function Dedup(ids: seq<OpId>): seq<OpId> {
    if ids == [] then []
    else
      var init, last := ids[..|ids| - 1], ids[|ids| - 1];
      Dedup(init) + if last in init then [] else [last]
  }

  datatype BatchRetryResult = BatchRetryResult(id: OpId, error: Option<RetryError>)

  /** One pass over the ids; unlike a single retry it also clears the lease. */
  function RetryManyIn(ops: Table, tenant: string, ids: seq<OpId>, now: real): Table {
    if ids == [] then ops
    else
      var ops', id := RetryManyIn(ops, tenant, ids[..|ids| - 1], now), ids[|ids| - 1];
      if RetryVerdict(ops', tenant, id).None?
      then ops'[id := Requeued(ops'[id], now).(lease := None)] else ops'
  }

  function RetryManyResults(ops: Table, tenant: string, ids: seq<OpId>, now: real): seq<BatchRetryResult> {
    if ids == [] then []
    else
      var init, id := ids[..|ids| - 1], ids[|ids| - 1];
      RetryManyResults(ops, tenant, init, now)
      + [BatchRetryResult(id, RetryVerdict(RetryManyIn(ops, tenant, init, now), tenant, id))]
  }

  function NewOperation(
    tenant: string, key: string, request: Request, maxAttempts: int, now: real): Operation
  {
    Operation(tenant, key, request, Queued, 0, maxAttempts, None, None, None, None, None,
              now, now, None)
  }

  /* ---- Idempotent enqueue ---- */

  datatype EnqueueError = ForeignConnection | BlankKey | IdempotencyConflict

  /** The checks made before the table is read; `owned` holds the connections of the tenant. */
  function RequestError(owned: set<string>, key: string, request: Request): Option<EnqueueError> {
    if request.connection.Some? && request.connection.value !in owned then Some(ForeignConnection)
    else if Blank(key) then Some(BlankKey)
    else None
  }

  /** What is stored of a request, and compared with later ones. */
  function Safe(request: Request): Request {
    request.(payload := Redact(request.payload))
  }

  predicate IsRowFor(ops: Table, tenant: string, key: string, id: OpId) {
    id in ops && ops[id].tenant == tenant && ops[id].key == key
  }

  ghost predicate OneRowPerKey(ops: Table) {
    forall a, b | a in ops && b in ops && ops[a].tenant == ops[b].tenant && ops[a].key == ops[b].key ::
      a == b
  }

  /* ---- Row invariant ---- */

  predicate RowOk(o: Operation) {
    && o.attempts >= 0
    && (o.status == Running <==> o.lease.Some?)
    && (o.status == Running ==> o.worker.Some? && o.attempts >= 1)
    && (o.completedAt.Some? <==> o.status == Succeeded || o.status == Failed)
    && (o.status == Queued || o.status == RetryWait ==> o.attempts == 0 || o.attempts < o.maxAttempts)
  }

  ghost predicate TableOk(ops: Table) {
    forall id | id in ops :: RowOk(ops[id])
  }

  predicate Terminal(o: Operation) { o.status == Succeeded || o.status == Failed }

  /** The time read off a row from which it can be claimed. */
  function DueAt(o: Operation): Option<real> {
    if Terminal(o) then None
    else if o.status == Running then o.lease
    else Some(o.nextAttempt)
  }

  /** No row is stranded: a row is claimable exactly from its due time on, and every row that is
      not terminal has one: a waiting row its next attempt, a running row the end of its lease. */
  lemma DueRowsAreClaimable(o: Operation, now: real)
    requires RowOk(o)
    ensures DueAt(o).None? <==> Terminal(o)
    ensures Claimable(o, now) <==> DueAt(o).Some? && DueAt(o).value <= now
    ensures o.status in {Queued, RetryWait} ==> (Claimable(o, now) <==> o.nextAttempt <= now)
    ensures o.status == Running ==> (Claimable(o, now) <==> o.lease.value <= now)
    ensures o.status in {Succeeded, Failed} ==> !Claimable(o, now)
  {
  }

  /* ---- What the updates write ---- */

  /** The rows of the two tables agree, but for this one. */
  ghost predicate OnlyRowChanges(before: Table, after: Table, id: OpId) {
    after.Keys == before.Keys && forall k | k in before && k != id :: after[k] == before[k]
  }

  /** The row can be claimed from time t on, and not before. */
  ghost predicate IsDueFrom(o: Operation, t: real) {
    forall now :: Claimable(o, now) <==> t <= now
  }

  ghost predicate IsNeverDue(o: Operation) {
    forall now :: !Claimable(o, now)
  }

  /** A new row is due at once and has used no attempt. */
  lemma NewRowIsDue(tenant: string, key: string, request: Request, maxAttempts: int, now: real)
    ensures var o := NewOperation(tenant, key, request, maxAttempts, now);
            && o.tenant == tenant && o.key == key && o.request == request && o.maxAttempts == maxAttempts
            && o.status == Queued && IsDueFrom(o, now) && o.attempts == 0 && o.createdAt == now
            && o.worker.None? && o.lease.None? && o.completedAt.None?
            && o.response.None? && o.errorCode.None? && o.errorMessage.None?
  {
  }

  /** A claim gives the row to one worker until the lease ends, uses one attempt, and touches nothing
      else. */
  lemma ClaimIsRecorded(ops: Table, id: OpId, w: WorkerId, now: real, leaseSeconds: nat)
    requires id in ops
    ensures var after := ClaimIn(ops, id, w, now, leaseSeconds);
            && OnlyRowChanges(ops, after, id)
            && (!Claimable(ops[id], now) ==> after == ops)
            && (Claimable(ops[id], now) ==>
                  && (forall v :: OwnedBy(after[id], v) <==> v == w)
                  && IsDueFrom(after[id], now + leaseSeconds as real)
                  && after[id].attempts == ops[id].attempts + 1
                  && after[id] == ops[id].(status := Running, worker := Some(w), lease := after[id].lease,
                                           attempts := after[id].attempts))
  {
  }

  /** A heartbeat of the owner moves the end of the lease, and one of any other worker does nothing. */
  lemma RenewalIsRecorded(ops: Table, id: OpId, w: WorkerId, now: real, leaseSeconds: nat)
    requires id in ops
    ensures var after := RenewIn(ops, id, w, now, leaseSeconds);
            && OnlyRowChanges(ops, after, id)
            && (!(ops[id].status == Running && ops[id].worker == Some(w)) ==> after == ops)
            && (ops[id].status == Running && ops[id].worker == Some(w) ==>
                  && IsDueFrom(after[id], now + leaseSeconds as real)
                  && after[id] == ops[id].(lease := after[id].lease))
  {
  }

  /** The owner's success ends the operation for good and keeps the response without its secrets. */
  lemma SuccessIsRecorded(ops: Table, id: OpId, w: WorkerId, response: Option<Json>, now: real)
    requires id in ops
    ensures var after := SucceedIn(ops, id, w, response, now);
            && OnlyRowChanges(ops, after, id)
            && (!OwnedBy(ops[id], w) ==> after == ops)
            && (OwnedBy(ops[id], w) ==>
                  && IsNeverDue(after[id]) && after[id].status == Succeeded && after[id].completedAt == Some(now)
                  && after[id].lease.None? && (after[id].response.Some? <==> response.Some?)
                  && (response.Some? ==> after[id].response.value == Redact(response.value))
                  && after[id] == ops[id].(status := Succeeded, response := after[id].response,
                                           completedAt := Some(now), lease := None))
  {
  }

  /** The owner's failure names the error, its message cut to 500 characters. It waits for the backoff
      of its attempt if it is retryable and attempts are left, and otherwise ends the operation. */
  lemma FailureIsRecorded(
    ops: Table, id: OpId, w: WorkerId, attempts: int, maxAttempts: int, f: Failure, now: real, jitter: real)
    requires id in ops
    ensures var after := FailIn(ops, id, w, attempts, maxAttempts, f, now, jitter);
            && OnlyRowChanges(ops, after, id)
            && (!OwnedBy(ops[id], w) ==> after == ops)
            && (OwnedBy(ops[id], w) ==>
                  && after[id].errorCode == Some(f.code) && after[id].lease.None?
                  && after[id].errorMessage.Some? && after[id].errorMessage.value <= f.message
                  && |after[id].errorMessage.value| == (if |f.message| < 500 then |f.message| else 500)
                  && (if f.retryable && attempts < maxAttempts then
                        && after[id].status == RetryWait && after[id].completedAt.None?
                        && IsDueFrom(after[id], now + BackoffSeconds(attempts, jitter))
                      else
                        && after[id].status == Failed && after[id].completedAt == Some(now)
                        && IsNeverDue(after[id]) && after[id].nextAttempt == ops[id].nextAttempt)
                  && after[id] == ops[id].(status := after[id].status, nextAttempt := after[id].nextAttempt,
                                           errorCode := Some(f.code), errorMessage := after[id].errorMessage,
                                           completedAt := after[id].completedAt, lease := None))
  {
  }

  /** A reset row is due at once, whatever it waited for, with all its attempts and no trace of its
      failure; what was asked for, by whom and with which budget stays. */
  ghost predicate IsReset(before: Operation, after: Operation, now: real) {
    && after.status == Queued && after.nextAttempt == now && IsDueFrom(after, now)
    && after.attempts == 0 && after.worker.None?
    && after.errorCode.None? && after.errorMessage.None? && after.completedAt.None?
    && after.tenant == before.tenant && after.key == before.key && after.request == before.request
    && after.maxAttempts == before.maxAttempts && after.createdAt == before.createdAt
    && after.response == before.response
  }

  /** A manual retry resets exactly a failed or waiting row of the tenant. */
  lemma RetryIsRecorded(ops: Table, tenant: string, id: OpId, now: real)
    ensures var after, error := RetryIn(ops, tenant, id, now), RetryVerdict(ops, tenant, id);
            && (error == Some(NotFound) <==> !(id in ops && ops[id].tenant == tenant))
            && (error == Some(NotRetryable) <==>
                  id in ops && ops[id].tenant == tenant && ops[id].status !in {Failed, RetryWait})
            && (error.Some? ==> after == ops)
            && (error.None? ==>
                  && id in ops && OnlyRowChanges(ops, after, id)
                  && IsReset(ops[id], after[id], now) && after[id].lease == ops[id].lease)
  {
  }

  /** A request for a connection of another tenant is refused first, and then one with a blank key. */
  lemma RequestErrorIs(owned: set<string>, key: string, request: Request)
    ensures var foreign := request.connection.Some? && request.connection.value !in owned;
            && (RequestError(owned, key, request) == Some(ForeignConnection) <==> foreign)
            && (RequestError(owned, key, request) == Some(BlankKey) <==> !foreign && Blank(key))
  {
  }

  /** What is stored of a request is the request without its secrets. */
  lemma SafeRequestIs(request: Request)
    ensures var safe := Safe(request);
            && safe.command == request.command && safe.connection == request.connection
            && safe.resource == request.resource && safe.payload == Redact(request.payload)
  {
  }

  /** A set of claimable rows has an oldest one, so the candidate query finds a row whenever one
      is claimable. */
  lemma {:induction false} OldestExists(ops: Table, ids: set<OpId>) returns (oldest: OpId)
    requires ids != {} && ids <= ops.Keys
    ensures oldest in ids && forall k | k in ids :: ops[oldest].createdAt <= ops[k].createdAt
  {
    var x :| x in ids;
    if ids == {x} {
      oldest := x;
    } else {
      var rest := ids - {x};
      var y := OldestExists(ops, rest);
      oldest := if ops[x].createdAt <= ops[y].createdAt then x else y;
      forall k | k in ids ensures ops[oldest].createdAt <= ops[k].createdAt {
        assert k == x || k in rest;
      }
    }
  }

  /* ---- The service ---- */

  class OperationService {
    var operations: Table

    constructor ()
      ensures operations == map[]
    {
      operations := map[];
    }

    /** Without interference: the one row of the key if its request agrees, a conflict if it does
        not, and otherwise a new queued row. */
    method Enqueue(
      owned: set<string>, tenant: string, key: string, request: Request, maxAttempts: int,
      newId: OpId, now: real) returns (r: Result<OpId, EnqueueError>)
      requires OneRowPerKey(operations) && newId !in operations
      modifies this
      ensures OneRowPerKey(operations)
      ensures RequestError(owned, key, request).Some? ==>
                r == Err(RequestError(owned, key, request).value) && operations == old(operations)
      ensures RequestError(owned, key, request).None? ==>
                if exists id :: IsRowFor(old(operations), tenant, key, id) then
                  && operations == old(operations)
                  && forall id | IsRowFor(operations, tenant, key, id) ::
                       r == if operations[id].request == Safe(request) then Ok(id) else Err(IdempotencyConflict)
                else
                  && r == Ok(newId)
                  && operations == old(operations)[newId := NewOperation(tenant, key, Safe(request), maxAttempts, now)]
    {
      var error := RequestError(owned, key, request);
      if error.Some? { return Err(error.value); }
      var existing := set id | id in operations && IsRowFor(operations, tenant, key, id);
      if existing != {} {
        var id :| id in existing;
        assert forall other | IsRowFor(operations, tenant, key, other) :: other == id;
        if operations[id].request == Safe(request) { return Ok(id); }
        return Err(IdempotencyConflict);
      }
      assert forall id :: IsRowFor(operations, tenant, key, id) ==> id in existing;
      assert forall other | other in operations ::
          operations[other].tenant == tenant && operations[other].key == key ==>
            IsRowFor(operations, tenant, key, other);
      operations := operations[newId := NewOperation(tenant, key, Safe(request), maxAttempts, now)];
      return Ok(newId);
    }

    method SelectCandidate(now: real) returns (candidate: Option<OpId>)
      ensures candidate.Some? ==> IsCandidate(operations, candidate.value, now)
      ensures candidate.None? ==> forall k | k in operations :: !Claimable(operations[k], now)
    {
      var claimable := set k | k in operations && Claimable(operations[k], now);
      if claimable == {} {
        forall k | k in operations ensures !Claimable(operations[k], now) {
          assert k !in claimable;
        }
        return None;
      }
      ghost var oldest := OldestExists(operations, claimable);
      var id :| id in claimable && forall k | k in claimable :: operations[id].createdAt <= operations[k].createdAt;
      return Some(id);
    }

    method GuardedClaim(id: OpId, w: WorkerId, now: real, leaseSeconds: nat) returns (won: bool)
      modifies this
      ensures operations == ClaimIn(old(operations), id, w, now, leaseSeconds)
      ensures won <==> id in old(operations) && Claimable(old(operations)[id], now)
    {
      won := id in operations && Claimable(operations[id], now);
      if won {
        operations := operations[id := Claimed(operations[id], w, now, leaseSeconds)];
      }
    }

    /** Without interference between its statements, a claim takes the oldest claimable row, and
        comes back empty only when nothing is claimable. */
    method Claim(w: WorkerId, now: real, leaseSeconds: nat) returns (claimed: Option<(OpId, Operation)>)
      modifies this
      ensures claimed.None? ==>
                operations == old(operations)
                && forall k | k in operations :: !Claimable(operations[k], now)
      ensures claimed.Some? ==>
                var (id, row) := claimed.value;
                && IsCandidate(old(operations), id, now)
                && row == Claimed(old(operations)[id], w, now, leaseSeconds)
                && operations == old(operations)[id := row]
    {
      var candidate := SelectCandidate(now);
      if candidate.None? { return None; }
      var won := GuardedClaim(candidate.value, w, now, leaseSeconds);
      if !won { return None; }
      return Some((candidate.value, operations[candidate.value]));
    }

    method RenewLease(id: OpId, w: WorkerId, now: real, leaseSeconds: nat) returns (renewed: bool)
      modifies this
      ensures operations == RenewIn(old(operations), id, w, now, leaseSeconds)
      ensures renewed <==> id in old(operations) && OwnedBy(old(operations)[id], w)
    {
      renewed := id in operations && OwnedBy(operations[id], w);
      if renewed {
        operations := operations[id := operations[id].(lease := Some(now + leaseSeconds as real))];
      }
    }

    method MarkSucceeded(id: OpId, w: WorkerId, response: Option<Json>, now: real)
      modifies this
      ensures operations == SucceedIn(old(operations), id, w, response, now)
    {
      if id in operations && OwnedBy(operations[id], w) {
        operations := operations[id := Completed(operations[id], response, now)];
      }
    }

    method MarkFailed(id: OpId, copy: Operation, w: WorkerId, f: Failure, now: real, jitter: real)
      modifies this
      ensures operations == FailIn(old(operations), id, w, copy.attempts, copy.maxAttempts, f, now, jitter)
    {
      if id in operations && OwnedBy(operations[id], w) {
        operations :=
          operations[id := FailedWith(operations[id], copy.attempts, copy.maxAttempts, f, now, jitter)];
      }
    }

    /** A failed or waiting row of the tenant is due at once, with all its attempts and no trace of its
        failure; anything else is refused, and nothing changes. */
    method ManualRetry(tenant: string, id: OpId, now: real) returns (error: Option<RetryError>)
      modifies this
      ensures error == if !(id in old(operations) && old(operations)[id].tenant == tenant) then Some(NotFound)
                       else if old(operations)[id].status !in {Failed, RetryWait} then Some(NotRetryable)
                       else None
      ensures error.Some? ==> operations == old(operations)
      ensures error.None? ==> OnlyRowChanges(old(operations), operations, id)
                              && IsReset(old(operations)[id], operations[id], now)
      ensures operations == RetryIn(old(operations), tenant, id, now)
      ensures error == RetryVerdict(old(operations), tenant, id)
    {
      if !Visible(operations, tenant, id) { return Some(NotFound); }
      if !Retryable(operations[id]) { return Some(NotRetryable); }
      operations := operations[id := Requeued(operations[id], now)];
      return None;
    }

    method ManualRetryMany(tenant: string, ids: seq<OpId>, now: real)
      returns (results: seq<BatchRetryResult>)
      modifies this
      ensures operations == RetryManyIn(old(operations), tenant, Dedup(ids), now)
      ensures results == RetryManyResults(old(operations), tenant, Dedup(ids), now)
    {
      var unique := Dedup(ids);
      results := [];
      for i := 0 to |unique|
        invariant operations == RetryManyIn(old(operations), tenant, unique[..i], now)
        invariant results == RetryManyResults(old(operations), tenant, unique[..i], now)
      {
        assert unique[..i + 1][..i] == unique[..i];
        var id := unique[i];
        if !Visible(operations, tenant, id) {
          results := results + [BatchRetryResult(id, Some(NotFound))];
        } else if !Retryable(operations[id]) {
          results := results + [BatchRetryResult(id, Some(NotRetryable))];
        } else {
          operations := operations[id := Requeued(operations[id], now).(lease := None)];
          results := results + [BatchRetryResult(id, None)];
        }
      }
      assert unique[..|unique|] == unique;
    }
  }
}
