/** A batch retry is the fold of single retries (backend/poi_admin/operations/service.py). */
module BatchRetry {
  import opened Wrappers
  import opened Operations

  /** Single retries of the ids in turn, each refusal changing nothing. */
  function RetryEachIn(ops: Table, tenant: string, ids: seq<OpId>, now: real): Table {
    if ids == [] then ops
    else RetryIn(RetryEachIn(ops, tenant, ids[..|ids| - 1], now), tenant, ids[|ids| - 1], now)
  }

  /** First-occurrence deduplication: no repeats, the same ids, and their first occurrences keep
      their order. */
  lemma {:induction false} DedupKeepsFirstOccurrences(ids: seq<OpId>)
    ensures NoRepeats(Dedup(ids))
    ensures forall id :: id in Dedup(ids) <==> id in ids
    ensures forall i, j | 0 <= i < j < |ids| && ids[i] !in ids[..i] && ids[j] !in ids[..j] ::
              exists a, b | 0 <= a < b < |Dedup(ids)| :: Dedup(ids)[a] == ids[i] && Dedup(ids)[b] == ids[j]
  {
    if ids != [] {
      var init, last := ids[..|ids| - 1], ids[|ids| - 1];
      DedupKeepsFirstOccurrences(init);
      assert ids == init + [last];
      forall i, j | 0 <= i < j < |ids| && ids[i] !in ids[..i] && ids[j] !in ids[..j]
        ensures exists a, b | 0 <= a < b < |Dedup(ids)| :: Dedup(ids)[a] == ids[i] && Dedup(ids)[b] == ids[j]
      {
        assert ids[..i] == init[..i];
        if j < |init| {
          assert ids[..j] == init[..j];
          var a, b :| 0 <= a < b < |Dedup(init)| && Dedup(init)[a] == init[i] && Dedup(init)[b] == init[j];
          assert Dedup(ids)[a] == ids[i] && Dedup(ids)[b] == ids[j];
        } else {
          assert ids[..j] == init;
          assert init[i] in Dedup(init);
          var a :| 0 <= a < |Dedup(init)| && Dedup(init)[a] == init[i];
          assert Dedup(ids)[a] == ids[i] && Dedup(ids)[|Dedup(init)|] == ids[j];
        }
      }
    }
  }

  /** Single retries, row by row: each retryable row named at least once is reset once. */
  lemma {:induction false} RetryEachPointwise(ops: Table, tenant: string, ids: seq<OpId>, now: real)
    ensures var r := RetryEachIn(ops, tenant, ids, now);
            && r.Keys == ops.Keys
            && forall k | k in ops :: r[k] == if k in ids && RetryVerdict(ops, tenant, k).None?
                                              then Requeued(ops[k], now) else ops[k]
  {
    if ids != [] {
      RetryEachPointwise(ops, tenant, ids[..|ids| - 1], now);
      assert ids == ids[..|ids| - 1] + [ids[|ids| - 1]];
    }
  }

  lemma {:induction false} RetryManyPointwise(ops: Table, tenant: string, ids: seq<OpId>, now: real)
    ensures var r := RetryManyIn(ops, tenant, ids, now);
            && r.Keys == ops.Keys
            && forall k | k in ops :: r[k] == if k in ids && RetryVerdict(ops, tenant, k).None?
                                              then Requeued(ops[k], now).(lease := None) else ops[k]
  {
    if ids != [] {
      RetryManyPointwise(ops, tenant, ids[..|ids| - 1], now);
      assert ids == ids[..|ids| - 1] + [ids[|ids| - 1]];
    }
  }

  /** After a batch every failed or waiting row of the tenant it names is due at once, reset and without
      a lease, and every other row is as it was. */
  lemma BatchIsRecorded(ops: Table, tenant: string, ids: seq<OpId>, now: real)
    ensures var after := RetryManyIn(ops, tenant, Dedup(ids), now);
            && after.Keys == ops.Keys
            && forall id | id in ops ::
                 if id in ids && ops[id].tenant == tenant && ops[id].status in {Failed, RetryWait}
                 then IsReset(ops[id], after[id], now) && after[id].lease.None?
                 else after[id] == ops[id]
  {
    DedupKeepsFirstOccurrences(ids);
    RetryManyPointwise(ops, tenant, Dedup(ids), now);
  }

  /** The batch leaves the rows that retrying each listed id in turn leaves, repetitions included,
      exactly when none of the rows it resets has a lease set. */
  lemma BatchIsFoldOfSingles(ops: Table, tenant: string, ids: seq<OpId>, now: real)
    ensures RetryManyIn(ops, tenant, Dedup(ids), now) == RetryEachIn(ops, tenant, ids, now)
            <==> forall id | id in ids && RetryVerdict(ops, tenant, id).None? :: ops[id].lease.None?
  {
    DedupKeepsFirstOccurrences(ids);
    RetryManyPointwise(ops, tenant, Dedup(ids), now);
    RetryEachPointwise(ops, tenant, ids, now);
    var many, each := RetryManyIn(ops, tenant, Dedup(ids), now), RetryEachIn(ops, tenant, ids, now);
    forall id | many == each && id in ids && RetryVerdict(ops, tenant, id).None?
      ensures ops[id].lease.None?
    {
      assert many[id] == each[id];
    }
  }

  /** On tables that satisfy the row invariant, which every reachable table does, the condition
      always holds. */
  lemma BatchIsFoldOfSinglesWhenRowsAreOk(ops: Table, tenant: string, ids: seq<OpId>, now: real)
    requires TableOk(ops)
    ensures RetryManyIn(ops, tenant, Dedup(ids), now) == RetryEachIn(ops, tenant, ids, now)
  {
    forall id | id in ids && RetryVerdict(ops, tenant, id).None? ensures ops[id].lease.None? {
      assert RowOk(ops[id]);
    }
    BatchIsFoldOfSingles(ops, tenant, ids, now);
  }

  /** The result names the i-th id and says what a single retry of it says: after those before it, and
      just as well without them. */
  predicate IsResultOf(ops: Table, tenant: string, ids: seq<OpId>, now: real, result: BatchRetryResult, i: nat)
    requires i < |ids|
  {
    && result.id == ids[i]
    && result.error == RetryVerdict(RetryEachIn(ops, tenant, ids[..i], now), tenant, ids[i])
    && result.error == RetryVerdict(ops, tenant, ids[i])
  }

  /** The report has one entry per distinct id, in first-occurrence order, and each entry says
      what a single retry of that id at its turn says. */
  lemma {:induction false} BatchReportsEachOnce(ops: Table, tenant: string, ids: seq<OpId>, now: real)
    requires NoRepeats(ids)
    ensures var results := RetryManyResults(ops, tenant, ids, now);
            && |results| == |ids|
            && forall i | 0 <= i < |ids| :: IsResultOf(ops, tenant, ids, now, results[i], i)
  {
    if ids != [] {
      var n := |ids| - 1;
      var init, results := ids[..n], RetryManyResults(ops, tenant, ids, now);
      BatchReportsEachOnce(ops, tenant, init, now);
      assert ids[n] !in init;
      OtherIdsKeepTheirVerdict(ops, tenant, init, now, ids[n]);
      forall i | 0 <= i < |ids| ensures IsResultOf(ops, tenant, ids, now, results[i], i) {
        if i < n {
          assert IsResultOf(ops, tenant, init, now, RetryManyResults(ops, tenant, init, now)[i], i);
          assert init[..i] == ids[..i];
        }
      }
    }
  }

  /** Retrying other ids does not change what a retry of this one says. */
  lemma OtherIdsKeepTheirVerdict(ops: Table, tenant: string, ids: seq<OpId>, now: real, id: OpId)
    requires id !in ids
    ensures RetryVerdict(RetryManyIn(ops, tenant, ids, now), tenant, id) == RetryVerdict(ops, tenant, id)
    ensures RetryVerdict(RetryEachIn(ops, tenant, ids, now), tenant, id) == RetryVerdict(ops, tenant, id)
  {
    RetryManyPointwise(ops, tenant, ids, now);
    RetryEachPointwise(ops, tenant, ids, now);
    assert id in ops <==> id in RetryManyIn(ops, tenant, ids, now).Keys;
    assert id in ops <==> id in RetryEachIn(ops, tenant, ids, now).Keys;
  }
}
