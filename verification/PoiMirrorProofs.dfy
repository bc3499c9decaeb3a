/** What a POI sync achieves: the mirror equals the remote list
    (backend/poi_admin/stores/service.py). */
module PoiMirrorProofs {
  import opened Wrappers
  import opened PoiSync

  ghost predicate IdsUnique(rows: Mirror) {
    forall i, j | 0 <= i < j < |rows| :: rows[i].external != rows[j].external
  }

  predicate HasExternal(rows: Mirror, id: string) {
    exists i | 0 <= i < |rows| :: rows[i].external == id
  }

  /** The last record with this id among the first n. */
  function LastOf(remote: seq<RemotePoi>, n: nat, id: string): Option<RemotePoi>
    requires n <= |remote|
  {
    if n == 0 then None
    else if remote[n - 1].id == id then Some(remote[n - 1])
    else LastOf(remote, n - 1, id)
  }

  lemma {:induction false} LastOfIsListed(remote: seq<RemotePoi>, n: nat, id: string)
    requires n <= |remote|
    ensures LastOf(remote, n, id).Some? <==> exists k | 0 <= k < n :: remote[k].id == id
    ensures LastOf(remote, n, id).Some? ==> LastOf(remote, n, id).value.id == id
  {
    if n > 0 { LastOfIsListed(remote, n - 1, id); }
  }

  /** Row i after n records, starting from `rows`: written last by the last record with its id, or
      as it was; only pending rows ever change their id. */
  predicate RowAbsorbed(rows: Mirror, remote: seq<RemotePoi>, n: nat, now: real, r: Mirror, i: nat)
    requires n <= |remote| && |rows| <= |r| && i < |r|
  {
    && match LastOf(remote, n, r[i].external) {
         case Some(last) => r[i] == Written(last, now)
         case None => i < |rows| && r[i] == rows[i]
       }
    && (i < |rows| && r[i].external != rows[i].external ==> IsPending(rows[i].external))
  }

  /** Two records a pending row cannot tell apart. */
  predicate SameNormal(a: RemotePoi, b: RemotePoi) {
    Normal(a.name) == Normal(b.name) && Normal(a.address) == Normal(b.address)
  }

  /** No later record among the first n has the id of record m, or its normalised name and address. */
  predicate IsUndisputed(remote: seq<RemotePoi>, n: nat, m: nat)
    requires m < n <= |remote|
  {
    forall j | m < j < n :: remote[j].id != remote[m].id && !SameNormal(remote[m], remote[j])
  }

  /** The id is safe among the first n records: it does not look like a pending one, or its last
      record is not followed by one that could adopt its row. */
  predicate IsSafe(remote: seq<RemotePoi>, n: nat, id: string)
    requires n <= |remote|
  {
    !IsPending(id) || exists m: nat | m < n :: remote[m].id == id && IsUndisputed(remote, n, m)
  }

  ghost predicate Absorbed(rows: Mirror, remote: seq<RemotePoi>, n: nat, now: real, r: Mirror)
    requires n <= |remote|
  {
    && |rows| <= |r| && IdsUnique(r)
    && (forall i: nat | i < |r| :: RowAbsorbed(rows, remote, n, now, r, i))
    && (forall k | 0 <= k < n && IsSafe(remote, n, remote[k].id) :: HasExternal(r, remote[k].id))
  }

  /** The last record of an id is the one after which it does not occur. */
  lemma {:induction false} LastOfIs(remote: seq<RemotePoi>, n: nat, m: nat)
    requires m < n <= |remote| && forall j | m < j < n :: remote[j].id != remote[m].id
    ensures LastOf(remote, n, remote[m].id) == Some(remote[m])
  {
    if m < n - 1 { LastOfIs(remote, n - 1, m); }
  }

  lemma SafetyShrinks(remote: seq<RemotePoi>, n: nat, id: string)
    requires n < |remote| && id != remote[n].id && IsSafe(remote, n + 1, id)
    ensures IsSafe(remote, n, id)
    ensures IsPending(id) ==> LastOf(remote, n, id).Some? && !SameNormal(LastOf(remote, n, id).value, remote[n])
  {
    if IsPending(id) {
      var l := n + 1;
      var m: nat :| m < l && remote[m].id == id && IsUndisputed(remote, l, m);
      assert IsUndisputed(remote, n, m);
      LastOfIs(remote, n, m);
    }
  }

  /** Writing one record: its slot gets it, every other row stays, and no other row has its id. */
  lemma WriteStep(before: Mirror, existing: nat, rec: RemotePoi, now: real)
    requires existing <= |before| && IdsUnique(before)
    ensures var slot, after := Slot(before, existing, rec), AbsorbedOne(before, existing, rec, now);
            && slot <= |before| && |before| <= |after| && slot < |after|
            && IdsUnique(after)
            && after[slot] == Written(rec, now)
            && (forall i | 0 <= i < |after| && i != slot :: i < |before| && after[i] == before[i])
            && (slot < |before| ==>
                  before[slot].external == rec.id || (slot < existing && Matches(before[slot], rec)))
  {
    SlotIsInRange(before, existing, rec);
    FindIsFound(before, rec.id);
    PendingMatchesAre(before, existing, rec);
    var pending := PendingMatches(before, existing, rec);
    if |pending| == 1 { assert pending[0] in pending; }
  }

  /** Record n does not take the row of an id that is still safe after it. */
  lemma SafeIdKeepsItsRow(
    rows: Mirror, existing: nat, remote: seq<RemotePoi>, n: nat, now: real, before: Mirror, i: nat)
    requires n < |remote| && existing <= |rows| <= |before| && IdsUnique(before) && i < |before|
    requires RowAbsorbed(rows, remote, n, now, before, i)
    requires before[i].external != remote[n].id && IsSafe(remote, n + 1, before[i].external)
    ensures HasExternal(AbsorbedOne(before, existing, remote[n], now), before[i].external)
  {
    WriteStep(before, existing, remote[n], now);
    SafetyShrinks(remote, n, before[i].external);
    var slot, after := Slot(before, existing, remote[n]), AbsorbedOne(before, existing, remote[n], now);
    assert i != slot;
    assert after[i].external == before[i].external;
  }

  lemma AbsorbRow(
    rows: Mirror, existing: nat, remote: seq<RemotePoi>, n: nat, now: real, before: Mirror, i: nat)
    requires n < |remote| && existing <= |rows| && Absorbed(rows, remote, n, now, before)
    requires i < |AbsorbedOne(before, existing, remote[n], now)|
    ensures |rows| <= |AbsorbedOne(before, existing, remote[n], now)|
    ensures RowAbsorbed(rows, remote, n + 1, now, AbsorbedOne(before, existing, remote[n], now), i)
  {
    WriteStep(before, existing, remote[n], now);
    var slot, after := Slot(before, existing, remote[n]), AbsorbedOne(before, existing, remote[n], now);
    if i < |before| { assert RowAbsorbed(rows, remote, n, now, before, i); }
    if i != slot { assert after[i].external != after[slot].external; }
  }

  lemma AbsorbStep(
    rows: Mirror, existing: nat, remote: seq<RemotePoi>, n: nat, now: real, before: Mirror, m: nat, after: Mirror)
    requires n < m == n + 1 <= |remote| && existing <= |rows| && Absorbed(rows, remote, n, now, before)
    requires after == AbsorbedOne(before, existing, remote[n], now)
    ensures Absorbed(rows, remote, m, now, after)
  {
    WriteStep(before, existing, remote[n], now);
    var slot := Slot(before, existing, remote[n]);
    forall i: nat | i < |after| ensures RowAbsorbed(rows, remote, m, now, after, i) {
      AbsorbRow(rows, existing, remote, n, now, before, i);
    }
    forall k | 0 <= k < m && IsSafe(remote, m, remote[k].id) ensures HasExternal(after, remote[k].id) {
      if remote[k].id == remote[n].id {
        assert after[slot].external == remote[k].id;
      } else {
        SafetyShrinks(remote, n, remote[k].id);
        assert HasExternal(before, remote[k].id);
        var i: nat :| i < |before| && before[i].external == remote[k].id;
        assert RowAbsorbed(rows, remote, n, now, before, i);
        SafeIdKeepsItsRow(rows, existing, remote, n, now, before, i);
      }
    }
  }

  lemma NothingAbsorbed(rows: Mirror, remote: seq<RemotePoi>, now: real)
    requires IdsUnique(rows)
    ensures Absorbed(rows, remote, 0, now, rows)
  {
  }

  lemma {:induction false} AbsorbedIs(
    rows: Mirror, existing: nat, remote: seq<RemotePoi>, n: nat, now: real, r: Mirror)
    requires n <= |remote| && existing <= |rows| && IdsUnique(rows) && r == Absorb(rows, existing, remote, n, now)
    ensures Absorbed(rows, remote, n, now, r)
  {
    if n == 0 {
      NothingAbsorbed(rows, remote, now);
    } else {
      var before := Absorb(rows, existing, remote, n - 1, now);
      assert r == AbsorbedOne(before, existing, remote[n - 1], now);
      AbsorbedIs(rows, existing, remote, n - 1, now, before);
      AbsorbStep(rows, existing, remote, n - 1, now, before, n, r);
    }
  }

  lemma AbsorbAll(rows: Mirror, existing: nat, remote: seq<RemotePoi>, n: nat, now: real)
    requires n <= |remote| && existing <= |rows| && IdsUnique(rows)
    ensures Absorbed(rows, remote, n, now, Absorb(rows, existing, remote, n, now))
  {
    AbsorbedIs(rows, existing, remote, n, now, Absorb(rows, existing, remote, n, now));
  }

  lemma IdsStayUnique(rows: Mirror, existing: nat, remote: seq<RemotePoi>, n: nat, now: real)
    requires n <= |remote| && existing <= |rows| && IdsUnique(rows)
    ensures IdsUnique(Absorb(rows, existing, remote, n, now))
  {
    AbsorbAll(rows, existing, remote, n, now);
  }

  /** The sync makes the mirror equal to the remote list. Local ids are kept and remote ids stay
      unique; a safe remote id has a row, and any that has one has the contents of its last record;
      every other row is marked deleted, unless its id is a pending or mapping one, and then it is
      untouched; and only pending rows get another remote id. (For how safety decides which ids have
      a row, see EveryIdHasARowExactlyWhen.) */
  lemma MirrorEqualsRemoteList(rows: Mirror, remote: seq<RemotePoi>, now: real)
    requires IdsUnique(rows)
    ensures var r := Sync(rows, remote, now);
            && |rows| <= |r| && IdsUnique(r)
            && (forall k | 0 <= k < |remote| && IsSafe(remote, |remote|, remote[k].id) :: HasExternal(r, remote[k].id))
            && (forall i | 0 <= i < |r| && HasId(remote, r[i].external) ::
                  LastOf(remote, |remote|, r[i].external).Some?
                  && Holds(r[i], LastOf(remote, |remote|, r[i].external).value, now))
            && (forall i | 0 <= i < |r| && !HasId(remote, r[i].external) ::
                  i < |rows| && r[i] == if "audit:" <= rows[i].external || "map:" <= rows[i].external then rows[i]
                                        else rows[i].(status := "deleted", syncedAt := now))
            && (forall i | 0 <= i < |rows| && r[i].external != rows[i].external ::
                  "audit:" <= rows[i].external && HasId(remote, r[i].external))
  {
    var stale := MarkStale(rows, remote, now);
    assert IdsUnique(stale);
    AbsorbAll(stale, |rows|, remote, |remote|, now);
    var r := Sync(rows, remote, now);
    forall i: nat | i < |r|
      ensures HasId(remote, r[i].external) <==> LastOf(remote, |remote|, r[i].external).Some?
      ensures RowAbsorbed(stale, remote, |remote|, now, r, i)
    {
      LastOfIsListed(remote, |remote|, r[i].external);
    }
  }

  /* ---- Which ids keep their rows ---- */

  /** Every listed id has a row. */
  predicate AllListed(r: Mirror, remote: seq<RemotePoi>) {
    forall k | 0 <= k < |remote| :: HasExternal(r, remote[k].id)
  }

  predicate NoIdTwice(remote: seq<RemotePoi>) {
    forall i, j | 0 <= i < j < |remote| :: remote[i].id != remote[j].id
  }

  /** A list without repeated ids stays one by adding a record with a new id, and only so. */
  lemma NoIdTwiceGrows(remote: seq<RemotePoi>, r: RemotePoi)
    ensures NoIdTwice([])
    ensures NoIdTwice(remote + [r]) <==> NoIdTwice(remote) && !HasId(remote, r.id)
  {
    var longer := remote + [r];
    assert longer[..|remote|] == remote && longer[|remote|] == r;
    if NoIdTwice(longer) {
      forall i, j | 0 <= i < j < |remote| ensures remote[i].id != remote[j].id {
        assert longer[i] == remote[i] && longer[j] == remote[j];
      }
      forall i | 0 <= i < |remote| ensures remote[i].id != r.id { assert longer[i] == remote[i]; }
    }
  }

  /** A record whose id looks like a pending one is followed by one with the same normalised name and
      address. */
  predicate HasLookalike(remote: seq<RemotePoi>) {
    exists k, j | 0 <= k < j < |remote| :: IsPending(remote[k].id) && SameNormal(remote[k], remote[j])
  }

  /** A name no record among the first k has: it is longer than theirs. */
  function Length(remote: seq<RemotePoi>, k: nat): nat
    requires k <= |remote|
  {
    if k == 0 then 0
    else
      var n := |Normal(remote[k - 1].name)|;
      if n < Length(remote, k - 1) then Length(remote, k - 1) else n + 1
  }

  function StrangeName(n: nat): (s: string)
    ensures |Normal(s)| == n
  {
    seq(n, _ => 'x')
  }

  lemma {:induction false} LengthIsAbove(remote: seq<RemotePoi>, k: nat, i: nat)
    requires i < k <= |remote|
    ensures |Normal(remote[i].name)| < Length(remote, k)
  {
    if i < k - 1 { LengthIsAbove(remote, k - 1, i); }
  }

  /** The mirror in which record k of the list has a row, under a name no earlier record has. */
  function OneRow(remote: seq<RemotePoi>, k: nat, now: real): Mirror
    requires k < |remote|
  {
    [Poi(remote[k].id, StrangeName(Length(remote, k)), "", "", "", now)]
  }

  lemma FirstRowStays(before: Mirror, rec: RemotePoi, now: real)
    requires |before| > 0 && IdsUnique(before) && before[0].external != rec.id && !Matches(before[0], rec)
    ensures |AbsorbedOne(before, 1, rec, now)| > 0 && AbsorbedOne(before, 1, rec, now)[0] == before[0]
  {
    WriteStep(before, 1, rec, now);
  }

  lemma FirstRowIsWritten(before: Mirror, rec: RemotePoi, now: real)
    requires |before| > 0 && IdsUnique(before) && before[0].external == rec.id
    ensures AbsorbedOne(before, 1, rec, now)[0] == Written(rec, now)
  {
    FindIsFound(before, rec.id);
    assert Slot(before, 1, rec) == 0;
  }

  /** What the first row is after i records, when record k is the one with its id. */
  function FirstRow(remote: seq<RemotePoi>, k: nat, i: nat, now: real): Poi
    requires k < |remote|
  {
    if i <= k then OneRow(remote, k, now)[0] else Written(remote[k], now)
  }

  lemma FirstRowIgnores(remote: seq<RemotePoi>, k: nat, i: nat, now: real)
    requires k < |remote| && i < |remote| && NoIdTwice(remote) && i != k
    requires k < i ==> !SameNormal(remote[k], remote[i])
    ensures FirstRow(remote, k, i, now).external != remote[i].id && !Matches(FirstRow(remote, k, i, now), remote[i])
    ensures FirstRow(remote, k, i + 1, now) == FirstRow(remote, k, i, now)
  {
    if i < k { LengthIsAbove(remote, k, i); }
  }

  /** Until record k comes up the row stays as it is; from then on until a record with its normalised
      name and address, it holds record k. */
  lemma {:induction false} FirstRowIs(remote: seq<RemotePoi>, k: nat, i: nat, now: real)
    requires k < |remote| && i <= |remote| && NoIdTwice(remote)
    requires forall j | k < j < i :: !SameNormal(remote[k], remote[j])
    ensures Absorb(OneRow(remote, k, now), 1, remote, i, now)[0] == FirstRow(remote, k, i, now)
  {
    if i > 0 {
      FirstRowIs(remote, k, i - 1, now);
      IdsStayUnique(OneRow(remote, k, now), 1, remote, i - 1, now);
      var before := Absorb(OneRow(remote, k, now), 1, remote, i - 1, now);
      if i - 1 == k {
        FirstRowIsWritten(before, remote[k], now);
      } else {
        FirstRowIgnores(remote, k, i - 1, now);
        FirstRowStays(before, remote[i - 1], now);
      }
    }
  }

  lemma AbsentIdsStayAbsent(before: Mirror, existing: nat, rec: RemotePoi, now: real, id: string)
    requires existing <= |before| && IdsUnique(before) && !HasExternal(before, id) && rec.id != id
    ensures !HasExternal(AbsorbedOne(before, existing, rec, now), id)
  {
    WriteStep(before, existing, rec, now);
    var after, slot := AbsorbedOne(before, existing, rec, now), Slot(before, existing, rec);
    forall i | 0 <= i < |after| ensures after[i].external != id {
      if i != slot { assert after[i] == before[i]; }
    }
  }

  /** Record j adopts the row. */
  lemma RecordTakesTheRow(remote: seq<RemotePoi>, k: nat, j: nat, now: real)
    requires k < j < |remote| && NoIdTwice(remote) && IsPending(remote[k].id) && IsFirstLookalike(remote, k, j)
    ensures !HasExternal(Absorb(OneRow(remote, k, now), 1, remote, j + 1, now), remote[k].id)
  {
    var rows := OneRow(remote, k, now);
    var before, after := Absorb(rows, 1, remote, j, now), Absorb(rows, 1, remote, j + 1, now);
    FirstRowIs(remote, k, j, now);
    AbsorbAll(rows, 1, remote, j, now);
    forall i: nat | i < |before| ensures before[i].external != remote[j].id {
      assert RowAbsorbed(rows, remote, j, now, before, i);
      LastOfIsListed(remote, j, before[i].external);
    }
    FindIsFound(before, remote[j].id);
    assert Matches(before[0], remote[j]);
    OneMatch(before, 1, remote[j], 0);
    assert Slot(before, 1, remote[j]) == 0;
    WriteStep(before, 1, remote[j], now);
    forall i | 0 <= i < |after| ensures after[i].external != remote[k].id {
      if i > 0 { assert after[i] == before[i] && before[i].external != before[0].external; }
    }
  }

  lemma {:induction false} AbsentUntilListed(
    rows: Mirror, existing: nat, remote: seq<RemotePoi>, m: nat, n: nat, now: real, id: string)
    requires existing <= |rows| && IdsUnique(rows) && m <= n <= |remote|
    requires forall i | m <= i < n :: remote[i].id != id
    requires !HasExternal(Absorb(rows, existing, remote, m, now), id)
    ensures !HasExternal(Absorb(rows, existing, remote, n, now), id)
    decreases n
  {
    if m < n {
      AbsentUntilListed(rows, existing, remote, m, n - 1, now, id);
      IdsStayUnique(rows, existing, remote, n - 1, now);
      AbsentIdsStayAbsent(Absorb(rows, existing, remote, n - 1, now), existing, remote[n - 1], now, id);
    }
  }

  /** Record j is the first one after record k with its normalised name and address. */
  predicate IsFirstLookalike(remote: seq<RemotePoi>, k: nat, j: nat)
    requires k < j < |remote|
  {
    SameNormal(remote[k], remote[j]) && forall i | k < i < j :: !SameNormal(remote[k], remote[i])
  }

  lemma {:induction false} FirstLookalike(remote: seq<RemotePoi>, k: nat, j: nat) returns (first: nat)
    requires k < j < |remote| && SameNormal(remote[k], remote[j])
    ensures k < first < |remote| && IsFirstLookalike(remote, k, first)
    decreases j
  {
    if i: nat :| k < i < j && SameNormal(remote[k], remote[i]) {
      first := FirstLookalike(remote, k, i);
    } else {
      first := j;
    }
  }

  lemma TheRowIsGone(remote: seq<RemotePoi>, k: nat, j: nat, now: real)
    requires k < j < |remote| && NoIdTwice(remote) && IsPending(remote[k].id) && IsFirstLookalike(remote, k, j)
    ensures !HasExternal(Absorb(OneRow(remote, k, now), 1, remote, |remote|, now), remote[k].id)
  {
    RecordTakesTheRow(remote, k, j, now);
    AbsentUntilListed(OneRow(remote, k, now), 1, remote, j + 1, |remote|, now, remote[k].id);
  }

  lemma OneRowIsNotStale(remote: seq<RemotePoi>, k: nat, now: real)
    requires k < |remote|
    ensures Sync(OneRow(remote, k, now), remote, now) == Absorb(OneRow(remote, k, now), 1, remote, |remote|, now)
  {
    var rows := OneRow(remote, k, now);
    assert HasId(remote, rows[0].external);
    assert MarkStale(rows, remote, now) == rows;
  }

  lemma LookalikesVanish(remote: seq<RemotePoi>, now: real) returns (rows: Mirror)
    requires NoIdTwice(remote) && HasLookalike(remote)
    ensures IdsUnique(rows) && !AllListed(Sync(rows, remote, now), remote)
  {
    var k: nat, l: nat :| k < l < |remote| && IsPending(remote[k].id) && SameNormal(remote[k], remote[l]);
    var j := FirstLookalike(remote, k, l);
    rows := OneRow(remote, k, now);
    TheRowIsGone(remote, k, j, now);
    OneRowIsNotStale(remote, k, now);
  }

  /** Synchronizing a list without repeated ids gives every listed id its row, whatever the mirror
      holds, if and only if no record whose id looks like a pending one is followed by a record with
      the same normalised name and address: that record may adopt the row. */
  lemma EveryIdHasARowExactlyWhen(remote: seq<RemotePoi>, now: real)
    requires NoIdTwice(remote)
    ensures (forall rows | IdsUnique(rows) :: AllListed(Sync(rows, remote, now), remote)) <==> !HasLookalike(remote)
  {
    if HasLookalike(remote) {
      var rows := LookalikesVanish(remote, now);
    } else {
      forall rows | IdsUnique(rows) ensures AllListed(Sync(rows, remote, now), remote) {
        MirrorEqualsRemoteList(rows, remote, now);
        forall k: nat | k < |remote| ensures IsSafe(remote, |remote|, remote[k].id) {
          if IsPending(remote[k].id) { assert IsUndisputed(remote, |remote|, k); }
        }
      }
    }
  }

  /* ---- Adoption of pending rows ---- */

  /** No record after record k has the normalised name and address that some record with k's id had
      before it. */
  predicate IsNotTakenOver(remote: seq<RemotePoi>, k: nat)
    requires k < |remote|
  {
    forall m, j | k <= m < j < |remote| && remote[m].id == remote[k].id && remote[j].id != remote[k].id ::
      !SameNormal(remote[m], remote[j])
  }

  /** A pending row that is the only one record k matches; no earlier record matches it or has its id
      or the record's; and the record's id is new, and no pending one unless no later record could
      take its row. */
  ghost predicate IsOnlyCandidate(rows: Mirror, remote: seq<RemotePoi>, p: nat, k: nat)
    requires p < |rows| && k < |remote|
  {
    && Matches(rows[p], remote[k])
    && (forall i | 0 <= i < |rows| && Matches(rows[i], remote[k]) :: i == p)
    && (forall j | 0 <= j < k :: Passes(rows[p], remote[k], remote[j]))
    && !HasExternal(rows, remote[k].id)
    && (IsPending(remote[k].id) ==> IsNotTakenOver(remote, k))
  }

  /** The only row of a mirror is such a candidate of the only record of a list, if it matches and the
      record's id is new. */
  lemma SingleMatchIsOnlyCandidate(row: Poi, rec: RemotePoi)
    requires Matches(row, rec) && rec.id != row.external
    ensures IsOnlyCandidate([row], [rec], 0, 0)
  {
  }

  predicate Passes(row: Poi, rec: RemotePoi, earlier: RemotePoi) {
    !Matches(row, earlier) && earlier.id != rec.id && earlier.id != row.external
  }

  /** Ids are unique; the candidate is as it was, and still the only row that was there and matches. */
  ghost predicate Waiting(rows: Mirror, p: nat, rec: RemotePoi, r: Mirror)
    requires p < |rows|
  {
    && |rows| <= |r| && IdsUnique(r) && r[p] == rows[p]
    && forall i | 0 <= i < |rows| && Matches(r[i], rec) :: i == p
  }

  lemma WaitStep(rows: Mirror, p: nat, rec: RemotePoi, before: Mirror, earlier: RemotePoi, now: real)
    requires p < |rows| && Waiting(rows, p, rec, before)
    requires Matches(rows[p], rec) && Passes(rows[p], rec, earlier)
    ensures Waiting(rows, p, rec, AbsorbedOne(before, |rows|, earlier, now))
  {
    WriteStep(before, |rows|, earlier, now);
    var slot, after := Slot(before, |rows|, earlier), AbsorbedOne(before, |rows|, earlier, now);
    assert slot != p;
    forall i | 0 <= i < |rows| && Matches(after[i], rec) ensures i == p {
      if i != slot { assert after[i] == before[i]; }
    }
  }

  /** Until its record comes up the candidate waits. */
  lemma {:induction false} CandidateWaits(rows: Mirror, remote: seq<RemotePoi>, p: nat, k: nat, n: nat, now: real)
    requires p < |rows| && n <= k < |remote| && IdsUnique(rows) && IsOnlyCandidate(rows, remote, p, k)
    ensures Waiting(rows, p, remote[k], Absorb(rows, |rows|, remote, n, now))
  {
    if n > 0 {
      CandidateWaits(rows, remote, p, k, n - 1, now);
      assert Passes(rows[p], remote[k], remote[n - 1]);
      WaitStep(rows, p, remote[k], Absorb(rows, |rows|, remote, n - 1, now), remote[n - 1], now);
    }
  }

  lemma {:induction false} OneMatch(rows: Mirror, existing: nat, r: RemotePoi, p: nat)
    requires existing <= |rows|
    requires forall i | 0 <= i < existing :: Matches(rows[i], r) <==> i == p
    ensures PendingMatches(rows, existing, r) == if p < existing then [p] else []
  {
    if existing > 0 { OneMatch(rows, existing - 1, r, p); }
  }

  /** A pending row that is the only match of a new remote record, and that no earlier record matches
      or names, is adopted: after the sync the same local id carries the remote id. */
  lemma UniqueMatchIsAdopted(rows: Mirror, remote: seq<RemotePoi>, p: nat, k: nat, now: real)
    requires IdsUnique(rows) && p < |rows| && k < |remote| && IsOnlyCandidate(rows, remote, p, k)
    ensures p < |Sync(rows, remote, now)| && Sync(rows, remote, now)[p].external == remote[k].id
    ensures |Synchronized(MarkStale(rows, remote, now), |rows|, remote, k + 1, now)| == k + 1
    ensures Synchronized(MarkStale(rows, remote, now), |rows|, remote, k + 1, now)[k] == p
  {
    var stale := MarkStale(rows, remote, now);
    assert forall i | 0 <= i < |rows| && IsPending(rows[i].external) :: stale[i] == rows[i];
    assert forall i | 0 <= i < |rows| ::
        stale[i].external == rows[i].external
        && stale[i].name == rows[i].name && stale[i].address == rows[i].address;
    assert IdsUnique(stale);
    assert IsOnlyCandidate(stale, remote, p, k) by {
      assert forall i | 0 <= i < |rows| && Matches(stale[i], remote[k]) :: Matches(rows[i], remote[k]);
      assert forall j | 0 <= j < k :: Passes(rows[p], remote[k], remote[j]);
    }
    CandidateWaits(stale, remote, p, k, k, now);
    AbsorbAll(stale, |rows|, remote, k, now);
    var before := Absorb(stale, |rows|, remote, k, now);
    assert Find(before, remote[k].id).None? by { NewIdIsAbsent(stale, remote, p, k, now, before); }
    OneMatch(before, |rows|, remote[k], p);
    assert Slot(before, |rows|, remote[k]) == p;
    SynchronizedLength(stale, |rows|, remote, k, now);
    AdoptedIdStays(stale, remote, p, k, |remote|, now, Sync(rows, remote, now));
  }

  lemma {:induction false} SynchronizedLength(rows: Mirror, existing: nat, remote: seq<RemotePoi>, n: nat, now: real)
    requires existing <= |rows| && n <= |remote|
    ensures |Synchronized(rows, existing, remote, n, now)| == n
  {
    if n > 0 { SynchronizedLength(rows, existing, remote, n - 1, now); }
  }

  lemma NewIdIsAbsent(rows: Mirror, remote: seq<RemotePoi>, p: nat, k: nat, now: real, before: Mirror)
    requires p < |rows| && k < |remote| && IsOnlyCandidate(rows, remote, p, k)
    requires Absorbed(rows, remote, k, now, before)
    ensures Find(before, remote[k].id).None?
  {
    FindIsFound(before, remote[k].id);
    forall i: nat {:trigger before[i]} | i < |before| ensures before[i].external != remote[k].id {
      assert RowAbsorbed(rows, remote, k, now, before, i);
      LastOfIsListed(remote, k, before[i].external);
    }
  }

  /** Ids are unique, and row p holds what some record with the id of record k wrote. */
  ghost predicate IsAdopted(r: Mirror, remote: seq<RemotePoi>, p: nat, k: nat, n: nat, now: real)
    requires k < n <= |remote|
  {
    && p < |r| && IdsUnique(r)
    && exists m | k <= m < n :: remote[m].id == remote[k].id && r[p] == Written(remote[m], now)
  }

  lemma AdoptedStep(
    before: Mirror, existing: nat, remote: seq<RemotePoi>, p: nat, k: nat, n: nat, now: real, m: nat, after: Mirror)
    requires existing <= |before| && k < n < m == n + 1 <= |remote|
    requires IsPending(remote[k].id) ==> IsNotTakenOver(remote, k)
    requires IsAdopted(before, remote, p, k, n, now) && after == AbsorbedOne(before, existing, remote[n], now)
    ensures IsAdopted(after, remote, p, k, m, now)
  {
    WriteStep(before, existing, remote[n], now);
    var l: nat :| k <= l < n && remote[l].id == remote[k].id && before[p] == Written(remote[l], now);
    if remote[n].id == remote[k].id {
      FindIsFound(before, remote[n].id);
      assert Slot(before, existing, remote[n]) == p;
    } else {
      assert Slot(before, existing, remote[n]) != p;
    }
  }

  lemma AdoptedFirst(
    rows: Mirror, remote: seq<RemotePoi>, p: nat, k: nat, now: real, before: Mirror, m: nat, after: Mirror)
    requires k < m == k + 1 <= |remote| && |rows| <= |before| && IdsUnique(before)
    requires Slot(before, |rows|, remote[k]) == p && after == AbsorbedOne(before, |rows|, remote[k], now)
    ensures IsAdopted(after, remote, p, k, m, now)
  {
    WriteStep(before, |rows|, remote[k], now);
  }

  lemma {:induction false} AdoptedIdStays(
    rows: Mirror, remote: seq<RemotePoi>, p: nat, k: nat, n: nat, now: real, r: Mirror)
    requires p < |rows| && k < n <= |remote| && IdsUnique(rows)
    requires IsPending(remote[k].id) ==> IsNotTakenOver(remote, k)
    requires Slot(Absorb(rows, |rows|, remote, k, now), |rows|, remote[k]) == p
    requires r == Absorb(rows, |rows|, remote, n, now)
    ensures IsAdopted(r, remote, p, k, n, now)
    decreases n
  {
    var before := Absorb(rows, |rows|, remote, n - 1, now);
    if n - 1 > k {
      AdoptedIdStays(rows, remote, p, k, n - 1, now, before);
      AdoptedStep(before, |rows|, remote, p, k, n - 1, now, n, r);
    } else {
      IdsStayUnique(rows, |rows|, remote, k, now);
      AdoptedFirst(rows, remote, p, k, now, before, n, r);
    }
  }
}
