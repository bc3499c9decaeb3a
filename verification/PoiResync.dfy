/** When synchronizing the same list a second time changes nothing but timestamps
    (backend/poi_admin/stores/service.py). */
module PoiResync {
  import opened PoiSync
  import opened PoiMirrorProofs

  predicate SameRow(a: Poi, b: Poi) {
    b == a.(syncedAt := b.syncedAt)
  }

  /** Equal but for the time of the last synchronization. */
  predicate SameButTimes(a: Mirror, b: Mirror) {
    |a| == |b| && forall i | 0 <= i < |a| :: SameRow(a[i], b[i])
  }

  /** As long as every record's id has a row, rows are not added and do not change their ids. */
  lemma {:induction false} KnownIdsAddNothing(
    rows: Mirror, existing: nat, remote: seq<RemotePoi>, m: nat, n: nat, now: real)
    requires existing <= |rows| && m <= n <= |remote|
    requires forall k | m <= k < n :: HasExternal(Absorb(rows, existing, remote, m, now), remote[k].id)
    ensures SameIds(Absorb(rows, existing, remote, m, now), Absorb(rows, existing, remote, n, now))
    decreases n
  {
    if m < n {
      KnownIdsAddNothing(rows, existing, remote, m, n - 1, now);
      var before := Absorb(rows, existing, remote, n - 1, now);
      KnownIdAddsNothing(Absorb(rows, existing, remote, m, now), before, existing, remote[n - 1], now);
    }
  }

  predicate SameIds(a: Mirror, b: Mirror) {
    |a| == |b| && forall i | 0 <= i < |a| :: b[i].external == a[i].external
  }

  lemma KnownIdAddsNothing(start: Mirror, before: Mirror, existing: nat, rec: RemotePoi, now: real)
    requires SameIds(start, before) && existing <= |before| && HasExternal(start, rec.id)
    ensures SameIds(start, AbsorbedOne(before, existing, rec, now))
  {
    FindIsFound(before, rec.id);
    var i :| 0 <= i < |start| && start[i].external == rec.id;
    assert before[i].external == rec.id;
  }

  /** Marking stale rows a second time changes only times. */
  lemma StaleRowsStay(rows: Mirror, remote: seq<RemotePoi>, now: real, later: real)
    requires IdsUnique(rows)
    ensures var r := Sync(rows, remote, now); SameButTimes(r, MarkStale(r, remote, later)) && IdsUnique(r)
  {
    MirrorEqualsRemoteList(rows, remote, now);
    var r := Sync(rows, remote, now);
    var stale := MarkStale(r, remote, later);
    forall i | 0 <= i < |r| ensures SameRow(r[i], stale[i]) {
      assert stale[i] == MarkedStale(r[i], remote, later);
    }
  }

  /** A second sync changes only timestamps, provided the first one left every listed id its row. */
  lemma SecondSyncChangesOnlyTimes(rows: Mirror, remote: seq<RemotePoi>, now: real, later: real)
    requires IdsUnique(rows) && AllListed(Sync(rows, remote, now), remote)
    ensures SameButTimes(Sync(rows, remote, now), Sync(Sync(rows, remote, now), remote, later))
  {
    var r := Sync(rows, remote, now);
    StaleRowsStay(rows, remote, now, later);
    MirrorEqualsRemoteList(rows, remote, now);
    MirrorEqualsRemoteList(r, remote, later);
    var stale := MarkStale(r, remote, later);
    forall k | 0 <= k < |remote| ensures HasExternal(stale, remote[k].id) {
      assert HasExternal(r, remote[k].id);
      var i :| 0 <= i < |r| && r[i].external == remote[k].id;
      assert stale[i].external == remote[k].id;
    }
    KnownIdsAddNothing(stale, |r|, remote, 0, |remote|, later);
    var r' := Sync(r, remote, later);
    forall i | 0 <= i < |r| ensures SameRow(r[i], r'[i]) {
      assert r'[i].external == r[i].external;
    }
  }

  /** So it does for a list all of whose ids are safe, repeated or not: this can be seen in the list. */
  lemma SafeListsSyncTwice(rows: Mirror, remote: seq<RemotePoi>, now: real, later: real)
    requires IdsUnique(rows) && forall k | 0 <= k < |remote| :: IsSafe(remote, |remote|, remote[k].id)
    ensures SameButTimes(Sync(rows, remote, now), Sync(Sync(rows, remote, now), remote, later))
  {
    MirrorEqualsRemoteList(rows, remote, now);
    SecondSyncChangesOnlyTimes(rows, remote, now, later);
  }

  /* ---- Twins ---- */

  /** Two records that look like pending ones and share the normalised name and address. */
  predicate AreTwins(remote: seq<RemotePoi>, k: nat, l: nat) {
    && k < l < |remote| && IsPending(remote[k].id) && IsPending(remote[l].id)
    && SameNormal(remote[k], remote[l])
  }

  ghost predicate NoTriplets(remote: seq<RemotePoi>) {
    forall a: nat, b: nat, c: nat :: !(AreTwins(remote, a, b) && AreTwins(remote, b, c))
  }

  /** Record k, which looks like a pending one, has a lookalike after it that does not, and none that
      does after that one. */
  ghost predicate IsTakenForGood(remote: seq<RemotePoi>, k: nat, j: nat) {
    && k < j < |remote| && IsPending(remote[k].id) && !IsPending(remote[j].id) && SameNormal(remote[k], remote[j])
    && forall l: nat | j < l :: !AreTwins(remote, k, l)
  }

  /** Among the records with one normalised name and address at most two look like pending ones, and
      if any does, the last one does. */
  ghost predicate IsStable(remote: seq<RemotePoi>) {
    NoTriplets(remote) && forall k: nat, j: nat :: !IsTakenForGood(remote, k, j)
  }

  lemma TwinsAreTwo(remote: seq<RemotePoi>, k: nat, l: nat, c: nat)
    requires NoTriplets(remote) && AreTwins(remote, k, l)
    requires c < |remote| && IsPending(remote[c].id) && SameNormal(remote[c], remote[k])
    ensures c == k || c == l
  {
    assert c < k ==> AreTwins(remote, c, k);
    assert k < c < l ==> AreTwins(remote, k, c) && AreTwins(remote, c, l);
    assert l < c ==> AreTwins(remote, l, c);
  }

  /** The later twin is followed by no lookalike at all. */
  lemma LaterTwinsAreSafe(remote: seq<RemotePoi>, k: nat, l: nat, i: nat)
    requires NoIdTwice(remote) && IsStable(remote) && AreTwins(remote, k, l) && l < i < |remote|
    ensures !SameNormal(remote[l], remote[i])
  {
    var same, pending := SameNormal(remote[l], remote[i]), IsPending(remote[i].id);
    assert same && pending ==> AreTwins(remote, l, i);
    assert !IsTakenForGood(remote, l, i);
    assert same && !pending ==> exists j: nat :: i < j && AreTwins(remote, l, j);
  }

  lemma LookalikesBringTwins(remote: seq<RemotePoi>, k: nat, j: nat) returns (l: nat)
    requires IsStable(remote) && k < j < |remote| && IsPending(remote[k].id) && SameNormal(remote[k], remote[j])
    ensures AreTwins(remote, k, l)
  {
    if IsPending(remote[j].id) {
      l := j;
    } else {
      assert !IsTakenForGood(remote, k, j);
      l :| j < l && AreTwins(remote, k, l);
    }
  }

  /** An id that is not safe has a later twin that is. */
  lemma UnsafeIdsHaveTwins(remote: seq<RemotePoi>, k: nat) returns (l: nat)
    requires NoIdTwice(remote) && IsStable(remote) && k < |remote| && !IsSafe(remote, |remote|, remote[k].id)
    ensures AreTwins(remote, k, l) && IsSafe(remote, |remote|, remote[l].id)
  {
    assert !IsUndisputed(remote, |remote|, k);
    var j: nat :| k < j < |remote| && SameNormal(remote[k], remote[j]);
    l := LookalikesBringTwins(remote, k, j);
    forall i: nat | l < i < |remote| ensures !SameNormal(remote[l], remote[i]) { LaterTwinsAreSafe(remote, k, l, i); }
    assert IsUndisputed(remote, |remote|, l);
  }

  /* ---- What a first sync of a stable list leaves ---- */

  /** The rows after n records, starting from `rows`. */
  ghost predicate RowsAbsorbed(rows: Mirror, remote: seq<RemotePoi>, n: nat, now: real, r: Mirror)
    requires n <= |remote|
  {
    |rows| <= |r| && IdsUnique(r) && forall i: nat | i < |r| :: RowAbsorbed(rows, remote, n, now, r, i)
  }

  lemma AbsorbRows(rows: Mirror, remote: seq<RemotePoi>, n: nat, now: real)
    requires n <= |remote| && IdsUnique(rows)
    ensures RowsAbsorbed(rows, remote, n, now, Absorb(rows, |rows|, remote, n, now))
  {
    AbsorbAll(rows, |rows|, remote, n, now);
  }

  /** A row is not adopted while another one matches as well. */
  lemma TwoMatchesAdoptNothing(before: Mirror, existing: nat, rec: RemotePoi, i: nat, x: nat)
    requires existing <= |before| && i < existing && Matches(before[i], rec) && i != x && x < |before|
    ensures Slot(before, existing, rec) == x ==> before[x].external == rec.id
  {
    FindIsFound(before, rec.id);
    PendingMatchesAre(before, existing, rec);
    var pending := PendingMatches(before, existing, rec);
    assert i in pending;
    if |pending| == 1 { assert pending[0] == i; }
  }

  /** A row with an unlisted id is the one that was there. */
  lemma UnlistedRowIs(rows: Mirror, remote: seq<RemotePoi>, n: nat, now: real, r: Mirror, i: nat)
    requires n <= |remote| && IdsUnique(rows) && RowsAbsorbed(rows, remote, n, now, r)
    requires i < |rows| && !HasId(remote, rows[i].external) && HasExternal(r, rows[i].external)
    ensures r[i] == rows[i]
  {
    var x: nat :| x < |r| && r[x].external == rows[i].external;
    assert RowAbsorbed(rows, remote, n, now, r, x);
    LastOfIsListed(remote, n, r[x].external);
  }

  lemma ListedRowIs(rows: Mirror, remote: seq<RemotePoi>, n: nat, now: real, r: Mirror, x: nat, k: nat)
    requires n <= |remote| && NoIdTwice(remote) && RowsAbsorbed(rows, remote, n, now, r)
    requires x < |r| && k < n && r[x].external == remote[k].id
    ensures r[x] == Written(remote[k], now)
  {
    assert RowAbsorbed(rows, remote, n, now, r, x);
    LastOfIs(remote, n, k);
  }

  lemma WrittenIdIsThere(before: Mirror, existing: nat, rec: RemotePoi, now: real)
    requires existing <= |before| && IdsUnique(before)
    ensures HasExternal(AbsorbedOne(before, existing, rec, now), rec.id)
  {
    WriteStep(before, existing, rec, now);
    assert AbsorbedOne(before, existing, rec, now)[Slot(before, existing, rec)].external == rec.id;
  }

  /** As long as an unlisted row matches record k as well, the record keeps its row. */
  lemma {:induction false} GuardedRowStays(
    rows: Mirror, remote: seq<RemotePoi>, k: nat, i: nat, n: nat, now: real, r: Mirror)
    requires IdsUnique(rows) && NoIdTwice(remote) && k < n <= |remote| && i < |rows|
    requires Matches(rows[i], remote[k]) && !HasId(remote, rows[i].external)
    requires r == Absorb(rows, |rows|, remote, n, now) && HasExternal(r, rows[i].external)
    ensures HasExternal(r, remote[k].id)
    decreases n
  {
    var before := Absorb(rows, |rows|, remote, n - 1, now);
    AbsorbRows(rows, remote, n - 1, now);
    assert r == AbsorbedOne(before, |rows|, remote[n - 1], now);
    GuardIsThere(rows, remote, i, n - 1, now, before, r);
    if k < n - 1 { GuardedRowStays(rows, remote, k, i, n - 1, now, before); }
    GuardedRowStaysStep(rows, remote, k, i, n - 1, now, before, r);
  }

  lemma GuardIsThere(
    rows: Mirror, remote: seq<RemotePoi>, i: nat, n: nat, now: real, before: Mirror, after: Mirror)
    requires IdsUnique(rows) && n < |remote| && i < |rows| && !HasId(remote, rows[i].external)
    requires RowsAbsorbed(rows, remote, n, now, before) && after == AbsorbedOne(before, |rows|, remote[n], now)
    requires HasExternal(after, rows[i].external)
    ensures HasExternal(before, rows[i].external) && before[i] == rows[i]
  {
    if !HasExternal(before, rows[i].external) {
      AbsentIdsStayAbsent(before, |rows|, remote[n], now, rows[i].external);
    }
    UnlistedRowIs(rows, remote, n, now, before, i);
  }

  lemma GuardedRowStaysStep(
    rows: Mirror, remote: seq<RemotePoi>, k: nat, i: nat, n: nat, now: real, before: Mirror, after: Mirror)
    requires NoIdTwice(remote) && k <= n < |remote| && RowsAbsorbed(rows, remote, n, now, before)
    requires i < |rows| && before[i] == rows[i] && after == AbsorbedOne(before, |rows|, remote[n], now)
    requires Matches(rows[i], remote[k]) && !HasId(remote, rows[i].external)
    requires k < n ==> HasExternal(before, remote[k].id)
    ensures HasExternal(after, remote[k].id)
  {
    if k < n {
      var x: nat :| x < |before| && before[x].external == remote[k].id;
      ListedRowIs(rows, remote, n, now, before, x, k);
      GuardedStep(before, |rows|, remote[k], remote[n], now, i, x);
      assert after[x].external == remote[k].id;
    } else {
      WrittenIdIsThere(before, |rows|, remote[k], now);
    }
  }

  lemma GuardedStep(before: Mirror, existing: nat, rec: RemotePoi, other: RemotePoi, now: real, i: nat, x: nat)
    requires existing <= |before| && IdsUnique(before) && i < existing && x < |before|
    requires Matches(before[i], rec) && before[i].external != rec.id && before[x] == Written(rec, now)
    requires other.id != rec.id
    ensures x < |AbsorbedOne(before, existing, other, now)| && AbsorbedOne(before, existing, other, now)[x] == before[x]
  {
    WriteStep(before, existing, other, now);
    if Slot(before, existing, other) == x {
      assert Matches(before[i], other);
      TwoMatchesAdoptNothing(before, existing, other, i, x);
    }
  }

  /** Record k has no row; its twin l has, and only that row matches. */
  ghost predicate IsLost(r: Mirror, remote: seq<RemotePoi>, k: nat, l: nat) {
    && AreTwins(remote, k, l) && !HasExternal(r, remote[k].id) && HasExternal(r, remote[l].id)
    && forall i | 0 <= i < |r| && Matches(r[i], remote[k]) :: r[i].external == remote[l].id
  }

  /** Rows hold their records, and records without a row have lost it to a twin. */
  ghost predicate IsSynchronized(r: Mirror, remote: seq<RemotePoi>) {
    && IdsUnique(r)
    && (forall i: nat, k: nat | i < |r| && k < |remote| && r[i].external == remote[k].id ::
          SameRow(Written(remote[k], 0.0), r[i]))
    && (forall k: nat | k < |remote| && !HasExternal(r, remote[k].id) :: exists l: nat :: IsLost(r, remote, k, l))
  }

  lemma SafeIdsHaveRows(rows: Mirror, remote: seq<RemotePoi>, now: real, k: nat)
    requires IdsUnique(rows) && k < |remote| && IsSafe(remote, |remote|, remote[k].id)
    ensures HasExternal(Absorb(rows, |rows|, remote, |remote|, now), remote[k].id)
  {
    AbsorbAll(rows, |rows|, remote, |remote|, now);
  }

  lemma LostToItsTwin(rows: Mirror, remote: seq<RemotePoi>, now: real, k: nat) returns (l: nat)
    requires IdsUnique(rows) && NoIdTwice(remote) && IsStable(remote) && k < |remote|
    requires !HasExternal(Absorb(rows, |rows|, remote, |remote|, now), remote[k].id)
    ensures IsLost(Absorb(rows, |rows|, remote, |remote|, now), remote, k, l)
  {
    var r := Absorb(rows, |rows|, remote, |remote|, now);
    AbsorbRows(rows, remote, |remote|, now);
    if IsSafe(remote, |remote|, remote[k].id) { SafeIdsHaveRows(rows, remote, now, k); }
    l := UnsafeIdsHaveTwins(remote, k);
    SafeIdsHaveRows(rows, remote, now, l);
    forall i: nat | i < |r| && Matches(r[i], remote[k]) ensures r[i].external == remote[l].id {
      assert RowAbsorbed(rows, remote, |remote|, now, r, i);
      if HasId(remote, r[i].external) {
        var q: nat :| q < |remote| && remote[q].id == r[i].external;
        ListedRowIs(rows, remote, |remote|, now, r, i, q);
        TwinsAreTwo(remote, k, l, q);
      } else {
        LastOfIsListed(remote, |remote|, r[i].external);
        GuardedRowStays(rows, remote, k, i, |remote|, now, r);
      }
    }
  }

  lemma FirstSyncSynchronizes(rows: Mirror, remote: seq<RemotePoi>, now: real)
    requires IdsUnique(rows) && NoIdTwice(remote) && IsStable(remote)
    ensures IsSynchronized(Absorb(rows, |rows|, remote, |remote|, now), remote)
  {
    var r := Absorb(rows, |rows|, remote, |remote|, now);
    AbsorbRows(rows, remote, |remote|, now);
    forall i: nat, k: nat | i < |r| && k < |remote| && r[i].external == remote[k].id
      ensures SameRow(Written(remote[k], 0.0), r[i])
    {
      ListedRowIs(rows, remote, |remote|, now, r, i, k);
    }
    forall k: nat | k < |remote| && !HasExternal(r, remote[k].id) ensures exists l: nat :: IsLost(r, remote, k, l) {
      var l := LostToItsTwin(rows, remote, now, k);
    }
  }

  lemma TimesDoNotMatter(r: Mirror, r': Mirror, remote: seq<RemotePoi>)
    requires IsSynchronized(r, remote) && SameButTimes(r, r')
    ensures IsSynchronized(r', remote)
  {
    forall i, j | 0 <= i < j < |r'| ensures r'[i].external != r'[j].external {
      assert SameRow(r[i], r'[i]) && SameRow(r[j], r'[j]);
    }
    forall i: nat, k: nat | i < |r'| && k < |remote| && r'[i].external == remote[k].id
      ensures SameRow(Written(remote[k], 0.0), r'[i])
    {
      assert SameRow(r[i], r'[i]);
    }
    forall k: nat | k < |remote| && !HasExternal(r', remote[k].id) ensures exists l: nat :: IsLost(r', remote, k, l) {
      SameIdsAreThere(r, r', remote[k].id);
      var l: nat :| IsLost(r, remote, k, l);
      SameIdsAreThere(r, r', remote[l].id);
      assert IsLost(r', remote, k, l) by {
        forall i | 0 <= i < |r'| && Matches(r'[i], remote[k]) ensures r'[i].external == remote[l].id {
          assert SameRow(r[i], r'[i]);
        }
      }
    }
  }

  lemma SameIdsAreThere(a: Mirror, b: Mirror, id: string)
    requires SameButTimes(a, b)
    ensures HasExternal(a, id) <==> HasExternal(b, id)
  {
    assert forall i | 0 <= i < |a| :: SameRow(a[i], b[i]) && a[i].external == b[i].external;
    if HasExternal(a, id) {
      var i :| 0 <= i < |a| && a[i].external == id;
      assert b[i].external == id;
    }
    if HasExternal(b, id) {
      var i :| 0 <= i < |b| && b[i].external == id;
      assert a[i].external == id;
    }
  }

  /* ---- The second sync swaps twins back and forth ---- */

  /** After n records, row i holds record k, which has lost it to its twin l and will again. */
  ghost predicate IsSwapped(r: Mirror, remote: seq<RemotePoi>, n: nat, i: nat, k: nat, l: nat) {
    k < n <= l && IsLost(r, remote, k, l) && i < |r| && r[i].external == remote[l].id
  }

  ghost predicate RowState(r: Mirror, remote: seq<RemotePoi>, n: nat, b: Mirror, i: nat)
    requires i < |r| && i < |b| && n <= |remote|
  {
    && (SameRow(r[i], b[i]) || exists k: nat, l: nat :: IsSwapped(r, remote, n, i, k, l))
    && (forall k: nat, l: nat | IsSwapped(r, remote, n, i, k, l) :: SameRow(Written(remote[k], 0.0), b[i]))
  }

  ghost predicate States(r: Mirror, remote: seq<RemotePoi>, n: nat, b: Mirror)
    requires n <= |remote|
  {
    |b| == |r| && IdsUnique(b) && forall i: nat | i < |r| :: RowState(r, remote, n, b, i)
  }

  /** The lists and mirrors in question, and a lost record with its twin and the twin's row. */
  ghost predicate IsCase(r: Mirror, remote: seq<RemotePoi>, k: nat, l: nat, x: nat) {
    && IsSynchronized(r, remote) && NoIdTwice(remote) && NoTriplets(remote)
    && IsLost(r, remote, k, l) && x < |r| && r[x].external == remote[l].id
  }

  /** When a twin comes up, no row but x has its id or matches it. */
  lemma NoOtherMatches(
    r: Mirror, remote: seq<RemotePoi>, n: nat, b: Mirror, k: nat, l: nat, x: nat, i: nat)
    requires IsCase(r, remote, k, l, x) && n < |remote| && (n == k || n == l)
    requires i < |r| && i < |b| && RowState(r, remote, n, b, i) && i != x
    ensures !Matches(b[i], remote[n]) && b[i].external != remote[n].id
  {
    var row, rec := r[i], remote[k];
    assert SameRow(row, b[i]) && Matches(b[i], remote[n]) ==> Matches(row, rec);
    if k': nat, l': nat :| IsSwapped(r, remote, n, i, k', l') {
      if Matches(b[i], remote[n]) {
        TwinsAreTwo(remote, k, l, k');
        TwinsAreTwo(remote, k, l, l');
      }
    }
  }

  /** The row of twin l when a twin comes up: it matches, and has not its id. */
  lemma TheTwinMatches(r: Mirror, remote: seq<RemotePoi>, n: nat, b: Mirror, k: nat, l: nat, x: nat)
    requires IsCase(r, remote, k, l, x) && x < |b| && n < |remote|
    requires n == k || (n == l && IsSwapped(r, remote, n, x, k, l))
    requires RowState(r, remote, n, b, x)
    ensures Matches(b[x], remote[n]) && b[x].external != remote[n].id
  {
    forall k': nat, l': nat | IsLost(r, remote, k', l') && r[x].external == remote[l'].id ensures k' == k {
      TwinsAreTwo(remote, k, l, k');
    }
    assert n == k ==> !exists k': nat, l': nat :: IsSwapped(r, remote, n, x, k', l');
  }

  lemma TheTwinIsTheSlot(r: Mirror, remote: seq<RemotePoi>, n: nat, b: Mirror, k: nat, l: nat, x: nat)
    requires IsCase(r, remote, k, l, x) && n < |remote| && States(r, remote, n, b)
    requires n == k || (n == l && IsSwapped(r, remote, n, x, k, l))
    ensures Slot(b, |r|, remote[n]) == x
  {
    assert RowState(r, remote, n, b, x);
    TheTwinMatches(r, remote, n, b, k, l, x);
    forall i: nat | i < |r| ensures (Matches(b[i], remote[n]) <==> i == x) && b[i].external != remote[n].id {
      assert RowState(r, remote, n, b, i);
      if i != x { NoOtherMatches(r, remote, n, b, k, l, x, i); }
    }
    FindIsFound(b, remote[n].id);
    OneMatch(b, |r|, remote[n], x);
  }

  /** Record n has row x, or has lost it to the twin whose row that is. */
  ghost predicate IsRowFor(r: Mirror, remote: seq<RemotePoi>, n: nat, x: nat)
    requires n < |remote|
  {
    && x < |r|
    && (r[x].external == remote[n].id || exists l: nat :: IsLost(r, remote, n, l) && r[x].external == remote[l].id)
  }

  lemma KnownIdIsTheSlot(b: Mirror, existing: nat, rec: RemotePoi, x: nat)
    requires existing <= |b| && IdsUnique(b) && x < |b| && b[x].external == rec.id
    ensures Slot(b, existing, rec) == x
  {
    FindIsFound(b, rec.id);
  }

  lemma SlotIs(r: Mirror, remote: seq<RemotePoi>, n: nat, b: Mirror) returns (x: nat)
    requires IsSynchronized(r, remote) && NoIdTwice(remote) && NoTriplets(remote) && n < |remote|
    requires States(r, remote, n, b)
    ensures IsRowFor(r, remote, n, x) && Slot(b, |r|, remote[n]) == x
  {
    if HasExternal(r, remote[n].id) {
      x :| x < |r| && r[x].external == remote[n].id;
      assert RowState(r, remote, n, b, x);
      if k: nat, l: nat :| IsSwapped(r, remote, n, x, k, l) {
        TheTwinIsTheSlot(r, remote, n, b, k, l, x);
      } else {
        KnownIdIsTheSlot(b, |r|, remote[n], x);
      }
    } else {
      var l: nat :| IsLost(r, remote, n, l);
      x :| x < |r| && r[x].external == remote[l].id;
      TheTwinIsTheSlot(r, remote, n, b, n, l, x);
    }
  }

  lemma OtherRowIsSwappedBefore(
    r: Mirror, remote: seq<RemotePoi>, n: nat, x: nat, i: nat, k: nat, l: nat)
    requires IsSynchronized(r, remote) && NoTriplets(remote) && n < |remote|
    requires IsRowFor(r, remote, n, x) && i < |r| && i != x && IsSwapped(r, remote, n + 1, i, k, l)
    ensures IsSwapped(r, remote, n, i, k, l)
  {
    forall l': nat | IsLost(r, remote, n, l') ensures r[x].external == remote[l'].id {
      var l0: nat :| IsLost(r, remote, n, l0) && r[x].external == remote[l0].id;
      TwinsAreTwo(remote, n, l0, l');
    }
  }

  lemma OtherRowIsSwappedAfter(r: Mirror, remote: seq<RemotePoi>, n: nat, x: nat, i: nat, k: nat, l: nat)
    requires IsSynchronized(r, remote) && NoIdTwice(remote) && n < |remote|
    requires IsRowFor(r, remote, n, x) && i < |r| && i != x && IsSwapped(r, remote, n, i, k, l)
    ensures IsSwapped(r, remote, n + 1, i, k, l)
  {
    assert l != n;
  }

  lemma OtherRowStays(r: Mirror, remote: seq<RemotePoi>, n: nat, b: Mirror, after: Mirror, x: nat, i: nat)
    requires IsSynchronized(r, remote) && NoIdTwice(remote) && NoTriplets(remote) && n < |remote|
    requires IsRowFor(r, remote, n, x) && i < |r| && i < |b| && i < |after| && i != x
    requires RowState(r, remote, n, b, i) && after[i] == b[i]
    ensures RowState(r, remote, n + 1, after, i)
  {
    var m := n + 1;
    forall k: nat, l: nat | IsSwapped(r, remote, m, i, k, l) ensures IsSwapped(r, remote, n, i, k, l) {
      OtherRowIsSwappedBefore(r, remote, n, x, i, k, l);
    }
    if k: nat, l: nat :| IsSwapped(r, remote, n, i, k, l) {
      OtherRowIsSwappedAfter(r, remote, n, x, i, k, l);
    }
  }

  lemma WrittenRowIs(r: Mirror, remote: seq<RemotePoi>, n: nat, after: Mirror, x: nat, now: real)
    requires IsSynchronized(r, remote) && NoIdTwice(remote) && NoTriplets(remote) && n < |remote|
    requires IsRowFor(r, remote, n, x) && x < |after| && after[x] == Written(remote[n], now)
    ensures RowState(r, remote, n + 1, after, x)
  {
    var m := n + 1;
    if r[x].external != remote[n].id {
      var l: nat :| IsLost(r, remote, n, l) && r[x].external == remote[l].id;
      assert IsSwapped(r, remote, m, x, n, l);
      forall k': nat, l': nat | IsSwapped(r, remote, m, x, k', l') ensures k' == n { TwinsAreTwo(remote, n, l, k'); }
    }
  }

  lemma SwapStep(r: Mirror, remote: seq<RemotePoi>, n: nat, b: Mirror, m: nat, after: Mirror, now: real)
    requires IsSynchronized(r, remote) && NoIdTwice(remote) && NoTriplets(remote) && n < m == n + 1 <= |remote|
    requires States(r, remote, n, b) && after == AbsorbedOne(b, |r|, remote[n], now)
    ensures States(r, remote, m, after)
  {
    var x := SlotIs(r, remote, n, b);
    WriteStep(b, |r|, remote[n], now);
    WrittenRowIs(r, remote, n, after, x, now);
    forall i: nat | i < |r| ensures RowState(r, remote, m, after, i) {
      assert RowState(r, remote, n, b, i);
      if i != x { OtherRowStays(r, remote, n, b, after, x, i); }
    }
  }

  lemma NothingSwapped(r: Mirror, remote: seq<RemotePoi>)
    requires IdsUnique(r)
    ensures States(r, remote, 0, r)
  {
  }

  lemma {:induction false} SecondSyncSwapsBack(r: Mirror, remote: seq<RemotePoi>, n: nat, now: real, b: Mirror)
    requires IsSynchronized(r, remote) && NoIdTwice(remote) && NoTriplets(remote) && n <= |remote|
    requires b == Absorb(r, |r|, remote, n, now)
    ensures States(r, remote, n, b)
  {
    if n == 0 {
      NothingSwapped(r, remote);
    } else {
      var before := Absorb(r, |r|, remote, n - 1, now);
      assert b == AbsorbedOne(before, |r|, remote[n - 1], now);
      SecondSyncSwapsBack(r, remote, n - 1, now, before);
      SwapStep(r, remote, n - 1, before, n, b, now);
    }
  }

  lemma StableListsSyncTwice(rows: Mirror, remote: seq<RemotePoi>, now: real, later: real)
    requires IdsUnique(rows) && NoIdTwice(remote) && IsStable(remote)
    ensures SameButTimes(Sync(rows, remote, now), Sync(Sync(rows, remote, now), remote, later))
  {
    var first := MarkStale(rows, remote, now);
    assert IdsUnique(first);
    FirstSyncSynchronizes(first, remote, now);
    var r := Sync(rows, remote, now);
    StaleRowsStay(rows, remote, now, later);
    var stale := MarkStale(r, remote, later);
    TimesDoNotMatter(r, stale, remote);
    var r' := Sync(r, remote, later);
    SecondSyncSwapsBack(stale, remote, |remote|, later, r');
    forall i: nat | i < |r| ensures SameRow(r[i], r'[i]) {
      assert RowState(stale, remote, |remote|, r', i);
      assert SameRow(r[i], stale[i]);
    }
  }

  /* ---- Lists that are not stable: a record that is taken for good ---- */

  /** The last such record before its lookalike. */
  lemma {:induction false} LastTakenForGood(remote: seq<RemotePoi>, k: nat, j: nat) returns (last: nat)
    requires IsTakenForGood(remote, k, j)
    ensures IsTakenForGood(remote, last, j) && forall l: nat :: !AreTwins(remote, last, l)
    decreases j - k
  {
    if l: nat :| AreTwins(remote, k, l) {
      assert l < j;
      forall i: nat | j < i ensures !AreTwins(remote, l, i) { assert !AreTwins(remote, k, i); }
      last := LastTakenForGood(remote, l, j);
    } else {
      last := k;
    }
  }

  lemma TakenIdIsLost(remote: seq<RemotePoi>, k: nat, j: nat, now: real)
    requires NoIdTwice(remote) && IsTakenForGood(remote, k, j)
    ensures !HasExternal(Sync(OneRow(remote, k, now), remote, now), remote[k].id)
  {
    var first := FirstLookalike(remote, k, j);
    TheRowIsGone(remote, k, first, now);
    OneRowIsNotStale(remote, k, now);
  }

  /** Ids that do not look like pending ones keep their rows. */
  lemma OrdinaryIdsStay(rows: Mirror, remote: seq<RemotePoi>, n: nat, now: real, r: Mirror, id: string)
    requires n <= |remote| && RowsAbsorbed(rows, remote, n, now, r) && HasExternal(rows, id) && !IsPending(id)
    ensures HasExternal(r, id)
  {
    var i: nat :| i < |rows| && rows[i].external == id;
    assert RowAbsorbed(rows, remote, n, now, r, i);
  }

  /** The later lookalikes of record k do not look like pending ones, and have rows. */
  predicate LookalikesHaveRows(rows: Mirror, remote: seq<RemotePoi>, k: nat)
    requires k < |remote|
  {
    forall j | k < j < |remote| && SameNormal(remote[k], remote[j]) ::
      !IsPending(remote[j].id) && HasExternal(rows, remote[j].id)
  }

  lemma ReturnedIdStaysStep(
    rows: Mirror, remote: seq<RemotePoi>, k: nat, n: nat, now: real, before: Mirror, after: Mirror)
    requires NoIdTwice(remote) && k <= n < |remote| && RowsAbsorbed(rows, remote, n, now, before)
    requires LookalikesHaveRows(rows, remote, k) && after == AbsorbedOne(before, |rows|, remote[n], now)
    requires k < n ==> HasExternal(before, remote[k].id)
    ensures HasExternal(after, remote[k].id)
  {
    if k < n {
      var x: nat :| x < |before| && before[x].external == remote[k].id;
      ListedRowIs(rows, remote, n, now, before, x, k);
      if SameNormal(remote[k], remote[n]) {
        OrdinaryIdsStay(rows, remote, n, now, before, remote[n].id);
        FindIsFound(before, remote[n].id);
      }
      WriteStep(before, |rows|, remote[n], now);
      assert after[x].external == remote[k].id;
    } else {
      WrittenIdIsThere(before, |rows|, remote[k], now);
    }
  }

  /** Such a record keeps its row. */
  lemma {:induction false} ReturnedIdStays(rows: Mirror, remote: seq<RemotePoi>, k: nat, n: nat, now: real, r: Mirror)
    requires IdsUnique(rows) && NoIdTwice(remote) && k < n <= |remote| && LookalikesHaveRows(rows, remote, k)
    requires r == Absorb(rows, |rows|, remote, n, now)
    ensures HasExternal(r, remote[k].id)
    decreases n
  {
    var before := Absorb(rows, |rows|, remote, n - 1, now);
    AbsorbRows(rows, remote, n - 1, now);
    assert r == AbsorbedOne(before, |rows|, remote[n - 1], now);
    if k < n - 1 { ReturnedIdStays(rows, remote, k, n - 1, now, before); }
    ReturnedIdStaysStep(rows, remote, k, n - 1, now, before, r);
  }

  lemma TakenForGoodComesBack(remote: seq<RemotePoi>, k: nat, j: nat, now: real, later: real)
    requires NoIdTwice(remote) && IsTakenForGood(remote, k, j) && forall l: nat :: !AreTwins(remote, k, l)
    ensures var r := Sync(OneRow(remote, k, now), remote, now); !SameButTimes(r, Sync(r, remote, later))
  {
    var rows := OneRow(remote, k, now);
    var r := Sync(rows, remote, now);
    TakenIdIsLost(remote, k, j, now);
    MirrorEqualsRemoteList(rows, remote, now);
    StaleRowsStay(rows, remote, now, later);
    var stale, r' := MarkStale(r, remote, later), Sync(r, remote, later);
    forall i: nat | k < i < |remote| && SameNormal(remote[k], remote[i])
      ensures !IsPending(remote[i].id) && HasExternal(stale, remote[i].id)
    {
      assert !AreTwins(remote, k, i);
      assert IsSafe(remote, |remote|, remote[i].id);
      SameIdsAreThere(r, stale, remote[i].id);
    }
    ReturnedIdStays(stale, remote, k, |remote|, later, r');
    if SameButTimes(r, r') { SameIdsAreThere(r, r', remote[k].id); }
  }

  /* ---- Lists that are not stable: three of a kind ---- */

  /** Records a and b are the first two of their kind. */
  predicate AreFirstTwins(remote: seq<RemotePoi>, a: nat, b: nat) {
    && AreTwins(remote, a, b)
    && forall q | 0 <= q < b && IsPending(remote[q].id) && SameNormal(remote[q], remote[b]) :: q == a
  }

  lemma {:induction false} FirstTwins(remote: seq<RemotePoi>, k: nat, l: nat) returns (a: nat, b: nat)
    requires AreTwins(remote, k, l)
    ensures AreFirstTwins(remote, a, b) && b <= l && SameNormal(remote[b], remote[l])
    decreases l
  {
    if q: nat :| q < l && IsPending(remote[q].id) && SameNormal(remote[q], remote[l]) && q != k {
      a, b := FirstTwins(remote, if q < k then q else k, if q < k then k else q);
    } else {
      a, b := k, l;
    }
  }

  /** The record whose row is row i when every record but b has one. */
  function At(b: nat, i: nat): nat {
    if i < b then i else i + 1
  }

  /** Every record but b has a row, under a name none has. */
  function AllBut(remote: seq<RemotePoi>, b: nat, now: real): (rows: Mirror)
    requires b < |remote|
    ensures |rows| == |remote| - 1
    ensures forall i | 0 <= i < |rows| :: rows[i].external == remote[At(b, i)].id
  {
    seq(|remote| - 1, i requires 0 <= i < |remote| - 1 =>
      Poi(remote[At(b, i)].id, StrangeName(Length(remote, |remote|)), "", "", "", now))
  }

  lemma AllButHasAllBut(remote: seq<RemotePoi>, b: nat, now: real)
    requires b < |remote| && NoIdTwice(remote)
    ensures IdsUnique(AllBut(remote, b, now)) && !HasExternal(AllBut(remote, b, now), remote[b].id)
    ensures forall k | 0 <= k < |remote| && k != b :: HasExternal(AllBut(remote, b, now), remote[k].id)
    ensures MarkStale(AllBut(remote, b, now), remote, now) == AllBut(remote, b, now)
  {
    var rows := AllBut(remote, b, now);
    forall k | 0 <= k < |remote| && k != b ensures HasExternal(rows, remote[k].id) {
      var i := if k < b then k else k - 1;
      assert At(b, i) == k && rows[i].external == remote[k].id;
    }
    forall i | 0 <= i < |rows| ensures MarkedStale(rows[i], remote, now) == rows[i] {
      assert HasId(remote, rows[i].external);
    }
  }

  /** When record b comes up, the rows of earlier records hold them, and the others do not match. */
  lemma OnlyTheFirstMatches(remote: seq<RemotePoi>, a: nat, b: nat, now: real, r: Mirror, i: nat)
    requires NoIdTwice(remote) && AreFirstTwins(remote, a, b)
    requires RowsAbsorbed(AllBut(remote, b, now), remote, b, now, r) && SameIds(AllBut(remote, b, now), r)
    requires i < |r|
    ensures Matches(r[i], remote[b]) <==> i == a
  {
    var rows := AllBut(remote, b, now);
    assert r[i].external == remote[At(b, i)].id;
    if i < b {
      ListedRowIs(rows, remote, b, now, r, i, i);
    } else {
      assert RowAbsorbed(rows, remote, b, now, r, i);
      LastOfIsListed(remote, b, r[i].external);
      LengthIsAbove(remote, |remote|, b);
    }
  }

  /** Record b adopts the row of record a, and no other id changes. */
  lemma FirstRowIsAdopted(remote: seq<RemotePoi>, a: nat, b: nat, now: real, before: Mirror)
    requires NoIdTwice(remote) && AreFirstTwins(remote, a, b)
    requires before == Absorb(AllBut(remote, b, now), |remote| - 1, remote, b, now)
    ensures SameIds(AllBut(remote, b, now), before)
    ensures AbsorbedOne(before, |remote| - 1, remote[b], now) == before[a := Written(remote[b], now)]
  {
    var rows := AllBut(remote, b, now);
    AllButHasAllBut(remote, b, now);
    KnownIdsAddNothing(rows, |rows|, remote, 0, b, now);
    AbsorbRows(rows, remote, b, now);
    forall i: nat | i < |before| ensures Matches(before[i], remote[b]) <==> i == a {
      OnlyTheFirstMatches(remote, a, b, now, before, i);
    }
    OneMatch(before, |rows|, remote[b], a);
    FindIsFound(before, remote[b].id);
    forall i | 0 <= i < |before| ensures before[i].external != remote[b].id {
      assert before[i].external == rows[i].external;
    }
  }

  /** The ids of the rows: record b has taken the row of record a. */
  ghost predicate HasReplaced(r: Mirror, remote: seq<RemotePoi>, a: nat, b: nat) {
    && a < b < |remote| && |r| == |remote| - 1 && r[a].external == remote[b].id
    && forall i | 0 <= i < |r| && i != a :: r[i].external == remote[At(b, i)].id
  }

  lemma RecordReplaces(remote: seq<RemotePoi>, a: nat, b: nat, now: real, after: Mirror)
    requires NoIdTwice(remote) && AreFirstTwins(remote, a, b)
    requires after == Absorb(AllBut(remote, b, now), |remote| - 1, remote, b + 1, now)
    ensures HasReplaced(after, remote, a, b)
  {
    var before := Absorb(AllBut(remote, b, now), |remote| - 1, remote, b, now);
    FirstRowIsAdopted(remote, a, b, now, before);
    assert after == before[a := Written(remote[b], now)];
  }

  lemma LaterIdsAreKnown(after: Mirror, remote: seq<RemotePoi>, a: nat, b: nat, k: nat)
    requires HasReplaced(after, remote, a, b) && b < k < |remote|
    ensures HasExternal(after, remote[k].id)
  {
    assert after[k - 1].external == remote[At(b, k - 1)].id;
  }

  lemma LaterRecordsReplaceNothing(
    remote: seq<RemotePoi>, a: nat, b: nat, now: real, rows: Mirror, after: Mirror, r: Mirror)
    requires b < |remote| && after == Absorb(rows, |rows|, remote, b + 1, now) && HasReplaced(after, remote, a, b)
    requires r == Absorb(rows, |rows|, remote, |remote|, now)
    ensures SameIds(after, r)
  {
    forall k: nat | b < k < |remote| ensures HasExternal(after, remote[k].id) {
      LaterIdsAreKnown(after, remote, a, b, k);
    }
    KnownIdsAddNothing(rows, |rows|, remote, b + 1, |remote|, now);
  }

  lemma OneIdIsReplaced(remote: seq<RemotePoi>, a: nat, b: nat, now: real, r: Mirror)
    requires NoIdTwice(remote) && AreFirstTwins(remote, a, b) && r == Sync(AllBut(remote, b, now), remote, now)
    ensures HasReplaced(r, remote, a, b)
  {
    var rows := AllBut(remote, b, now);
    AllButHasAllBut(remote, b, now);
    var after := Absorb(rows, |rows|, remote, b + 1, now);
    RecordReplaces(remote, a, b, now, after);
    LaterRecordsReplaceNothing(remote, a, b, now, rows, after, r);
  }

  /** The mirror has rows for all records but one, and for nothing else. */
  ghost predicate HasAllBut(r: Mirror, remote: seq<RemotePoi>, a: nat) {
    && IdsUnique(r)
    && (forall k: nat | k < |remote| :: HasExternal(r, remote[k].id) <==> k != a)
    && (forall i | 0 <= i < |r| :: HasId(remote, r[i].external))
  }

  lemma OneIdIsMissing(remote: seq<RemotePoi>, a: nat, b: nat, r: Mirror)
    requires NoIdTwice(remote) && HasReplaced(r, remote, a, b)
    ensures HasAllBut(r, remote, a)
  {
    forall k: nat | k < |remote| ensures HasExternal(r, remote[k].id) <==> k != a {
      var i := if k == b then a else if k < b then k else k - 1;
      if k != a { assert r[i].external == remote[k].id; }
    }
  }

  lemma RowHolds(remote: seq<RemotePoi>, b: nat, now: real, r: Mirror, x: nat, k: nat)
    requires NoIdTwice(remote) && b < |remote| && r == Sync(AllBut(remote, b, now), remote, now)
    requires x < |r| && k < |remote| && r[x].external == remote[k].id
    ensures r[x] == Written(remote[k], now)
  {
    AllButHasAllBut(remote, b, now);
    AbsorbRows(AllBut(remote, b, now), remote, |remote|, now);
    ListedRowIs(AllBut(remote, b, now), remote, |remote|, now, r, x, k);
  }

  /** So after it record a has no row, and two rows match it. */
  lemma TwoRowsMatch(remote: seq<RemotePoi>, a: nat, b: nat, c: nat, now: real, r: Mirror)
    requires NoIdTwice(remote) && AreFirstTwins(remote, a, b) && AreTwins(remote, b, c)
    requires r == Sync(AllBut(remote, b, now), remote, now)
    ensures |r| == |remote| - 1 && HasAllBut(r, remote, a)
    ensures r[a] == Written(remote[b], now) && r[c - 1] == Written(remote[c], now)
  {
    OneIdIsReplaced(remote, a, b, now, r);
    OneIdIsMissing(remote, a, b, r);
    RowHolds(remote, b, now, r, a, b);
    RowHolds(remote, b, now, r, c - 1, c);
  }

  lemma {:induction false} RowsAreNotRemoved(
    rows: Mirror, existing: nat, remote: seq<RemotePoi>, m: nat, n: nat, now: real)
    requires existing <= |rows| && m <= n <= |remote|
    ensures |Absorb(rows, existing, remote, m, now)| <= |Absorb(rows, existing, remote, n, now)|
    decreases n
  {
    if m < n { RowsAreNotRemoved(rows, existing, remote, m, n - 1, now); }
  }

  lemma AddsWithoutTheId(before: Mirror, existing: nat, rec: RemotePoi, x: nat, y: nat, now: real)
    requires existing <= |before| && x < existing && y < existing && x != y
    requires Matches(before[x], rec) && Matches(before[y], rec) && !HasExternal(before, rec.id)
    ensures |AbsorbedOne(before, existing, rec, now)| == |before| + 1
  {
    FindIsFound(before, rec.id);
    PendingMatchesAre(before, existing, rec);
    var pending := PendingMatches(before, existing, rec);
    assert x in pending && y in pending;
    var p, q :| 0 <= p < |pending| && 0 <= q < |pending| && pending[p] == x && pending[q] == y;
  }

  /** A row stays as it is until its record comes up. */
  lemma LaterRowStays(r: Mirror, remote: seq<RemotePoi>, n: nat, now: real, before: Mirror, x: nat)
    requires n <= |remote| && RowsAbsorbed(r, remote, n, now, before) && SameIds(r, before) && x < |r|
    requires forall k | 0 <= k < n :: remote[k].id != r[x].external
    ensures before[x] == r[x]
  {
    assert RowAbsorbed(r, remote, n, now, before, x);
    LastOfIsListed(remote, n, before[x].external);
  }

  /** Before record a comes up, the row of a later record is as it was, and record a has none. */
  lemma UntilItComesUp(remote: seq<RemotePoi>, a: nat, x: nat, later: real, r: Mirror, before: Mirror)
    requires NoIdTwice(remote) && a < |remote| && HasAllBut(r, remote, a)
    requires before == Absorb(r, |r|, remote, a, later)
    requires x < |r| && forall k | 0 <= k < a :: remote[k].id != r[x].external
    ensures |before| == |r| && before[x] == r[x] && !HasExternal(before, remote[a].id)
  {
    KnownIdsAddNothing(r, |r|, remote, 0, a, later);
    AbsorbRows(r, remote, a, later);
    LaterRowStays(r, remote, a, later, before, x);
    forall i | 0 <= i < |before| ensures before[i].external != remote[a].id {
      assert before[i].external == r[i].external;
    }
  }

  lemma ThenARowIsAdded(remote: seq<RemotePoi>, a: nat, x: nat, y: nat, later: real, r: Mirror, before: Mirror)
    requires a < |remote| && before == Absorb(r, |r|, remote, a, later)
    requires |before| == |r| && x < |r| && y < |r| && x != y && !HasExternal(before, remote[a].id)
    requires Matches(before[x], remote[a]) && Matches(before[y], remote[a])
    ensures |r| < |Absorb(r, |r|, remote, |remote|, later)|
  {
    AddsWithoutTheId(before, |r|, remote[a], x, y, later);
    RowsAreNotRemoved(r, |r|, remote, a + 1, |remote|, later);
  }

  /** Two matching rows: the second sync adds a row for record a. */
  lemma SecondSyncAddsARow(remote: seq<RemotePoi>, a: nat, x: nat, y: nat, later: real, r: Mirror)
    requires NoIdTwice(remote) && a < |remote| && HasAllBut(r, remote, a) && x < |r| && y < |r| && x != y
    requires Matches(r[x], remote[a]) && forall k | 0 <= k < a :: remote[k].id != r[x].external
    requires Matches(r[y], remote[a]) && forall k | 0 <= k < a :: remote[k].id != r[y].external
    ensures |r| < |Absorb(r, |r|, remote, |remote|, later)|
  {
    var before := Absorb(r, |r|, remote, a, later);
    UntilItComesUp(remote, a, x, later, r, before);
    UntilItComesUp(remote, a, y, later, r, before);
    ThenARowIsAdded(remote, a, x, y, later, r, before);
  }

  lemma TripletsAddARow(remote: seq<RemotePoi>, a: nat, b: nat, c: nat, now: real, later: real)
    requires NoIdTwice(remote) && AreFirstTwins(remote, a, b) && AreTwins(remote, b, c)
    ensures IdsUnique(AllBut(remote, b, now))
    ensures var r := Sync(AllBut(remote, b, now), remote, now); !SameButTimes(r, Sync(r, remote, later))
  {
    AllButHasAllBut(remote, b, now);
    var r := Sync(AllBut(remote, b, now), remote, now);
    TwoRowsMatch(remote, a, b, c, now, r);
    assert MarkStale(r, remote, later) == r;
    SecondSyncAddsARow(remote, a, a, c - 1, later, r);
  }

  lemma UnstableListsDoNotSyncTwice(remote: seq<RemotePoi>, now: real, later: real) returns (rows: Mirror)
    requires NoIdTwice(remote) && !IsStable(remote)
    ensures IdsUnique(rows)
    ensures !SameButTimes(Sync(rows, remote, now), Sync(Sync(rows, remote, now), remote, later))
  {
    if k: nat, j: nat :| IsTakenForGood(remote, k, j) {
      var last := LastTakenForGood(remote, k, j);
      TakenForGoodComesBack(remote, last, j, now, later);
      rows := OneRow(remote, last, now);
    } else {
      var k: nat, l: nat, c: nat :| AreTwins(remote, k, l) && AreTwins(remote, l, c);
      var a, b := FirstTwins(remote, k, l);
      TripletsAddARow(remote, a, b, c, now, later);
      rows := AllBut(remote, b, now);
    }
  }

  /** Synchronizing a list without repeated ids twice in a row leaves what the first time left, but for
      timestamps, whatever the mirror held before, if and only if of the records with one normalised
      name and address at most two have ids that look like pending ones, and the last one if any. Up
      to two swap their row back and forth; three or an ordinary one do not. */
  lemma SecondSyncChangesOnlyTimesExactlyWhen(remote: seq<RemotePoi>, now: real, later: real)
    requires NoIdTwice(remote)
    ensures (forall rows | IdsUnique(rows) ::
               SameButTimes(Sync(rows, remote, now), Sync(Sync(rows, remote, now), remote, later)))
            <==> IsStable(remote)
  {
    if IsStable(remote) {
      forall rows | IdsUnique(rows)
        ensures SameButTimes(Sync(rows, remote, now), Sync(Sync(rows, remote, now), remote, later))
      {
        StableListsSyncTwice(rows, remote, now, later);
      }
    } else {
      var rows := UnstableListsDoNotSyncTwice(remote, now, later);
    }
  }
}
