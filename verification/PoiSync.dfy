/** The POI mirror of one connection and its reconciliation with the remote list
    (backend/poi_admin/stores/service.py). Rows are never removed, so a row's position serves as its
    local id. */
module PoiSync {
  import opened Text
  import opened Wrappers

  /** `detail` stands for the remaining columns, all taken from the remote record: position,
      category, qualification and checksum. */
  datatype Poi = Poi(external: string, name: string, address: string, status: string, detail: string, syncedAt: real)

  datatype RemotePoi = RemotePoi(id: string, name: string, address: string, status: string, detail: string)

  type Mirror = seq<Poi>

  const AUDIT := "audit:"
  const MAP := "map:"
  const DELETED := "deleted"

  predicate IsPending(external: string) { AUDIT <= external }

  /** Rows the sync leaves alone although the remote list does not have them. */
  predicate IsReserved(external: string) { AUDIT <= external || MAP <= external }

  /** The comparison key of a name or address. */
  function Normal(s: string): string {
    Fold(Strip(s))
  }

  /* ---- Phase one: what the remote list no longer has ---- */

  predicate HasId(remote: seq<RemotePoi>, id: string) {
    exists i | 0 <= i < |remote| :: remote[i].id == id
  }

  function MarkedStale(p: Poi, remote: seq<RemotePoi>, now: real): Poi {
    if !HasId(remote, p.external) && !IsReserved(p.external) then p.(status := DELETED, syncedAt := now) else p
  }

  function MarkStale(rows: Mirror, remote: seq<RemotePoi>, now: real): Mirror {
    seq(|rows|, i requires 0 <= i < |rows| => MarkedStale(rows[i], remote, now))
  }

  /* ---- Phase two: one remote record after the other ---- */

  /** The row with this remote id, if there is one. */
  function Find(rows: Mirror, id: string): Option<nat> {
    if rows == [] then None
    else if rows[|rows| - 1].external == id then Some(|rows| - 1)
    else Find(rows[..|rows| - 1], id)
  }

  predicate Matches(p: Poi, r: RemotePoi) {
    IsPending(p.external) && Normal(p.name) == Normal(r.name) && Normal(p.address) == Normal(r.address)
  }

  /** The pending rows that match, among the first `existing` ones: rows added by this sync are not
      candidates. */
  function PendingMatches(rows: Mirror, existing: nat, r: RemotePoi): seq<nat>
    requires existing <= |rows|
  {
    if existing == 0 then []
    else
      PendingMatches(rows, existing - 1, r) + if Matches(rows[existing - 1], r) then [existing - 1] else []
  }

  function Written(r: RemotePoi, now: real): Poi {
    Poi(r.id, r.name, r.address, r.status, r.detail, now)
  }

  /** The row holds the record, synchronized at this time. */
  predicate Holds(p: Poi, r: RemotePoi, now: real) {
    && p.external == r.id && p.name == r.name && p.address == r.address
    && p.status == r.status && p.detail == r.detail && p.syncedAt == now
  }

  /** Marking keeps listed rows and those with an `audit:` or `map:` id; any other is deleted, and keeps
      all but its status and the time. */
  lemma MarkingIs(p: Poi, remote: seq<RemotePoi>, now: real)
    ensures var after := MarkedStale(p, remote, now);
            var kept := HasId(remote, p.external) || "audit:" <= p.external || "map:" <= p.external;
            && (kept ==> after == p)
            && (!kept ==>
                  && after.external == p.external && after.name == p.name && after.address == p.address
                  && after.detail == p.detail && after.status == "deleted" && after.syncedAt == now)
  {
  }

  /** The row a remote record is written to: the one with its id, else the only pending match, else
      a new one at the end. */
  function Slot(rows: Mirror, existing: nat, r: RemotePoi): nat
    requires existing <= |rows|
  {
    match Find(rows, r.id)
    case Some(i) => i
    case None =>
      var pending := PendingMatches(rows, existing, r);
      if |pending| == 1 then pending[0] else |rows|
  }

  function Write(rows: Mirror, slot: nat, p: Poi): Mirror {
    if slot < |rows| then rows[slot := p] else rows + [p]
  }

  /** The mirror after one remote record. */
  function AbsorbedOne(rows: Mirror, existing: nat, r: RemotePoi, now: real): Mirror
    requires existing <= |rows|
  {
    Write(rows, Slot(rows, existing, r), Written(r, now))
  }

  lemma {:induction false} FindIsFound(rows: Mirror, id: string)
    ensures Find(rows, id).Some? ==> Find(rows, id).value < |rows| && rows[Find(rows, id).value].external == id
    ensures Find(rows, id).None? ==> forall i | 0 <= i < |rows| :: rows[i].external != id
  {
    if rows != [] { FindIsFound(rows[..|rows| - 1], id); }
  }

  lemma {:induction false} PendingMatchesAre(rows: Mirror, existing: nat, r: RemotePoi)
    requires existing <= |rows|
    ensures forall i :: i in PendingMatches(rows, existing, r) <==> 0 <= i < existing && Matches(rows[i], r)
    ensures forall a, b | 0 <= a < b < |PendingMatches(rows, existing, r)| ::
              PendingMatches(rows, existing, r)[a] < PendingMatches(rows, existing, r)[b]
  {
    if existing > 0 {
      PendingMatchesAre(rows, existing - 1, r);
      var before := PendingMatches(rows, existing - 1, r);
      forall a | 0 <= a < |before| ensures before[a] < existing - 1 { assert before[a] in before; }
    }
  }

  lemma SlotIsInRange(rows: Mirror, existing: nat, r: RemotePoi)
    requires existing <= |rows|
    ensures Slot(rows, existing, r) <= |rows|
  {
    FindIsFound(rows, r.id);
    PendingMatchesAre(rows, existing, r);
    var pending := PendingMatches(rows, existing, r);
    if |pending| == 1 { assert pending[0] in pending; }
  }

  /** The mirror after the first n remote records. */
  function Absorb(rows: Mirror, existing: nat, remote: seq<RemotePoi>, n: nat, now: real): (r: Mirror)
    requires existing <= |rows| && n <= |remote|
    ensures |rows| <= |r|
  {
    if n == 0 then rows
    else
      var before := Absorb(rows, existing, remote, n - 1, now);
      AbsorbedOne(before, existing, remote[n - 1], now)
  }

  /** The whole sync. */
  function Sync(rows: Mirror, remote: seq<RemotePoi>, now: real): Mirror {
    Absorb(MarkStale(rows, remote, now), |rows|, remote, |remote|, now)
  }

  /** The local ids written for the first n remote records. */
  function Synchronized(rows: Mirror, existing: nat, remote: seq<RemotePoi>, n: nat, now: real): seq<nat>
    requires existing <= |rows| && n <= |remote|
  {
    if n == 0 then []
    else
      Synchronized(rows, existing, remote, n - 1, now)
      + [Slot(Absorb(rows, existing, remote, n - 1, now), existing, remote[n - 1])]
  }

  class PoiMirror {
    var rows: Mirror

    constructor ()
      ensures rows == []
    {
      rows := [];
    }

    method MarkStaleRows(remote: seq<RemotePoi>, now: real)
      modifies this
      ensures rows == MarkStale(old(rows), remote, now)
    {
      for i := 0 to |rows|
        invariant |rows| == |old(rows)|
        invariant forall j | 0 <= j < i :: rows[j] == MarkedStale(old(rows)[j], remote, now)
        invariant forall j | i <= j < |rows| :: rows[j] == old(rows)[j]
      {
        if !HasId(remote, rows[i].external) && !IsReserved(rows[i].external) {
          rows := rows[i := rows[i].(status := DELETED, syncedAt := now)];
        }
      }
    }

    /** Writes one remote record and says to which local id. */
    method AbsorbOne(existing: nat, r: RemotePoi, now: real) returns (slot: nat)
      requires existing <= |rows|
      modifies this
      ensures slot == Slot(old(rows), existing, r) && slot <= |old(rows)|
      ensures rows == AbsorbedOne(old(rows), existing, r, now)
      ensures slot < |rows| && Holds(rows[slot], r, now)
    {
      SlotIsInRange(rows, existing, r);
      slot := |rows|;
      var found := Find(rows, r.id);
      if found.Some? {
        slot := found.value;
      } else {
        var pending := PendingMatches(rows, existing, r);
        if |pending| == 1 { slot := pending[0]; }
      }
      if slot == |rows| {
        rows := rows + [Written(r, now)];
      } else {
        rows := rows[slot := Written(r, now)];
      }
    }

    /** `synchronized` lists the local id written for each remote record. */
    method SyncPois(remote: seq<RemotePoi>, now: real) returns (synchronized: seq<nat>)
      modifies this
      ensures rows == Sync(old(rows), remote, now)
      ensures synchronized == Synchronized(MarkStale(old(rows), remote, now), |old(rows)|, remote, |remote|, now)
    {
      var existing := |rows|;
      MarkStaleRows(remote, now);
      ghost var stale := rows;
      synchronized := [];
      for i := 0 to |remote|
        invariant existing <= |rows| && rows == Absorb(stale, existing, remote, i, now)
        invariant synchronized == Synchronized(stale, existing, remote, i, now)
      {
        var slot := AbsorbOne(existing, remote[i], now);
        synchronized := synchronized + [slot];
      }
    }
  }
}
