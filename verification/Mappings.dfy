/** Store-to-POI mappings: racing confirmations, unbindings and archivals, guarded by a check, an
    insert and partial unique indexes (backend/poi_admin/stores/service.py,
    backend/poi_admin/stores/models.py). One tenant. */
module Mappings {
  import opened Wrappers

  type Id = string
  type Caller = nat

  datatype Mapping = Mapping(connection: Id, store: Id, poi: Id, active: bool)

  /** `connections` gives the connection of each POI row; `stores` are the store rows. */
  datatype Context = Context(stores: set<Id>, connections: map<Id, Id>)

  type Table = map<Id, Mapping>

  predicate ActiveIn(t: Table, connection: Id, id: Id) {
    id in t && t[id].active && t[id].connection == connection
  }

  /** An active mapping of the connection that touches the store or the POI. */
  predicate Conflicts(t: Table, connection: Id, store: Id, poi: Id, id: Id) {
    ActiveIn(t, connection, id) && (t[id].store == store || t[id].poi == poi)
  }

  /** What the two partial unique indexes enforce: per connection, active mappings are a partial
      matching between stores and POIs. */
  ghost predicate IsMatching(t: Table) {
    forall a, b | a in t && b in t && t[a].active && t[b].active && t[a].connection == t[b].connection
                  && (t[a].store == t[b].store || t[a].poi == t[b].poi) :: a == b
  }

  datatype MapError = ResourceNotFound | Conflict | MappingNotFound | StoreNotFound | VersionConflict

  datatype StoreRow = StoreRow(active: bool, version: int)

  /** The answer of the check, given the row its unordered query with limit one came up with. */
  function Verdict(t: Table, store: Id, poi: Id, row: Id): Result<Id, MapError>
    requires row in t
  {
    if t[row].store == store && t[row].poi == poi then Ok(row) else Err(Conflict)
  }

  /** The mapping of exactly this pair is the answer, and any other row a conflict. */
  lemma VerdictIs(t: Table, store: Id, poi: Id, row: Id)
    requires row in t
    ensures Verdict(t, store, poi, row).Ok? <==> t[row].store == store && t[row].poi == poi
    ensures Verdict(t, store, poi, row) in {Ok(row), Err(Conflict)}
  {
  }

  /** On a matching the answer does not depend on the row the query happens to return: it is the
      mapping of exactly this pair, if that is active, and a conflict otherwise. */
  lemma VerdictIsDetermined(t: Table, connection: Id, store: Id, poi: Id, row: Id)
    requires IsMatching(t) && Conflicts(t, connection, store, poi, row)
    ensures forall other | Conflicts(t, connection, store, poi, other) ::
              Verdict(t, store, poi, other) == Verdict(t, store, poi, row)
    ensures Verdict(t, store, poi, row).Ok? <==>
              exists id :: ActiveIn(t, connection, id) && t[id].store == store && t[id].poi == poi
  {
    forall other | Conflicts(t, connection, store, poi, other)
      ensures Verdict(t, store, poi, other) == Verdict(t, store, poi, row)
    {
    }
  }

  /** Without the matching it would: a table on which the same request is answered either way. */
  lemma VerdictNeedsMatching()
    ensures var t := map["a" := Mapping("c", "s", "p", true), "b" := Mapping("c", "s", "q", true)];
            && Conflicts(t, "c", "s", "p", "a") && Conflicts(t, "c", "s", "p", "b")
            && Verdict(t, "s", "p", "a") != Verdict(t, "s", "p", "b")
  {
  }

  class MappingService {
    const connections: map<Id, Id>
    var stores: map<Id, StoreRow>
    var mappings: Table

    constructor (connections: map<Id, Id>, stores: map<Id, StoreRow>)
      ensures this.connections == connections && this.stores == stores && mappings == map[]
    {
      this.connections := connections;
      this.stores := stores;
      mappings := map[];
    }

    /** Without interference: an existing mapping of the pair, a conflict when the store or the POI
        is mapped elsewhere, and otherwise a new active mapping. */
    method CreateMapping(store: Id, poi: Id, newId: Id) returns (r: Result<Id, MapError>)
      requires IsMatching(mappings) && newId !in mappings
      modifies this`mappings
      ensures IsMatching(mappings)
      ensures store !in stores || poi !in connections ==>
                r == Err(ResourceNotFound) && mappings == old(mappings)
      ensures store in stores && poi in connections ==>
                var c := connections[poi];
                if exists id :: Conflicts(old(mappings), c, store, poi, id) then
                  && mappings == old(mappings)
                  && (forall id | Conflicts(mappings, c, store, poi, id) :: r == Verdict(mappings, store, poi, id))
                else
                  && r == Ok(newId)
                  && mappings == old(mappings)[newId := Mapping(c, store, poi, true)]
    {
      if store !in stores || poi !in connections { return Err(ResourceNotFound); }
      var c := connections[poi];
      var conflicts := set id | id in mappings && Conflicts(mappings, c, store, poi, id);
      if conflicts != {} {
        var row :| row in conflicts;
        VerdictIsDetermined(mappings, c, store, poi, row);
        return Verdict(mappings, store, poi, row);
      }
      assert forall id | id in mappings :: !Conflicts(mappings, c, store, poi, id) by {
        assert forall id | id in mappings && Conflicts(mappings, c, store, poi, id) :: id in conflicts;
      }
      mappings := mappings[newId := Mapping(c, store, poi, true)];
      return Ok(newId);
    }

    method UnbindMapping(id: Id) returns (r: Result<Id, MapError>)
      requires IsMatching(mappings)
      modifies this`mappings
      ensures IsMatching(mappings)
      ensures id in old(mappings) && old(mappings)[id].active ==>
                r == Ok(id) && mappings == old(mappings)[id := old(mappings)[id].(active := false)]
      ensures !(id in old(mappings) && old(mappings)[id].active) ==>
                r == Err(MappingNotFound) && mappings == old(mappings)
    {
      if id !in mappings || !mappings[id].active { return Err(MappingNotFound); }
      mappings := mappings[id := mappings[id].(active := false)];
      return Ok(id);
    }

    /** Archiving a store at the version its caller saw makes it inactive and unbinds all its mappings;
        at another version, or for a missing store, nothing changes. */
    method ArchiveStore(store: Id, version: int) returns (error: Option<MapError>)
      requires IsMatching(mappings)
      modifies this
      ensures IsMatching(mappings)
      ensures error == if store !in old(stores) then Some(StoreNotFound)
                       else if old(stores)[store].version != version then Some(VersionConflict) else None
      ensures error.Some? ==> stores == old(stores) && mappings == old(mappings)
      ensures error.None? ==> stores == old(stores)[store := StoreRow(false, version + 1)]
      ensures error.None? ==>
                && mappings.Keys == old(mappings).Keys
                && (forall id | id in mappings :: mappings[id].store == store ==> !mappings[id].active)
                && (forall id | id in mappings :: mappings[id] == old(mappings)[id].(active := mappings[id].active))
                && (forall id | id in mappings && mappings[id].store != store :: mappings[id] == old(mappings)[id])
    {
      if store !in stores { return Some(StoreNotFound); }
      if stores[store].version != version { return Some(VersionConflict); }
      stores := stores[store := StoreRow(false, version + 1)];
      mappings := map id | id in mappings ::
        if mappings[id].store == store then mappings[id].(active := false) else mappings[id];
      return None;
    }
  }

  /* ---- Racing callers ---- */

  /** A caller asks for a pair, and is between its check and its insert when `Checked`. */
  datatype Phase = Checked(store: Id, poi: Id, connection: Id) | Unbinding(mapping: Id)

  datatype State = State(context: Context, mappings: Table, phases: map<Caller, Phase>)

  datatype Step =
    | Check(c: Caller, store: Id, poi: Id)
    | Insert(c: Caller, newId: Id)
    | ReadActive(c: Caller, mapping: Id)
    | WriteUnbound(c: Caller)
    | ArchiveStore(store: Id)

  predicate Enabled(s: State, e: Step) {
    match e
    case Check(c, _, poi) => c !in s.phases && poi in s.context.connections
    case Insert(c, newId) => c in s.phases && s.phases[c].Checked? && newId !in s.mappings
    case ReadActive(c, id) => c !in s.phases && id in s.mappings && s.mappings[id].active
    case WriteUnbound(c) => c in s.phases && s.phases[c].Unbinding? && s.phases[c].mapping in s.mappings
    case ArchiveStore(_) => true
  }

  /** The pair is free in both unique indexes. */
  predicate Free(t: Table, connection: Id, store: Id, poi: Id) {
    forall id | id in t :: !Conflicts(t, connection, store, poi, id)
  }

  /** The check lets a caller go on only when it found no conflict; the insert is refused by the
      indexes when there is one by then; an unbinding writes back what it read as active. */
  function Apply(s: State, e: Step): State
    requires Enabled(s, e)
  {
    match e
    case Check(c, store, poi) =>
      var connection := s.context.connections[poi];
      if store in s.context.stores && Free(s.mappings, connection, store, poi)
      then s.(phases := s.phases[c := Checked(store, poi, connection)]) else s
    case Insert(c, newId) =>
      var p := s.phases[c];
      s.(mappings := if Free(s.mappings, p.connection, p.store, p.poi)
                     then s.mappings[newId := Mapping(p.connection, p.store, p.poi, true)] else s.mappings,
         phases := s.phases - {c})
    case ReadActive(c, id) => s.(phases := s.phases[c := Unbinding(id)])
    case WriteUnbound(c) =>
      var id := s.phases[c].mapping;
      s.(mappings := s.mappings[id := s.mappings[id].(active := false)], phases := s.phases - {c})
    case ArchiveStore(store) =>
      s.(mappings := map id | id in s.mappings ::
           if s.mappings[id].store == store then s.mappings[id].(active := false) else s.mappings[id])
  }

  /** An active mapping of the connection with this store, or with this POI. */
  predicate Touches(m: Mapping, connection: Id, store: Id, poi: Id) {
    m.active && m.connection == connection && (m.store == store || m.poi == poi)
  }

  /** A check lets a caller who is doing nothing else go on, and remembers the connection of the POI,
      exactly if the store exists and no active mapping of the connection touches the store or the
      POI; it changes no row. */
  lemma CheckIs(s: State, c: Caller, store: Id, poi: Id)
    requires c !in s.phases && poi in s.context.connections
    ensures var e, connection := Check(c, store, poi), s.context.connections[poi];
            var clash := exists id :: id in s.mappings && Touches(s.mappings[id], connection, store, poi);
            && Enabled(s, e)
            && Apply(s, e) == (if store in s.context.stores && !clash
                               then s.(phases := s.phases[c := Checked(store, poi, connection)]) else s)
  {
    var connection := s.context.connections[poi];
    if id :| id in s.mappings && Touches(s.mappings[id], connection, store, poi) {
      assert Conflicts(s.mappings, connection, store, poi, id);
    }
  }

  /** An insert ends the call; it adds the active mapping exactly if by then still none touches the
      store or the POI. */
  lemma InsertIs(s: State, c: Caller, newId: Id)
    requires c in s.phases && s.phases[c].Checked? && newId !in s.mappings
    ensures var e, p := Insert(c, newId), s.phases[c];
            && Enabled(s, e)
            && Apply(s, e).phases == s.phases - {c} && Apply(s, e).context == s.context
            && (newId in Apply(s, e).mappings <==>
                  forall id | id in s.mappings :: !Touches(s.mappings[id], p.connection, p.store, p.poi))
            && Apply(s, e).mappings
               == (if newId in Apply(s, e).mappings
                   then s.mappings[newId := Mapping(p.connection, p.store, p.poi, true)] else s.mappings)
  {
    var p := s.phases[c];
    assert forall id | id in s.mappings ::
        Conflicts(s.mappings, p.connection, p.store, p.poi, id)
        <==> Touches(s.mappings[id], p.connection, p.store, p.poi);
  }

  /** An unbinding that found its mapping active makes it inactive, and archiving a store does so to all
      its mappings; nothing else changes. */
  lemma UnbindingIs(s: State, c: Caller, id: Id, store: Id)
    requires c !in s.phases && id in s.mappings
    ensures Enabled(s, ReadActive(c, id)) <==> s.mappings[id].active
    ensures s.mappings[id].active ==>
              var s' := Apply(s, ReadActive(c, id));
              && s' == s.(phases := s.phases[c := Unbinding(id)])
              && Enabled(s', WriteUnbound(c))
              && Apply(s', WriteUnbound(c)) == s.(mappings := s.mappings[id := s.mappings[id].(active := false)])
    ensures Enabled(s, ArchiveStore(store))
    ensures var after := Apply(s, ArchiveStore(store));
            && after == s.(mappings := after.mappings) && after.mappings.Keys == s.mappings.Keys
            && forall k | k in s.mappings ::
                 after.mappings[k] == Mapping(s.mappings[k].connection, s.mappings[k].store, s.mappings[k].poi,
                                              s.mappings[k].active && s.mappings[k].store != store)
  {
    assert s.phases[c := Unbinding(id)] - {c} == s.phases;
  }

  ghost predicate IsRun(ss: seq<State>, es: seq<Step>) {
    && |ss| == |es| + 1 && ss[0].mappings == map[] && ss[0].phases == map[]
    && forall i {:trigger Enabled(ss[i], es[i])} {:trigger Apply(ss[i], es[i])} | 0 <= i < |es| ::
         Enabled(ss[i], es[i]) && ss[i + 1] == Apply(ss[i], es[i])
  }

  /** The connection of a mapping is the connection of its POI. */
  ghost predicate Inv(s: State) {
    && IsMatching(s.mappings)
    && (forall id | id in s.mappings ::
          s.mappings[id].poi in s.context.connections
          && s.context.connections[s.mappings[id].poi] == s.mappings[id].connection)
    && (forall c | c in s.phases && s.phases[c].Checked? ::
          s.phases[c].poi in s.context.connections
          && s.context.connections[s.phases[c].poi] == s.phases[c].connection)
  }

  lemma StepKeepsInv(s: State, e: Step)
    requires Inv(s) && Enabled(s, e)
    ensures Inv(Apply(s, e)) && Apply(s, e).context == s.context
  {
    if e.Insert? {
      var p := s.phases[e.c];
      if Free(s.mappings, p.connection, p.store, p.poi) {
        assert forall id | id in s.mappings :: !Conflicts(s.mappings, p.connection, p.store, p.poi, id);
      }
    }
  }

  lemma {:induction false} RunKeepsInv(ss: seq<State>, es: seq<Step>, i: nat)
    requires IsRun(ss, es) && i < |ss|
    ensures Inv(ss[i])
  {
    if i > 0 {
      RunKeepsInv(ss, es, i - 1);
      assert Enabled(ss[i - 1], es[i - 1]);
      StepKeepsInv(ss[i - 1], es[i - 1]);
    }
  }

  /** In every interleaving the active mappings of each connection stay a partial matching, a POI
      has at most one active mapping overall, and so the check's answer is determined. */
  lemma MappingsStayAMatching(ss: seq<State>, es: seq<Step>, i: nat, connection: Id, store: Id, poi: Id)
    requires IsRun(ss, es) && i < |ss|
    ensures IsMatching(ss[i].mappings)
    ensures forall a, b | a in ss[i].mappings && b in ss[i].mappings && ss[i].mappings[a].active
                          && ss[i].mappings[b].active && ss[i].mappings[a].poi == ss[i].mappings[b].poi :: a == b
    ensures forall a, b | Conflicts(ss[i].mappings, connection, store, poi, a)
                          && Conflicts(ss[i].mappings, connection, store, poi, b) ::
              Verdict(ss[i].mappings, store, poi, a) == Verdict(ss[i].mappings, store, poi, b)
  {
    RunKeepsInv(ss, es, i);
    forall a, b | Conflicts(ss[i].mappings, connection, store, poi, a)
                  && Conflicts(ss[i].mappings, connection, store, poi, b)
      ensures Verdict(ss[i].mappings, store, poi, a) == Verdict(ss[i].mappings, store, poi, b)
    {
      VerdictIsDetermined(ss[i].mappings, connection, store, poi, a);
    }
  }

  /** A mapping that is no longer active stays so: unbinding and archiving are final. */
  lemma {:induction false} UnboundIsFinal(ss: seq<State>, es: seq<Step>, i: nat, j: nat, id: Id)
    requires IsRun(ss, es) && i <= j < |ss| && id in ss[i].mappings && !ss[i].mappings[id].active
    ensures id in ss[j].mappings && ss[j].mappings[id] == ss[i].mappings[id]
    decreases j
  {
    if i < j {
      UnboundIsFinal(ss, es, i, j - 1, id);
      assert Enabled(ss[j - 1], es[j - 1]) && ss[j] == Apply(ss[j - 1], es[j - 1]);
    }
  }
}
