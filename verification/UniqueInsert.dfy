/** Racing get-or-create on a table with a unique key: every caller first looks its key up and, if
    it found nothing, tries to insert; the unique constraint makes a late insert fail, and the
    caller then reads the row that won. Enqueueing an operation and ingesting a callback both work
    this way (backend/poi_admin/operations/service.py, backend/poi_admin/webhooks/service.py). */
module UniqueInsert {

  type RowId = string
  type Caller = nat

  datatype Entry<K, V> = Entry(key: K, value: V)

  /** How far a caller got. `Done` names the row it was given and whether it inserted that row. */
  datatype Phase = Start | Missed | Done(row: RowId, created: bool)

  datatype State<K, V> = State(rows: map<RowId, Entry<K, V>>, phases: map<Caller, Phase>)

  /** `found` is the row a query by key returns, if there is one; `newId` is the id generated for
      the row to insert. */
  datatype Step = Lookup(caller: Caller, found: RowId) | Insert(caller: Caller, found: RowId, newId: RowId)

  /** Which key and value each caller brings; one caller is one call. */
  type Calls<K, V> = map<Caller, Entry<K, V>>

  ghost predicate HasKey<K, V>(rows: map<RowId, Entry<K, V>>, key: K) {
    exists id :: id in rows && rows[id].key == key
  }

  /** The row a query by key returns. */
  ghost predicate IsRowOf<K, V>(rows: map<RowId, Entry<K, V>>, key: K, id: RowId) {
    id in rows && rows[id].key == key
  }

  /** The phase the caller is in after the step. */
  ghost function Outcome<K, V>(s: State<K, V>, e: Step, key: K): Phase {
    if HasKey(s.rows, key) then Done(e.found, false)
    else if e.Lookup? then Missed
    else Done(e.newId, true)
  }

  ghost predicate Next<K, V>(calls: Calls<K, V>, s: State<K, V>, e: Step, s': State<K, V>) {
    && e.caller in calls && e.caller in s.phases
    && s.phases[e.caller] == (if e.Lookup? then Start else Missed)
    && (HasKey(s.rows, calls[e.caller].key) ==> IsRowOf(s.rows, calls[e.caller].key, e.found))
    && (e.Insert? ==> e.newId !in s.rows)
    && s'.phases == s.phases[e.caller := Outcome(s, e, calls[e.caller].key)]
    && s'.rows == (if e.Insert? && !HasKey(s.rows, calls[e.caller].key)
                   then s.rows[e.newId := calls[e.caller]] else s.rows)
  }

  ghost predicate IsRun<K, V>(calls: Calls<K, V>, ss: seq<State<K, V>>, es: seq<Step>) {
    && |ss| == |es| + 1
    && ss[0].rows == map[]
    && ss[0].phases == (map c | c in calls :: Start)
    && forall i | 0 <= i < |es| :: Next(calls, ss[i], es[i], ss[i + 1])
  }

  /** Nobody is stuck: a caller who just started looks its key up and is answered exactly if some row has
      it; one who missed is answered with that row, or else with a new one that holds its value. */
  lemma CallersGoOn<K, V>(calls: Calls<K, V>, s: State<K, V>, c: Caller, newId: RowId)
    returns (e: Step, s': State<K, V>)
    requires c in calls && c in s.phases && !s.phases[c].Done? && newId !in s.rows
    ensures Next(calls, s, e, s') && e.caller == c && (e.Lookup? <==> s.phases[c] == Start)
    ensures (exists id :: id in s.rows && s.rows[id].key == calls[c].key) ==>
              && s'.rows == s.rows && s'.phases[c].Done? && !s'.phases[c].created
              && s'.phases[c].row in s.rows && s.rows[s'.phases[c].row].key == calls[c].key
    ensures !(exists id :: id in s.rows && s.rows[id].key == calls[c].key) ==>
              if e.Lookup? then s'.rows == s.rows && s'.phases[c] == Missed
              else s'.rows == s.rows[newId := calls[c]] && s'.phases[c] == Done(newId, true)
    ensures forall d | d in s.phases && d != c :: s'.phases[d] == s.phases[d]
  {
    var key, found := calls[c].key, newId;
    if id :| id in s.rows && s.rows[id].key == key { found := id; }
    e := if s.phases[c] == Start then Lookup(c, found) else Insert(c, found, newId);
    var rows := if e.Insert? && !HasKey(s.rows, key) then s.rows[newId := calls[c]] else s.rows;
    s' := State(rows, s.phases[c := Outcome(s, e, key)]);
    assert Next(calls, s, e, s');
  }

  /** Runs start with an empty table and nobody served, and go on by any step. */
  lemma RunsGoOn<K, V>(calls: Calls<K, V>, ss: seq<State<K, V>>, es: seq<Step>, e: Step, s': State<K, V>)
    ensures IsRun(calls, [State(map[], map c | c in calls :: Start)], [])
    ensures IsRun(calls, ss, es) && Next(calls, ss[|es|], e, s') ==> IsRun(calls, ss + [s'], es + [e])
  {
    if IsRun(calls, ss, es) && Next(calls, ss[|es|], e, s') {
      forall i | 0 <= i < |es| + 1 ensures Next(calls, (ss + [s'])[i], (es + [e])[i], (ss + [s'])[i + 1]) {
        if i < |es| { assert Next(calls, ss[i], es[i], ss[i + 1]); }
      }
    }
  }

  ghost predicate KeysUnique<K, V>(rows: map<RowId, Entry<K, V>>) {
    forall a, b | a in rows && b in rows && rows[a].key == rows[b].key :: a == b
  }

  /** An answered caller was given a row with its key; one it inserted holds its own value. */
  ghost predicate Answered<K, V>(calls: Calls<K, V>, s: State<K, V>, c: Caller)
    requires c in s.phases
  {
    && c in calls
    && (s.phases[c].Done? ==> IsRowOf(s.rows, calls[c].key, s.phases[c].row)
                              && (s.phases[c].created ==> s.rows[s.phases[c].row] == calls[c]))
  }

  ghost predicate Created<K, V>(s: State<K, V>, c: Caller, id: RowId) {
    c in s.phases && s.phases[c] == Done(id, true)
  }

  ghost predicate CallersServed<K, V>(calls: Calls<K, V>, s: State<K, V>) {
    && s.phases.Keys == calls.Keys
    && (forall c | c in s.phases :: Answered(calls, s, c))
    && (forall c, d, id | Created(s, c, id) && Created(s, d, id) :: c == d)
    && (forall id | id in s.rows :: exists c :: Created(s, c, id))
  }

  lemma StepKeepsKeysUnique<K, V>(calls: Calls<K, V>, s: State<K, V>, e: Step, s': State<K, V>)
    requires KeysUnique(s.rows) && Next(calls, s, e, s')
    ensures KeysUnique(s'.rows)
  {
  }

  lemma StepKeepsServed<K, V>(calls: Calls<K, V>, s: State<K, V>, e: Step, s': State<K, V>)
    requires CallersServed(calls, s) && Next(calls, s, e, s')
    ensures CallersServed(calls, s')
  {
    forall c | c in s'.phases ensures Answered(calls, s', c) {
      assert Answered(calls, s, c);
    }
    forall id | id in s'.rows ensures exists c :: Created(s', c, id) {
      if id in s.rows {
        var c :| Created(s, c, id);
        assert Created(s', c, id);
      } else {
        assert Created(s', e.caller, id);
      }
    }
    forall c, d, id | Created(s', c, id) && Created(s', d, id) ensures c == d {
      if c != e.caller { assert Created(s, c, id) && Answered(calls, s, c); }
      if d != e.caller { assert Created(s, d, id) && Answered(calls, s, d); }
    }
  }

  lemma {:induction false} RunServesCallers<K, V>(
    calls: Calls<K, V>, ss: seq<State<K, V>>, es: seq<Step>, i: nat)
    requires IsRun(calls, ss, es) && i < |ss|
    ensures KeysUnique(ss[i].rows) && CallersServed(calls, ss[i])
  {
    if i > 0 {
      RunServesCallers(calls, ss, es, i - 1);
      StepKeepsKeysUnique(calls, ss[i - 1], es[i - 1], ss[i]);
      StepKeepsServed(calls, ss[i - 1], es[i - 1], ss[i]);
    }
  }

  /** A row, once inserted, keeps its contents. */
  lemma {:induction false} RowsAreFixed<K, V>(
    calls: Calls<K, V>, ss: seq<State<K, V>>, es: seq<Step>, i: nat, j: nat, id: RowId)
    requires IsRun(calls, ss, es) && i <= j < |ss| && id in ss[i].rows
    ensures id in ss[j].rows && ss[j].rows[id] == ss[i].rows[id]
    decreases j
  {
    if i < j {
      RowsAreFixed(calls, ss, es, i, j - 1, id);
      assert Next(calls, ss[j - 1], es[j - 1], ss[j]);
    }
  }

  /** In every interleaving: at most one row per key; all callers of one key that are done were
      given one and the same row; and exactly one of them inserted it, with its own value. */
  lemma ExactlyOneCallerCreates<K, V>(
    calls: Calls<K, V>, ss: seq<State<K, V>>, es: seq<Step>, i: nat, c: Caller)
    returns (creator: Caller)
    requires IsRun(calls, ss, es) && i < |ss|
    requires c in calls && c in ss[i].phases && ss[i].phases[c].Done?
    ensures creator in calls && calls[creator].key == calls[c].key
    ensures Created(ss[i], creator, ss[i].phases[c].row)
    ensures ss[i].phases[c].row in ss[i].rows && ss[i].rows[ss[i].phases[c].row] == calls[creator]
    ensures forall d | d in calls && d in ss[i].phases && ss[i].phases[d].Done? && calls[d].key == calls[c].key ::
              ss[i].phases[d].row == ss[i].phases[c].row && (ss[i].phases[d].created <==> d == creator)
  {
    RunServesCallers(calls, ss, es, i);
    var s := ss[i];
    assert Answered(calls, s, c);
    var id := s.phases[c].row;
    creator :| Created(s, creator, id);
    assert Answered(calls, s, creator);
    forall d | d in calls && d in s.phases && s.phases[d].Done? && calls[d].key == calls[c].key
      ensures s.phases[d].row == id && (s.phases[d].created <==> d == creator)
    {
      assert Answered(calls, s, d);
      if s.phases[d].created { assert Created(s, d, id); }
    }
  }

  /* ---- Linearisation ---- */

  /** The atomic operation the race is meant to implement. */
  ghost predicate GetOrCreate<K, V>(
    rows: map<RowId, Entry<K, V>>, call: Entry<K, V>, rows': map<RowId, Entry<K, V>>, id: RowId, created: bool)
  {
    if HasKey(rows, call.key) then rows' == rows && IsRowOf(rows, call.key, id) && !created
    else created && id !in rows && rows' == rows[id := call]
  }

  /** The callers in the order in which they got their answer. */
  ghost function Served<K, V>(ss: seq<State<K, V>>, es: seq<Step>, n: nat): seq<Caller>
    requires n <= |es| < |ss|
  {
    if n == 0 then []
    else
      var c := es[n - 1].caller;
      Served(ss, es, n - 1) + if c in ss[n].phases && ss[n].phases[c].Done? then [c] else []
  }

  /** `tables` witnesses that running the calls of `order` atomically, one after the other, goes
      from the empty table to `rows` and answers every caller as `phases` does. */
  ghost predicate IsAtomicRun<K, V>(
    calls: Calls<K, V>, order: seq<Caller>, tables: seq<map<RowId, Entry<K, V>>>, s: State<K, V>)
  {
    && |tables| == |order| + 1 && tables[0] == map[] && tables[|order|] == s.rows
    && forall k | 0 <= k < |order| ::
         && order[k] in calls && order[k] in s.phases && s.phases[order[k]].Done?
         && GetOrCreate(tables[k], calls[order[k]], tables[k + 1],
                        s.phases[order[k]].row, s.phases[order[k]].created)
  }

  /** The step that answers a caller is that caller's atomic operation; any other step changes no
      row. */
  lemma StepRefines<K, V>(calls: Calls<K, V>, s: State<K, V>, e: Step, s': State<K, V>)
    requires Next(calls, s, e, s')
    ensures s'.phases[e.caller].Done? ==>
              GetOrCreate(s.rows, calls[e.caller], s'.rows,
                          s'.phases[e.caller].row, s'.phases[e.caller].created)
    ensures !s'.phases[e.caller].Done? ==> s'.rows == s.rows
  {
  }

  /** An atomic run stays one while no answered caller's answer and no row changes. */
  lemma AtomicRunFrame<K, V>(
    calls: Calls<K, V>, order: seq<Caller>, tables: seq<map<RowId, Entry<K, V>>>,
    s: State<K, V>, e: Step, s': State<K, V>)
    requires IsAtomicRun(calls, order, tables, s) && Next(calls, s, e, s')
    requires e.caller !in order
    ensures s'.rows == s.rows ==> IsAtomicRun(calls, order, tables, s')
    ensures s'.phases[e.caller].Done? ==> IsAtomicRun(calls, order + [e.caller], tables + [s'.rows], s')
  {
    StepRefines(calls, s, e, s');
    var order', tables' := order + [e.caller], tables + [s'.rows];
    if s'.phases[e.caller].Done? {
      forall k | 0 <= k < |order'|
        ensures order'[k] in calls && order'[k] in s'.phases && s'.phases[order'[k]].Done?
        ensures GetOrCreate(tables'[k], calls[order'[k]], tables'[k + 1],
                            s'.phases[order'[k]].row, s'.phases[order'[k]].created)
      {
        if k < |order| {
          assert order'[k] == order[k] && tables'[k] == tables[k] && tables'[k + 1] == tables[k + 1];
        } else {
          assert tables'[k] == s.rows && tables'[k + 1] == s'.rows;
        }
      }
    }
  }

  /** The served callers are those that have an answer, each once. */
  lemma {:induction false} AnsweredAreServed<K, V>(
    calls: Calls<K, V>, ss: seq<State<K, V>>, es: seq<Step>, n: nat)
    requires IsRun(calls, ss, es) && n <= |es|
    ensures ss[n].phases.Keys == calls.Keys
    ensures forall c | c in ss[n].phases :: ss[n].phases[c].Done? <==> c in Served(ss, es, n)
    ensures forall a, b | 0 <= a < b < |Served(ss, es, n)| :: Served(ss, es, n)[a] != Served(ss, es, n)[b]
  {
    if n > 0 {
      AnsweredAreServed(calls, ss, es, n - 1);
      assert Next(calls, ss[n - 1], es[n - 1], ss[n]);
      assert es[n - 1].caller !in Served(ss, es, n - 1);
    }
  }

  lemma AtomicRunGrows<K, V>(
    calls: Calls<K, V>, order: seq<Caller>, tables: seq<map<RowId, Entry<K, V>>>,
    s: State<K, V>, e: Step, s': State<K, V>) returns (tables': seq<map<RowId, Entry<K, V>>>)
    requires IsAtomicRun(calls, order, tables, s) && Next(calls, s, e, s')
    requires forall c | c in s.phases :: s.phases[c].Done? <==> c in order
    ensures IsAtomicRun(calls, order + if s'.phases[e.caller].Done? then [e.caller] else [], tables', s')
  {
    AtomicRunFrame(calls, order, tables, s, e, s');
    StepRefines(calls, s, e, s');
    if s'.phases[e.caller].Done? {
      tables' := tables + [s'.rows];
    } else {
      tables' := tables;
      assert order + [] == order;
    }
  }

  lemma {:induction false} AnswersAreAtomic<K, V>(
    calls: Calls<K, V>, ss: seq<State<K, V>>, es: seq<Step>, n: nat)
    returns (tables: seq<map<RowId, Entry<K, V>>>)
    requires IsRun(calls, ss, es) && n <= |es|
    ensures IsAtomicRun(calls, Served(ss, es, n), tables, ss[n])
  {
    if n == 0 {
      tables := [map[]];
    } else {
      var before := AnswersAreAtomic(calls, ss, es, n - 1);
      AnsweredAreServed(calls, ss, es, n - 1);
      assert Next(calls, ss[n - 1], es[n - 1], ss[n]);
      tables := AtomicRunGrows(calls, Served(ss, es, n - 1), before, ss[n - 1], es[n - 1], ss[n]);
    }
  }

  /** Every interleaving is equivalent to running the answered calls atomically in the order of
      their answers: same table, same answers, each answered caller exactly once. */
  lemma RaceLinearises<K, V>(calls: Calls<K, V>, ss: seq<State<K, V>>, es: seq<Step>, n: nat)
    returns (tables: seq<map<RowId, Entry<K, V>>>)
    requires IsRun(calls, ss, es) && n <= |es|
    ensures IsAtomicRun(calls, Served(ss, es, n), tables, ss[n])
    ensures ss[n].phases.Keys == calls.Keys
    ensures forall c | c in ss[n].phases :: ss[n].phases[c].Done? <==> c in Served(ss, es, n)
    ensures forall a, b | 0 <= a < b < |Served(ss, es, n)| :: Served(ss, es, n)[a] != Served(ss, es, n)[b]
  {
    tables := AnswersAreAtomic(calls, ss, es, n);
    AnsweredAreServed(calls, ss, es, n);
  }
}
