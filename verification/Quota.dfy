/**
 The sandbox quota: creates and restores check the row count and insert a row while holding
 one gate, concurrently with destroys and reconciliations that only remove rows.
 */
module Quota {
  import opened Options

  type Id = nat
  type Proc = nat

  datatype CreateAt = WantsGate | Counting | Admitted | HasRow(row: Id)

  datatype State = State(limit: nat, rows: set<Id>, gate: Option<Proc>, creates: map<Proc, CreateAt>)

  datatype Act =
    | Begin(p: Proc)
    | TakeGate(p: Proc)
    | Count(p: Proc, ok: bool)       // `check_quota`; a registry that cannot be read refuses
    | Insert(p: Proc, row: Id)
    | FailBeforeRow(p: Proc)
    | Finish(p: Proc, ok: bool)      // success, or a rollback that removes the row
    | Remove(row: Id)                // destroy and reconcile

  predicate Enabled(s: State, a: Act) {
    match a
    case Begin(p) => p !in s.creates
    case TakeGate(p) => p in s.creates && s.creates[p].WantsGate? && s.gate.None?
    case Count(p, _) => p in s.creates && s.creates[p].Counting?
    case Insert(p, row) => p in s.creates && s.creates[p].Admitted? && row !in s.rows
    case FailBeforeRow(p) => p in s.creates && s.creates[p].Admitted?
    case Finish(p, _) => p in s.creates && s.creates[p].HasRow?
    case Remove(_) => true
  }

  function Next(s: State, a: Act): State
    requires Enabled(s, a)
  {
    match a
    case Begin(p) => s.(creates := s.creates[p := WantsGate])
    case TakeGate(p) => s.(gate := Some(p), creates := s.creates[p := Counting])
    case Count(p, ok) =>
      if !ok || |s.rows| >= s.limit then s.(gate := None, creates := s.creates - {p})
      else s.(creates := s.creates[p := Admitted])
    case Insert(p, row) => s.(rows := s.rows + {row}, creates := s.creates[p := HasRow(row)])
    case FailBeforeRow(p) => s.(gate := None, creates := s.creates - {p})
    case Finish(p, ok) =>
      s.(rows := if ok then s.rows else s.rows - {s.creates[p].row}, gate := None, creates := s.creates - {p})
    case Remove(row) => s.(rows := s.rows - {row})
  }

  ghost predicate Run(ss: seq<State>, acts: seq<Act>) {
    && |ss| == |acts| + 1
    && ss[0].gate == None && ss[0].creates == map[] && |ss[0].rows| <= ss[0].limit
    && forall i | 0 <= i < |acts| :: Enabled(ss[i], acts[i]) && ss[i + 1] == Next(ss[i], acts[i])
  }

  /** Past the gate there is one create, and once admitted there is room for its row. */
  ghost predicate WithinQuota(s: State) {
    && |s.rows| <= s.limit
    && (forall p | p in s.creates :: s.creates[p].WantsGate? || s.gate == Some(p))
    && (s.gate.Some? ==> s.gate.value in s.creates && !s.creates[s.gate.value].WantsGate?)
    && (forall p | p in s.creates && s.creates[p].Admitted? :: |s.rows| < s.limit)
  }

  lemma RemovingShrinks(rows: set<Id>, row: Id)
    ensures |rows - {row}| <= |rows|
  {
    if row in rows {
      assert rows == rows - {row} + {row};
    } else {
      assert rows - {row} == rows;
    }
  }

  lemma StepsStayWithinQuota(s: State, a: Act)
    requires WithinQuota(s) && Enabled(s, a)
    ensures WithinQuota(Next(s, a))
  {
    if a.Remove? {
      RemovingShrinks(s.rows, a.row);
    } else if a.Finish? {
      RemovingShrinks(s.rows, s.creates[a.p].row);
    }
  }

  /**
   A create is refused only if the registry cannot be read or the rows are at the limit, it
   lets the gate go whenever it ends, and if it fails it leaves no row of its own.
   */
  lemma CreatesEndRightly(ss: seq<State>, acts: seq<Act>, i: nat, p: Proc)
    requires Run(ss, acts) && i < |acts|
    requires p in ss[i].creates
    ensures acts[i].Count? && acts[i].p == p ==>
      (p !in ss[i + 1].creates <==> !acts[i].ok || |ss[i].rows| >= ss[i].limit)
    ensures p !in ss[i + 1].creates ==>
      && ss[i + 1].gate == None
      && (ss[i].creates[p].HasRow? && acts[i] == Finish(p, false) ==> ss[i].creates[p].row !in ss[i + 1].rows)
      && (acts[i] == Finish(p, false) || acts[i] == Finish(p, true) ==> ss[i].creates[p].HasRow?)
      && (acts[i] == Finish(p, true) ==> ss[i + 1].rows == ss[i].rows)
    ensures p in ss[i + 1].creates && ss[i + 1].creates[p].HasRow? ==>
      ss[i + 1].creates[p] == ss[i].creates[p] || acts[i] == Insert(p, ss[i + 1].creates[p].row)
  {
    RunsStayWithinQuota(ss, acts, i);
  }

  /** The number of sandbox rows never exceeds the limit, under any interleaving. */
  lemma {:induction false} RunsStayWithinQuota(ss: seq<State>, acts: seq<Act>, i: nat)
    requires Run(ss, acts) && i < |ss|
    ensures WithinQuota(ss[i]) && ss[i].limit == ss[0].limit && |ss[i].rows| <= ss[0].limit
  {
    if i > 0 {
      RunsStayWithinQuota(ss, acts, i - 1);
      StepsStayWithinQuota(ss[i - 1], acts[i - 1]);
    }
  }
}
