/**
 * Health checks of src/health.c.  An evaluation walks the registry under the registry mutex and
 * retains each check of its kind in a snapshot, runs the callbacks without the mutex, and then
 * releases the snapshot check by check.  Unregistering removes a check under the mutex, waits
 * until no snapshot holds it, and frees it.  Steps of all threads interleave.
 */
module Health {
  import opened Common
  import opened Sums
  import Runs

  type Id = nat
  type Eval = nat

  datatype Kind = Live | Ready | Startup

  datatype Check = Check(id: Id, kind: Kind)

  datatype Progress =
    | Walking(pos: nat)      // holds the registry mutex, has visited pos checks
    | Running                // runs callbacks
    | Releasing              // gives the snapshot up

  datatype Evaluation = Evaluation(
    kind: Kind,
    progress: Progress,
    held: seq<Id>,           // the checks its snapshot still holds
    taken: seq<Id>,          // the checks it took
    inCallback: bool,
    results: seq<bool>,      // what the callbacks answered
    ok: bool)                // no check was lost while taking the snapshot

  datatype State = State(
    registry: seq<Check>,
    nextId: Id,
    mutex: Option<Eval>,
    active: map<Id, int>,            // activeSnapshots of every check not yet freed
    evals: map<Eval, Evaluation>,
    waiting: set<Id>,                // removed from the registry, unregister still waiting
    freed: set<Id>)                  // unregister has returned

  datatype Step =
    | Register(kind: Kind)
    | Unregister(id: Id)
    | UnregisterReturns(id: Id)
    | Lock(e: Eval, kind: Kind)
    | Visit(e: Eval, pushed: bool)
    | Unlock(e: Eval)
    | BeginCallback(e: Eval)
    | EndCallback(e: Eval, result: bool)
    | Finish(e: Eval)
    | ReleaseOne(e: Eval)

  const INITIAL := State([], 1, None, map[], map[], {}, {})

  function Ids(registry: seq<Check>, kind: Kind, n: nat): seq<Id>
    requires n <= |registry|
  {
    if n == 0 then []
    else Ids(registry, kind, n - 1) + if registry[n - 1].kind == kind then [registry[n - 1].id] else []
  }

  /** The registry without the checks of an id. */
  function Without(registry: seq<Check>, id: Id): seq<Check> {
    if registry == [] then []
    else
      var n := |registry| - 1;
      Without(registry[..n], id) + if registry[n].id == id then [] else [registry[n]]
  }

  predicate Registered(registry: seq<Check>, id: Id) { exists c <- registry :: c.id == id }

  /** The callbacks still to run: none after one that failed. */
  predicate MoreToRun(v: Evaluation) { |v.results| < |v.taken| && v.ok && false !in v.results }

  predicate Enabled(s: State, step: Step) {
    match step
    case Register(_) => s.mutex == None
    case Unregister(id) => s.mutex == None && Registered(s.registry, id)
    case UnregisterReturns(id) => id in s.waiting && id in s.active && s.active[id] == 0
    case Lock(e, _) => s.mutex == None && e !in s.evals
    case Visit(e, _) =>
      && s.mutex == Some(e) && e in s.evals && s.evals[e].progress.Walking? && s.evals[e].ok
      && s.evals[e].progress.pos < |s.registry| && s.registry[s.evals[e].progress.pos].id in s.active
    case Unlock(e) =>
      && s.mutex == Some(e) && e in s.evals && s.evals[e].progress.Walking?
      && (s.evals[e].ok ==> s.evals[e].progress.pos == |s.registry|)
    case BeginCallback(e) =>
      e in s.evals && s.evals[e].progress.Running? && !s.evals[e].inCallback && MoreToRun(s.evals[e])
    case EndCallback(e, _) => e in s.evals && s.evals[e].inCallback
    case Finish(e) =>
      e in s.evals && s.evals[e].progress.Running? && !s.evals[e].inCallback && !MoreToRun(s.evals[e])
    case ReleaseOne(e) =>
      && e in s.evals && s.evals[e].progress.Releasing?
      && s.evals[e].held != [] && s.evals[e].held[|s.evals[e].held| - 1] in s.active
  }

  /** One turn of the walk: a check of the kind is retained; if it cannot be kept it is released again. */
  function DoVisit(s: State, e: Eval, pushed: bool): State
    requires Enabled(s, Visit(e, pushed))
  {
    var v := s.evals[e];
    var c := s.registry[v.progress.pos];
    var w := v.(progress := Walking(v.progress.pos + 1));
    if c.kind != v.kind then s.(evals := s.evals[e := w])
    else if !pushed then s.(evals := s.evals[e := w.(ok := false)])
    else s.(active := s.active[c.id := s.active[c.id] + 1],
            evals := s.evals[e := w.(held := v.held + [c.id], taken := v.taken + [c.id])])
  }

  function Apply(s: State, step: Step): State
    requires Enabled(s, step)
  {
    match step
    case Register(kind) =>
      s.(registry := s.registry + [Check(s.nextId, kind)], nextId := s.nextId + 1, active := s.active[s.nextId := 0])
    case Unregister(id) => s.(registry := Without(s.registry, id), waiting := s.waiting + {id})
    case UnregisterReturns(id) => s.(waiting := s.waiting - {id}, freed := s.freed + {id}, active := s.active - {id})
    case Lock(e, kind) =>
      s.(mutex := Some(e), evals := s.evals[e := Evaluation(kind, Walking(0), [], [], false, [], true)])
    case Visit(e, pushed) => DoVisit(s, e, pushed)
    case Unlock(e) => s.(mutex := None, evals := s.evals[e := s.evals[e].(progress := Running)])
    case BeginCallback(e) => s.(evals := s.evals[e := s.evals[e].(inCallback := true)])
    case EndCallback(e, result) =>
      s.(evals := s.evals[e := s.evals[e].(inCallback := false, results := s.evals[e].results + [result])])
    case Finish(e) => s.(evals := s.evals[e := s.evals[e].(progress := Releasing)])
    case ReleaseOne(e) =>
      var v := s.evals[e];
      var n := |v.held| - 1;
      s.(active := s.active[v.held[n] := s.active[v.held[n]] - 1], evals := s.evals[e := v.(held := v.held[..n])])
  }

  // ---- the invariant ----

  /** How often each snapshot holds a check. */
  ghost function Holders(evals: map<Eval, Evaluation>, id: Id): map<nat, nat> {
    map e | e in evals :: multiset(evals[e].held)[id]
  }

  /** activeSnapshots is the number of snapshots holding the check; a freed check is held by none. */
  ghost predicate CheckOk(s: State, id: Id) {
    && (id in s.active ==> s.active[id] == Sum(Holders(s.evals, id)))
    && (id !in s.active ==> Sum(Holders(s.evals, id)) == 0)
    && (Registered(s.registry, id) ==> id in s.active && id !in s.waiting)
    && (id in s.waiting ==> id in s.active)
    && (id in s.freed ==> id !in s.active)
    && (s.nextId <= id ==> id !in s.active && id !in s.freed)
  }

  ghost predicate EvalOk(s: State, e: Eval)
    requires e in s.evals
  {
    var v := s.evals[e];
    && (v.progress.Walking? <==> s.mutex == Some(e))
    && (v.progress.Walking? ==>
          v.progress.pos <= |s.registry| && v.results == []
          && (v.ok ==> v.taken == Ids(s.registry, v.kind, v.progress.pos)))
    && (!v.progress.Releasing? ==> v.held == v.taken)
    && (v.inCallback ==> v.progress.Running? && MoreToRun(v))
    && |v.results| <= |v.taken|
    && (forall k :: 0 <= k < |v.results| - 1 ==> v.results[k])
    && (v.progress.Releasing? ==> !MoreToRun(v))
  }

  ghost predicate Inv(s: State) {
    && (forall id {:trigger CheckOk(s, id)} :: CheckOk(s, id))
    && (forall e {:trigger EvalOk(s, e)} :: e in s.evals ==> EvalOk(s, e))
    && (s.mutex.Some? ==> s.mutex.value in s.evals)
  }

  lemma EvalPut(evals: map<Eval, Evaluation>, e: Eval, v: Evaluation, id: Id)
    ensures Sum(Holders(evals[e := v], id)) ==
            Sum(Holders(evals, id)) - (if e in evals then multiset(evals[e].held)[id] else 0) + multiset(v.held)[id]
    ensures e in evals ==> Sum(Holders(evals, id)) >= multiset(evals[e].held)[id]
  {
    SumPut(Holders(evals, id), e, multiset(v.held)[id]);
    SumRemove(Holders(evals, id), e);
    assert Holders(evals[e := v], id) == Holders(evals, id)[e := multiset(v.held)[id]];
  }

  lemma {:induction false} WithoutRegistered(registry: seq<Check>, id: Id, x: Id)
    ensures Registered(Without(registry, id), x) <==> Registered(registry, x) && x != id
  {
    if registry != [] {
      var n := |registry| - 1;
      WithoutRegistered(registry[..n], id, x);
      assert registry == registry[..n] + [registry[n]];
    }
  }

  lemma RegisterKeeps(s: State, kind: Kind)
    requires Inv(s) && Enabled(s, Register(kind))
    ensures Inv(Apply(s, Register(kind)))
  {
    var r := Apply(s, Register(kind));
    assert CheckOk(s, s.nextId);
    forall id ensures CheckOk(r, id) {
      assert CheckOk(s, id);
      assert Registered(r.registry, id) <==> Registered(s.registry, id) || id == s.nextId;
    }
    forall e | e in r.evals ensures EvalOk(r, e) { assert EvalOk(s, e); }
  }

  lemma UnregisterKeeps(s: State, id: Id)
    requires Inv(s) && Enabled(s, Unregister(id))
    ensures Inv(Apply(s, Unregister(id)))
  {
    var r := Apply(s, Unregister(id));
    forall x ensures CheckOk(r, x) {
      assert CheckOk(s, x);
      WithoutRegistered(s.registry, id, x);
    }
    forall e | e in r.evals ensures EvalOk(r, e) { assert EvalOk(s, e); }
  }

  lemma ReturnKeeps(s: State, id: Id)
    requires Inv(s) && Enabled(s, UnregisterReturns(id))
    ensures Inv(Apply(s, UnregisterReturns(id)))
  {
    var r := Apply(s, UnregisterReturns(id));
    forall x ensures CheckOk(r, x) { assert CheckOk(s, x); }
    forall e | e in r.evals ensures EvalOk(r, e) { assert EvalOk(s, e); }
  }

  /** Steps that change one evaluation and neither the snapshots nor the counts. */
  lemma EvalKeeps(s: State, r: State, e: Eval)
    requires Inv(s) && e in r.evals && r == s.(evals := s.evals[e := r.evals[e]], mutex := r.mutex)
    requires multiset(r.evals[e].held) == if e in s.evals then multiset(s.evals[e].held) else multiset{}
    requires EvalOk(r, e) && (r.mutex == s.mutex || r.mutex == Some(e) || (s.mutex == Some(e) && r.mutex == None))
    requires r.mutex == Some(e) ==> s.mutex == None || s.mutex == Some(e)
    ensures Inv(r)
  {
    forall id ensures CheckOk(r, id) {
      assert CheckOk(s, id);
      EvalPut(s.evals, e, r.evals[e], id);
    }
    forall f | f in r.evals ensures EvalOk(r, f) {
      if f != e { assert EvalOk(s, f); }
    }
  }

  /** Retaining or releasing: the count of one check moves with one snapshot. */
  lemma CountKeeps(s: State, r: State, e: Eval, id: Id)
    requires Inv(s) && e in s.evals && e in r.evals && id in s.active && id in r.active
    requires r == s.(evals := s.evals[e := r.evals[e]], active := s.active[id := r.active[id]])
    requires forall x :: multiset(r.evals[e].held)[x] == multiset(s.evals[e].held)[x]
                                                        + if x == id then r.active[id] - s.active[id] else 0
    requires EvalOk(r, e)
    ensures Inv(r)
  {
    forall x ensures CheckOk(r, x) {
      assert CheckOk(s, x);
      EvalPut(s.evals, e, r.evals[e], x);
    }
    forall f | f in r.evals ensures EvalOk(r, f) {
      if f != e { assert EvalOk(s, f); }
    }
  }

  lemma VisitKeeps(s: State, e: Eval, pushed: bool)
    requires Inv(s) && Enabled(s, Visit(e, pushed))
    ensures Inv(Apply(s, Visit(e, pushed)))
  {
    var r := Apply(s, Visit(e, pushed));
    var v := s.evals[e];
    var c := s.registry[v.progress.pos];
    assert EvalOk(s, e);
    if c.kind == v.kind && pushed {
      assert multiset(v.held + [c.id]) == multiset(v.held) + multiset{c.id};
      CountKeeps(s, r, e, c.id);
    } else {
      EvalKeeps(s, r, e);
    }
  }

  lemma ReleaseKeeps(s: State, e: Eval)
    requires Inv(s) && Enabled(s, ReleaseOne(e))
    ensures Inv(Apply(s, ReleaseOne(e)))
  {
    var v := s.evals[e];
    var n := |v.held| - 1;
    assert EvalOk(s, e);
    assert v.held == v.held[..n] + [v.held[n]];
    CountKeeps(s, Apply(s, ReleaseOne(e)), e, v.held[n]);
  }

  lemma StepKeeps(s: State, step: Step)
    requires Inv(s) && Enabled(s, step)
    ensures Inv(Apply(s, step))
  {
    match step
    case Register(kind) => RegisterKeeps(s, kind);
    case Unregister(id) => UnregisterKeeps(s, id);
    case UnregisterReturns(id) => ReturnKeeps(s, id);
    case Visit(e, pushed) => VisitKeeps(s, e, pushed);
    case ReleaseOne(e) => ReleaseKeeps(s, e);
    case Lock(e, _) => EvalKeeps(s, Apply(s, step), e);
    case _ =>
      assert EvalOk(s, step.e);
      EvalKeeps(s, Apply(s, step), step.e);
  }

  // ---- no snapshot holds a check twice ----

  ghost predicate DistinctIds(registry: seq<Check>) {
    forall i, j :: 0 <= i < j < |registry| ==> registry[i].id != registry[j].id
  }

  ghost predicate HoldsOnce(v: Evaluation) { forall id :: multiset(v.held)[id] <= 1 }

  ghost predicate Once(s: State) {
    DistinctIds(s.registry) && forall e :: e in s.evals ==> HoldsOnce(s.evals[e])
  }

  lemma {:induction false} WithoutDistinct(registry: seq<Check>, id: Id)
    requires DistinctIds(registry)
    ensures DistinctIds(Without(registry, id))
  {
    if registry != [] {
      var n := |registry| - 1;
      WithoutDistinct(registry[..n], id);
      if registry[n].id != id {
        WithoutRegistered(registry[..n], id, registry[n].id);
        var w := Without(registry[..n], id);
        assert forall i :: 0 <= i < |w| ==> w[i] in w && Registered(w, w[i].id);
        assert forall c <- registry[..n] :: c.id != registry[n].id;
      }
    }
  }

  /** Some entry among the first n of the registry has this id and this kind. */
  ghost predicate Lists(registry: seq<Check>, n: nat, kind: Kind, id: Id) {
    exists i :: 0 <= i < n && i < |registry| && registry[i] == Check(id, kind)
  }

  /** One entry stands before another in the registry. */
  ghost predicate Before(registry: seq<Check>, id: Id, other: Id) {
    exists i, j :: 0 <= i < j < |registry| && registry[i].id == id && registry[j].id == other
  }

  /** The ids picked are those of the entries of the kind, */
  lemma {:induction false} IdsAre(registry: seq<Check>, kind: Kind, n: nat, id: Id)
    requires n <= |registry|
    ensures id in Ids(registry, kind, n) <==> Lists(registry, n, kind, id)
  {
    if n > 0 {
      IdsAre(registry, kind, n - 1, id);
      if registry[n - 1] == Check(id, kind) { assert id in Ids(registry, kind, n); }
    }
  }

  /** in the order of the registry. */
  lemma {:induction false} IdsInOrder(registry: seq<Check>, kind: Kind, n: nat, x: nat, y: nat)
    requires n <= |registry| && x < y < |Ids(registry, kind, n)|
    ensures Before(registry, Ids(registry, kind, n)[x], Ids(registry, kind, n)[y])
  {
    var ids := Ids(registry, kind, n - 1);
    if y < |ids| {
      IdsInOrder(registry, kind, n - 1, x, y);
    } else {
      assert ids[x] in ids;
      IdsAre(registry, kind, n - 1, ids[x]);
      var i :| 0 <= i < n - 1 && registry[i] == Check(ids[x], kind);
      assert registry[n - 1].id == Ids(registry, kind, n)[y];
    }
  }

  lemma {:induction false} WithoutInOrder(registry: seq<Check>, id: Id, x: Id, y: Id)
    requires Before(Without(registry, id), x, y)
    ensures Before(registry, x, y)
  {
    var n := |registry| - 1;
    var w := Without(registry[..n], id);
    var i, j :| 0 <= i < j < |Without(registry, id)| && Without(registry, id)[i].id == x && Without(registry, id)[j].id == y;
    if j < |w| {
      assert Before(w, x, y);
      WithoutInOrder(registry[..n], id, x, y);
      var a, b :| 0 <= a < b < n && registry[..n][a].id == x && registry[..n][b].id == y;
      assert registry[a].id == x && registry[b].id == y;
    } else {
      assert w[i] in w && Registered(w, x);
      WithoutRegistered(registry[..n], id, x);
      var c :| c in registry[..n] && c.id == x;
      var a :| 0 <= a < n && registry[a] == c;
      assert registry[n].id == y;
    }
  }

  /** Registering appends a check with a new id; unregistering takes out its id alone and keeps the order. */
  lemma RegistryMoves(s: State, step: Step, x: Id, y: Id)
    requires Enabled(s, step)
    ensures step.Register? ==>
              Apply(s, step).registry == s.registry + [Check(s.nextId, step.kind)] && Apply(s, step).nextId > s.nextId
    ensures step.Unregister? ==>
              && (Registered(Apply(s, step).registry, x) <==> Registered(s.registry, x) && x != step.id)
              && (Before(Apply(s, step).registry, x, y) ==> Before(s.registry, x, y))
    ensures !step.Register? && !step.Unregister? ==> Apply(s, step).registry == s.registry
  {
    if step.Unregister? {
      WithoutRegistered(s.registry, step.id, x);
      if Before(Without(s.registry, step.id), x, y) { WithoutInOrder(s.registry, step.id, x, y); }
    }
  }

  lemma RegisterOnce(s: State, kind: Kind)
    requires Inv(s) && Once(s) && Enabled(s, Register(kind))
    ensures Once(Apply(s, Register(kind)))
  {
    forall i | 0 <= i < |s.registry| ensures s.registry[i].id != s.nextId {
      assert s.registry[i] in s.registry && Registered(s.registry, s.registry[i].id);
      assert CheckOk(s, s.registry[i].id);
    }
  }

  lemma VisitOnce(s: State, e: Eval, pushed: bool)
    requires Inv(s) && Once(s) && Enabled(s, Visit(e, pushed))
    ensures Once(Apply(s, Visit(e, pushed)))
  {
    var v := s.evals[e];
    var c := s.registry[v.progress.pos];
    assert EvalOk(s, e) && HoldsOnce(v);
    IdsAre(s.registry, v.kind, v.progress.pos, c.id);
    assert HoldsOnce(v.(held := v.held + [c.id]));
  }

  lemma ReleaseOnce(s: State, e: Eval)
    requires Once(s) && Enabled(s, ReleaseOne(e))
    ensures Once(Apply(s, ReleaseOne(e)))
  {
    var v, n := s.evals[e], |s.evals[e].held| - 1;
    assert HoldsOnce(v);
    MultisetPop(v.held);
    forall id ensures multiset(v.held[..n])[id] <= 1 { assert multiset(v.held)[id] <= 1; }
    assert HoldsOnce(v.(held := v.held[..n]));
  }

  lemma StepOnce(s: State, step: Step)
    requires Inv(s) && Once(s) && Enabled(s, step)
    ensures Once(Apply(s, step))
  {
    match step
    case Register(kind) => RegisterOnce(s, kind);
    case Unregister(id) => WithoutDistinct(s.registry, id);
    case Visit(e, pushed) => VisitOnce(s, e, pushed);
    case ReleaseOne(e) => ReleaseOnce(s, e);
    case _ =>
  }

  // ---- runs ----

  predicate Init(s: State) { s == INITIAL }

  predicate Next(s: State, step: Step, r: State) { Enabled(s, step) && Apply(s, step) == r }

  ghost predicate Run(states: seq<State>, steps: seq<Step>) { Runs.Run(Init, Next, states, steps) }

  lemma {:induction false} RunKeeps(states: seq<State>, steps: seq<Step>, k: nat)
    requires Run(states, steps) && k < |states|
    ensures Inv(states[k])
  {
    if k == 0 {
      forall id ensures CheckOk(states[0], id) { assert Holders(states[0].evals, id) == map[]; }
    } else {
      RunKeeps(states, steps, k - 1);
      assert Runs.StepAt(Next, states, steps, k - 1);
      StepKeeps(states[k - 1], steps[k - 1]);
    }
  }

  /** The evaluations whose snapshot holds a check. */
  ghost function Holding(evals: map<Eval, Evaluation>, id: Id): set<Eval> {
    set e | e in evals && id in evals[e].held
  }

  lemma {:induction false} RunOnce(states: seq<State>, steps: seq<Step>, k: nat)
    requires Run(states, steps) && k < |states|
    ensures Once(states[k])
  {
    if k > 0 {
      RunOnce(states, steps, k - 1);
      RunKeeps(states, steps, k - 1);
      assert Runs.StepAt(Next, states, steps, k - 1);
      StepOnce(states[k - 1], steps[k - 1]);
    }
  }

  /** activeSnapshots is the number of live snapshots that hold the check. */
  lemma ActiveCountsSnapshots(states: seq<State>, steps: seq<Step>, k: nat, id: Id)
    requires Run(states, steps) && k < |states| && id in states[k].active
    ensures states[k].active[id] == |Holding(states[k].evals, id)|
  {
    RunKeeps(states, steps, k);
    RunOnce(states, steps, k);
    var evals := states[k].evals;
    assert CheckOk(states[k], id);
    forall e | e in evals ensures Holders(evals, id)[e] <= 1 { assert HoldsOnce(evals[e]); }
    SumOfOnes(Holders(evals, id));
    assert Ones(Holders(evals, id)) == Holding(evals, id);
  }

  /** While a callback runs, its check has not been freed: no unregister of it has returned. */
  lemma NoCallbackAfterUnregister(states: seq<State>, steps: seq<Step>, k: nat, e: Eval)
    requires Run(states, steps) && k < |states| && e in states[k].evals && states[k].evals[e].inCallback
    ensures var v := states[k].evals[e];
            && |v.results| < |v.taken|
            && var id := v.taken[|v.results|];
            && id !in states[k].freed && id in states[k].active && states[k].active[id] > 0
  {
    RunKeeps(states, steps, k);
    var s, v := states[k], states[k].evals[e];
    assert EvalOk(s, e);
    var id := v.taken[|v.results|];
    assert CheckOk(s, id);
    EvalPut(s.evals, e, v, id);
    assert id in v.held;
  }

  /** Once a check has left the registry it never returns, and its count only falls. */
  lemma OnlyFallsOnceRemoved(states: seq<State>, steps: seq<Step>, k: nat, id: Id)
    requires Run(states, steps) && k < |steps|
    requires !Registered(states[k].registry, id) && id < states[k].nextId
    ensures !Registered(states[k + 1].registry, id) && id < states[k + 1].nextId
    ensures id in states[k + 1].active ==> id in states[k].active && states[k + 1].active[id] <= states[k].active[id]
  {
    RunKeeps(states, steps, k);
    assert Runs.StepAt(Next, states, steps, k);
    var s, step := states[k], steps[k];
    match step
    case Register(_) =>
    case Unregister(x) => WithoutRegistered(s.registry, x, id);
    case Visit(e, _) => assert Registered(s.registry, s.registry[s.evals[e].progress.pos].id);
    case _ =>
  }

  /** An evaluation that lost no check took exactly the registered checks of its kind, in registry order. */
  lemma SnapshotTakesAll(states: seq<State>, steps: seq<Step>, k: nat, e: Eval)
    requires Run(states, steps) && k < |steps| && steps[k] == Unlock(e)
    ensures e in states[k].evals
    ensures var v, registry := states[k].evals[e], states[k].registry;
            v.ok ==>
              && (forall id :: id in v.taken <==> Check(id, v.kind) in registry)
              && (forall x, y :: 0 <= x < y < |v.taken| ==> Before(registry, v.taken[x], v.taken[y]))
  {
    RunKeeps(states, steps, k);
    assert Runs.StepAt(Next, states, steps, k);
    assert EvalOk(states[k], e);
    var v, registry := states[k].evals[e], states[k].registry;
    if v.ok {
      forall id ensures id in v.taken <==> Check(id, v.kind) in registry {
        IdsAre(registry, v.kind, |registry|, id);
      }
      forall x, y | 0 <= x < y < |v.taken| ensures Before(registry, v.taken[x], v.taken[y]) {
        IdsInOrder(registry, v.kind, |registry|, x, y);
      }
    }
  }

  /** No check is taken twice. */
  lemma TakenDistinct(states: seq<State>, steps: seq<Step>, k: nat, e: Eval)
    requires Run(states, steps) && k < |steps| && steps[k] == Unlock(e)
    ensures e in states[k].evals
    ensures var taken := states[k].evals[e].taken; forall x, y :: 0 <= x < y < |taken| ==> taken[x] != taken[y]
  {
    RunKeeps(states, steps, k);
    RunOnce(states, steps, k);
    assert Runs.StepAt(Next, states, steps, k);
    assert EvalOk(states[k], e) && HoldsOnce(states[k].evals[e]);
    OnceMeansDistinct(states[k].evals[e].held);
  }

  /** What an evaluation runs is what it took under the lock. */
  lemma {:induction false} TakenUnderLock(states: seq<State>, steps: seq<Step>, k: nat, e: Eval) returns (u: nat)
    requires Run(states, steps) && k < |states|
    requires e in states[k].evals && !states[k].evals[e].progress.Walking?
    ensures u < k && steps[u] == Unlock(e) && e in states[u].evals
    ensures var v, w := states[u].evals[e], states[k].evals[e];
            w.kind == v.kind && w.taken == v.taken && w.ok == v.ok
  {
    assert Runs.StepAt(Next, states, steps, k - 1);
    if steps[k - 1] == Unlock(e) {
      u := k - 1;
    } else {
      u := TakenUnderLock(states, steps, k - 1, e);
    }
  }

  /** What an evaluation answers once its callbacks are done. */
  predicate EvaluatesTrue(v: Evaluation) { v.ok && false !in v.results }

  /** It answers true exactly when it lost no check and every check it took was run and passed. */
  lemma TrueMeansAllPassed(states: seq<State>, steps: seq<Step>, k: nat, e: Eval)
    requires Run(states, steps) && k < |states|
    requires e in states[k].evals && states[k].evals[e].progress.Releasing?
    ensures var v := states[k].evals[e];
            EvaluatesTrue(v) <==> v.ok && |v.results| == |v.taken| && forall j :: 0 <= j < |v.results| ==> v.results[j]
  {
    RunKeeps(states, steps, k);
    assert EvalOk(states[k], e);
  }
}

/** The built-in part of a health evaluation. */
module HealthBuiltIn {
  import opened ListSpec
  import opened Health

  /** A registered context; its emergency flag is read only when it has an emergency lock. */
  datatype Context = Context(registered: bool, hasLock: bool, emergency: bool)

  datatype Readiness = Readiness(count: nat, allRegistered: bool, anyEmergency: bool)

  /** The callback over contexts: it stops at the first that is not ready. */
  function CheckReady(c: Context, r: Readiness): Answer<Readiness> {
    var n := r.(count := r.count + 1);
    if !c.registered then Answer(END, n.(allRegistered := false))
    else if c.hasLock && c.emergency then Answer(END, n.(anyEmergency := true))
    else Answer(OK, n)
  }

  function EvaluateBuiltIn(kind: Kind, startup: bool, requireContexts: bool, contexts: seq<Context>): bool {
    match kind
    case Live => true
    case Startup => startup
    case Ready =>
      if !startup then false
      else
        var v := Visits(contexts, CheckReady, Readiness(0, true, false));
        if ERROR in v.codes then false
        else if requireContexts && v.data.count == 0 then false
        else v.data.allRegistered && !v.data.anyEmergency
  }

  predicate ContextReady(c: Context) { c.registered && !(c.hasLock && c.emergency) }

  lemma {:induction false} ReadyVisits(contexts: seq<Context>, r: Readiness)
    requires r.allRegistered && !r.anyEmergency
    ensures var v := Visits(contexts, CheckReady, r);
            && ERROR !in v.codes
            && (v.data.count == r.count <==> contexts == []) && v.data.count >= r.count
            && (v.data.allRegistered && !v.data.anyEmergency <==>
                forall k :: 0 <= k < |contexts| ==> ContextReady(contexts[k]))
  {
    if contexts != [] {
      var a := CheckReady(contexts[0], r);
      if a.each == OK {
        ReadyVisits(contexts[1..], a.data);
        assert forall k :: 1 <= k < |contexts| ==> contexts[k] == contexts[1..][k - 1];
        assert forall k :: 0 <= k < |contexts| - 1 ==> contexts[1..][k] == contexts[k + 1];
      }
    }
  }

  /** Ready means started, every context registered and free of emergencies, and some context if one is required. */
  predicate Healthy(kind: Kind, startup: bool, requireContexts: bool, contexts: seq<Context>) {
    match kind
    case Live => true
    case Startup => startup
    case Ready => startup && (requireContexts ==> contexts != [])
                  && forall k :: 0 <= k < |contexts| ==> ContextReady(contexts[k])
  }

  /** The walk over the contexts finds just that. */
  lemma BuiltInMeans(kind: Kind, startup: bool, requireContexts: bool, contexts: seq<Context>)
    ensures EvaluateBuiltIn(kind, startup, requireContexts, contexts) <==>
            Healthy(kind, startup, requireContexts, contexts)
  {
    ReadyVisits(contexts, Readiness(0, true, false));
  }

  /** The whole answer: the built-in part, and then what the custom checks found. */
  predicate EvaluateInternal(startup: bool, requireContexts: bool, contexts: seq<Context>, custom: Evaluation) {
    EvaluateBuiltIn(custom.kind, startup, requireContexts, contexts) && EvaluatesTrue(custom)
  }

  /** The callback of a check was run by the evaluation and passed. */
  ghost predicate RanAndPassed(v: Evaluation, id: Id) {
    exists j :: 0 <= j < |v.results| && j < |v.taken| && v.taken[j] == id && v.results[j]
  }

  ghost predicate Passed(v: Evaluation, j: nat) { j < |v.results| && v.results[j] }

  /** With distinct checks, all taken, each having passed is the same as no callback missing or failing. */
  lemma AllRanAndPassed(v: Evaluation, registry: seq<Check>)
    requires |v.results| <= |v.taken| && (forall j, k :: 0 <= j < k < |v.taken| ==> v.taken[j] != v.taken[k])
    requires forall id :: id in v.taken <==> Check(id, v.kind) in registry
    ensures (|v.results| == |v.taken| && forall j :: 0 <= j < |v.results| ==> v.results[j]) <==>
            (forall c <- registry :: c.kind == v.kind ==> RanAndPassed(v, c.id))
  {
    if |v.results| == |v.taken| && forall j :: 0 <= j < |v.results| ==> v.results[j] {
      forall c <- registry | c.kind == v.kind ensures RanAndPassed(v, c.id) {
        assert c == Check(c.id, v.kind);
        var j :| 0 <= j < |v.taken| && v.taken[j] == c.id;
      }
    }
    if forall c <- registry :: c.kind == v.kind ==> RanAndPassed(v, c.id) {
      forall j | 0 <= j < |v.taken| ensures Passed(v, j) {
        assert v.taken[j] in v.taken && Check(v.taken[j], v.kind) in registry;
        assert RanAndPassed(v, v.taken[j]);
      }
      assert v.taken != [] ==> Passed(v, |v.taken| - 1);
      assert |v.results| == |v.taken|;
      forall j | 0 <= j < |v.results| ensures v.results[j] { assert Passed(v, j); }
    }
  }

  /**
   * In every run an evaluation answers true exactly when the built-in conditions of its kind hold,
   * it lost no check, and each check of its kind that was registered when it released the lock
   * was run and passed.
   */
  lemma EvaluationMeans(states: seq<State>, steps: seq<Step>, k: nat, e: Eval,
                        startup: bool, requireContexts: bool, contexts: seq<Context>)
    returns (u: nat)
    requires Run(states, steps) && k < |states|
    requires e in states[k].evals && states[k].evals[e].progress.Releasing?
    ensures u < k && steps[u] == Unlock(e)
    ensures var v, registry := states[k].evals[e], states[u].registry;
            EvaluateInternal(startup, requireContexts, contexts, v) <==>
            && Healthy(v.kind, startup, requireContexts, contexts) && v.ok
            && forall c <- registry :: c.kind == v.kind ==> RanAndPassed(v, c.id)
  {
    var v := states[k].evals[e];
    BuiltInMeans(v.kind, startup, requireContexts, contexts);
    TrueMeansAllPassed(states, steps, k, e);
    u := TakenUnderLock(states, steps, k, e);
    SnapshotTakesAll(states, steps, u, e);
    RunKeeps(states, steps, k);
    assert EvalOk(states[k], e);
    if v.ok {
      TakenDistinct(states, steps, u, e);
      AllRanAndPassed(v, states[u].registry);
    }
  }
}
