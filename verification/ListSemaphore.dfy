/**
 * Many threads pushing to and popping from one stack or queue of src/list.c.  A push inserts
 * under the list lock and posts the semaphore afterwards; a pop waits for the semaphore and takes
 * under the lock afterwards.  Every interleaving of those four steps is a run.
 */
module ListSemaphore {
  import opened Common
  import opened ListSpec
  import Runs

  type Thread = nat

  /** An item with the number of the push that inserted it. */
  datatype Entry = Entry(ticket: nat, item: nat)

  datatype Phase = Inserted | Waited

  datatype State = State(
    mode: Mode,
    limit: nat,
    items: seq<Entry>,
    sem: nat,
    tickets: nat,
    busy: map<Thread, Phase>,
    popped: seq<Option<Entry>>)

  datatype Step = Insert(t: Thread, item: nat) | Post(t: Thread) | Wait(t: Thread) | Take(t: Thread)

  ghost predicate Init(s: State) {
    s.mode != Generic && s.items == [] && s.sem == 0 && s.tickets == 0 && s.busy == map[] && s.popped == []
  }

  /** The state after a step, if the step can be taken. */
  function Apply(s: State, step: Step): Option<State> {
    match step
    case Insert(t, x) =>
      if t in s.busy || (s.limit > 0 && |s.items| >= s.limit) then None
      else Some(s.(items := Pushed(s.mode, Entry(s.tickets, x), s.items), tickets := s.tickets + 1,
                   busy := s.busy[t := Inserted]))
    case Post(t) =>
      if t !in s.busy || s.busy[t] != Inserted then None
      else Some(s.(sem := s.sem + 1, busy := s.busy - {t}))
    case Wait(t) =>
      if t in s.busy || s.sem == 0 then None
      else Some(s.(sem := s.sem - 1, busy := s.busy[t := Waited]))
    case Take(t) =>
      if t !in s.busy || s.busy[t] != Waited then None
      else
        var free := s.(busy := s.busy - {t});
        if s.items == [] then Some(free.(popped := s.popped + [None]))
        else if s.mode == Stack then
          Some(free.(items := s.items[1..], popped := s.popped + [Some(s.items[0])]))
        else
          Some(free.(items := s.items[..|s.items| - 1], popped := s.popped + [Some(s.items[|s.items| - 1])]))
  }

  ghost function In(busy: map<Thread, Phase>, p: Phase): set<Thread> {
    set t | t in busy && busy[t] == p
  }

  /** Newer items are nearer the end that pops. */
  ghost predicate Newest(s: State) { Descending(PopOrder(s.mode, s.items), s.tickets) }

  ghost predicate Descending(order: seq<Entry>, tickets: nat) {
    && (forall i, j :: 0 <= i < j < |order| ==> order[j].ticket < order[i].ticket)
    && (forall i :: 0 <= i < |order| ==> order[i].ticket < tickets)
  }

  /** The length is what the semaphore says, plus the pushes and pops that are half done. */
  ghost predicate Coupled(s: State) {
    |s.items| == s.sem + |In(s.busy, Inserted)| + |In(s.busy, Waited)|
  }

  ghost predicate Inv(s: State) {
    && s.mode != Generic
    && Coupled(s) && Newest(s)
    && (s.limit > 0 ==> |s.items| <= s.limit)
    && (forall i :: 0 <= i < |s.popped| ==> s.popped[i].Some?)
  }

  lemma StartBusy(busy: map<Thread, Phase>, t: Thread, p: Phase, q: Phase)
    requires t !in busy
    ensures |In(busy[t := p], q)| == |In(busy, q)| + if q == p then 1 else 0
  {
    assert In(busy[t := p], q) == In(busy, q) + if q == p then {t} else {};
  }

  lemma EndBusy(busy: map<Thread, Phase>, t: Thread, q: Phase)
    requires t in busy
    ensures |In(busy - {t}, q)| == |In(busy, q)| - if q == busy[t] then 1 else 0
    ensures q == busy[t] ==> |In(busy, q)| > 0
  {
    assert q == busy[t] ==> t in In(busy, q);
    assert In(busy - {t}, q) == In(busy, q) - if q == busy[t] then {t} else {};
  }

  lemma InsertKeeps(s: State, t: Thread, x: nat)
    requires Inv(s) && Apply(s, Insert(t, x)).Some?
    ensures Inv(Apply(s, Insert(t, x)).value)
  {
    StartBusy(s.busy, t, Inserted, Inserted);
    StartBusy(s.busy, t, Inserted, Waited);
    PopsLastPushed(s.mode, Entry(s.tickets, x), s.items);
  }

  /** A pop that got past its wait finds an item, and it is the newest one present. */
  lemma TakeFinds(s: State, t: Thread)
    requires Inv(s) && Apply(s, Take(t)).Some?
    ensures s.items != []
    ensures var r := Apply(s, Take(t)).value;
            && |r.popped| == |s.popped| + 1 && r.popped[|s.popped|].Some?
            && var top := r.popped[|s.popped|].value;
            && s.items == Pushed(s.mode, top, r.items)
            && PopOrder(s.mode, s.items) == [top] + PopOrder(s.mode, r.items)
            && forall e <- s.items :: e.ticket <= top.ticket
  {
    EndBusy(s.busy, t, Waited);
    var r := Apply(s, Take(t)).value;
    var top := r.popped[|s.popped|].value;
    assert s.items == Pushed(s.mode, top, r.items);
    PopsLastPushed(s.mode, top, r.items);
    forall e <- s.items ensures e.ticket <= top.ticket { NewestFirst(s, e); }
  }

  lemma NewestFirst(s: State, e: Entry)
    requires Newest(s) && e in s.items
    ensures PopOrder(s.mode, s.items) != [] && e.ticket <= PopOrder(s.mode, s.items)[0].ticket
  {
    InPopOrder(s.mode, s.items, e);
    var order := PopOrder(s.mode, s.items);
    var k :| 0 <= k < |order| && order[k] == e;
    assert k > 0 ==> order[k].ticket < order[0].ticket;
  }

  lemma TakeCoupled(s: State, t: Thread)
    requires Coupled(s) && Apply(s, Take(t)).Some? && s.items != []
    ensures Coupled(Apply(s, Take(t)).value)
  {
    EndBusy(s.busy, t, Waited);
    EndBusy(s.busy, t, Inserted);
  }

  lemma TakeKeeps(s: State, t: Thread)
    requires Inv(s) && Apply(s, Take(t)).Some?
    ensures Inv(Apply(s, Take(t)).value)
  {
    TakeFinds(s, t);
    TakeCoupled(s, t);
    var r := Apply(s, Take(t)).value;
    DescendingRest(r.popped[|s.popped|].value, PopOrder(s.mode, r.items), s.tickets);
  }

  lemma DescendingRest(top: Entry, rest: seq<Entry>, tickets: nat)
    requires Descending([top] + rest, tickets)
    ensures Descending(rest, tickets)
  {
    var all := [top] + rest;
    assert forall i :: 0 <= i < |rest| ==> rest[i] == all[i + 1];
  }

  lemma {:induction false} InPopOrder<T>(mode: Mode, s: seq<T>, e: T)
    requires e in s
    ensures e in PopOrder(mode, s)
  {
    if mode != Stack && e != s[|s| - 1] { InPopOrder(mode, s[..|s| - 1], e); }
  }

  /** One step of any thread. */
  lemma StepKeeps(s: State, step: Step)
    requires Inv(s) && Apply(s, step).Some?
    ensures Inv(Apply(s, step).value)
  {
    match step
    case Insert(t, x) => InsertKeeps(s, t, x);
    case Post(t) =>
      EndBusy(s.busy, t, Inserted);
      EndBusy(s.busy, t, Waited);
    case Wait(t) =>
      StartBusy(s.busy, t, Waited, Inserted);
      StartBusy(s.busy, t, Waited, Waited);
    case Take(t) => TakeKeeps(s, t);
  }

  predicate Next(s: State, step: Step, r: State) { Apply(s, step) == Some(r) }

  ghost predicate Run(states: seq<State>, steps: seq<Step>) { Runs.Run(Init, Next, states, steps) }

  /**
   * In every interleaving the length is the semaphore plus the half-done operations, no pop that
   * got past its wait finds the list empty, and items leave newest first.
   */
  lemma {:induction false} RunKeeps(states: seq<State>, steps: seq<Step>, i: nat)
    requires Run(states, steps) && i < |states|
    ensures Inv(states[i])
  {
    if i == 0 {
      assert In(states[0].busy, Inserted) == {} && In(states[0].busy, Waited) == {};
    } else {
      RunKeeps(states, steps, i - 1);
      assert Runs.StepAt(Next, states, steps, i - 1);
      StepKeeps(states[i - 1], steps[i - 1]);
    }
  }

  /** When no operation is half done, the semaphore is the length. */
  lemma QuiescentSemaphore(states: seq<State>, steps: seq<Step>, i: nat)
    requires Run(states, steps) && i < |states| && states[i].busy == map[]
    ensures states[i].sem == |states[i].items|
  {
    RunKeeps(states, steps, i);
    assert In(states[i].busy, Inserted) == {} && In(states[i].busy, Waited) == {};
  }
}
