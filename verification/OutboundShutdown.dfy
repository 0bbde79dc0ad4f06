/** How the outbound machinery comes to rest (pkg/tundevice/router.go): what
    cancels it, which action maps and unmaps a worker, and that after Close
    every worker finishes and every byte is given back. */
module OutboundShutdown {
  import opened Outbound
  import opened Wrappers

  /** `act` takes the mapping of destination `d` away. */
  predicate Unmaps(st: State, act: Action, d: Dest)
    requires Enabled(st, act)
  {
    act.CloseTables? || ((act.IdleExit? || act.Remove?) && Mapped(st, act.w) && st.workers[act.w].dest == d)
  }

  ghost predicate TableMoves(st: State, act: Action, d: Dest, to: State)
    requires Enabled(st, act)
  {
    && (to.cancelled <==> st.cancelled || act.Cancel? || act.CloseTables?)
    && (d in to.outbound <==>
          (d in st.outbound && !Unmaps(st, act, d)) ||
          (act.Begin? && act.dest == d && (d in st.outbound || |st.outbound| < MAX_WORKERS)))
    && (d in st.outbound && d in to.outbound ==> to.outbound[d] == st.outbound[d])
    && (d !in st.outbound && d in to.outbound ==>
          to.outbound[d] == |st.workers| < |to.workers| && to.workers[|st.workers|] == Worker(d, [], Idle))
  }

  lemma BeginMoves(max: nat, st: State, act: Action, d: Dest)
    requires Enabled(st, act) && act.Begin?
    ensures TableMoves(st, act, d, Apply(max, st, act))
  {
  }

  lemma LeaveMoves(max: nat, st: State, act: Action, d: Dest)
    requires Enabled(st, act) && (act.IdleExit? || act.Remove?)
    ensures TableMoves(st, act, d, Apply(max, st, act))
  {
  }

  lemma PlainMoves(max: nat, st: State, act: Action, d: Dest)
    requires Enabled(st, act) && !act.Begin? && !act.IdleExit? && !act.Remove?
    ensures TableMoves(st, act, d, Apply(max, st, act))
  {
  }

  /** Which action maps a destination to a new worker, takes a mapping away, or
      ends the context: each exactly. */
  lemma TableExactly(max: nat, st: State, act: Action, d: Dest)
    requires Enabled(st, act)
    ensures TableMoves(st, act, d, Apply(max, st, act))
  {
    if act.Begin? {
      BeginMoves(max, st, act, d);
    } else if act.IdleExit? || act.Remove? {
      LeaveMoves(max, st, act, d);
    } else {
      PlainMoves(max, st, act, d);
    }
  }

  // ---- the end of every worker ----

  function Rank(ph: Phase): nat {
    match ph
    case Forwarding(_) => 6
    case Releasing(_) => 5
    case Idle => 4
    case Leaving => 3
    case Draining(_) => 2
    case Done => 0
  }

  /** Steps a worker has still to do at most. */
  function Effort(x: Worker): nat { 10 * |x.queue| + Rank(x.phase) }

  function TotalEffort(workers: seq<Worker>): nat {
    if workers == [] then 0 else TotalEffort(workers[..|workers| - 1]) + Effort(workers[|workers| - 1])
  }

  lemma {:induction false} EffortUpdate(workers: seq<Worker>, w: nat, x: Worker)
    requires w < |workers|
    ensures TotalEffort(workers[w := x]) == TotalEffort(workers) - Effort(workers[w]) + Effort(x)
  {
    var last := |workers| - 1;
    if w == last {
      assert workers[w := x][..last] == workers[..last];
    } else {
      EffortUpdate(workers[..last], w, x);
      assert workers[w := x][..last] == workers[..last][w := x];
    }
  }

  lemma OwnEffortFalls(max: nat, st: State, act: Action)
    requires Enabled(st, act) && ByWorker(act)
    ensures Effort(Apply(max, st, act).workers[act.w]) < Effort(st.workers[act.w])
  {
  }

  /** Every action of a worker brings it nearer to its end. */
  lemma EffortFalls(max: nat, st: State, act: Action)
    requires Enabled(st, act) && ByWorker(act)
    ensures TotalEffort(Apply(max, st, act).workers) < TotalEffort(st.workers)
  {
    WorkerAction(max, st, act);
    OwnEffortFalls(max, st, act);
    EffortUpdate(st.workers, act.w, Apply(max, st, act).workers[act.w]);
  }

  /** After the context ended, what a worker that has not finished can do next. */
  function NextOf(x: Worker, w: nat): Action
    requires x.phase != Done
  {
    match x.phase
    case Idle => CancelExit(w)
    case Forwarding(_) => Forward(w)
    case Releasing(_) => Release(w)
    case Leaving => Remove(w)
    case Draining(_) => if x.queue != [] then Drain(w) else DrainEnd(w)
  }

  ghost predicate AllDone(st: State) {
    forall w :: 0 <= w < |st.workers| ==> st.workers[w].phase == Done
  }

  lemma RunFrom(max: nat, st: State, act: Action, rest: seq<Action>)
    requires Enabled(st, act) && Run(max, Apply(max, st, act), rest)
    ensures Run(max, st, [act] + rest) && After(max, st, [act] + rest) == After(max, Apply(max, st, act), rest)
  {
    assert ([act] + rest)[1..] == rest;
  }

  lemma NothingOwed(max: nat, st: State)
    requires Inv(max, st) && st.enq == None && AllDone(st)
    ensures st.budget == 0
  {
    forall w: nat | w < |st.workers| ensures st.workers[w].queue == [] { assert WorkerOk(st, w); }
    NoLoad(st.workers);
  }

  /** From any state after Close, or after the context ended, the workers can all
      finish, and then no byte of the budget is left taken. */
  lemma {:induction false} ShutdownDrains(max: nat, st: State) returns (acts: seq<Action>)
    requires Inv(max, st) && st.cancelled && st.enq == None
    ensures Run(max, st, acts) && |acts| <= TotalEffort(st.workers)
    ensures AllDone(After(max, st, acts)) && After(max, st, acts).budget == 0
    decreases TotalEffort(st.workers)
  {
    if AllDone(st) {
      NothingOwed(max, st);
      acts := [];
    } else {
      var w: nat :| w < |st.workers| && st.workers[w].phase != Done;
      var act := NextOf(st.workers[w], w);
      EffortFalls(max, st, act);
      WorkerAction(max, st, act);
      StepKeepsInv(max, st, act);
      var rest := ShutdownDrains(max, Apply(max, st, act));
      RunFrom(max, st, act, rest);
      acts := [act] + rest;
    }
  }

  function EnqueueLeft(enq: Option<Enqueue>): nat {
    match enq
    case None => 0
    case Some(Reserved(_, _)) => 1
    case Some(Checked(_, _)) => 2
  }

  /** Whatever is going on, the end of the context lets all workers finish with no
      byte of the budget left taken: an enqueuer leaves its critical section first. */
  lemma {:induction false} CancelDrains(max: nat, st: State) returns (acts: seq<Action>)
    requires Inv(max, st)
    ensures Run(max, st, acts) && AllDone(After(max, st, acts)) && After(max, st, acts).budget == 0
    decreases EnqueueLeft(st.enq)
  {
    var act := match st.enq
      case None => Cancel
      case Some(Reserved(_, _)) => Send
      case Some(Checked(_, _)) => Acquire;
    StepKeepsInv(max, st, act);
    var rest: seq<Action>;
    if st.enq == None { rest := ShutdownDrains(max, Apply(max, st, act)); } else { rest := CancelDrains(max, Apply(max, st, act)); }
    RunFrom(max, st, act, rest);
    acts := [act] + rest;
  }
}
