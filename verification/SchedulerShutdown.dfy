/** How the scheduler moves and comes to rest (pkg/serverless/scheduler.go): who
    holds the lock, what a waiting request gets, that queued calls are served,
    and that after cancellation everything can be completed. */
module SchedulerShutdown {
  import opened Scheduler
  import opened Wrappers

  ghost predicate LockMoves(st: State, act: Action, to: State) {
    && to.now == (if act.Tick? then act.t else st.now)
    && (to.cancelled <==> st.cancelled || act.Cancel?)
    && (to.drained <==> st.drained || act.CloseEnd?)
    && (act.Send? || act.CloseEnd? ==> to.holder == None)
    && (act.CloseBegin? ==> to.holder == Some(Closing))
    && (to.holder != st.holder ==> act.Send? || act.CloseBegin? || act.CloseEnd? || act.Submit? || act.Request?)
    && (st.holder.Some? && to.holder != st.holder ==> act.Send? || act.CloseEnd?)
    && |to.requesters| == |st.requesters| && |to.workers| == |st.workers|
  }

  lemma CallerMoves(cfg: Config, st: State, act: Action)
    requires Enabled(st, act) && (act.Submit? || act.Request? || act.Send? || act.Wake? || act.GiveUp?)
    ensures LockMoves(st, act, Apply(cfg, st, act))
  {
  }

  lemma OtherMoves(cfg: Config, st: State, act: Action)
    requires Enabled(st, act) && !(act.Submit? || act.Request? || act.Send? || act.Wake? || act.GiveUp?)
    ensures LockMoves(st, act, Apply(cfg, st, act))
  {
  }

  /** Clock, context, drained mark and lock change only by their own actions, and
      nobody takes the lock from its holder. */
  lemma LockExactly(cfg: Config, st: State, act: Action)
    requires Enabled(st, act)
    ensures LockMoves(st, act, Apply(cfg, st, act))
  {
    if act.Submit? || act.Request? || act.Send? || act.Wake? || act.GiveUp? {
      CallerMoves(cfg, st, act);
    } else {
      OtherMoves(cfg, st, act);
    }
  }

  /** A waiting request gets the result of the call it waits for, except that a
      connect request which joined a background call goes round again; every
      waiting request may give up. */
  lemma WakeExactly(cfg: Config, st: State, r: nat)
    requires r < |st.requesters| && st.requesters[r].phase.Waiting?
    ensures Enabled(st, GiveUp(r)) && Apply(cfg, st, GiveUp(r)).requesters[r].phase == Returned(Refused)
    ensures Enabled(st, Wake(r)) ==>
      var q, c := st.requesters[r], st.store[st.requesters[r].phase.call];
      Apply(cfg, st, Wake(r)).requesters[r] ==
        q.(phase := if q.connect && !c.connect then Trying else Returned(FromCall(q.phase.call, c.err)))
  {
  }

  /** The first accepted submission starts every worker, and leaves the busy ones alone. */
  lemma SendStarts(cfg: Config, st: State, w: nat)
    requires Enabled(st, Send) && |st.queue| < QUEUE_SIZE && w < |st.workers|
    ensures var to := Apply(cfg, st, Send);
      to.workers[w] == if st.workers[w] == NotStarted then Idle else st.workers[w]
  {
  }

  lemma RunFrom(cfg: Config, st: State, act: Action, rest: seq<Action>)
    requires Enabled(st, act) && Run(cfg, Apply(cfg, st, act), rest)
    ensures Run(cfg, st, [act] + rest) && After(cfg, st, [act] + rest) == After(cfg, Apply(cfg, st, act), rest)
  {
    assert ([act] + rest)[1..] == rest;
  }

  /** The call a worker holds is a known one, and open. */
  lemma HeldIsOpen(st: State, w: nat, c: nat)
    requires Inv(st) && w < |st.workers| && c in Held(st.workers[w])
    ensures c < |st.store| && st.store[c].completions == 0
  {
    HeldInHand(st.workers, w);
    assert c in multiset(st.queue) + InHand(st.workers);
    assert CallOk(st, c);
  }

  lemma CompleteServes(cfg: Config, st: State, w: nat, c: nat, err: Outcome)
    requires c < |st.store| && st.holder == None && w < |st.workers| && st.workers[w] == Ran(c, err)
    ensures Enabled(st, Complete(w)) && Served(st, Apply(cfg, st, Complete(w)), c, err)
  {
  }

  /** Three more actions finish a call that a worker has taken. */
  lemma TakenIsServed(cfg: Config, st: State, w: nat, c: nat, err: Outcome)
    requires Inv(st) && !st.cancelled && st.holder == None && w < |st.workers| && st.workers[w] == Taken(c)
    ensures var acts := [Start(w), Finish(w, err)] + [Complete(w)];
      Run(cfg, st, acts) && Served(st, After(cfg, st, acts), c, err)
  {
    HeldIsOpen(st, w, c);
    var s1 := Apply(cfg, st, Start(w));
    var s2 := Apply(cfg, s1, Finish(w, err));
    assert s2 == SetWorker(st, w, Ran(c, err));
    CompleteServes(cfg, s2, w, c, err);
    RunFrom(cfg, s2, Complete(w), []);
    assert [Complete(w)] + [] == [Complete(w)];
    RunFrom(cfg, s1, Finish(w, err), [Complete(w)]);
    RunFrom(cfg, st, Start(w), [Finish(w, err)] + [Complete(w)]);
    assert [Start(w)] + ([Finish(w, err)] + [Complete(w)]) == [Start(w), Finish(w, err)] + [Complete(w)];
  }

  lemma {:induction false} HeldInHand(workers: seq<Worker>, w: nat)
    requires w < |workers|
    ensures Held(workers[w]) <= InHand(workers)
  {
    if w < |workers| - 1 { HeldInHand(workers[..|workers| - 1], w); }
  }

  /** Call `c` has completed with `err` and its peer is free again. */
  ghost predicate Served(st: State, to: State, c: nat, err: Outcome) {
    && c < |st.store| == |to.store|
    && to.store[c].err == err && to.store[c].completions == st.store[c].completions + 1 && st.store[c].id !in to.calls
  }

  /** An idle worker serves the head of the queue. */
  lemma QueueIsServed(cfg: Config, st: State, w: nat, err: Outcome)
    requires Inv(st) && !st.cancelled && st.holder == None && w < |st.workers| && st.workers[w] == Idle && st.queue != []
    ensures var acts := [Take(w)] + ([Start(w), Finish(w, err)] + [Complete(w)]);
      Run(cfg, st, acts) && Served(st, After(cfg, st, acts), st.queue[0], err)
  {
    var s1 := Apply(cfg, st, Take(w));
    StepKeepsInv(cfg, st, Take(w));
    TakenIsServed(cfg, s1, w, st.queue[0], err);
    RunFrom(cfg, st, Take(w), [Start(w), Finish(w, err)] + [Complete(w)]);
  }

  // ---- after cancellation ----

  function WorkLeft(x: Worker): nat {
    match x
    case Taken(_) => 4
    case Running(_) => 3
    case Ran(_, _) => 2
    case Idle => 1
    case _ => 0
  }

  function AllWork(workers: seq<Worker>): nat {
    if workers == [] then 0 else AllWork(workers[..|workers| - 1]) + WorkLeft(workers[|workers| - 1])
  }

  lemma {:induction false} WorkUpdate(workers: seq<Worker>, w: nat, x: Worker)
    requires w < |workers|
    ensures AllWork(workers[w := x]) == AllWork(workers) - WorkLeft(workers[w]) + WorkLeft(x)
  {
    var last := |workers| - 1;
    if w == last {
      assert workers[w := x][..last] == workers[..last];
    } else {
      WorkUpdate(workers[..last], w, x);
      assert workers[w := x][..last] == workers[..last][w := x];
    }
  }

  function NextOf(x: Worker, w: nat): Action {
    match x
    case Taken(_) => Start(w)
    case Running(_) => Finish(w, Canceled)
    case Ran(_, _) => Complete(w)
    case _ => Exit(w)
  }

  ghost predicate AtRest(st: State) {
    forall w :: 0 <= w < |st.workers| ==> st.workers[w] == Exited || st.workers[w] == NotStarted
  }

  lemma WorkerMoves(cfg: Config, st: State, w: nat)
    requires st.cancelled && st.holder == None && w < |st.workers| && WorkLeft(st.workers[w]) > 0
    requires st.workers[w].Ran? ==> st.workers[w].call < |st.store|
    ensures var act := NextOf(st.workers[w], w);
      && Enabled(st, act)
      && var to := Apply(cfg, st, act);
        && to.cancelled && to.holder == None && to.queue == st.queue && to.drained == st.drained
        && |to.workers| == |st.workers| && to.workers == st.workers[w := to.workers[w]]
        && WorkLeft(to.workers[w]) < WorkLeft(st.workers[w])
  {
  }

  lemma {:induction false} WorkersFinish(cfg: Config, st: State) returns (acts: seq<Action>)
    requires Inv(st) && st.cancelled && st.holder == None && st.queue == [] && st.drained
    ensures Run(cfg, st, acts) && Inv(After(cfg, st, acts)) && After(cfg, st, acts).drained && AtRest(After(cfg, st, acts))
    decreases AllWork(st.workers)
  {
    if AtRest(st) {
      acts := [];
    } else {
      var w: nat :| w < |st.workers| && st.workers[w] != Exited && st.workers[w] != NotStarted;
      var act := NextOf(st.workers[w], w);
      if st.workers[w].Ran? { HeldIsOpen(st, w, st.workers[w].call); }
      WorkerMoves(cfg, st, w);
      WorkUpdate(st.workers, w, Apply(cfg, st, act).workers[w]);
      StepKeepsInv(cfg, st, act);
      var rest := WorkersFinish(cfg, Apply(cfg, st, act));
      RunFrom(cfg, st, act, rest);
      acts := [act] + rest;
    }
  }

  /** close drains the queue call by call and gives the lock back; then the workers finish. */
  lemma {:induction false} ClosingFinishes(cfg: Config, st: State) returns (acts: seq<Action>)
    requires Inv(st) && st.cancelled && st.holder == Some(Closing)
    ensures Run(cfg, st, acts) && Inv(After(cfg, st, acts)) && After(cfg, st, acts).drained && AtRest(After(cfg, st, acts))
    decreases |st.queue|
  {
    if st.queue == [] {
      StepKeepsInv(cfg, st, CloseEnd);
      var rest := WorkersFinish(cfg, Apply(cfg, st, CloseEnd));
      RunFrom(cfg, st, CloseEnd, rest);
      acts := [CloseEnd] + rest;
    } else {
      assert st.queue[0] in multiset(st.queue) + InHand(st.workers);
      StepKeepsInv(cfg, st, DrainOne);
      var rest := ClosingFinishes(cfg, Apply(cfg, st, DrainOne));
      RunFrom(cfg, st, DrainOne, rest);
      acts := [DrainOne] + rest;
    }
  }

  lemma AllCompleted(st: State)
    requires Inv(st) && st.drained && AtRest(st)
    ensures st.calls == map[] && forall c :: 0 <= c < |st.store| ==> st.store[c].completions == 1
  {
    NothingInHand(st.workers);
    forall c: nat | c < |st.store| ensures st.store[c].completions == 1 { assert CallOk(st, c); }
    forall id ensures id !in st.calls { assert id in st.calls ==> CallOk(st, st.calls[id]); }
  }

  /** From any state after cancellation in which nobody holds the lock, close and
      the workers can finish: every call completes exactly once, none stays open. */
  lemma ShutdownCompletes(cfg: Config, st: State) returns (acts: seq<Action>)
    requires Inv(st) && st.cancelled && st.holder == None
    ensures Run(cfg, st, acts) && AtRest(After(cfg, st, acts))
    ensures var to := After(cfg, st, acts);
      to.calls == map[] && forall c :: 0 <= c < |to.store| ==> to.store[c].completions == 1
  {
    StepKeepsInv(cfg, st, CloseBegin);
    var rest := ClosingFinishes(cfg, Apply(cfg, st, CloseBegin));
    RunFrom(cfg, st, CloseBegin, rest);
    acts := [CloseBegin] + rest;
    AllCompleted(After(cfg, st, acts));
  }
}
