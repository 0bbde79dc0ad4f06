/** The discovery scheduler (pkg/serverless/scheduler.go) as a state machine:
    a bounded queue, eight workers, one open call per peer, and `close`. The
    mutex `s.mu` is held by `holder`; queue receives and cancellation ignore it. */
module Scheduler {
  import opened Wrappers

  type PeerID = string

  const WORKERS: nat := 8
  const QUEUE_SIZE: nat := 128
  const STATE_LIMIT: nat := 4096
  const MAX_FAILURES: nat := 5
  const BASE_DELAY: nat := 30   // seconds
  const MAX_DELAY: nat := 300

  datatype Outcome = Success | Failed | Canceled

  /** `completions` counts the times `done` was closed. */
  datatype Call = Call(id: PeerID, connect: bool, err: Outcome, completions: nat)

  datatype Retry = Retry(failures: nat, next: nat)

  datatype Worker = NotStarted | Idle | Taken(call: nat) | Running(call: nat) | Ran(call: nat, err: Outcome) | Exited

  /** A submission past its checks, or close in its draining loop. */
  datatype Holder = Submitting(id: PeerID, connect: bool, caller: Option<nat>) | Closing

  datatype Result = FromCall(call: nat, err: Outcome) | Refused
  datatype Phase = Trying | Submits | Waiting(call: nat) | Returned(result: Result)

  /** A caller of `request`. */
  datatype Requester = Requester(id: PeerID, connect: bool, phase: Phase)

  datatype State = State(
    calls: map<PeerID, nat>, queue: seq<nat>, store: seq<Call>, retry: map<PeerID, Retry>,
    workers: seq<Worker>, holder: Option<Holder>, requesters: seq<Requester>,
    cancelled: bool, drained: bool, now: nat)

  /** The cooldown after a success and the randomised delay are parameters. */
  datatype Config = Config(cooldown: nat, jitter: nat -> nat)

  datatype Action =
    | Submit(id: PeerID, explicit: bool)   // submit by the discovery loop: the checks of submitMode
    | Request(r: nat)                      // the same checks, for a caller of request
    | Send                                 // submitMode: enqueue, or "queue full"
    | Take(w: nat)                         // call := <-s.queue
    | Start(w: nat)                        // s.ctx.Err() is read; s.run is entered or skipped
    | Finish(w: nat, err: Outcome)         // s.run returns
    | Complete(w: nat)                     // the locked part of worker
    | Exit(w: nat)                         // <-s.ctx.Done()
    | Cancel                               // s.cancel(), or the parent context ends
    | CloseBegin                           // close takes the lock
    | DrainOne
    | CloseEnd
    | Wake(r: nat)                         // <-call.done in request
    | GiveUp(r: nat)                       // a context ends in request
    | Tick(t: nat)

  function InitialState(requesters: seq<Requester>): State {
    State(map[], [], [], map[], seq(WORKERS, _ => NotStarted), None, requesters, false, false, 0)
  }

  function Min(a: nat, b: nat): nat { if a < b then a else b }

  function Delay(failures: nat): nat
    requires 1 <= failures <= MAX_FAILURES
  {
    Min(BASE_DELAY * [1, 2, 4, 8, 16][failures - 1], MAX_DELAY)
  }

  function Pow2(n: nat): nat { if n == 0 then 1 else 2 * Pow2(n - 1) }

  /** What the k-th failure in a row means for a peer, and what a success means. */
  lemma NextRetryExactly(cfg: Config, r: Retry, err: Outcome, now: nat)
    ensures var k := Min(r.failures + 1, MAX_FAILURES);
      NextRetry(cfg, r, err, now) ==
        if err == Success then Retry(0, now + cfg.cooldown)
        else Retry(k, now + cfg.jitter(Min(BASE_DELAY * Pow2(k - 1), MAX_DELAY)))
  {
    assert Pow2(0) == 1 && Pow2(1) == 2 && Pow2(2) == 4 && Pow2(3) == 8 && Pow2(4) == 16;
  }

  function NextRetry(cfg: Config, r: Retry, err: Outcome, now: nat): Retry {
    if err == Success then Retry(0, now + cfg.cooldown)
    else
      var failures := Min(r.failures + 1, MAX_FAILURES);
      Retry(failures, now + cfg.jitter(Delay(failures)))
  }

  /** The entries that still hold something back. */
  function Pruned(retry: map<PeerID, Retry>, now: nat): map<PeerID, Retry> {
    map k | k in retry && now < retry[k].next :: retry[k]
  }

  /** The bounded retry table: an unknown peer enters a full table only if
      expired entries can be dropped first. */
  function UpdateRetry(retry: map<PeerID, Retry>, id: PeerID, r: Retry, now: nat): map<PeerID, Retry> {
    if id in retry || |retry| < STATE_LIMIT then retry[id := r]
    else
      var kept := Pruned(retry, now);
      if |kept| < STATE_LIMIT then kept[id := r] else kept
  }

  function RetryOf(retry: map<PeerID, Retry>, id: PeerID): Retry {
    if id in retry then retry[id] else Retry(0, 0)
  }

  predicate BackedOff(st: State, id: PeerID) {
    st.now < RetryOf(st.retry, id).next
  }

  function SetPhase(st: State, r: nat, p: Phase): State
    requires r < |st.requesters|
  {
    st.(requesters := st.requesters[r := st.requesters[r].(phase := p)])
  }

  function SetWorker(st: State, w: nat, x: Worker): State
    requires w < |st.workers|
  {
    st.(workers := st.workers[w := x])
  }

  /** close(call.done) after setting its error; the peer's entry leaves `calls`. */
  function Close(st: State, c: nat, err: Outcome): State
    requires c < |st.store|
  {
    st.(store := st.store[c := st.store[c].(err := err, completions := st.store[c].completions + 1)],
        calls := st.calls - {st.store[c].id})
  }

  predicate Enabled(st: State, act: Action) {
    match act
    case Submit(_, _) => st.holder == None
    case Request(r) => st.holder == None && r < |st.requesters| && st.requesters[r].phase == Trying
    case Send => st.holder.Some? && st.holder.value.Submitting? &&
      (st.holder.value.caller.Some? ==> st.holder.value.caller.value < |st.requesters|)
    case Take(w) => w < |st.workers| && st.workers[w] == Idle && st.queue != []
    case Start(w) => w < |st.workers| && st.workers[w].Taken?
    case Finish(w, _) => w < |st.workers| && st.workers[w].Running?
    case Complete(w) =>
      w < |st.workers| && st.workers[w].Ran? && st.holder == None && st.workers[w].call < |st.store|
    case Exit(w) => w < |st.workers| && st.workers[w] == Idle && st.cancelled
    case Cancel => true
    case CloseBegin => st.cancelled && st.holder == None
    case DrainOne => st.holder == Some(Closing) && st.queue != [] && st.queue[0] < |st.store|
    case CloseEnd => st.holder == Some(Closing) && st.queue == []
    case Wake(r) => r < |st.requesters| && st.requesters[r].phase.Waiting? &&
      st.requesters[r].phase.call < |st.store| && st.store[st.requesters[r].phase.call].completions > 0
    case GiveUp(r) => r < |st.requesters| && st.requesters[r].phase.Waiting?
    case Tick(t) => st.now <= t
  }

  function Apply(cfg: Config, st: State, act: Action): State
    requires Enabled(st, act)
  {
    match act
    case Submit(id, explicit) =>
      if st.cancelled || id in st.calls || (!explicit && BackedOff(st, id)) then st
      else st.(holder := Some(Submitting(id, false, None)))
    case Request(r) =>
      var q := st.requesters[r];
      if st.cancelled then SetPhase(st, r, Returned(Refused))
      else if q.id in st.calls then SetPhase(st, r, Waiting(st.calls[q.id]))
      else SetPhase(st, r, Submits).(holder := Some(Submitting(q.id, q.connect, Some(r))))
    case Send =>
      var h := st.holder.value;
      if |st.queue| < QUEUE_SIZE then
        var c := |st.store|;
        var sent := st.(store := st.store + [Call(h.id, h.connect, Success, 0)], calls := st.calls[h.id := c],
                        queue := st.queue + [c], holder := None, workers := StartAll(st.workers));
        if h.caller.Some? then SetPhase(sent, h.caller.value, Waiting(c)) else sent
      else
        var full := st.(holder := None);
        if h.caller.Some? then SetPhase(full, h.caller.value, Returned(Refused)) else full
    case Take(w) => SetWorker(st, w, Taken(st.queue[0])).(queue := st.queue[1..])
    case Start(w) =>
      var c := st.workers[w].call;
      SetWorker(st, w, if st.cancelled then Ran(c, Canceled) else Running(c))
    case Finish(w, err) => SetWorker(st, w, Ran(st.workers[w].call, err))
    case Complete(w) =>
      var c, err := st.workers[w].call, st.workers[w].err;
      var id := st.store[c].id;
      SetWorker(Close(st, c, err), w, Idle)
        .(retry := UpdateRetry(st.retry, id, NextRetry(cfg, RetryOf(st.retry, id), err, st.now), st.now))
    case Exit(w) => SetWorker(st, w, Exited)
    case Cancel => st.(cancelled := true)
    case CloseBegin => st.(holder := Some(Closing))
    case DrainOne => Close(st, st.queue[0], Canceled).(queue := st.queue[1..])
    case CloseEnd => st.(holder := None, drained := true)
    case Wake(r) =>
      var c, q := st.requesters[r].phase.call, st.requesters[r];
      // A connect request that joined a background call submits again.
      if q.connect && !st.store[c].connect then SetPhase(st, r, Trying)
      else SetPhase(st, r, Returned(FromCall(c, st.store[c].err)))
    case GiveUp(r) => SetPhase(st, r, Returned(Refused))
    case Tick(t) => st.(now := t)
  }

  /** The workers start with the first accepted submission. */
  function StartAll(workers: seq<Worker>): seq<Worker> {
    seq(|workers|, w requires 0 <= w < |workers| => if workers[w] == NotStarted then Idle else workers[w])
  }

  ghost predicate Run(cfg: Config, st: State, acts: seq<Action>)
    decreases |acts|
  {
    acts == [] || (Enabled(st, acts[0]) && Run(cfg, Apply(cfg, st, acts[0]), acts[1..]))
  }

  ghost function After(cfg: Config, st: State, acts: seq<Action>): State
    requires Run(cfg, st, acts)
    decreases |acts|
  {
    if acts == [] then st else After(cfg, Apply(cfg, st, acts[0]), acts[1..])
  }

  // ---- invariants ----

  ghost function Held(x: Worker): multiset<nat> {
    match x
    case Taken(c) => multiset{c}
    case Running(c) => multiset{c}
    case Ran(c, _) => multiset{c}
    case _ => multiset{}
  }

  ghost function InHand(workers: seq<Worker>): multiset<nat> {
    if workers == [] then multiset{} else InHand(workers[..|workers| - 1]) + Held(workers[|workers| - 1])
  }

  /** Where a call is: in the queue, with workers, or completed; counted. */
  ghost function Places(st: State, c: nat): nat
    requires c < |st.store|
  {
    multiset(st.queue)[c] + InHand(st.workers)[c] + st.store[c].completions
  }

  ghost predicate CallOk(st: State, c: nat)
    requires c < |st.store|
  {
    && Places(st, c) == 1
    && (st.store[c].completions == 0 <==> st.store[c].id in st.calls && st.calls[st.store[c].id] == c)
  }

  ghost predicate CallsOk(st: State) {
    && (forall c: nat :: c < |st.store| ==> CallOk(st, c))
    && (forall id :: id in st.calls ==> st.calls[id] < |st.store| && st.store[st.calls[id]].id == id)
    && (forall c :: c in multiset(st.queue) + InHand(st.workers) ==> c < |st.store|)
    && (st.holder.Some? && st.holder.value.Submitting? ==> st.holder.value.id !in st.calls)
  }

  ghost predicate BoundsOk(st: State) {
    && |st.queue| <= QUEUE_SIZE && |st.retry| <= STATE_LIMIT && |st.workers| == WORKERS
    && (st.holder == Some(Closing) ==> st.cancelled)
    && (st.drained ==> st.cancelled && st.queue == [] && !(st.holder.Some? && st.holder.value.Submitting?))
  }

  ghost predicate RequesterOk(st: State, r: nat)
    requires r < |st.requesters|
  {
    var q := st.requesters[r];
    match q.phase
    case Waiting(c) => c < |st.store| && st.store[c].id == q.id
    case Returned(FromCall(c, err)) =>
      c < |st.store| && st.store[c].id == q.id && st.store[c].completions == 1 && st.store[c].err == err &&
      (q.connect ==> st.store[c].connect)
    case _ => true
  }

  /** Whoever holds the lock for a requester submits that requester's peer. */
  ghost predicate HolderOk(st: State) {
    st.holder.Some? && st.holder.value.Submitting? && st.holder.value.caller.Some? ==>
      st.holder.value.caller.value < |st.requesters| && st.requesters[st.holder.value.caller.value].id == st.holder.value.id
  }

  ghost predicate RequestersOk(st: State) {
    (forall r: nat :: r < |st.requesters| ==> RequesterOk(st, r)) && HolderOk(st)
  }

  ghost predicate Inv(st: State) {
    CallsOk(st) && BoundsOk(st) && RequestersOk(st)
  }

  lemma InHandSwap(rest: multiset<nat>, other: multiset<nat>, old': multiset<nat>, new': multiset<nat>)
    requires old' <= rest
    ensures (rest - old' + new') + other == (rest + other) - old' + new'
    ensures old' <= rest + other
  {
  }

  lemma InHandLast(init: seq<Worker>, x: Worker)
    ensures InHand(init + [x]) == InHand(init) + Held(x)
  {
    assert (init + [x])[..|init|] == init;
  }

  lemma SwapLast(rest: multiset<nat>, old': multiset<nat>, new': multiset<nat>)
    ensures rest + new' == rest + old' - old' + new' && old' <= rest + old'
  {
  }

  /** `h` is in hand, and `rest + k` is in hand once `k` takes its place. */
  ghost predicate Swapped(before: multiset<nat>, h: multiset<nat>, k: multiset<nat>, after: multiset<nat>) {
    h <= before && after == before - h + k
  }

  lemma SwappedLast(init: seq<Worker>, end: Worker, x: Worker)
    ensures Swapped(InHand(init + [end]), Held(end), Held(x), InHand(init + [x]))
  {
    InHandLast(init, end);
    InHandLast(init, x);
    SwapLast(InHand(init), Held(end), Held(x));
  }

  lemma SwappedBefore(init: seq<Worker>, init': seq<Worker>, end: Worker, h: multiset<nat>, k: multiset<nat>)
    requires Swapped(InHand(init), h, k, InHand(init'))
    ensures Swapped(InHand(init + [end]), h, k, InHand(init' + [end]))
  {
    InHandLast(init, end);
    InHandLast(init', end);
    InHandSwap(InHand(init), Held(end), h, k);
  }

  lemma {:induction false} InHandSwapped(workers: seq<Worker>, w: nat, x: Worker)
    requires w < |workers|
    ensures Swapped(InHand(workers), Held(workers[w]), Held(x), InHand(workers[w := x]))
  {
    var last := |workers| - 1;
    var init, end := workers[..last], workers[last];
    assert workers == init + [end];
    if w == last {
      assert workers[w := x] == init + [x];
      SwappedLast(init, end, x);
    } else {
      assert workers[w := x] == init[w := x] + [end];
      InHandSwapped(init, w, x);
      SwappedBefore(init, init[w := x], end, Held(workers[w]), Held(x));
    }
  }

  lemma InHandUpdate(workers: seq<Worker>, w: nat, x: Worker)
    requires w < |workers|
    ensures InHand(workers[w := x]) == InHand(workers) - Held(workers[w]) + Held(x)
    ensures Held(workers[w]) <= InHand(workers)
  {
    InHandSwapped(workers, w, x);
  }

  lemma StartLast(init: seq<Worker>, x: Worker)
    ensures StartAll(init + [x]) == StartAll(init) + StartAll([x]) && Held(StartAll([x])[0]) == Held(x)
  {
  }

  lemma {:induction false} InHandStart(workers: seq<Worker>)
    ensures InHand(StartAll(workers)) == InHand(workers)
  {
    if workers != [] {
      var init, x := workers[..|workers| - 1], workers[|workers| - 1];
      assert workers == init + [x];
      InHandStart(init);
      StartLast(init, x);
      InHandLast(init, x);
      InHandLast(StartAll(init), StartAll([x])[0]);
      assert StartAll([x]) == [StartAll([x])[0]];
    }
  }

  lemma QueueHead(q: seq<nat>)
    requires q != []
    ensures multiset(q) == multiset{q[0]} + multiset(q[1..])
  {
    assert q == [q[0]] + q[1..];
  }

  lemma {:induction false} NothingInHand(workers: seq<Worker>)
    requires forall w :: 0 <= w < |workers| ==> Held(workers[w]) == multiset{}
    ensures InHand(workers) == multiset{}
  {
    if workers != [] { NothingInHand(workers[..|workers| - 1]); }
  }

  // ---- steps ----

  function Sent(st: State, h: Holder): State
    requires h.Submitting?
  {
    var c := |st.store|;
    st.(store := st.store + [Call(h.id, h.connect, Success, 0)], calls := st.calls[h.id := c],
        queue := st.queue + [c], holder := None, workers := StartAll(st.workers))
  }

  lemma SendKeepsCalls(st: State, h: Holder)
    requires CallsOk(st) && st.holder == Some(h) && h.Submitting?
    ensures CallsOk(Sent(st, h))
  {
    var c, to := |st.store|, Sent(st, h);
    InHandStart(st.workers);
    assert multiset(to.queue) == multiset(st.queue) + multiset{c};
    assert c !in multiset(st.queue) + InHand(st.workers);
    forall k | k in multiset(to.queue) + InHand(to.workers) ensures k < |to.store| {
      assert k == c || k in multiset(st.queue) + InHand(st.workers);
    }
    forall k: nat | k < |to.store| ensures CallOk(to, k) {
      if k < c {
        SendKeepsOld(st, h, k);
      } else {
        assert InHand(to.workers)[c] == 0 && multiset(st.queue)[c] == 0;
      }
    }
  }

  lemma SendKeepsOld(st: State, h: Holder, k: nat)
    requires k < |st.store| && CallOk(st, k) && h.Submitting? && h.id !in st.calls
    requires InHand(StartAll(st.workers)) == InHand(st.workers)
    ensures CallOk(Sent(st, h), k)
  {
    assert Sent(st, h).store[k] == st.store[k];
    assert multiset(st.queue + [|st.store|])[k] == multiset(st.queue)[k];
  }

  lemma MoveKeepsCalls(st: State, to: State)
    requires CallsOk(st) && to.store == st.store && to.calls == st.calls && to.holder == st.holder
    requires multiset(to.queue) + InHand(to.workers) == multiset(st.queue) + InHand(st.workers)
    ensures CallsOk(to)
  {
    forall k: nat | k < |to.store| ensures CallOk(to, k) {
      assert CallOk(st, k);
      assert (multiset(to.queue) + InHand(to.workers))[k] == (multiset(st.queue) + InHand(st.workers))[k];
    }
  }

  /** Completing the call `c`, taken out of the queue or a worker's hands. */
  lemma CloseKeepsCalls(st: State, c: nat, err: Outcome, queue: seq<nat>, workers: seq<Worker>)
    requires CallsOk(st) && c < |st.store|
    requires multiset(queue) + InHand(workers) + multiset{c} == multiset(st.queue) + InHand(st.workers)
    ensures CallsOk(Close(st, c, err).(queue := queue, workers := workers))
  {
    var to := Close(st, c, err).(queue := queue, workers := workers);
    assert c in multiset(st.queue) + InHand(st.workers);
    forall k | k in multiset(queue) + InHand(workers) ensures k < |st.store| {
      assert k in multiset(queue) + InHand(workers) + multiset{c};
    }
    assert CallOk(st, c);
    forall k: nat | k < |to.store| ensures CallOk(to, k) {
      assert CallOk(st, k);
      assert (multiset(queue) + InHand(workers) + multiset{c})[k] == (multiset(st.queue) + InHand(st.workers))[k];
    }
  }

  lemma StepKeepsCalls(cfg: Config, st: State, act: Action)
    requires CallsOk(st) && Enabled(st, act)
    ensures CallsOk(Apply(cfg, st, act))
  {
    if act.Send? { SendStepKeepsCalls(cfg, st); }
    else if act.Take? { TakeKeepsCalls(cfg, st, act.w); }
    else if act.Complete? { CompleteKeepsCalls(cfg, st, act.w); }
    else if act.DrainOne? { DrainKeepsCalls(cfg, st); }
    else if act.Start? || act.Finish? || act.Exit? { ProgressStepKeepsCalls(cfg, st, act); }
    else { OtherStepKeepsCalls(cfg, st, act); }
  }

  lemma ProgressStepKeepsCalls(cfg: Config, st: State, act: Action)
    requires CallsOk(st) && Enabled(st, act) && (act.Start? || act.Finish? || act.Exit?)
    ensures CallsOk(Apply(cfg, st, act))
  {
    var w := act.w;
    var next := if act.Exit? then Exited
                else if act.Finish? then Ran(st.workers[w].call, act.err)
                else if st.cancelled then Ran(st.workers[w].call, Canceled) else Running(st.workers[w].call);
    ProgressKeepsCalls(st, w, next);
  }

  predicate OffCalls(act: Action) {
    act.Submit? || act.Request? || act.Cancel? || act.CloseBegin? || act.CloseEnd? || act.Wake? || act.GiveUp? || act.Tick?
  }

  /** These actions touch neither calls nor queue nor workers. */
  lemma OffCallsEffect(cfg: Config, st: State, act: Action)
    requires Enabled(st, act) && OffCalls(act)
    ensures var to := Apply(cfg, st, act);
      && to.store == st.store && to.calls == st.calls && to.queue == st.queue && to.workers == st.workers
      && (to.holder.Some? && to.holder.value.Submitting? && to.holder != st.holder ==> to.holder.value.id !in st.calls)
  {
  }

  lemma OtherStepKeepsCalls(cfg: Config, st: State, act: Action)
    requires CallsOk(st) && Enabled(st, act) && OffCalls(act)
    ensures CallsOk(Apply(cfg, st, act))
  {
    OffCallsEffect(cfg, st, act);
    SameCalls(st, Apply(cfg, st, act));
  }

  lemma CompleteKeepsCalls(cfg: Config, st: State, w: nat)
    requires CallsOk(st) && Enabled(st, Complete(w))
    ensures CallsOk(Apply(cfg, st, Complete(w)))
  {
    var c, err, workers := st.workers[w].call, st.workers[w].err, st.workers[w := Idle];
    InHandUpdate(st.workers, w, Idle);
    Rejoin(InHand(st.workers), multiset{c});
    CloseKeepsCalls(st, c, err, st.queue, workers);
    SameCalls(Close(st, c, err).(queue := st.queue, workers := workers), Apply(cfg, st, Complete(w)));
  }

  lemma DrainKeepsCalls(cfg: Config, st: State)
    requires CallsOk(st) && Enabled(st, DrainOne)
    ensures CallsOk(Apply(cfg, st, DrainOne))
  {
    QueueHead(st.queue);
    CloseKeepsCalls(st, st.queue[0], Canceled, st.queue[1..], st.workers);
    SameCalls(Close(st, st.queue[0], Canceled).(queue := st.queue[1..], workers := st.workers), Apply(cfg, st, DrainOne));
  }

  lemma Rejoin(m: multiset<nat>, h: multiset<nat>)
    requires h <= m
    ensures m - h + multiset{} + h == m && m - h + h == m
  {
  }

  lemma SendStepKeepsCalls(cfg: Config, st: State)
    requires CallsOk(st) && Enabled(st, Send)
    ensures CallsOk(Apply(cfg, st, Send))
  {
    if |st.queue| < QUEUE_SIZE {
      SendKeepsCalls(st, st.holder.value);
      SameCalls(Sent(st, st.holder.value), Apply(cfg, st, Send));
    } else {
      SameCalls(st, Apply(cfg, st, Send));
    }
  }

  lemma HandOver(st: State, w: nat, next: Worker, queue: seq<nat>)
    requires CallsOk(st) && w < |st.workers|
    requires multiset(queue) + Held(next) == multiset(st.queue) + Held(st.workers[w])
    ensures CallsOk(st.(workers := st.workers[w := next], queue := queue))
  {
    InHandUpdate(st.workers, w, next);
    Swap(multiset(queue), Held(next), multiset(st.queue), Held(st.workers[w]), InHand(st.workers));
    MoveKeepsCalls(st, st.(workers := st.workers[w := next], queue := queue));
  }

  lemma Swap(q': multiset<nat>, h': multiset<nat>, q: multiset<nat>, h: multiset<nat>, all: multiset<nat>)
    requires q' + h' == q + h && h <= all
    ensures q' + (all - h + h') == q + all
  {
    forall c ensures (q' + (all - h + h'))[c] == (q + all)[c] {
      assert (q' + h')[c] == (q + h)[c];
    }
  }

  lemma TakeKeepsCalls(cfg: Config, st: State, w: nat)
    requires CallsOk(st) && Enabled(st, Take(w))
    ensures CallsOk(Apply(cfg, st, Take(w)))
  {
    QueueHead(st.queue);
    HandOver(st, w, Taken(st.queue[0]), st.queue[1..]);
  }

  /** The worker keeps what it has in hand. */
  lemma ProgressKeepsCalls(st: State, w: nat, next: Worker)
    requires CallsOk(st) && w < |st.workers| && Held(next) == Held(st.workers[w])
    ensures CallsOk(SetWorker(st, w, next))
  {
    HandOver(st, w, next, st.queue);
  }

  /** Requesters, the clock and the retry table do not matter to the calls. */
  lemma SameCalls(st: State, to: State)
    requires to.store == st.store && to.calls == st.calls && to.queue == st.queue && to.workers == st.workers
    requires CallsOk(st) && (to.holder.Some? && to.holder.value.Submitting? ==> to.holder.value.id !in to.calls)
    ensures CallsOk(to)
  {
    forall k: nat | k < |to.store| ensures CallOk(to, k) { assert CallOk(st, k); }
  }

  lemma SubsetSize(a: set<PeerID>, b: set<PeerID>)
    requires a <= b
    ensures |a| <= |b|
  {
    assert b == a + (b - a);
  }

  lemma PrunedSize(retry: map<PeerID, Retry>, now: nat)
    ensures |Pruned(retry, now)| <= |retry|
  {
    SubsetSize(Pruned(retry, now).Keys, retry.Keys);
  }

  lemma RetryBounded(retry: map<PeerID, Retry>, id: PeerID, r: Retry, now: nat)
    requires |retry| <= STATE_LIMIT
    ensures |UpdateRetry(retry, id, r, now)| <= STATE_LIMIT
  {
    PutSize(retry, id, r);
    PrunedSize(retry, now);
    PutSize(Pruned(retry, now), id, r);
  }

  lemma PutSize(m: map<PeerID, Retry>, id: PeerID, r: Retry)
    ensures |m[id := r]| == if id in m then |m| else |m| + 1
  {
    assert m[id := r].Keys == m.Keys + {id};
  }

  lemma StepKeepsBounds(cfg: Config, st: State, act: Action)
    requires BoundsOk(st) && Enabled(st, act)
    ensures BoundsOk(Apply(cfg, st, act))
  {
    if act.Complete? {
      var c := st.workers[act.w].call;
      RetryBounded(st.retry, st.store[c].id,
        NextRetry(cfg, RetryOf(st.retry, st.store[c].id), st.workers[act.w].err, st.now), st.now);
    }
  }

  /** Completed calls do not change; open ones keep their peer and kind. */
  lemma StoreStable(cfg: Config, st: State, act: Action, c: nat)
    requires CallsOk(st) && Enabled(st, act) && c < |st.store|
    ensures var to := Apply(cfg, st, act);
      && c < |to.store| && to.store[c].id == st.store[c].id && to.store[c].connect == st.store[c].connect
      && (st.store[c].completions == 1 ==> to.store[c] == st.store[c])
  {
    if act.Complete? {
      CompleteIsFirst(st, act.w);
    } else if act.DrainOne? {
      DrainIsFirst(st);
    }
  }

  lemma CompleteIsFirst(st: State, w: nat)
    requires CallsOk(st) && Enabled(st, Complete(w))
    ensures st.store[st.workers[w].call].completions == 0
  {
    InHandUpdate(st.workers, w, Idle);
    assert st.workers[w].call in Held(st.workers[w]);
    assert CallOk(st, st.workers[w].call);
  }

  lemma DrainIsFirst(st: State)
    requires CallsOk(st) && Enabled(st, DrainOne)
    ensures st.store[st.queue[0]].completions == 0
  {
    assert st.queue[0] in multiset(st.queue);
    assert CallOk(st, st.queue[0]);
  }

  /** The requester an action moves, if any. */
  function Moved(st: State, act: Action): Option<nat> {
    match act
    case Request(r) => Some(r)
    case Wake(r) => Some(r)
    case GiveUp(r) => Some(r)
    case Send => if st.holder.Some? && st.holder.value.Submitting? then st.holder.value.caller else None
    case _ => None
  }

  lemma StepKeepsRequester(cfg: Config, st: State, act: Action, r: nat)
    requires Inv(st) && Enabled(st, act) && r < |st.requesters|
    ensures r < |Apply(cfg, st, act).requesters| && RequesterOk(Apply(cfg, st, act), r)
    ensures Apply(cfg, st, act).requesters[r].id == st.requesters[r].id
  {
    assert RequesterOk(st, r);
    if Moved(st, act) == Some(r) {
      MovedRequesterOk(cfg, st, act, r);
    } else {
      var q := st.requesters[r];
      OthersStay(cfg, st, act, r);
      if q.phase.Waiting? { StoreStable(cfg, st, act, q.phase.call); }
      if q.phase.Returned? && q.phase.result.FromCall? { StoreStable(cfg, st, act, q.phase.result.call); }
    }
  }

  predicate ByRequester(act: Action) {
    act.Request? || act.Send? || act.Wake? || act.GiveUp?
  }

  lemma NobodyMoves(cfg: Config, st: State, act: Action)
    requires Enabled(st, act) && !ByRequester(act)
    ensures Apply(cfg, st, act).requesters == st.requesters
  {
  }

  lemma OthersStay(cfg: Config, st: State, act: Action, r: nat)
    requires Enabled(st, act) && r < |st.requesters| && Moved(st, act) != Some(r)
    ensures r < |Apply(cfg, st, act).requesters| && Apply(cfg, st, act).requesters[r] == st.requesters[r]
  {
    if !ByRequester(act) { NobodyMoves(cfg, st, act); }
  }

  lemma MovedRequesterOk(cfg: Config, st: State, act: Action, r: nat)
    requires CallsOk(st) && RequestersOk(st) && Enabled(st, act) && r < |st.requesters| && Moved(st, act) == Some(r)
    ensures r < |Apply(cfg, st, act).requesters| && RequesterOk(Apply(cfg, st, act), r)
    ensures Apply(cfg, st, act).requesters[r].id == st.requesters[r].id
  {
    match act
    case Wake(_) =>
      assert RequesterOk(st, r);
      WakeOk(st, r);
    case Send => SendRequesterOk(cfg, st, r);
    case _ =>
  }

  lemma WakeOk(st: State, r: nat)
    requires CallsOk(st) && Enabled(st, Wake(r)) && RequesterOk(st, r)
    ensures st.store[st.requesters[r].phase.call].completions == 1
  {
    assert CallOk(st, st.requesters[r].phase.call);
  }

  lemma SendRequesterOk(cfg: Config, st: State, r: nat)
    requires RequestersOk(st) && Enabled(st, Send) && r < |st.requesters| && Moved(st, Send) == Some(r)
    ensures r < |Apply(cfg, st, Send).requesters| && RequesterOk(Apply(cfg, st, Send), r)
    ensures Apply(cfg, st, Send).requesters[r].id == st.requesters[r].id
  {
  }

  lemma StepKeepsHolder(cfg: Config, st: State, act: Action)
    requires Inv(st) && Enabled(st, act)
    ensures |Apply(cfg, st, act).requesters| == |st.requesters|
    ensures HolderOk(Apply(cfg, st, act))
  {
    forall r: nat | r < |st.requesters| && |Apply(cfg, st, act).requesters| == |st.requesters|
      ensures Apply(cfg, st, act).requesters[r].id == st.requesters[r].id
    {
      StepKeepsRequester(cfg, st, act, r);
    }
  }

  lemma StepKeepsInv(cfg: Config, st: State, act: Action)
    requires Inv(st) && Enabled(st, act)
    ensures Inv(Apply(cfg, st, act))
    ensures |Apply(cfg, st, act).requesters| == |st.requesters|
  {
    StepKeepsCalls(cfg, st, act);
    StepKeepsBounds(cfg, st, act);
    StepKeepsHolder(cfg, st, act);
    forall r: nat | r < |st.requesters| ensures RequesterOk(Apply(cfg, st, act), r) {
      StepKeepsRequester(cfg, st, act, r);
    }
  }

  ghost predicate Fresh(requesters: seq<Requester>) {
    forall r :: 0 <= r < |requesters| ==> requesters[r].phase == Trying
  }

  lemma {:induction false} RunKeepsInv(cfg: Config, st: State, acts: seq<Action>)
    requires Inv(st) && Run(cfg, st, acts)
    ensures Inv(After(cfg, st, acts))
    decreases |acts|
  {
    if acts != [] {
      StepKeepsInv(cfg, st, acts[0]);
      RunKeepsInv(cfg, Apply(cfg, st, acts[0]), acts[1..]);
    }
  }

  lemma InitialInv(requesters: seq<Requester>)
    requires Fresh(requesters)
    ensures Inv(InitialState(requesters))
  {
    NothingInHand(InitialState(requesters).workers);
  }

  // ---- main results ----

  /** In every interleaving of submissions, workers and close: `calls` lists
      exactly the open calls, each peer has at most one, and a call completes at
      most once. */
  lemma SingleFlight(cfg: Config, requesters: seq<Requester>, acts: seq<Action>, c: nat, d: nat)
    requires Fresh(requesters) && Run(cfg, InitialState(requesters), acts)
    requires var st := After(cfg, InitialState(requesters), acts); c < |st.store| && d < |st.store|
    ensures var st := After(cfg, InitialState(requesters), acts);
      && st.store[c].completions <= 1
      && (st.store[c].completions == 0 <==> c in st.queue || c in InHand(st.workers))
      && (st.store[c].completions == 0 <==> st.store[c].id in st.calls && st.calls[st.store[c].id] == c)
      && (st.store[c].completions == 0 && st.store[d].completions == 0 && st.store[c].id == st.store[d].id ==> c == d)
  {
    InitialInv(requesters);
    RunKeepsInv(cfg, InitialState(requesters), acts);
    var st := After(cfg, InitialState(requesters), acts);
    assert CallOk(st, c) && CallOk(st, d);
  }

  /** After close has drained the queue and the workers have finished, every
      admitted call has completed exactly once. */
  lemma CloseCompletesAll(cfg: Config, requesters: seq<Requester>, acts: seq<Action>, c: nat)
    requires Fresh(requesters) && Run(cfg, InitialState(requesters), acts)
    requires var st := After(cfg, InitialState(requesters), acts);
      st.drained && c < |st.store| && forall w :: 0 <= w < |st.workers| ==> st.workers[w] == Exited || st.workers[w] == NotStarted
    ensures var st := After(cfg, InitialState(requesters), acts);
      st.store[c].completions == 1 && st.calls == map[]
  {
    InitialInv(requesters);
    RunKeepsInv(cfg, InitialState(requesters), acts);
    var st := After(cfg, InitialState(requesters), acts);
    NothingInHand(st.workers);
    forall k: nat | k < |st.store| ensures st.store[k].completions == 1 { assert CallOk(st, k); }
    forall id ensures id !in st.calls { assert id in st.calls ==> CallOk(st, st.calls[id]); }
  }

  /** A request that returns a call's result got one for its own peer, after it
      completed; a user's connect request never gets a background call's. */
  lemma RequestGetsItsKind(cfg: Config, requesters: seq<Requester>, acts: seq<Action>, r: nat)
    requires Fresh(requesters) && Run(cfg, InitialState(requesters), acts)
    requires var st := After(cfg, InitialState(requesters), acts);
      r < |st.requesters| && st.requesters[r].phase.Returned? && st.requesters[r].phase.result.FromCall?
    ensures var st := After(cfg, InitialState(requesters), acts);
      var q := st.requesters[r];
      var c := q.phase.result.call;
      && c < |st.store| && st.store[c].id == q.id && st.store[c].completions == 1 && st.store[c].err == q.phase.result.err
      && (q.connect ==> st.store[c].connect)
  {
    InitialInv(requesters);
    RunKeepsInv(cfg, InitialState(requesters), acts);
    assert RequesterOk(After(cfg, InitialState(requesters), acts), r);
  }

  /** The retry table stays bounded. */
  lemma RetryTableBounded(cfg: Config, requesters: seq<Requester>, acts: seq<Action>)
    requires Fresh(requesters) && Run(cfg, InitialState(requesters), acts)
    ensures |After(cfg, InitialState(requesters), acts).retry| <= STATE_LIMIT
    ensures |After(cfg, InitialState(requesters), acts).queue| <= QUEUE_SIZE
  {
    InitialInv(requesters);
    RunKeepsInv(cfg, InitialState(requesters), acts);
  }

  /** Making room never ends the backoff of another peer: only entries that
      no longer hold anything back are dropped. */
  lemma PruningKeepsBackoff(retry: map<PeerID, Retry>, id: PeerID, r: Retry, now: nat, other: PeerID)
    requires other != id && now < RetryOf(retry, other).next
    ensures RetryOf(UpdateRetry(retry, id, r, now), other) == RetryOf(retry, other)
    ensures id in retry ==> id in UpdateRetry(retry, id, r, now)
  {
    assert other in retry;
    var kept := map k | k in retry && now < retry[k].next :: retry[k];
    assert other in kept && kept[other] == retry[other];
  }
}
