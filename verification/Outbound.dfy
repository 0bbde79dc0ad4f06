/** The outbound queues of one router and their global byte budget
    (pkg/tundevice/router.go) as a state machine. `r.mu` is held by whoever is
    in `enq`; channel receives and budget updates happen outside it. */
module Outbound {
  import opened Subsequence
  import opened Wrappers

  type Dest = string
  datatype Packet = Packet(tag: nat, size: nat)
  const QUEUE_SIZE: nat := 256
  const MAX_WORKERS: nat := 256

  /** runOutbound's program points: in select, forwarding, about to return the
      bytes, returned from the loop, draining in removeOutboundWorker, finished. */
  datatype Phase = Idle | Forwarding(p: Packet) | Releasing(p: Packet) | Leaving | Draining(total: nat) | Done

  datatype Worker = Worker(dest: Dest, queue: seq<Packet>, phase: Phase)

  /** enqueuePacket after its capacity test: before and after acquireBudget. */
  datatype Enqueue = Checked(worker: nat, p: Packet) | Reserved(worker: nat, p: Packet)

  datatype State = State(
    outbound: map<Dest, nat>, workers: seq<Worker>, enq: Option<Enqueue>, budget: int, cancelled: bool,
    accepted: map<Dest, seq<Packet>>, forwarded: map<Dest, seq<Packet>>)

  datatype Action =
    | Begin(dest: Dest, p: Packet)  // enqueuePacket: find or create the worker, test the queue
    | Acquire                       // acquireBudget
    | Send                          // worker.packets <- ownedPacket, with its full-queue default branch
    | Take(w: nat)                  // packet := <-worker.packets
    | Forward(w: nat)               // forwardImpl returns
    | Release(w: nat)               // releaseBudget
    | IdleExit(w: nat)              // idle timer: delete the mapping and return
    | CancelExit(w: nat)            // <-ctx.Done()
    | Remove(w: nat)                // removeOutboundWorker: the locked part
    | Drain(w: nat)                 // removeOutboundWorker: one packet
    | DrainEnd(w: nat)              // removeOutboundWorker: give back the total
    | Cancel                        // the parent context ends
    | CloseTables                   // Close: the locked part

  function Log(m: map<Dest, seq<Packet>>, d: Dest): seq<Packet> {
    if d in m then m[d] else []
  }

  const INITIAL := State(map[], [], None, 0, false, map[], map[])

  function Put(st: State, w: nat, x: Worker): State
    requires w < |st.workers|
  {
    st.(workers := st.workers[w := x])
  }

  predicate Enabled(st: State, act: Action) {
    match act
    case Begin(_, _) => st.enq == None && !st.cancelled
    case Acquire => st.enq.Some? && st.enq.value.Checked?
    case Send => st.enq.Some? && st.enq.value.Reserved? && st.enq.value.worker < |st.workers|
    case Take(w) => w < |st.workers| && st.workers[w].phase == Idle && st.workers[w].queue != []
    case Forward(w) => w < |st.workers| && st.workers[w].phase.Forwarding?
    case Release(w) => w < |st.workers| && st.workers[w].phase.Releasing?
    case IdleExit(w) =>
      w < |st.workers| && st.enq == None && st.workers[w].phase == Idle && st.workers[w].queue == [] && Mapped(st, w)
    case CancelExit(w) => w < |st.workers| && st.cancelled && st.workers[w].phase == Idle
    case Remove(w) => w < |st.workers| && st.enq == None && st.workers[w].phase == Leaving
    case Drain(w) => w < |st.workers| && st.workers[w].phase.Draining? && st.workers[w].queue != []
    case DrainEnd(w) => w < |st.workers| && st.workers[w].phase.Draining? && st.workers[w].queue == []
    case Cancel => true
    case CloseTables => st.enq == None
  }

  predicate Mapped(st: State, w: nat) {
    w < |st.workers| && st.workers[w].dest in st.outbound && st.outbound[st.workers[w].dest] == w
  }

  /** The worker of a destination, created if there is none. */
  function WithWorker(st: State, d: Dest): State {
    if d in st.outbound then st
    else st.(outbound := st.outbound[d := |st.workers|], workers := st.workers + [Worker(d, [], Idle)])
  }

  /** enqueuePacket up to and including its queue test. */
  function BeginEnqueue(st: State, d: Dest, p: Packet): State {
    if d !in st.outbound && |st.outbound| >= MAX_WORKERS then st
    else
      var at := WithWorker(st, d);
      var w := at.outbound[d];
      if w < |at.workers| && |at.workers[w].queue| < QUEUE_SIZE then at.(enq := Some(Checked(w, p))) else at
  }

  function SendPacket(st: State, w: nat, p: Packet): State
    requires w < |st.workers|
  {
    var x := st.workers[w];
    if |x.queue| < QUEUE_SIZE then
      Put(st, w, x.(queue := x.queue + [p]))
        .(enq := None, accepted := st.accepted[x.dest := Log(st.accepted, x.dest) + [p]])
    else st.(enq := None, budget := st.budget - p.size)
  }

  function Apply(max: nat, st: State, act: Action): State
    requires Enabled(st, act)
  {
    match act
    case Begin(d, p) => BeginEnqueue(st, d, p)
    case Acquire =>
      var e := st.enq.value;
      if st.budget + e.p.size > max then st.(enq := None)
      else st.(enq := Some(Reserved(e.worker, e.p)), budget := st.budget + e.p.size)
    case Send => SendPacket(st, st.enq.value.worker, st.enq.value.p)
    case Take(w) =>
      var x := st.workers[w];
      Put(st, w, x.(queue := x.queue[1..], phase := Forwarding(x.queue[0])))
    case Forward(w) =>
      var x := st.workers[w];
      Put(st, w, x.(phase := Releasing(x.phase.p)))
        .(forwarded := st.forwarded[x.dest := Log(st.forwarded, x.dest) + [x.phase.p]])
    case Release(w) =>
      var x := st.workers[w];
      Put(st, w, x.(phase := Idle)).(budget := st.budget - x.phase.p.size)
    case IdleExit(w) =>
      var x := st.workers[w];
      Put(st, w, x.(phase := Leaving)).(outbound := st.outbound - {x.dest})
    case CancelExit(w) => Put(st, w, st.workers[w].(phase := Leaving))
    case Remove(w) =>
      var x := st.workers[w];
      Put(st, w, x.(phase := Draining(0)))
        .(outbound := if Mapped(st, w) then st.outbound - {x.dest} else st.outbound)
    case Drain(w) =>
      var x := st.workers[w];
      Put(st, w, x.(queue := x.queue[1..], phase := Draining(x.phase.total + x.queue[0].size)))
    case DrainEnd(w) =>
      var x := st.workers[w];
      Put(st, w, x.(phase := Done)).(budget := st.budget - x.phase.total)
    case Cancel => st.(cancelled := true)
    case CloseTables => st.(cancelled := true, outbound := map[])
  }

  ghost predicate Run(max: nat, st: State, acts: seq<Action>)
    decreases |acts|
  {
    acts == [] || (Enabled(st, acts[0]) && Run(max, Apply(max, st, acts[0]), acts[1..]))
  }

  ghost function After(max: nat, st: State, acts: seq<Action>): State
    requires Run(max, st, acts)
    decreases |acts|
  {
    if acts == [] then st else After(max, Apply(max, st, acts[0]), acts[1..])
  }

  // ---- the byte budget ----

  function Bytes(q: seq<Packet>): nat {
    if q == [] then 0 else q[0].size + Bytes(q[1..])
  }

  function PhaseBytes(ph: Phase): nat {
    match ph
    case Forwarding(p) => p.size
    case Releasing(p) => p.size
    case Draining(t) => t
    case _ => 0
  }

  /** Bytes a worker still answers for. */
  function Load(x: Worker): nat { Bytes(x.queue) + PhaseBytes(x.phase) }

  function TotalLoad(workers: seq<Worker>): nat {
    if workers == [] then 0 else TotalLoad(workers[..|workers| - 1]) + Load(workers[|workers| - 1])
  }

  function ReservedBytes(enq: Option<Enqueue>): nat {
    if enq.Some? && enq.value.Reserved? then enq.value.p.size else 0
  }

  ghost predicate Budgeted(max: nat, st: State) {
    st.budget == TotalLoad(st.workers) + ReservedBytes(st.enq) && st.budget <= max
  }

  lemma {:induction false} LoadUpdate(workers: seq<Worker>, w: nat, x: Worker)
    requires w < |workers|
    ensures TotalLoad(workers[w := x]) == TotalLoad(workers) - Load(workers[w]) + Load(x)
  {
    var last := |workers| - 1;
    if w == last {
      assert workers[w := x][..last] == workers[..last];
    } else {
      LoadUpdate(workers[..last], w, x);
      assert workers[w := x][..last] == workers[..last][w := x];
    }
  }

  lemma LoadAppend(workers: seq<Worker>, x: Worker)
    ensures TotalLoad(workers + [x]) == TotalLoad(workers) + Load(x)
  {
    assert (workers + [x])[..|workers|] == workers;
  }

  lemma {:induction false} BytesAppend(q: seq<Packet>, p: Packet)
    ensures Bytes(q + [p]) == Bytes(q) + p.size
  {
    if q != [] {
      BytesAppend(q[1..], p);
      assert (q + [p])[1..] == q[1..] + [p];
    } else {
      assert (q + [p])[1..] == [];
    }
  }

  // ---- who holds packets ----

  /** Accepted packets of a worker that were not handed to forwardPacket yet. */
  function Waiting(x: Worker): seq<Packet> {
    (if x.phase.Forwarding? then [x.phase.p] else []) + x.queue
  }

  ghost predicate Holding(st: State, w: nat)
    requires w < |st.workers|
  {
    Mapped(st, w) || Waiting(st.workers[w]) != [] || st.workers[w].phase.Releasing?
  }

  ghost predicate WorkerOk(st: State, w: nat)
    requires w < |st.workers|
  {
    var x := st.workers[w];
    && |x.queue| <= QUEUE_SIZE
    && (Mapped(st, w) ==> !x.phase.Draining? && x.phase != Done && (x.phase == Leaving ==> st.cancelled))
    && (Holding(st, w) && !Mapped(st, w) ==> st.cancelled)
    && (x.phase == Done ==> x.queue == [])
    && Ordered(x, Log(st.forwarded, x.dest), Log(st.accepted, x.dest))
    && (!st.cancelled && Mapped(st, w) ==> Complete(x, Log(st.forwarded, x.dest), Log(st.accepted, x.dest)))
  }

  /** What was forwarded and what still waits are in the order of acceptance. */
  ghost predicate Ordered(x: Worker, log: seq<Packet>, acc: seq<Packet>) {
    Subseq(log + Waiting(x), acc)
  }

  ghost predicate Complete(x: Worker, log: seq<Packet>, acc: seq<Packet>) {
    acc == log + Waiting(x)
  }

  ghost predicate Apart(st: State, v: nat, w: nat)
    requires v < |st.workers| && w < |st.workers|
  {
    v != w && st.workers[v].dest == st.workers[w].dest ==> !(Holding(st, v) && Holding(st, w))
  }

  ghost predicate TableOk(st: State) {
    && (forall d :: d in st.outbound ==> st.outbound[d] < |st.workers| && st.workers[st.outbound[d]].dest == d)
    && |st.outbound| <= MAX_WORKERS
    && (st.enq.Some? ==> Mapped(st, st.enq.value.worker) && |st.workers[st.enq.value.worker].queue| < QUEUE_SIZE)
  }

  ghost predicate LogOk(st: State, d: Dest) {
    && Subseq(Log(st.forwarded, d), Log(st.accepted, d))
    && (!st.cancelled && d !in st.outbound ==> Log(st.accepted, d) == Log(st.forwarded, d))
  }

  ghost predicate LogsOk(st: State) {
    forall d :: LogOk(st, d)
  }

  ghost predicate Inv(max: nat, st: State) {
    && Budgeted(max, st) && TableOk(st) && LogsOk(st)
    && (forall w: nat :: w < |st.workers| ==> WorkerOk(st, w))
    && (forall v: nat, w: nat :: v < |st.workers| && w < |st.workers| ==> Apart(st, v, w))
  }

  predicate ByWorker(act: Action) {
    act.Take? || act.Forward? || act.Release? || act.IdleExit? || act.CancelExit? || act.Remove? || act.Drain? || act.DrainEnd?
  }

  function Actor(act: Action): nat
    requires ByWorker(act)
  {
    act.w
  }

  /** A worker's action changes that worker alone and gives back what it sheds. */
  lemma WorkerAction(max: nat, st: State, act: Action)
    requires Enabled(st, act) && ByWorker(act)
    ensures var to, w := Apply(max, st, act), Actor(act);
      && w < |st.workers| == |to.workers|
      && to.workers == st.workers[w := to.workers[w]]
      && to.workers[w].dest == st.workers[w].dest
      && to.enq == st.enq && to.accepted == st.accepted
      && st.budget - to.budget == Load(st.workers[w]) - Load(to.workers[w])
      && to.budget <= st.budget
  {
  }

  lemma SendKeepsBudget(max: nat, st: State, w: nat, p: Packet)
    requires Budgeted(max, st) && w < |st.workers| && st.enq == Some(Reserved(w, p))
    ensures Budgeted(max, SendPacket(st, w, p))
  {
    var x := st.workers[w];
    BytesAppend(x.queue, p);
    LoadUpdate(st.workers, w, x.(queue := x.queue + [p]));
  }

  lemma BeginKeepsBudget(max: nat, st: State, d: Dest, p: Packet)
    requires Budgeted(max, st) && st.enq == None
    ensures Budgeted(max, BeginEnqueue(st, d, p))
  {
    LoadAppend(st.workers, Worker(d, [], Idle));
  }

  lemma StepKeepsBudget(max: nat, st: State, act: Action)
    requires Budgeted(max, st) && TableOk(st) && Enabled(st, act)
    ensures Budgeted(max, Apply(max, st, act))
  {
    if ByWorker(act) {
      WorkerAction(max, st, act);
      LoadUpdate(st.workers, Actor(act), Apply(max, st, act).workers[Actor(act)]);
    } else if act.Send? {
      SendKeepsBudget(max, st, st.enq.value.worker, st.enq.value.p);
    } else if act.Begin? {
      BeginKeepsBudget(max, st, act.dest, act.p);
    }
  }

  lemma LocalKeepsTable(max: nat, st: State, act: Action)
    requires TableOk(st) && Enabled(st, act) && ByWorker(act) && !act.IdleExit? && !act.Remove?
    ensures TableOk(Apply(max, st, act))
  {
    WorkerAction(max, st, act);
    var to := Apply(max, st, act);
    assert to.outbound == st.outbound;
    assert |to.workers[Actor(act)].queue| <= |st.workers[Actor(act)].queue|;
  }

  lemma StepKeepsTable(max: nat, st: State, act: Action)
    requires TableOk(st) && Enabled(st, act)
    ensures TableOk(Apply(max, st, act))
  {
    if act.Begin? {
      BeginKeepsTable(st, act.dest, act.p);
    } else if act.IdleExit? || act.Remove? {
      UnmapKeepsTable(max, st, act);
    } else if ByWorker(act) {
      LocalKeepsTable(max, st, act);
    }
  }

  lemma WithWorkerOk(st: State, d: Dest)
    requires TableOk(st) && st.enq == None && (d !in st.outbound ==> |st.outbound| < MAX_WORKERS)
    ensures TableOk(WithWorker(st, d)) && d in WithWorker(st, d).outbound
  {
    assert st.outbound[d := |st.workers|].Keys == st.outbound.Keys + {d};
  }

  lemma BeginKeepsTable(st: State, d: Dest, p: Packet)
    requires TableOk(st) && st.enq == None
    ensures TableOk(BeginEnqueue(st, d, p))
  {
    if d in st.outbound || |st.outbound| < MAX_WORKERS { WithWorkerOk(st, d); }
  }

  lemma UnmapKeepsTable(max: nat, st: State, act: Action)
    requires TableOk(st) && Enabled(st, act) && (act.IdleExit? || act.Remove?)
    ensures TableOk(Apply(max, st, act))
  {
    WorkerAction(max, st, act);
    UnmapOk(st, Apply(max, st, act), Actor(act));
  }

  lemma UnmapOk(st: State, to: State, w: nat)
    requires TableOk(st) && st.enq == None && to.enq == None && w < |st.workers| == |to.workers|
    requires to.outbound == st.outbound || to.outbound == st.outbound - {st.workers[w].dest}
    requires forall i :: 0 <= i < |st.workers| ==> to.workers[i].dest == st.workers[i].dest
    ensures TableOk(to)
  {
    WithoutIsSmaller(st.outbound, st.workers[w].dest);
  }

  lemma WithoutIsSmaller(m: map<Dest, nat>, d: Dest)
    ensures |m - {d}| <= |m|
  {
    assert (m - {d}).Keys == m.Keys - {d};
    assert |m - {d}| == |(m - {d}).Keys| && |m| == |m.Keys|;
    assert d in m ==> |m.Keys - {d}| == |m.Keys| - 1;
    assert d !in m ==> m.Keys - {d} == m.Keys;
  }

  // ---- order ----

  lemma OrderedForward(x: Worker, log: seq<Packet>, acc: seq<Packet>)
    requires x.phase.Forwarding? && Ordered(x, log, acc)
    ensures Ordered(x.(phase := Releasing(x.phase.p)), log + [x.phase.p], acc)
    ensures Complete(x, log, acc) ==> Complete(x.(phase := Releasing(x.phase.p)), log + [x.phase.p], acc)
    ensures Subseq(log + [x.phase.p], acc)
  {
    var p := x.phase.p;
    assert log + Waiting(x) == (log + [p]) + x.queue;
    assert Waiting(x.(phase := Releasing(p))) == x.queue;
    SubseqCut(log + [p], x.queue, acc);
  }

  lemma OrderedSend(x: Worker, log: seq<Packet>, acc: seq<Packet>, p: Packet)
    requires Ordered(x, log, acc)
    ensures Ordered(x.(queue := x.queue + [p]), log, acc + [p])
    ensures Complete(x, log, acc) ==> Complete(x.(queue := x.queue + [p]), log, acc + [p])
    ensures Ordered(x, log, acc + [p])
  {
    SubseqSnoc(log + Waiting(x), acc, p);
    assert (log + Waiting(x)) + [p] == log + Waiting(x.(queue := x.queue + [p]));
  }

  lemma OrderedDrain(x: Worker, log: seq<Packet>, acc: seq<Packet>, total: nat)
    requires x.phase.Draining? && x.queue != [] && Ordered(x, log, acc)
    ensures Ordered(x.(queue := x.queue[1..], phase := Draining(total)), log, acc)
  {
    var all := log + x.queue;
    assert Waiting(x) == x.queue;
    SubseqWithout(all, |log|, acc);
    assert all[..|log|] + all[|log| + 1..] == log + x.queue[1..];
    assert Waiting(x.(queue := x.queue[1..], phase := Draining(total))) == x.queue[1..];
  }

  lemma SameWaiting(max: nat, st: State, act: Action)
    requires Enabled(st, act) && ByWorker(act) && !act.Forward? && !act.Drain?
    ensures Waiting(Apply(max, st, act).workers[Actor(act)]) == Waiting(st.workers[Actor(act)])
  {
  }

  /** Nothing changed for worker `v`, except that it may have lost its mapping to a cancellation. */
  lemma OtherWorkerOk(st: State, to: State, v: nat)
    requires v < |st.workers| && v < |to.workers| && WorkerOk(st, v) && to.workers[v] == st.workers[v]
    requires Mapped(to, v) ==> Mapped(st, v)
    requires Mapped(st, v) && !Mapped(to, v) ==> to.cancelled
    requires st.cancelled ==> to.cancelled
    requires Log(to.forwarded, st.workers[v].dest) == Log(st.forwarded, st.workers[v].dest)
    requires Log(to.accepted, st.workers[v].dest) == Log(st.accepted, st.workers[v].dest)
    ensures WorkerOk(to, v)
  {
  }

  lemma ForwardKeeps(max: nat, st: State, w: nat, v: nat)
    requires Enabled(st, Forward(w)) && v < |st.workers|
    requires WorkerOk(st, w) && WorkerOk(st, v) && Apart(st, v, w)
    ensures WorkerOk(Apply(max, st, Forward(w)), v)
  {
    var to, x, y := Apply(max, st, Forward(w)), st.workers[w], st.workers[v];
    OrderedForward(x, Log(st.forwarded, x.dest), Log(st.accepted, x.dest));
    if v == w {
    } else if y.dest == x.dest {
      assert Waiting(x) != [] && Holding(st, w) && !Holding(st, v);
      assert Waiting(y) == [];
      assert Log(to.forwarded, y.dest) + Waiting(y) == Log(to.forwarded, y.dest);
    } else {
      OtherWorkerOk(st, to, v);
    }
  }

  lemma SendKeeps(st: State, w: nat, p: Packet, v: nat)
    requires v < |st.workers| && w < |st.workers| && |st.workers[w].queue| < QUEUE_SIZE && Mapped(st, w)
    requires WorkerOk(st, w) && WorkerOk(st, v) && Apart(st, v, w)
    ensures WorkerOk(SendPacket(st, w, p), v)
  {
    var to, x, y := SendPacket(st, w, p), st.workers[w], st.workers[v];
    if v == w {
      OrderedSend(x, Log(st.forwarded, x.dest), Log(st.accepted, x.dest), p);
    } else if y.dest == x.dest {
      assert !Holding(st, v);
      OrderedSend(y, Log(st.forwarded, x.dest), Log(st.accepted, x.dest), p);
    } else {
      OtherWorkerOk(st, to, v);
    }
  }

  lemma DrainKeeps(max: nat, st: State, w: nat, v: nat)
    requires Enabled(st, Drain(w)) && v < |st.workers| && WorkerOk(st, w) && WorkerOk(st, v)
    ensures WorkerOk(Apply(max, st, Drain(w)), v)
  {
    var x := st.workers[w];
    if v == w {
      OrderedDrain(x, Log(st.forwarded, x.dest), Log(st.accepted, x.dest), x.phase.total + x.queue[0].size);
    } else {
      OtherWorkerOk(st, Apply(max, st, Drain(w)), v);
    }
  }

  lemma LocalKeeps(max: nat, st: State, act: Action, v: nat)
    requires Enabled(st, act) && ByWorker(act) && !act.Forward? && !act.Drain?
    requires v < |st.workers| && WorkerOk(st, Actor(act)) && WorkerOk(st, v)
    ensures WorkerOk(Apply(max, st, act), v)
  {
    var to := Apply(max, st, act);
    SameWaiting(max, st, act);
    WorkerAction(max, st, act);
    if v == Actor(act) {
      LocalSelf(max, st, act);
    } else {
      OtherWorkerOk(st, to, v);
    }
  }

  lemma LocalSelf(max: nat, st: State, act: Action)
    requires Enabled(st, act) && ByWorker(act) && !act.Forward? && !act.Drain?
    requires WorkerOk(st, Actor(act))
    requires Waiting(Apply(max, st, act).workers[Actor(act)]) == Waiting(st.workers[Actor(act)])
    ensures WorkerOk(Apply(max, st, act), Actor(act))
  {
  }

  lemma BeginKeeps(st: State, d: Dest, p: Packet, v: nat)
    requires TableOk(st) && LogsOk(st) && !st.cancelled && st.enq == None
    requires v < |BeginEnqueue(st, d, p).workers| && (v < |st.workers| ==> WorkerOk(st, v))
    ensures WorkerOk(BeginEnqueue(st, d, p), v)
  {
    var to := BeginEnqueue(st, d, p);
    BeginEffect(st, d, p);
    if v < |st.workers| {
      OtherWorkerOk(st, to, v);
    } else {
      assert LogOk(st, d);
      assert Log(st.forwarded, d) + Waiting(to.workers[v]) == Log(st.forwarded, d);
    }
  }

  lemma BeginEffect(st: State, d: Dest, p: Packet)
    requires TableOk(st)
    ensures var to := BeginEnqueue(st, d, p);
      && to.accepted == st.accepted && to.forwarded == st.forwarded && to.cancelled == st.cancelled
      && ((to.workers == st.workers && to.outbound == st.outbound) ||
          (d !in st.outbound && to.workers == st.workers + [Worker(d, [], Idle)] && to.outbound == st.outbound[d := |st.workers|]))
  {
    var to := BeginEnqueue(st, d, p);
    if d in st.outbound || |st.outbound| < MAX_WORKERS {
      assert to == WithWorker(st, d).(enq := to.enq);
    }
  }

  lemma OnlyBeginGrows(max: nat, st: State, act: Action)
    requires TableOk(st) && Enabled(st, act)
    ensures |Apply(max, st, act).workers| == |st.workers| ||
            (act.Begin? && |Apply(max, st, act).workers| == |st.workers| + 1 &&
             Apply(max, st, act).workers[|st.workers|].dest == act.dest)
  {
    if act.Begin? { BeginEffect(st, act.dest, act.p); }
    else if ByWorker(act) { WorkerAction(max, st, act); }
  }

  lemma SilentKeeps(max: nat, st: State, act: Action, v: nat)
    requires Enabled(st, act) && (act.Acquire? || act.Cancel? || act.CloseTables?)
    requires v < |st.workers| && WorkerOk(st, v)
    ensures WorkerOk(Apply(max, st, act), v)
  {
    OtherWorkerOk(st, Apply(max, st, act), v);
  }

  lemma ByWorkerKeeps(max: nat, st: State, act: Action, v: nat)
    requires Enabled(st, act) && ByWorker(act) && Actor(act) < |st.workers| && v < |st.workers|
    requires WorkerOk(st, Actor(act)) && WorkerOk(st, v) && Apart(st, v, Actor(act))
    ensures WorkerOk(Apply(max, st, act), v)
  {
    if act.Forward? {
      ForwardKeeps(max, st, act.w, v);
    } else if act.Drain? {
      DrainKeeps(max, st, act.w, v);
    } else {
      LocalKeeps(max, st, act, v);
    }
  }

  /** Workers that an action is about, besides `v`. */
  ghost predicate PartnersOk(st: State, act: Action, v: nat) {
    && (v < |st.workers| ==> WorkerOk(st, v))
    && (v < |st.workers| && ByWorker(act) && Actor(act) < |st.workers| ==>
          WorkerOk(st, Actor(act)) && Apart(st, v, Actor(act)))
    && (v < |st.workers| && act.Send? && st.enq.Some? && st.enq.value.worker < |st.workers| ==>
          WorkerOk(st, st.enq.value.worker) && Apart(st, v, st.enq.value.worker))
  }

  lemma InvGivesPartners(max: nat, st: State, act: Action, v: nat)
    requires Inv(max, st)
    ensures PartnersOk(st, act, v)
  {
  }

  lemma StepKeepsWorker(max: nat, st: State, act: Action, v: nat)
    requires TableOk(st) && LogsOk(st) && PartnersOk(st, act, v) && Enabled(st, act)
    requires v < |Apply(max, st, act).workers|
    ensures WorkerOk(Apply(max, st, act), v)
  {
    if act.Begin? {
      BeginKeeps(st, act.dest, act.p, v);
    } else {
      OnlyBeginGrows(max, st, act);
      if ByWorker(act) {
        WorkerAction(max, st, act);
        ByWorkerKeeps(max, st, act, v);
      } else if act.Send? {
        SendKeeps(st, st.enq.value.worker, st.enq.value.p, v);
      } else {
        SilentKeeps(max, st, act, v);
      }
    }
  }

  lemma ActorHoldingShrinks(max: nat, st: State, act: Action)
    requires Enabled(st, act) && ByWorker(act)
    ensures Actor(act) < |st.workers| == |Apply(max, st, act).workers|
    ensures Holding(Apply(max, st, act), Actor(act)) ==> Holding(st, Actor(act))
  {
  }

  /** No action gives a worker packets or a mapping unless it had one, or is
      created for an unmapped destination. */
  lemma HoldingOnlyShrinks(max: nat, st: State, act: Action, v: nat)
    requires TableOk(st) && Enabled(st, act) && v < |st.workers|
    ensures v < |Apply(max, st, act).workers| && Apply(max, st, act).workers[v].dest == st.workers[v].dest
    ensures Holding(Apply(max, st, act), v) ==> Holding(st, v)
  {
    if act.Begin? {
      BeginEffect(st, act.dest, act.p);
    } else if ByWorker(act) {
      WorkerAction(max, st, act);
      if v == Actor(act) { ActorHoldingShrinks(max, st, act); }
    }
  }

  lemma StepKeepsApart(max: nat, st: State, act: Action, v: nat, w: nat)
    requires Inv(max, st) && Enabled(st, act)
    requires v < |Apply(max, st, act).workers| && w < |Apply(max, st, act).workers|
    ensures Apart(Apply(max, st, act), v, w)
  {
    if v < |st.workers| && w < |st.workers| {
      HoldingOnlyShrinks(max, st, act, v);
      HoldingOnlyShrinks(max, st, act, w);
      assert Apart(st, v, w);
    } else {
      OnlyBeginGrows(max, st, act);
      if v < |st.workers| { NewcomerAlone(st, act.dest, act.p, v); }
      if w < |st.workers| { NewcomerAlone(st, act.dest, act.p, w); }
    }
  }

  lemma NewcomerAlone(st: State, d: Dest, p: Packet, v: nat)
    requires TableOk(st) && !st.cancelled && v < |st.workers| && WorkerOk(st, v)
    requires |BeginEnqueue(st, d, p).workers| > |st.workers|
    ensures st.workers[v].dest == d ==> !Holding(BeginEnqueue(st, d, p), v)
    ensures BeginEnqueue(st, d, p).workers[v] == st.workers[v]
  {
    BeginEffect(st, d, p);
  }

  lemma ForwardKeepsLog(max: nat, st: State, w: nat, d: Dest)
    requires Enabled(st, Forward(w)) && WorkerOk(st, w) && LogOk(st, d)
    requires st.cancelled || Mapped(st, w)
    ensures LogOk(Apply(max, st, Forward(w)), d)
  {
    var x := st.workers[w];
    OrderedForward(x, Log(st.forwarded, x.dest), Log(st.accepted, x.dest));
  }

  lemma SendKeepsLog(st: State, w: nat, p: Packet, d: Dest)
    requires w < |st.workers| && Mapped(st, w) && LogOk(st, d)
    ensures LogOk(SendPacket(st, w, p), d)
  {
    SubseqSnoc(Log(st.forwarded, d), Log(st.accepted, d), p);
  }

  lemma UnmapKeepsLog(max: nat, st: State, act: Action, d: Dest)
    requires Enabled(st, act) && (act.IdleExit? || act.Remove?) && WorkerOk(st, Actor(act)) && LogOk(st, d)
    ensures LogOk(Apply(max, st, act), d)
  {
    var x := st.workers[Actor(act)];
    assert act.IdleExit? ==> Log(st.forwarded, x.dest) + Waiting(x) == Log(st.forwarded, x.dest);
  }

  lemma StepKeepsLog(max: nat, st: State, act: Action, d: Dest)
    requires TableOk(st) && Enabled(st, act) && LogOk(st, d)
    requires ByWorker(act) && Actor(act) < |st.workers| ==> WorkerOk(st, Actor(act))
    ensures LogOk(Apply(max, st, act), d)
  {
    if act.Forward? {
      assert Waiting(st.workers[act.w]) != [] && Holding(st, act.w);
      ForwardKeepsLog(max, st, act.w, d);
    } else if act.Send? {
      SendKeepsLog(st, st.enq.value.worker, st.enq.value.p, d);
    } else if act.IdleExit? || act.Remove? {
      UnmapKeepsLog(max, st, act, d);
    } else if act.Begin? {
      BeginEffect(st, act.dest, act.p);
    }
  }

  lemma StepKeepsLogs(max: nat, st: State, act: Action)
    requires TableOk(st) && LogsOk(st) && Enabled(st, act)
    requires ByWorker(act) && Actor(act) < |st.workers| ==> WorkerOk(st, Actor(act))
    ensures LogsOk(Apply(max, st, act))
  {
    var to := Apply(max, st, act);
    forall d ensures LogOk(to, d) {
      assert LogOk(st, d);
      StepKeepsLog(max, st, act, d);
    }
  }

  lemma StepKeepsInv(max: nat, st: State, act: Action)
    requires Inv(max, st) && Enabled(st, act)
    ensures Inv(max, Apply(max, st, act))
  {
    StepKeepsBudget(max, st, act);
    StepKeepsTable(max, st, act);
    assert ByWorker(act) && Actor(act) < |st.workers| ==> WorkerOk(st, Actor(act));
    StepKeepsLogs(max, st, act);
    forall v: nat | v < |Apply(max, st, act).workers| ensures WorkerOk(Apply(max, st, act), v) {
      InvGivesPartners(max, st, act, v);
      StepKeepsWorker(max, st, act, v);
    }
    forall v: nat, w: nat | v < |Apply(max, st, act).workers| && w < |Apply(max, st, act).workers|
      ensures Apart(Apply(max, st, act), v, w)
    {
      StepKeepsApart(max, st, act, v, w);
    }
  }

  lemma {:induction false} RunKeepsInv(max: nat, st: State, acts: seq<Action>)
    requires Inv(max, st) && Run(max, st, acts)
    ensures Inv(max, After(max, st, acts))
    decreases |acts|
  {
    if acts != [] {
      StepKeepsInv(max, st, acts[0]);
      RunKeepsInv(max, Apply(max, st, acts[0]), acts[1..]);
    }
  }

  // ---- main results ----

  /** In every run the budget is exactly the bytes queued, being forwarded or
      just reserved; it stays within the maximum and is zero once every worker
      has finished. */
  lemma BudgetExact(max: nat, acts: seq<Action>)
    requires Run(max, INITIAL, acts)
    ensures var st := After(max, INITIAL, acts);
      && 0 <= st.budget == TotalLoad(st.workers) + ReservedBytes(st.enq) <= max
      && ((forall w :: 0 <= w < |st.workers| ==> st.workers[w].phase == Done) && st.enq == None ==> st.budget == 0)
  {
    RunKeepsInv(max, INITIAL, acts);
    var st := After(max, INITIAL, acts);
    if forall w :: 0 <= w < |st.workers| ==> st.workers[w].phase == Done {
      forall w: nat | w < |st.workers| ensures st.workers[w].queue == [] { assert WorkerOk(st, w); }
      NoLoad(st.workers);
    }
  }

  lemma {:induction false} NoLoad(workers: seq<Worker>)
    requires forall w :: 0 <= w < |workers| ==> workers[w].phase == Done && workers[w].queue == []
    ensures TotalLoad(workers) == 0
  {
    if workers != [] { NoLoad(workers[..|workers| - 1]); }
  }

  /** The "queue full under race" branch is never taken. */
  lemma RaceBranchUnreachable(max: nat, acts: seq<Action>)
    requires Run(max, INITIAL, acts) && Enabled(After(max, INITIAL, acts), Send)
    ensures var st := After(max, INITIAL, acts); |st.workers[st.enq.value.worker].queue| < QUEUE_SIZE
  {
    RunKeepsInv(max, INITIAL, acts);
  }

  function Backlog(st: State, d: Dest): seq<Packet> {
    if d in st.outbound && st.outbound[d] < |st.workers| then Waiting(st.workers[st.outbound[d]]) else []
  }

  /** Per destination, packets reach forwardPacket in the order they were
      accepted, across any exits and re-creations of its worker; and until the
      router is cancelled none is lost: what is accepted but not yet forwarded
      waits with the mapped worker. */
  lemma ForwardedInOrder(max: nat, acts: seq<Action>, d: Dest)
    requires Run(max, INITIAL, acts)
    ensures var st := After(max, INITIAL, acts);
      && Subseq(Log(st.forwarded, d), Log(st.accepted, d))
      && (!st.cancelled ==> Log(st.accepted, d) == Log(st.forwarded, d) + Backlog(st, d))
  {
    RunKeepsInv(max, INITIAL, acts);
    var st := After(max, INITIAL, acts);
    assert LogOk(st, d);
    if d in st.outbound {
      assert WorkerOk(st, st.outbound[d]);
    }
  }
}
