/** The outbound table of a router takes the steps of the queue runs
    (pkg/tundevice/router.go). */
module OutboundRefinement {
  import opened Outbound
  import opened OutboundTable
  import opened Wrappers

  /** `ws[i]` is the object of the state's worker `i`. */
  ghost predicate Mirrors(r: OutboundRouter, st: State, ws: seq<OutboundWorker>)
    reads r, ws
  {
    (r.closed ==> st.cancelled) && Shows(st, r.outbound, r.writeBudget, ws, QueuesOf(ws))
  }

  ghost function QueuesOf(ws: seq<OutboundWorker>): (qs: seq<seq<Packet>>)
    reads ws
    ensures |qs| == |ws| && forall i :: 0 <= i < |ws| ==> qs[i] == ws[i].packets
  {
    seq(|ws|, i requires 0 <= i < |ws| reads ws => ws[i].packets)
  }

  ghost predicate Shows(st: State, outbound: map<Dest, OutboundWorker>, budget: int,
                        ws: seq<OutboundWorker>, qs: seq<seq<Packet>>) {
    && st.enq == None && budget == st.budget
    && Workers(st, ws) && |qs| == |ws|
    && (forall i :: 0 <= i < |qs| ==> qs[i] == st.workers[i].queue)
    && TableShows(outbound, st.outbound, ws)
  }

  ghost predicate Workers(st: State, ws: seq<OutboundWorker>) {
    |ws| == |st.workers| && forall i, j :: 0 <= i < j < |ws| ==> ws[i] != ws[j]
  }

  ghost predicate TableShows(outbound: map<Dest, OutboundWorker>, table: map<Dest, nat>, ws: seq<OutboundWorker>) {
    && outbound.Keys == table.Keys
    && forall d :: d in table ==> table[d] < |ws| && outbound[d] == ws[table[d]]
  }

  // ---- enqueuePacket ----

  /** enqueuePacket without interruption: find or create the worker, reserve, send. */
  ghost function Enqueued(max: nat, st: State, d: Dest, p: Packet): State {
    var s1 := BeginEnqueue(st, d, p);
    if s1.enq == None || !Enabled(s1, Acquire) then s1
    else
      var s2 := Apply(max, s1, Acquire);
      if Enabled(s2, Send) then Apply(max, s2, Send) else s2
  }

  ghost function EnqueueActions(max: nat, st: State, d: Dest, p: Packet): seq<Action> {
    var s1 := BeginEnqueue(st, d, p);
    if s1.enq == None || !Enabled(s1, Acquire) then [Begin(d, p)]
    else if Enabled(Apply(max, s1, Acquire), Send) then [Begin(d, p), Acquire, Send] else [Begin(d, p), Acquire]
  }

  lemma RunCons(max: nat, st: State, act: Action, rest: seq<Action>)
    requires Enabled(st, act) && Run(max, Apply(max, st, act), rest)
    ensures Run(max, st, [act] + rest) && After(max, st, [act] + rest) == After(max, Apply(max, st, act), rest)
  {
    assert ([act] + rest)[1..] == rest;
  }

  /** It is a run of the queues. */
  lemma EnqueuedIsRun(max: nat, st: State, d: Dest, p: Packet)
    requires st.enq == None && !st.cancelled
    ensures Run(max, st, EnqueueActions(max, st, d, p))
    ensures After(max, st, EnqueueActions(max, st, d, p)) == Enqueued(max, st, d, p)
  {
    var s1 := BeginEnqueue(st, d, p);
    assert Apply(max, st, Begin(d, p)) == s1;
    if s1.enq == None || !Enabled(s1, Acquire) {
      RunCons(max, st, Begin(d, p), []);
      assert [Begin(d, p)] + [] == [Begin(d, p)];
    } else {
      var s2 := Apply(max, s1, Acquire);
      if Enabled(s2, Send) {
        RunCons(max, s2, Send, []);
        assert [Send] + [] == [Send];
        RunCons(max, s1, Acquire, [Send]);
      } else {
        RunCons(max, s1, Acquire, []);
        assert [Acquire] + [] == [Acquire];
      }
      var rest := if Enabled(s2, Send) then [Acquire] + [Send] else [Acquire];
      RunCons(max, st, Begin(d, p), rest);
      assert [Begin(d, p)] + rest == EnqueueActions(max, st, d, p);
    }
  }

  /** Its effect on the queue of the destination, its worker and the budget. */
  lemma EnqueuedEffect(max: nat, st: State, d: Dest, p: Packet)
    requires TableOk(st) && st.enq == None && !st.cancelled
    ensures var to := Enqueued(max, st, d, p);
      if d !in st.outbound && |st.outbound| >= MAX_WORKERS then to == st
      else
        var w := if d in st.outbound then st.outbound[d] else |st.workers|;
        var all := if d in st.outbound then st.workers else st.workers + [Worker(d, [], Idle)];
        var fits := |all[w].queue| < QUEUE_SIZE && st.budget + p.size <= max;
        && to.enq == None && to.cancelled == st.cancelled && to.outbound == st.outbound[d := w] && w < |all|
        && to.workers == (if fits then all[w := all[w].(queue := all[w].queue + [p])] else all)
        && to.budget == (if fits then st.budget + p.size else st.budget)
        && to.accepted == if fits then st.accepted[d := Log(st.accepted, d) + [p]] else st.accepted
  {
    BeginEffect(st, d, p);
    if d in st.outbound { assert st.outbound[d := st.outbound[d]] == st.outbound; }
  }

  /** The objects after enqueuePacket, created worker included. */
  ghost function WorkersAfter(table: map<Dest, nat>, ws: seq<OutboundWorker>, outbound: map<Dest, OutboundWorker>, d: Dest)
    : seq<OutboundWorker>
  {
    if d in table || d !in outbound then ws else ws + [outbound[d]]
  }

  lemma QueuesUpdate(ws: seq<OutboundWorker>, was: seq<seq<Packet>>, w: nat)
    requires w < |ws| == |was| && forall i :: 0 <= i < |ws| && i != w ==> was[i] == ws[i].packets
    ensures QueuesOf(ws) == was[w := ws[w].packets]
  {
  }

  /** The frame of enqueuePacket for a destination that has a worker. */
  method EnqueueKnownQueue(r: OutboundRouter, d: Dest, p: Packet, ghost ws: seq<OutboundWorker>, ghost w: nat)
    returns (ok: bool)
    requires r.Valid() && !r.closed && w < |ws| && d in r.outbound && r.outbound[d] == ws[w]
    requires forall i, j :: 0 <= i < j < |ws| ==> ws[i] != ws[j]
    modifies r`outbound, r`writeBudget, r.outbound.Values
    ensures r.Valid() && r.outbound == old(r.outbound)
    ensures ok <==> |old(QueuesOf(ws))[w]| < QUEUE_SIZE && old(r.writeBudget) + p.size <= r.writeBudgetMax
    ensures r.writeBudget == if ok then old(r.writeBudget) + p.size else old(r.writeBudget)
    ensures var qs := old(QueuesOf(ws)); QueuesOf(ws) == qs[w := if ok then qs[w] + [p] else qs[w]]
  {
    ghost var was, values := QueuesOf(ws), r.outbound.Values;
    var verdict := r.EnqueuePacket(d, p, false);
    ok := verdict == Accepted;
    forall i | 0 <= i < |ws| && i != w ensures was[i] == ws[i].packets {
      assert ws[i] in values || ws[i] !in values;
    }
    QueuesUpdate(ws, was, w);
  }

  /** The frame of enqueuePacket for a destination without a worker. */
  method EnqueueNewQueue(r: OutboundRouter, d: Dest, p: Packet, ghost table: map<Dest, nat>, ghost ws: seq<OutboundWorker>)
    returns (verdict: Verdict)
    requires r.Valid() && !r.closed && d !in table && TableShows(r.outbound, table, ws)
    modifies r`outbound, r`writeBudget, r.outbound.Values
    ensures r.Valid() && QueuesOf(ws) == old(QueuesOf(ws))
    ensures verdict == LimitReached <==> |table| >= MAX_WORKERS
    ensures verdict == LimitReached ==> r.outbound == old(r.outbound)
    ensures verdict == Accepted ==> old(r.writeBudget) + p.size <= r.writeBudgetMax
    ensures verdict != Accepted && verdict != LimitReached ==> old(r.writeBudget) + p.size > r.writeBudgetMax
    ensures r.writeBudget == if verdict == Accepted then old(r.writeBudget) + p.size else old(r.writeBudget)
    ensures verdict != LimitReached ==>
      && d in r.outbound && fresh(r.outbound[d]) && r.outbound == old(r.outbound)[d := r.outbound[d]]
      && r.outbound[d].packets == if verdict == Accepted then [p] else []
  {
    assert |r.outbound| == |r.outbound.Keys| == |table.Keys| == |table|;
    verdict := r.EnqueuePacket(d, p, false);
    assert [] + [p] == [p];
  }

  /** Worker `w` of `st` takes the packet if it fits. */
  ghost predicate Appends(st: State, to: State, w: nat, p: Packet, ok: bool) {
    && w < |st.workers| == |to.workers| && to.enq == None && to.cancelled == st.cancelled && to.outbound == st.outbound
    && to.budget == (if ok then st.budget + p.size else st.budget)
    && (forall i :: 0 <= i < |st.workers| ==>
          to.workers[i].queue == st.workers[i].queue + if ok && i == w then [p] else [])
  }

  lemma EnqueuedAppends(max: nat, st: State, d: Dest, p: Packet, ok: bool)
    requires TableOk(st) && st.enq == None && !st.cancelled && d in st.outbound
    requires ok <==> |st.workers[st.outbound[d]].queue| < QUEUE_SIZE && st.budget + p.size <= max
    ensures Appends(st, Enqueued(max, st, d, p), st.outbound[d], p, ok)
    ensures Enqueued(max, st, d, p).accepted == if ok then st.accepted[d := Log(st.accepted, d) + [p]] else st.accepted
  {
    EnqueuedEffect(max, st, d, p);
    assert st.outbound[d := st.outbound[d]] == st.outbound;
    assert forall i :: 0 <= i < |st.workers| ==> st.workers[i].queue + [] == st.workers[i].queue;
  }

  lemma AppendShows(st: State, to: State, outbound: map<Dest, OutboundWorker>, budget: int, ws: seq<OutboundWorker>,
                    qs: seq<seq<Packet>>, w: nat, p: Packet, ok: bool)
    requires Shows(st, outbound, budget, ws, qs) && Appends(st, to, w, p, ok)
    ensures Shows(to, outbound, if ok then budget + p.size else budget, ws, qs[w := if ok then qs[w] + [p] else qs[w]])
  {
  }

  /** A new worker of `d` holds the packet if the budget allows it. */
  ghost predicate Creates(st: State, to: State, d: Dest, p: Packet, ok: bool) {
    && |to.workers| == |st.workers| + 1 && to.enq == None && to.cancelled == st.cancelled
    && to.outbound == st.outbound[d := |st.workers|]
    && to.budget == (if ok then st.budget + p.size else st.budget)
    && (forall i :: 0 <= i < |st.workers| ==> to.workers[i].queue == st.workers[i].queue)
    && to.workers[|st.workers|].queue == if ok then [p] else []
  }

  lemma EnqueuedCreates(max: nat, st: State, d: Dest, p: Packet)
    requires TableOk(st) && st.enq == None && !st.cancelled && d !in st.outbound && |st.outbound| < MAX_WORKERS
    ensures Creates(st, Enqueued(max, st, d, p), d, p, st.budget + p.size <= max)
    ensures Enqueued(max, st, d, p).accepted ==
      if st.budget + p.size <= max then st.accepted[d := Log(st.accepted, d) + [p]] else st.accepted
  {
    EnqueuedEffect(max, st, d, p);
    assert [] + [p] == [p];
  }

  lemma CreateShows(st: State, to: State, outbound: map<Dest, OutboundWorker>, budget: int, ws: seq<OutboundWorker>,
                    qs: seq<seq<Packet>>, d: Dest, p: Packet, w: OutboundWorker, ok: bool)
    requires Shows(st, outbound, budget, ws, qs) && Creates(st, to, d, p, ok) && w !in ws && d !in st.outbound
    ensures Shows(to, outbound[d := w], if ok then budget + p.size else budget, ws + [w], qs + [if ok then [p] else []])
  {
  }

  lemma QueuesSnoc(ws: seq<OutboundWorker>, w: OutboundWorker)
    ensures QueuesOf(ws + [w]) == QueuesOf(ws) + [w.packets]
  {
  }

  method EnqueueTo(r: OutboundRouter, d: Dest, p: Packet, ghost st: State, ghost to: State, ghost ws: seq<OutboundWorker>,
                   ghost fits: bool)
    returns (ok: bool)
    requires r.Valid() && !r.closed && Mirrors(r, st, ws) && d in st.outbound && st.outbound[d] < |ws|
    requires fits <==> |st.workers[st.outbound[d]].queue| < QUEUE_SIZE && st.budget + p.size <= r.writeBudgetMax
    requires Appends(st, to, st.outbound[d], p, fits)
    modifies r`outbound, r`writeBudget, r.outbound.Values
    ensures r.Valid() && Mirrors(r, to, ws) && ok == fits
  {
    AppendShows(st, to, r.outbound, r.writeBudget, ws, QueuesOf(ws), st.outbound[d], p, fits);
    ok := EnqueueKnownQueue(r, d, p, ws, st.outbound[d]);
  }

  method EnqueueOnKnown(r: OutboundRouter, d: Dest, p: Packet, ghost st: State, ghost ws: seq<OutboundWorker>)
    returns (ok: bool)
    requires r.Valid() && Mirrors(r, st, ws) && TableOk(st) && !st.cancelled && d in st.outbound
    modifies r`outbound, r`writeBudget, r.outbound.Values
    ensures r.Valid() && Mirrors(r, Enqueued(r.writeBudgetMax, st, d, p), ws)
    ensures Enqueued(r.writeBudgetMax, st, d, p).accepted ==
      if ok then st.accepted[d := Log(st.accepted, d) + [p]] else st.accepted
  {
    ghost var fits := |st.workers[st.outbound[d]].queue| < QUEUE_SIZE && st.budget + p.size <= r.writeBudgetMax;
    EnqueuedAppends(r.writeBudgetMax, st, d, p, fits);
    ok := EnqueueTo(r, d, p, st, Enqueued(r.writeBudgetMax, st, d, p), ws, fits);
  }

  method CreateTo(r: OutboundRouter, d: Dest, p: Packet, ghost st: State, ghost to: State, ghost ws: seq<OutboundWorker>)
    returns (ok: bool)
    requires r.Valid() && !r.closed && Mirrors(r, st, ws) && d !in st.outbound
    requires if |st.outbound| >= MAX_WORKERS then to == st else Creates(st, to, d, p, st.budget + p.size <= r.writeBudgetMax)
    modifies r`outbound, r`writeBudget, r.outbound.Values
    ensures r.Valid() && Mirrors(r, to, WorkersAfter(st.outbound, ws, r.outbound, d))
    ensures ok <==> |st.outbound| < MAX_WORKERS && st.budget + p.size <= r.writeBudgetMax
  {
    ghost var outbound, budget, qs := r.outbound, r.writeBudget, QueuesOf(ws);
    var verdict := EnqueueNewQueue(r, d, p, st.outbound, ws);
    ok := verdict == Accepted;
    if verdict != LimitReached {
      CreateShows(st, to, outbound, budget, ws, qs, d, p, r.outbound[d], ok);
      QueuesSnoc(ws, r.outbound[d]);
    }
  }

  method EnqueueOnNew(r: OutboundRouter, d: Dest, p: Packet, ghost st: State, ghost ws: seq<OutboundWorker>)
    returns (ok: bool)
    requires r.Valid() && Mirrors(r, st, ws) && TableOk(st) && !st.cancelled && d !in st.outbound
    modifies r`outbound, r`writeBudget, r.outbound.Values
    ensures r.Valid() && Mirrors(r, Enqueued(r.writeBudgetMax, st, d, p), WorkersAfter(st.outbound, ws, r.outbound, d))
    ensures Enqueued(r.writeBudgetMax, st, d, p).accepted ==
      if ok then st.accepted[d := Log(st.accepted, d) + [p]] else st.accepted
  {
    if |st.outbound| < MAX_WORKERS {
      EnqueuedCreates(r.writeBudgetMax, st, d, p);
    } else {
      EnqueuedEffect(r.writeBudgetMax, st, d, p);
    }
    ok := CreateTo(r, d, p, st, Enqueued(r.writeBudgetMax, st, d, p), ws);
  }

  /** enqueuePacket under the lock is Begin, Acquire and Send in a row. */
  method EnqueueOnState(r: OutboundRouter, d: Dest, p: Packet, ghost st: State, ghost ws: seq<OutboundWorker>)
    returns (ok: bool)
    requires r.Valid() && Mirrors(r, st, ws) && TableOk(st) && !st.cancelled
    modifies r`outbound, r`writeBudget, r.outbound.Values
    ensures r.Valid() && Mirrors(r, Enqueued(r.writeBudgetMax, st, d, p), WorkersAfter(st.outbound, ws, r.outbound, d))
    ensures Enqueued(r.writeBudgetMax, st, d, p).accepted ==
      if ok then st.accepted[d := Log(st.accepted, d) + [p]] else st.accepted
  {
    if d in r.outbound {
      ok := EnqueueOnKnown(r, d, p, st, ws);
    } else {
      ok := EnqueueOnNew(r, d, p, st, ws);
    }
  }

  // ---- idle exit ----

  /** A worker left the table; queues and budget did not move. */
  ghost predicate Unmaps(st: State, to: State, d: Dest) {
    && to.enq == None && to.budget == st.budget && to.cancelled == st.cancelled && to.outbound == st.outbound - {d}
    && |to.workers| == |st.workers| && forall i :: 0 <= i < |st.workers| ==> to.workers[i].queue == st.workers[i].queue
  }

  lemma UnmapShows(st: State, to: State, outbound: map<Dest, OutboundWorker>, budget: int, ws: seq<OutboundWorker>,
                   qs: seq<seq<Packet>>, d: Dest)
    requires Shows(st, outbound, budget, ws, qs) && Unmaps(st, to, d)
    ensures Shows(to, outbound - {d}, budget, ws, qs)
  {
  }

  lemma IdleUnmaps(max: nat, st: State, i: nat)
    requires Enabled(st, IdleExit(i))
    ensures Unmaps(st, Apply(max, st, IdleExit(i)), st.workers[i].dest)
  {
  }

  lemma MappedShows(st: State, outbound: map<Dest, OutboundWorker>, ws: seq<OutboundWorker>, i: nat, d: Dest)
    requires Workers(st, ws) && TableShows(outbound, st.outbound, ws) && i < |ws| && st.workers[i].dest == d
    ensures Mapped(st, i) <==> d in outbound && outbound[d] == ws[i]
  {
  }

  method IdleExitTo(r: OutboundRouter, ghost st: State, ghost to: State, ws: seq<OutboundWorker>, i: nat, d: Dest)
    returns (leaves: bool)
    requires r.Valid() && Mirrors(r, st, ws) && i < |ws| && st.workers[i].dest == d
    requires Mapped(st, i) && st.workers[i].queue == [] ==> Unmaps(st, to, d)
    modifies r`outbound
    ensures r.Valid() && (leaves <==> Mapped(st, i) && st.workers[i].queue == [])
    ensures Mirrors(r, if leaves then to else st, ws)
  {
    MappedShows(st, r.outbound, ws, i, d);
    if Mapped(st, i) && st.workers[i].queue == [] {
      UnmapShows(st, to, r.outbound, r.writeBudget, ws, QueuesOf(ws), d);
    }
    leaves := r.IdleExit(d, ws[i]);
  }

  /** The idle timer does what the action does, and fires only where it is enabled. */
  method IdleExitOnState(r: OutboundRouter, ghost st: State, ws: seq<OutboundWorker>, i: nat, d: Dest)
    returns (leaves: bool)
    requires r.Valid() && Mirrors(r, st, ws) && i < |ws| && st.workers[i].dest == d && st.workers[i].phase == Idle
    modifies r`outbound
    ensures r.Valid() && (leaves <==> Enabled(st, IdleExit(i)))
    ensures Mirrors(r, if leaves then Apply(r.writeBudgetMax, st, IdleExit(i)) else st, ws)
  {
    ghost var to := if Enabled(st, IdleExit(i)) then Apply(r.writeBudgetMax, st, IdleExit(i)) else st;
    if Enabled(st, IdleExit(i)) { IdleUnmaps(r.writeBudgetMax, st, i); }
    leaves := IdleExitTo(r, st, to, ws, i, d);
  }

  // ---- removeOutboundWorker ----

  /** The worker of `st` that is leaving, taken out and drained. */
  ghost function Removed(max: nat, st: State, i: nat): State
    requires Enabled(st, Remove(i))
  {
    var s1, x := Apply(max, st, Remove(i)), st.workers[i];
    Put(s1, i, x.(queue := [], phase := Done)).(budget := st.budget - Bytes(x.queue))
  }

  ghost function Drains(i: nat, n: nat): seq<Action> {
    if n == 0 then [DrainEnd(i)] else [Drain(i)] + Drains(i, n - 1)
  }

  /** What is left of a draining worker when it has finished. */
  ghost function DrainedOut(st: State, i: nat): State
    requires i < |st.workers| && st.workers[i].phase.Draining?
  {
    var x := st.workers[i];
    Put(st, i, x.(queue := [], phase := Done)).(budget := st.budget - x.phase.total - Bytes(x.queue))
  }

  lemma DrainStep(max: nat, st: State, i: nat)
    requires i < |st.workers| && st.workers[i].phase.Draining? && st.workers[i].queue != []
    ensures var s1 := Apply(max, st, Drain(i));
      && i < |s1.workers| && s1.workers[i].phase.Draining? && s1.workers[i].queue == st.workers[i].queue[1..]
      && DrainedOut(s1, i) == DrainedOut(st, i)
  {
  }

  /** Draining gives back exactly the bytes that are left. */
  lemma {:induction false} DrainRun(max: nat, st: State, i: nat)
    requires i < |st.workers| && st.workers[i].phase.Draining?
    ensures Run(max, st, Drains(i, |st.workers[i].queue|))
    ensures After(max, st, Drains(i, |st.workers[i].queue|)) == DrainedOut(st, i)
    decreases |st.workers[i].queue|
  {
    if st.workers[i].queue == [] {
      RunCons(max, st, DrainEnd(i), []);
      assert [DrainEnd(i)] + [] == [DrainEnd(i)];
    } else {
      DrainStep(max, st, i);
      DrainRun(max, Apply(max, st, Drain(i)), i);
      RunCons(max, st, Drain(i), Drains(i, |st.workers[i].queue| - 1));
    }
  }

  lemma RemovedIsRun(max: nat, st: State, i: nat)
    requires Enabled(st, Remove(i))
    ensures var acts := [Remove(i)] + Drains(i, |st.workers[i].queue|);
      Run(max, st, acts) && After(max, st, acts) == Removed(max, st, i)
  {
    DrainRun(max, Apply(max, st, Remove(i)), i);
    RunCons(max, st, Remove(i), Drains(i, |st.workers[i].queue|));
  }

  /** Worker `i` is out of the table, its queue empty and its bytes given back. */
  ghost predicate Empties(st: State, to: State, i: nat) {
    && i < |st.workers| == |to.workers| && to.enq == None && to.cancelled == st.cancelled
    && to.outbound == (if Mapped(st, i) then st.outbound - {st.workers[i].dest} else st.outbound)
    && to.budget == st.budget - Bytes(st.workers[i].queue)
    && forall j :: 0 <= j < |st.workers| ==> to.workers[j].queue == if j == i then [] else st.workers[j].queue
  }

  lemma RemovedEmpties(max: nat, st: State, i: nat)
    requires Enabled(st, Remove(i))
    ensures Empties(st, Removed(max, st, i), i)
  {
  }

  lemma EmptyShows(st: State, to: State, outbound: map<Dest, OutboundWorker>, outbound': map<Dest, OutboundWorker>,
                   budget: int, ws: seq<OutboundWorker>, qs: seq<seq<Packet>>, i: nat)
    requires Shows(st, outbound, budget, ws, qs) && Empties(st, to, i)
    requires outbound' == if Mapped(st, i) then outbound - {st.workers[i].dest} else outbound
    ensures Shows(to, outbound', budget - Bytes(qs[i]), ws, qs[i := []])
  {
  }

  lemma OnlyOwnEntry(st: State, outbound: map<Dest, OutboundWorker>, ws: seq<OutboundWorker>, i: nat, d: Dest)
    requires Workers(st, ws) && TableShows(outbound, st.outbound, ws) && TableOk(st) && i < |ws| && st.workers[i].dest == d
    ensures ws[i] in outbound.Values ==> d in outbound && outbound[d] == ws[i]
  {
  }

  /** The frame of removeOutboundWorker, queue by queue. */
  method RemoveWithQueues(r: OutboundRouter, ws: seq<OutboundWorker>, i: nat, d: Dest)
    requires r.Valid() && i < |ws| && forall j, k :: 0 <= j < k < |ws| ==> ws[j] != ws[k]
    requires ws[i] in r.outbound.Values ==> d in r.outbound && r.outbound[d] == ws[i]
    modifies r`outbound, r`writeBudget, ws[i]
    ensures r.outbound == if d in old(r.outbound) && old(r.outbound)[d] == ws[i] then old(r.outbound) - {d} else old(r.outbound)
    ensures r.writeBudget == old(r.writeBudget) - Bytes(old(QueuesOf(ws))[i])
    ensures QueuesOf(ws) == old(QueuesOf(ws))[i := []]
  {
    r.RemoveOutboundWorker(d, ws[i]);
  }

  method RemoveTo(r: OutboundRouter, ghost st: State, ghost to: State, ws: seq<OutboundWorker>, i: nat, d: Dest)
    requires r.Valid() && Mirrors(r, st, ws) && TableOk(st) && i < |ws| && st.workers[i].dest == d && Empties(st, to, i)
    modifies r`outbound, r`writeBudget, ws[i]
    ensures Mirrors(r, to, ws)
  {
    MappedShows(st, r.outbound, ws, i, d);
    OnlyOwnEntry(st, r.outbound, ws, i, d);
    EmptyShows(st, to, r.outbound, if Mapped(st, i) then r.outbound - {d} else r.outbound, r.writeBudget, ws, QueuesOf(ws), i);
    RemoveWithQueues(r, ws, i, d);
  }

  /** removeOutboundWorker is the removal, every drain and the return of the total. */
  method RemoveOnState(r: OutboundRouter, ghost st: State, ws: seq<OutboundWorker>, i: nat, d: Dest)
    requires r.Valid() && Mirrors(r, st, ws) && TableOk(st) && i < |ws| && Enabled(st, Remove(i))
    requires st.workers[i].dest == d
    modifies r`outbound, r`writeBudget, ws[i]
    ensures Mirrors(r, Removed(r.writeBudgetMax, st, i), ws)
  {
    RemovedEmpties(r.writeBudgetMax, st, i);
    RemoveTo(r, st, Removed(r.writeBudgetMax, st, i), ws, i, d);
  }
}
