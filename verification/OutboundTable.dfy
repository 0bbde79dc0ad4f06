/** The outbound table of one router as the source keeps it
    (pkg/tundevice/router.go). */
module OutboundTable {
  import opened Outbound

  datatype Verdict = Canceled | LimitReached | Dropped | Accepted

  class OutboundWorker {
    var packets: seq<Packet>
    var dropped: nat

    constructor ()
      ensures packets == [] && dropped == 0
    {
      packets, dropped := [], 0;
    }
  }

  class OutboundRouter {
    const writeBudgetMax: nat
    var outbound: map<Dest, OutboundWorker>
    var writeBudget: int
    var closed: bool

    /** One worker per destination, none over-full, and a budget within its maximum. */
    ghost predicate Valid()
      reads this, outbound.Values
    {
      && writeBudget <= writeBudgetMax && |outbound| <= MAX_WORKERS
      && (forall d :: d in outbound ==> |outbound[d].packets| <= QUEUE_SIZE)
      && (forall d, e :: d in outbound && e in outbound && outbound[d] == outbound[e] ==> d == e)
    }

    constructor (writeBudgetMax: nat)
      ensures Valid() && outbound == map[] && writeBudget == 0 && !closed && this.writeBudgetMax == writeBudgetMax
    {
      this.writeBudgetMax, outbound, writeBudget, closed := writeBudgetMax, map[], 0, false;
    }

    /** acquireBudget. */
    method AcquireBudget(n: nat) returns (ok: bool)
      modifies this`writeBudget
      ensures ok <==> old(writeBudget) + n <= writeBudgetMax
      ensures writeBudget == old(writeBudget) + if ok then n else 0
    {
      ok := writeBudget + n <= writeBudgetMax;
      if ok { writeBudget := writeBudget + n; }
    }

    /** The worker of a destination, created when there is room for one. */
    method WorkerFor(dest: Dest) returns (w: OutboundWorker?)
      requires Valid()
      modifies this`outbound
      ensures Valid()
      ensures dest in old(outbound) ==> w == old(outbound)[dest] && outbound == old(outbound)
      ensures dest !in old(outbound) && |old(outbound)| >= MAX_WORKERS ==> w == null && outbound == old(outbound)
      ensures dest !in old(outbound) && |old(outbound)| < MAX_WORKERS ==>
        w != null && fresh(w) && w.packets == [] && outbound == old(outbound)[dest := w]
    {
      if dest in outbound {
        return outbound[dest];
      }
      if |outbound| >= MAX_WORKERS {
        return null;
      }
      w := new OutboundWorker();
      outbound := outbound[dest := w];
    }

    /** enqueuePacket under the lock: at the tail of the destination's queue with
        its bytes in the budget, or not at all. */
    method EnqueuePacket(dest: Dest, p: Packet, ctxDone: bool) returns (verdict: Verdict)
      requires Valid()
      modifies this`outbound, this`writeBudget, outbound.Values
      ensures Valid()
      ensures verdict == Canceled <==> closed || ctxDone
      ensures verdict == LimitReached <==>
        !closed && !ctxDone && dest !in old(outbound) && |old(outbound)| >= MAX_WORKERS
      ensures verdict == Canceled || verdict == LimitReached ==> outbound == old(outbound)
      ensures verdict == Accepted || verdict == Dropped ==>
        && dest in outbound && (dest in old(outbound) ==> outbound == old(outbound))
        && (dest !in old(outbound) ==> fresh(outbound[dest]) && outbound == old(outbound)[dest := outbound[dest]])
      ensures verdict == Accepted || verdict == Dropped ==>
        var queue := if dest in old(outbound) then old(outbound[dest].packets) else [];
        && (verdict == Accepted <==> |queue| < QUEUE_SIZE && old(writeBudget) + p.size <= writeBudgetMax)
        && outbound[dest].packets == if verdict == Accepted then queue + [p] else queue
      ensures writeBudget == old(writeBudget) + if verdict == Accepted then p.size else 0
      ensures forall w :: w in old(outbound.Values) && !(dest in old(outbound) && w == old(outbound)[dest]) ==>
        w.packets == old(w.packets)
    {
      if closed || ctxDone {
        return Canceled;
      }
      var worker := WorkerFor(dest);
      if worker == null {
        return LimitReached;
      }
      var ok := Offer(worker, p);
      return if ok then Accepted else Dropped;
    }

    /** The capacity test, the reservation and the send. */
    method Offer(worker: OutboundWorker, p: Packet) returns (ok: bool)
      modifies this`writeBudget, worker
      ensures ok <==> |old(worker.packets)| < QUEUE_SIZE && old(writeBudget) + p.size <= writeBudgetMax
      ensures worker.packets == if ok then old(worker.packets) + [p] else old(worker.packets)
      ensures writeBudget == old(writeBudget) + if ok then p.size else 0
      ensures worker.dropped == old(worker.dropped) + if ok then 0 else 1
    {
      ok := |worker.packets| < QUEUE_SIZE;
      if ok { ok := AcquireBudget(p.size); }
      if !ok {
        worker.dropped := worker.dropped + 1;
        return;
      }
      worker.packets := worker.packets + [p];
    }

    /** The idle timer: the worker leaves only while it is mapped and has nothing queued. */
    method IdleExit(dest: Dest, worker: OutboundWorker) returns (leaves: bool)
      requires Valid()
      modifies this`outbound
      ensures Valid()
      ensures leaves <==> dest in old(outbound) && old(outbound)[dest] == worker && worker.packets == []
      ensures outbound == if leaves then old(outbound) - {dest} else old(outbound)
    {
      leaves := dest in outbound && outbound[dest] == worker && |worker.packets| == 0;
      if leaves { Unmap(dest); }
    }

    method Unmap(dest: Dest)
      requires Valid()
      modifies this`outbound
      ensures Valid() && outbound == old(outbound) - {dest}
    {
      WithoutFewer(outbound, dest);
      outbound := outbound - {dest};
    }

    /** removeOutboundWorker: never unmaps a successor, and gives back the bytes of
        every packet that stayed in the queue. */
    method RemoveOutboundWorker(dest: Dest, worker: OutboundWorker)
      requires Valid() && (worker in outbound.Values ==> dest in outbound && outbound[dest] == worker)
      modifies this`outbound, this`writeBudget, worker`packets
      ensures Valid() && worker.packets == []
      ensures outbound == if dest in old(outbound) && old(outbound)[dest] == worker then old(outbound) - {dest} else old(outbound)
      ensures writeBudget == old(writeBudget) - Bytes(old(worker.packets))
    {
      if dest in outbound && outbound[dest] == worker {
        Unmap(dest);
      }
      var total := 0;
      while worker.packets != []
        invariant total + Bytes(worker.packets) == Bytes(old(worker.packets))
        invariant worker !in outbound.Values
        invariant Valid()
        modifies worker`packets
        decreases |worker.packets|
      {
        total := total + worker.packets[0].size;
        worker.packets := worker.packets[1..];
      }
      if total > 0 { writeBudget := writeBudget - total; }
    }
  }

  lemma WithoutFewer(m: map<Dest, OutboundWorker>, d: Dest)
    ensures |m - {d}| <= |m|
  {
    assert (m - {d}).Keys == m.Keys - {d};
    assert d in m ==> |m.Keys - {d}| == |m.Keys| - 1;
    assert d !in m ==> m.Keys - {d} == m.Keys;
  }
}
