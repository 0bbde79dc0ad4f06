/** The locked sections of the discovery scheduler as the source keeps its state
    (pkg/serverless/scheduler.go). */
module SchedulerTable {
  import opened Wrappers
  import Scheduler

  type PeerID = Scheduler.PeerID

  datatype SubmitError = ContextDone | QueueFull

  class DiscoveryCall {
    const id: PeerID
    const connectRequest: bool
    var err: Scheduler.Outcome
    var done: bool

    constructor (id: PeerID, connectRequest: bool)
      ensures this.id == id && this.connectRequest == connectRequest && !done
    {
      this.id, this.connectRequest, err, done := id, connectRequest, Scheduler.Success, false;
    }
  }

  /** The open calls of the peers that `done` does not name. */
  ghost function Without(calls: map<PeerID, DiscoveryCall>, done: seq<DiscoveryCall>): map<PeerID, DiscoveryCall> {
    map id | id in calls && (forall i :: 0 <= i < |done| ==> done[i].id != id) :: calls[id]
  }

  lemma WithoutNext(calls: map<PeerID, DiscoveryCall>, done: seq<DiscoveryCall>, next: DiscoveryCall)
    ensures Without(calls, done + [next]) == Without(calls, done) - {next.id}
  {
    assert forall i :: 0 <= i < |done| ==> (done + [next])[i] == done[i];
    assert (done + [next])[|done|] == next;
  }

  lemma HeadMoves(all: seq<DiscoveryCall>, done: seq<DiscoveryCall>, rest: seq<DiscoveryCall>)
    requires all == done + rest && rest != []
    ensures all == done + [rest[0]] + rest[1..] && rest[0] in all
  {
    assert all[|done|] == rest[0] && rest == [rest[0]] + rest[1..];
  }

  ghost predicate AllCanceled(calls: seq<DiscoveryCall>)
    reads calls
  {
    forall i :: 0 <= i < |calls| ==> calls[i].done && calls[i].err == Scheduler.Canceled
  }

  class DiscoveryScheduler {
    const cooldown: nat
    var cancelled: bool
    var queue: seq<DiscoveryCall>
    var calls: map<PeerID, DiscoveryCall>
    var retry: map<PeerID, Scheduler.Retry>

    /** `calls` lists open calls under their peers, every queued call among them. */
    ghost predicate Valid()
      reads this, calls.Values
    {
      && |queue| <= Scheduler.QUEUE_SIZE && |retry| <= Scheduler.STATE_LIMIT
      && (forall id :: id in calls ==> calls[id].id == id && !calls[id].done)
      && (forall c :: c in queue ==> c.id in calls && calls[c.id] == c)
      && (forall i, j :: 0 <= i < j < |queue| ==> queue[i] != queue[j])
    }

    constructor (cooldown: nat)
      ensures Valid() && queue == [] && calls == map[] && retry == map[] && !cancelled && this.cooldown == cooldown
    {
      this.cooldown, cancelled, queue, calls, retry := cooldown, false, [], map[], map[];
    }

    /** submitMode: joins the open call of the peer, backs off, or enqueues a new one. */
    method SubmitMode(id: PeerID, explicit: bool, connectRequest: bool, now: nat)
      returns (call: DiscoveryCall?, err: Option<SubmitError>)
      requires Valid()
      modifies this`queue, this`calls
      ensures Valid()
      ensures cancelled ==> call == null && err == Some(ContextDone)
      ensures !cancelled && id in old(calls) ==> call == old(calls)[id] && err == None
      ensures !cancelled && id !in old(calls) && !explicit && now < Scheduler.RetryOf(retry, id).next ==>
        call == null && err == None
      ensures var enters := !cancelled && id !in old(calls) && (explicit || now >= Scheduler.RetryOf(retry, id).next);
        && (enters && |old(queue)| >= Scheduler.QUEUE_SIZE ==> call == null && err == Some(QueueFull))
        && (enters && |old(queue)| < Scheduler.QUEUE_SIZE ==>
              && call != null && err == None && fresh(call) && call.id == id && call.connectRequest == connectRequest
              && queue == old(queue) + [call] && calls == old(calls)[id := call])
        && (!(enters && |old(queue)| < Scheduler.QUEUE_SIZE) ==> queue == old(queue) && calls == old(calls))
    {
      if cancelled {
        return null, Some(ContextDone);
      }
      if id in calls {
        return calls[id], None;
      }
      if !explicit && now < Scheduler.RetryOf(retry, id).next {
        return null, None;
      }
      if |queue| >= Scheduler.QUEUE_SIZE {
        return null, Some(QueueFull);
      }
      var c := new DiscoveryCall(id, connectRequest);
      assert forall q :: q in queue ==> q in old(calls).Values && q.id != id;
      queue := queue + [c];
      calls := calls[id := c];
      return c, None;
    }

    /** close, one call: it completes as cancelled and leaves `calls`; `done` were
        taken out before. */
    method CancelHead(ghost open: map<PeerID, DiscoveryCall>, ghost done: seq<DiscoveryCall>)
      requires Valid() && queue != [] && AllCanceled(done) && calls == Without(open, done)
      modifies this`queue, this`calls, queue[0]
      ensures Valid() && queue == old(queue)[1..]
      ensures AllCanceled(done + [old(queue)[0]]) && calls == Without(open, done + [old(queue)[0]])
    {
      var call := queue[0];
      assert queue == [call] + queue[1..];
      WithoutNext(open, done, call);
      queue := queue[1..];
      call.err := Scheduler.Canceled;
      calls := calls - {call.id};
      call.done := true;
    }

    /** close: every queued call completes as cancelled, calls in the hands of workers stay. */
    method Close()
      requires Valid()
      modifies this`cancelled, this`queue, this`calls, queue
      ensures Valid() && cancelled && queue == []
      ensures AllCanceled(old(queue))
      ensures calls == Without(old(calls), old(queue))
    {
      cancelled := true;
      ghost var was, open := queue, calls;
      ghost var taken := [];
      while queue != []
        invariant was == taken + queue
        invariant Valid() && cancelled && AllCanceled(taken) && calls == Without(open, taken)
        decreases |queue|
      {
        HeadMoves(was, taken, queue);
        ghost var head := queue[0];
        CancelHead(open, taken);
        taken := taken + [head];
      }
      assert was == taken;
    }

    /** The locked part of worker: the call completes and the retry table learns its outcome. */
    method Complete(call: DiscoveryCall, err: Scheduler.Outcome, now: nat, jitter: nat -> nat)
      requires Valid() && call.id in calls && calls[call.id] == call && call !in queue
      modifies this`calls, this`retry, call
      ensures Valid() && calls == old(calls) - {call.id} && call.done && call.err == err
      ensures call.id in retry && err == Scheduler.Success ==> retry[call.id] == Scheduler.Retry(0, now + cooldown)
      ensures call.id in retry && err != Scheduler.Success ==>
        var k := Scheduler.Min(Scheduler.RetryOf(old(retry), call.id).failures + 1, 5);
        retry[call.id] == Scheduler.Retry(k, now + jitter(Scheduler.Min(30 * Scheduler.Pow2(k - 1), 300)))
      ensures var room := |old(retry)| < Scheduler.STATE_LIMIT || |Scheduler.Pruned(old(retry), now)| < Scheduler.STATE_LIMIT;
        call.id in retry <==> call.id in old(retry) || room
      ensures retry == Scheduler.UpdateRetry(old(retry), call.id,
        Scheduler.NextRetry(Scheduler.Config(cooldown, jitter), Scheduler.RetryOf(old(retry), call.id), err, now), now)
    {
      ghost var was := retry;
      Scheduler.NextRetryExactly(Scheduler.Config(cooldown, jitter), Scheduler.RetryOf(was, call.id), err, now);
      call.err := err;
      calls := calls - {call.id};
      RecordRetry(call.id, err, now, jitter);
      call.done := true;
    }

    /** The retry entry of a completed call. */
    method RecordRetry(id: PeerID, err: Scheduler.Outcome, now: nat, jitter: nat -> nat)
      requires |retry| <= Scheduler.STATE_LIMIT
      modifies this`retry
      ensures |retry| <= Scheduler.STATE_LIMIT
      ensures retry == Scheduler.UpdateRetry(old(retry), id,
        Scheduler.NextRetry(Scheduler.Config(cooldown, jitter), Scheduler.RetryOf(old(retry), id), err, now), now)
    {
      var r := Scheduler.RetryOf(retry, id);
      r := Scheduler.NextRetry(Scheduler.Config(cooldown, jitter), r, err, now);
      Scheduler.RetryBounded(retry, id, r, now);
      if id in retry || |retry| < Scheduler.STATE_LIMIT {
        retry := retry[id := r];
      } else {
        PruneRetry(now);
        if |retry| < Scheduler.STATE_LIMIT {
          retry := retry[id := r];
        }
      }
    }

    /** Drops the entries that hold nothing back any more, in any order. */
    method PruneRetry(now: nat)
      modifies this`retry
      ensures retry == Scheduler.Pruned(old(retry), now)
    {
      var todo := retry.Keys;
      while todo != {}
        invariant todo <= retry.Keys
        invariant retry == map k | k in old(retry) && (k in todo || now < old(retry)[k].next) :: old(retry)[k]
        decreases todo
      {
        var k :| k in todo;
        todo := todo - {k};
        if now >= retry[k].next {
          retry := retry - {k};
        }
      }
    }
  }
}
