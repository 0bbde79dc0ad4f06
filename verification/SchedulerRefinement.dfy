/** The locked sections of the scheduler are runs of its state machine
    (pkg/serverless/scheduler.go). */
module SchedulerRefinement {
  import opened Scheduler
  import opened SchedulerTable
  import opened Wrappers

  /** How a call object ended, if it did. */
  datatype Ending = Ending(done: bool, err: Outcome)

  ghost function EndingsOf(cs: seq<DiscoveryCall>): (es: seq<Ending>)
    reads cs
    ensures |es| == |cs| && forall c :: 0 <= c < |cs| ==> es[c] == Ending(cs[c].done, cs[c].err)
  {
    seq(|cs|, c requires 0 <= c < |cs| reads cs => Ending(cs[c].done, cs[c].err))
  }

  /** `cs[c]` is the object of call `c`. */
  ghost predicate Mirrors(s: DiscoveryScheduler, st: State, cs: seq<DiscoveryCall>)
    reads s, cs
  {
    Shows(st, s.cancelled, s.queue, s.calls, s.retry, cs, EndingsOf(cs))
  }

  ghost predicate Shows(st: State, cancelled: bool, queue: seq<DiscoveryCall>, calls: map<PeerID, DiscoveryCall>,
                        retry: map<PeerID, Retry>, cs: seq<DiscoveryCall>, es: seq<Ending>) {
    && st.holder == None && cancelled == st.cancelled && retry == st.retry
    && Objects(st.store, cs) && Endings(st.store, es)
    && QueueShows(queue, st.queue, cs) && CallsShow(calls, st.calls, cs)
  }

  ghost predicate Objects(store: seq<Call>, cs: seq<DiscoveryCall>) {
    && |cs| == |store|
    && (forall i, j :: 0 <= i < j < |cs| ==> cs[i] != cs[j])
    && (forall c :: 0 <= c < |cs| ==> cs[c].id == store[c].id && cs[c].connectRequest == store[c].connect)
  }

  ghost predicate Endings(store: seq<Call>, es: seq<Ending>) {
    && |es| == |store|
    && forall c :: 0 <= c < |es| ==>
         (es[c].done <==> store[c].completions > 0) && (es[c].done ==> es[c].err == store[c].err)
  }

  ghost predicate QueueShows(queue: seq<DiscoveryCall>, indices: seq<nat>, cs: seq<DiscoveryCall>) {
    |queue| == |indices| && forall i :: 0 <= i < |queue| ==> indices[i] < |cs| && queue[i] == cs[indices[i]]
  }

  ghost predicate CallsShow(calls: map<PeerID, DiscoveryCall>, indices: map<PeerID, nat>, cs: seq<DiscoveryCall>) {
    && calls.Keys == indices.Keys
    && forall id :: id in indices ==> indices[id] < |cs| && calls[id] == cs[indices[id]]
  }

  lemma RunCons(cfg: Config, st: State, act: Action, rest: seq<Action>)
    requires Enabled(st, act) && Run(cfg, Apply(cfg, st, act), rest)
    ensures Run(cfg, st, [act] + rest) && After(cfg, st, [act] + rest) == After(cfg, Apply(cfg, st, act), rest)
  {
    assert ([act] + rest)[1..] == rest;
  }

  // ---- submitMode ----

  /** The checks of submitMode by the discovery loop or by a caller of request. */
  predicate Submits(st: State, act: Action) {
    act.Submit? || act.Request?
  }

  function PeerOf(st: State, act: Action): PeerID
    requires Enabled(st, act) && Submits(st, act)
  {
    if act.Submit? then act.id else st.requesters[act.r].id
  }

  function ConnectOf(st: State, act: Action): bool
    requires Enabled(st, act) && Submits(st, act)
  {
    act.Request? && st.requesters[act.r].connect
  }

  function ExplicitOf(act: Action): bool { act.Request? || (act.Submit? && act.explicit) }

  /** submitMode without interruption: the checks, then the enqueuing if they pass. */
  ghost function Submitted(cfg: Config, st: State, act: Action): State
    requires Enabled(st, act) && Submits(st, act)
  {
    var s1 := Apply(cfg, st, act);
    if s1.holder.Some? && Enabled(s1, Send) then Apply(cfg, s1, Send) else s1
  }

  lemma SubmittedIsRun(cfg: Config, st: State, act: Action)
    requires Enabled(st, act) && Submits(st, act)
    ensures var s1 := Apply(cfg, st, act);
      var acts := if s1.holder.Some? && Enabled(s1, Send) then [act, Send] else [act];
      Run(cfg, st, acts) && After(cfg, st, acts) == Submitted(cfg, st, act)
  {
    var s1 := Apply(cfg, st, act);
    if s1.holder.Some? && Enabled(s1, Send) {
      RunCons(cfg, s1, Send, []);
      assert [Send] + [] == [Send];
      RunCons(cfg, st, act, [Send]);
      assert [act] + [Send] == [act, Send];
    } else {
      RunCons(cfg, st, act, []);
      assert [act] + [] == [act];
    }
  }

  /** The checks let the submission through. */
  ghost predicate Passes(st: State, act: Action)
    requires Enabled(st, act) && Submits(st, act)
  {
    !st.cancelled && PeerOf(st, act) !in st.calls && (ExplicitOf(act) || !BackedOff(st, PeerOf(st, act)))
  }

  ghost predicate Enters(st: State, act: Action)
    requires Enabled(st, act) && Submits(st, act)
  {
    Passes(st, act) && |st.queue| < QUEUE_SIZE
  }

  /** The tables are the same in both states. */
  ghost predicate SameTables(st: State, to: State) {
    && to.cancelled == st.cancelled && to.retry == st.retry && to.store == st.store
    && to.queue == st.queue && to.calls == st.calls
  }

  lemma CheckEffect(cfg: Config, st: State, act: Action)
    requires Enabled(st, act) && Submits(st, act)
    ensures var to := Apply(cfg, st, act);
      && SameTables(st, to) && |to.requesters| == |st.requesters|
      && (to.holder.Some? <==> Passes(st, act))
      && (Passes(st, act) ==> Enabled(to, Send))
      && (Passes(st, act) ==> to.holder.value.id == PeerOf(st, act) && to.holder.value.connect == ConnectOf(st, act))
  {
  }

  lemma SendEffect(cfg: Config, st: State)
    requires Enabled(st, Send)
    ensures var to, h := Apply(cfg, st, Send), st.holder.value;
      && to.holder == None
      && (if |st.queue| < QUEUE_SIZE then
            && to.cancelled == st.cancelled && to.retry == st.retry
            && to.store == st.store + [Call(h.id, h.connect, Success, 0)]
            && to.queue == st.queue + [|st.store|] && to.calls == st.calls[h.id := |st.store|]
          else SameTables(st, to))
  {
  }

  /** A submission either changes nothing in the tables or enters a new call. */
  ghost predicate Enqueues(st: State, to: State, enters: bool, id: PeerID, connect: bool) {
    && to.holder == None
    && (if enters then
          && to.cancelled == st.cancelled && to.retry == st.retry
          && to.store == st.store + [Call(id, connect, Success, 0)]
          && to.queue == st.queue + [|st.store|] && to.calls == st.calls[id := |st.store|]
        else SameTables(st, to))
  }

  lemma SubmittedEffect(cfg: Config, st: State, act: Action)
    requires Enabled(st, act) && Submits(st, act)
    ensures Enqueues(st, Submitted(cfg, st, act), Enters(st, act), PeerOf(st, act), ConnectOf(st, act))
  {
    CheckEffect(cfg, st, act);
    if Passes(st, act) { SendEffect(cfg, Apply(cfg, st, act)); }
  }

  lemma EnterShows(st: State, to: State, cancelled: bool, queue: seq<DiscoveryCall>, calls: map<PeerID, DiscoveryCall>,
                   retry: map<PeerID, Retry>, cs: seq<DiscoveryCall>, es: seq<Ending>, call: DiscoveryCall, err: Outcome)
    requires Shows(st, cancelled, queue, calls, retry, cs, es) && call !in cs
    requires Enqueues(st, to, true, call.id, call.connectRequest)
    ensures Shows(to, cancelled, queue + [call], calls[call.id := call], retry, cs + [call], es + [Ending(false, err)])
  {
  }

  lemma EndingsSnoc(cs: seq<DiscoveryCall>, call: DiscoveryCall)
    ensures EndingsOf(cs + [call]) == EndingsOf(cs) + [Ending(call.done, call.err)]
  {
  }

  ghost predicate SubmitFits(st: State, act: Action, id: PeerID, explicit: bool, connectRequest: bool)
    requires Enabled(st, act) && Submits(st, act)
  {
    id == PeerOf(st, act) && connectRequest == ConnectOf(st, act) && explicit == ExplicitOf(act)
  }

  /** The frame of submitMode, call by call. */
  method SubmitWithEndings(s: DiscoveryScheduler, id: PeerID, explicit: bool, connectRequest: bool, now: nat,
                           ghost cs: seq<DiscoveryCall>)
    returns (call: DiscoveryCall?, err: Option<SubmitError>)
    requires s.Valid()
    modifies s`queue, s`calls
    ensures s.Valid() && EndingsOf(cs) == old(EndingsOf(cs))
    ensures
      if old(Creates(s, id, explicit, now)) then
        && call != null && fresh(call) && call.id == id && call.connectRequest == connectRequest
        && s.queue == old(s.queue) + [call] && s.calls == old(s.calls)[id := call]
        && EndingsOf(cs + [call]) == old(EndingsOf(cs)) + [Ending(false, call.err)]
      else s.queue == old(s.queue) && s.calls == old(s.calls)
  {
    ghost var queue := s.queue;
    call, err := s.SubmitMode(id, explicit, connectRequest, now);
    if s.queue != queue { EndingsSnoc(cs, call); }
  }

  /** submitMode creates a call. */
  predicate Creates(s: DiscoveryScheduler, id: PeerID, explicit: bool, now: nat)
    reads s
  {
    !s.cancelled && id !in s.calls && (explicit || now >= RetryOf(s.retry, id).next) && |s.queue| < QUEUE_SIZE
  }

  method SubmitCall(s: DiscoveryScheduler, id: PeerID, explicit: bool, connectRequest: bool, now: nat,
                    ghost st: State, ghost to: State, ghost enters: bool, ghost cs: seq<DiscoveryCall>)
    returns (call: DiscoveryCall?, err: Option<SubmitError>, ghost cs': seq<DiscoveryCall>)
    requires s.Valid() && Mirrors(s, st, cs) && Enqueues(st, to, enters, id, connectRequest)
    requires enters <==> Creates(s, id, explicit, now)
    modifies s`queue, s`calls
    ensures s.Valid() && Mirrors(s, to, cs')
    ensures if enters then call != null && cs' == cs + [call] else cs' == cs
  {
    ghost var queue, calls, es := s.queue, s.calls, EndingsOf(cs);
    call, err := SubmitWithEndings(s, id, explicit, connectRequest, now, cs);
    cs' := cs;
    if enters {
      EnterShows(st, to, s.cancelled, queue, calls, s.retry, cs, es, call, call.err);
      cs' := cs + [call];
    }
  }

  /** submitMode is its checks and the enqueuing in a row, for both kinds of caller. */
  method SubmitOnState(s: DiscoveryScheduler, id: PeerID, explicit: bool, connectRequest: bool, now: nat,
                       ghost cfg: Config, ghost st: State, ghost act: Action, ghost cs: seq<DiscoveryCall>)
    returns (call: DiscoveryCall?, err: Option<SubmitError>, ghost cs': seq<DiscoveryCall>)
    requires s.Valid() && Mirrors(s, st, cs) && st.now == now
    requires Enabled(st, act) && Submits(st, act) && SubmitFits(st, act, id, explicit, connectRequest)
    modifies s`queue, s`calls
    ensures s.Valid() && Mirrors(s, Submitted(cfg, st, act), cs')
    ensures if Enters(st, act) then call != null && cs' == cs + [call] else cs' == cs
  {
    SubmittedEffect(cfg, st, act);
    call, err, cs' := SubmitCall(s, id, explicit, connectRequest, now, st, Submitted(cfg, st, act), Enters(st, act), cs);
  }

  // ---- close ----

  ghost predicate Drainable(st: State) {
    && st.holder == Some(Closing)
    && (forall i :: 0 <= i < |st.queue| ==> st.queue[i] < |st.store|)
    && (forall i, j :: 0 <= i < j < |st.queue| ==> st.queue[i] != st.queue[j])
  }

  ghost function DrainAll(cfg: Config, st: State): State
    requires Drainable(st)
    decreases |st.queue|
  {
    if st.queue == [] then st else DrainAll(cfg, Apply(cfg, st, DrainOne))
  }

  /** close without interruption: cancel, lock, drain, unlock. */
  ghost function ClosedBy(cfg: Config, st: State): State
    requires st.holder == None && Drainable(st.(holder := Some(Closing)))
  {
    DrainAll(cfg, st.(cancelled := true, holder := Some(Closing))).(holder := None, drained := true)
  }

  ghost function DrainActions(n: nat): seq<Action> {
    if n == 0 then [CloseEnd] else [DrainOne] + DrainActions(n - 1)
  }

  lemma {:induction false} DrainIsRun(cfg: Config, st: State)
    requires Drainable(st)
    ensures Run(cfg, st, DrainActions(|st.queue|))
    ensures After(cfg, st, DrainActions(|st.queue|)) == DrainAll(cfg, st).(holder := None, drained := true)
    decreases |st.queue|
  {
    if st.queue == [] {
      RunCons(cfg, st, CloseEnd, []);
      assert [CloseEnd] + [] == [CloseEnd];
    } else {
      DrainIsRun(cfg, Apply(cfg, st, DrainOne));
      RunCons(cfg, st, DrainOne, DrainActions(|st.queue| - 1));
    }
  }

  lemma ClosedIsRun(cfg: Config, st: State)
    requires st.holder == None && Drainable(st.(holder := Some(Closing)))
    ensures var acts := [Cancel] + ([CloseBegin] + DrainActions(|st.queue|));
      Run(cfg, st, acts) && After(cfg, st, acts) == ClosedBy(cfg, st)
  {
    var s1 := Apply(cfg, st, Cancel);
    var s2 := Apply(cfg, s1, CloseBegin);
    DrainIsRun(cfg, s2);
    RunCons(cfg, s1, CloseBegin, DrainActions(|st.queue|));
    RunCons(cfg, st, Cancel, [CloseBegin] + DrainActions(|st.queue|));
  }

  /** No call of `queue` is about this peer. */
  ghost predicate Spares(store: seq<Call>, queue: seq<nat>, id: PeerID)
    requires forall i :: 0 <= i < |queue| ==> queue[i] < |store|
  {
    forall i :: 0 <= i < |queue| ==> store[queue[i]].id != id
  }

  ghost function CallAfter(store: seq<Call>, queue: seq<nat>, c: nat): Call
    requires c < |store|
  {
    if c in queue then store[c].(err := Canceled, completions := store[c].completions + 1) else store[c]
  }

  lemma {:induction false} DrainEffect(cfg: Config, st: State)
    requires Drainable(st)
    ensures var to := DrainAll(cfg, st);
      && to.queue == [] && to.cancelled == st.cancelled && to.retry == st.retry && |to.store| == |st.store|
      && (forall c :: 0 <= c < |st.store| ==> to.store[c] == CallAfter(st.store, st.queue, c))
      && (forall id :: id in to.calls <==> id in st.calls && Spares(st.store, st.queue, id))
      && (forall id :: id in to.calls ==> to.calls[id] == st.calls[id])
    decreases |st.queue|
  {
    if st.queue != [] {
      DrainHead(cfg, st);
      DrainEffect(cfg, Apply(cfg, st, DrainOne));
    }
  }

  lemma DrainHead(cfg: Config, st: State)
    requires Drainable(st) && st.queue != []
    ensures var to, head := Apply(cfg, st, DrainOne), st.queue[0];
      && Drainable(to) && to.queue == st.queue[1..] && to.cancelled == st.cancelled && to.retry == st.retry
      && |to.store| == |st.store|
      && (forall c :: 0 <= c < |st.store| ==>
            CallAfter(to.store, to.queue, c) == CallAfter(st.store, st.queue, c) && to.store[c].id == st.store[c].id)
      && to.calls == st.calls - {st.store[head].id}
      && (forall id :: Spares(st.store, st.queue, id) <==> id != st.store[head].id && Spares(to.store, to.queue, id))
  {
    var to, head := Apply(cfg, st, DrainOne), st.queue[0];
    assert st.queue == [head] + st.queue[1..];
    forall i | 0 <= i < |to.queue| ensures to.queue[i] == st.queue[i + 1] != head { }
    assert head !in to.queue;
  }

  lemma CloseShows(cfg: Config, st: State, cancelled: bool, queue: seq<DiscoveryCall>, calls: map<PeerID, DiscoveryCall>,
                   retry: map<PeerID, Retry>, cs: seq<DiscoveryCall>, es: seq<Ending>, es': seq<Ending>)
    requires Shows(st, cancelled, queue, calls, retry, cs, es) && Drainable(st.(holder := Some(Closing)))
    requires |es'| == |cs| && forall c :: 0 <= c < |cs| ==> es'[c] == if cs[c] in queue then Ending(true, Canceled) else es[c]
    ensures Shows(ClosedBy(cfg, st), true, [], Without(calls, queue), retry, cs, es')
  {
    var s2 := st.(cancelled := true, holder := Some(Closing));
    DrainEffect(cfg, s2);
    QueueMembers(queue, st.queue, cs);
    forall id ensures id in Without(calls, queue) <==> id in st.calls && Spares(st.store, st.queue, id) {
      SparesExactly(st, queue, cs, id);
    }
  }

  lemma QueueMembers(queue: seq<DiscoveryCall>, indices: seq<nat>, cs: seq<DiscoveryCall>)
    requires QueueShows(queue, indices, cs) && forall i, j :: 0 <= i < j < |cs| ==> cs[i] != cs[j]
    ensures forall c :: 0 <= c < |cs| ==> (cs[c] in queue <==> c in indices)
  {
    forall c | 0 <= c < |cs| ensures cs[c] in queue <==> c in indices {
      if c in indices {
        var i :| 0 <= i < |indices| && indices[i] == c;
        assert queue[i] == cs[c];
      }
    }
  }

  lemma SparesExactly(st: State, queue: seq<DiscoveryCall>, cs: seq<DiscoveryCall>, id: PeerID)
    requires Objects(st.store, cs) && QueueShows(queue, st.queue, cs)
    ensures (forall i :: 0 <= i < |queue| ==> queue[i].id != id) <==> Spares(st.store, st.queue, id)
  {
    forall i | 0 <= i < |queue| ensures queue[i].id == st.store[st.queue[i]].id { }
  }

  lemma QueueDistinct(queue: seq<DiscoveryCall>, indices: seq<nat>, cs: seq<DiscoveryCall>)
    requires QueueShows(queue, indices, cs) && forall i, j :: 0 <= i < j < |queue| ==> queue[i] != queue[j]
    ensures forall i, j :: 0 <= i < j < |indices| ==> indices[i] != indices[j]
  {
    forall i, j | 0 <= i < j < |indices| ensures indices[i] != indices[j] {
      assert queue[i] != queue[j];
    }
  }

  /** close is the run that cancels, drains the queue and unlocks. */
  method CloseOnState(s: DiscoveryScheduler, ghost cfg: Config, ghost st: State, ghost cs: seq<DiscoveryCall>)
    requires s.Valid() && Mirrors(s, st, cs)
    modifies s`cancelled, s`queue, s`calls, s.queue
    ensures s.Valid() && Drainable(st.(holder := Some(Closing))) && Mirrors(s, ClosedBy(cfg, st), cs)
  {
    QueueDistinct(s.queue, st.queue, cs);
    ghost var queue, calls, es := s.queue, s.calls, EndingsOf(cs);
    ghost var cancelled := s.cancelled;
    s.Close();
    forall c | 0 <= c < |cs| ensures EndingsOf(cs)[c] == if cs[c] in queue then Ending(true, Canceled) else es[c] {
    }
    CloseShows(cfg, st, cancelled, queue, calls, s.retry, cs, es, EndingsOf(cs));
  }

  // ---- the locked part of worker ----

  /** Call `c` completes with `err` and the retry table learns the outcome. */
  ghost predicate Completes(cfg: Config, st: State, to: State, c: nat, err: Outcome) {
    && c < |st.store| && to.holder == None && to.cancelled == st.cancelled && to.queue == st.queue
    && to.retry == UpdateRetry(st.retry, st.store[c].id,
         NextRetry(cfg, RetryOf(st.retry, st.store[c].id), err, st.now), st.now)
    && to.store == st.store[c := st.store[c].(err := err, completions := st.store[c].completions + 1)]
    && to.calls == st.calls - {st.store[c].id}
  }

  lemma CompleteEffect(cfg: Config, st: State, w: nat)
    requires st.holder == None && Enabled(st, Action.Complete(w))
    ensures Completes(cfg, st, Apply(cfg, st, Action.Complete(w)), st.workers[w].call, st.workers[w].err)
  {
  }

  lemma EndedShows(store: seq<Call>, es: seq<Ending>, c: nat, err: Outcome)
    requires c < |store| && Endings(store, es)
    ensures Endings(store[c := store[c].(err := err, completions := store[c].completions + 1)], es[c := Ending(true, err)])
  {
  }

  lemma DroppedShows(calls: map<PeerID, DiscoveryCall>, indices: map<PeerID, nat>, cs: seq<DiscoveryCall>, id: PeerID)
    requires CallsShow(calls, indices, cs)
    ensures CallsShow(calls - {id}, indices - {id}, cs)
  {
  }

  /** One call completes on values. */
  lemma CompleteShows(cfg: Config, st: State, to: State, cancelled: bool, queue: seq<DiscoveryCall>,
                      calls: map<PeerID, DiscoveryCall>, cs: seq<DiscoveryCall>, es: seq<Ending>, c: nat, err: Outcome)
    requires Shows(st, cancelled, queue, calls, st.retry, cs, es) && Completes(cfg, st, to, c, err)
    ensures Shows(to, cancelled, queue, calls - {cs[c].id}, to.retry, cs, es[c := Ending(true, err)])
  {
    EndedShows(st.store, es, c, err);
    DroppedShows(calls, st.calls, cs, cs[c].id);
    assert forall i :: 0 <= i < |cs| ==> to.store[i].id == st.store[i].id && to.store[i].connect == st.store[i].connect;
  }

  lemma EndingsUpdate(cs: seq<DiscoveryCall>, was: seq<Ending>, c: nat)
    requires c < |cs| == |was|
    requires forall i :: 0 <= i < |cs| && i != c ==> was[i] == Ending(cs[i].done, cs[i].err)
    ensures EndingsOf(cs) == was[c := Ending(cs[c].done, cs[c].err)]
  {
  }

  /** The frame of the locked part of worker, call by call. */
  method CompleteWithEndings(s: DiscoveryScheduler, call: DiscoveryCall, err: Outcome, now: nat, jitter: nat -> nat,
                             ghost cs: seq<DiscoveryCall>, ghost c: nat)
    requires s.Valid() && c < |cs| && cs[c] == call && forall i, j :: 0 <= i < j < |cs| ==> cs[i] != cs[j]
    requires call.id in s.calls && s.calls[call.id] == call && call !in s.queue
    modifies s`calls, s`retry, call
    ensures s.Valid() && s.calls == old(s.calls) - {call.id}
    ensures s.retry == UpdateRetry(old(s.retry), call.id,
      NextRetry(Config(s.cooldown, jitter), RetryOf(old(s.retry), call.id), err, now), now)
    ensures EndingsOf(cs) == old(EndingsOf(cs))[c := Ending(true, err)]
  {
    ghost var es := EndingsOf(cs);
    s.Complete(call, err, now, jitter);
    EndingsUpdate(cs, es, c);
  }

  method CompleteCall(s: DiscoveryScheduler, call: DiscoveryCall, err: Outcome, now: nat, jitter: nat -> nat,
                      ghost st: State, ghost to: State, ghost cs: seq<DiscoveryCall>, ghost c: nat)
    requires s.Valid() && Mirrors(s, st, cs) && st.now == now && Completes(Config(s.cooldown, jitter), st, to, c, err)
    requires cs[c] == call && call.id in s.calls && s.calls[call.id] == call && call !in s.queue
    modifies s`calls, s`retry, call
    ensures s.Valid() && Mirrors(s, to, cs)
  {
    CompleteShows(Config(s.cooldown, jitter), st, to, s.cancelled, s.queue, s.calls, cs, EndingsOf(cs), c, err);
    CompleteWithEndings(s, call, err, now, jitter, cs, c);
  }

  /** The worker that completes holds `call`. */
  ghost predicate Holds(st: State, cs: seq<DiscoveryCall>, w: nat, call: DiscoveryCall, err: Outcome) {
    && Enabled(st, Action.Complete(w)) && |cs| == |st.store|
    && st.workers[w] == Ran(st.workers[w].call, err) && cs[st.workers[w].call] == call
  }

  /** The locked part of worker is the completing action. */
  method CompleteOnState(s: DiscoveryScheduler, call: DiscoveryCall, err: Outcome, now: nat, jitter: nat -> nat,
                         ghost st: State, ghost cs: seq<DiscoveryCall>, ghost w: nat)
    requires s.Valid() && Mirrors(s, st, cs) && st.now == now && Holds(st, cs, w, call, err)
    requires call.id in s.calls && s.calls[call.id] == call && call !in s.queue
    modifies s`calls, s`retry, call
    ensures s.Valid() && Mirrors(s, Apply(Config(s.cooldown, jitter), st, Action.Complete(w)), cs)
  {
    ghost var to := Apply(Config(s.cooldown, jitter), st, Action.Complete(w));
    CompleteEffect(Config(s.cooldown, jitter), st, w);
    CompleteCall(s, call, err, now, jitter, st, to, cs, st.workers[w].call);
  }
}
