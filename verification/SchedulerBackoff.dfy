/** Retry and cooldown over whole runs of the discovery scheduler
    (pkg/serverless/scheduler.go): when a background submission is let through. */
module SchedulerBackoff {
  import opened Scheduler
  import opened Wrappers

  /** What became of the calls for a peer since the retry table knows it. */
  datatype Past = Unknown | Succeeded(at: nat) | Failed(inARow: nat, at: nat)

  /** `act` completes a call for `p`. */
  ghost predicate Completes(st: State, act: Action, p: PeerID) {
    act.Complete? && Enabled(st, act) && st.store[st.workers[act.w].call].id == p
  }

  function Learnt(past: Past, err: Outcome, now: nat): Past {
    if err == Success then Succeeded(now) else Past.Failed(1 + (if past.Failed? then past.inARow else 0), now)
  }

  ghost function Learn(cfg: Config, st: State, act: Action, p: PeerID, past: Past): Past
    requires Enabled(st, act)
  {
    if p !in Apply(cfg, st, act).retry then Unknown
    else if !Completes(st, act, p) then past
    else Learnt(past, st.workers[act.w].err, st.now)
  }

  /** The past after a run; it starts again when the bounded table drops the peer. */
  ghost function PastOf(cfg: Config, st: State, acts: seq<Action>, p: PeerID, past: Past): Past
    requires Run(cfg, st, acts)
    decreases |acts|
  {
    if acts == [] then past
    else PastOf(cfg, Apply(cfg, st, acts[0]), acts[1..], p, Learn(cfg, st, acts[0], p, past))
  }

  /** From when on the peer is tried again: the cooldown after a success, after
      failures 30 seconds doubled with each up to five minutes, jittered. */
  function Due(cfg: Config, past: Past): nat {
    match past
    case Unknown => 0
    case Succeeded(at) => at + cfg.cooldown
    case Failed(k, at) => at + cfg.jitter(Min(30 * Pow2(if k == 0 then 0 else Min(k, 5) - 1), 300))
  }

  /** A table entry that says what the past asks for. */
  ghost predicate Says(cfg: Config, r: Retry, past: Past) {
    match past
    case Unknown => r == Retry(0, 0)
    case Succeeded(_) => r == Retry(0, Due(cfg, past))
    case Failed(k, _) => k > 0 && r == Retry(Min(k, 5), Due(cfg, past))
  }

  ghost predicate Knows(cfg: Config, st: State, p: PeerID, past: Past) {
    (past == Unknown <==> p !in st.retry) && Says(cfg, RetryOf(st.retry, p), past)
  }

  /** The table forgets a peer only when it is full, after the peer's time is over,
      and leaves one out only while every entry still holds its peer back. */
  lemma LostExactly(cfg: Config, st: State, act: Action, p: PeerID)
    requires Enabled(st, act)
    ensures var to := Apply(cfg, st, act);
      && (p in st.retry && p !in to.retry ==>
            !Completes(st, act, p) && st.retry[p].next <= st.now && |st.retry| >= STATE_LIMIT)
      && (Completes(st, act, p) && p !in to.retry ==>
            p !in st.retry && |Pruned(st.retry, st.now)| >= STATE_LIMIT)
      && (p in to.retry && !Completes(st, act, p) ==> p in st.retry && to.retry[p] == st.retry[p])
  {
  }

  lemma NextSays(cfg: Config, r: Retry, past: Past, err: Outcome, now: nat)
    requires Says(cfg, r, past)
    ensures Says(cfg, NextRetry(cfg, r, err, now), Learnt(past, err, now))
  {
    NextRetryExactly(cfg, r, err, now);
  }

  lemma CompleteRecords(cfg: Config, st: State, act: Action, p: PeerID)
    requires Enabled(st, act) && Completes(st, act, p) && p in Apply(cfg, st, act).retry
    ensures Apply(cfg, st, act).retry[p] == NextRetry(cfg, RetryOf(st.retry, p), st.workers[act.w].err, st.now)
  {
  }

  lemma LearnsStep(cfg: Config, st: State, act: Action, p: PeerID, past: Past)
    requires Enabled(st, act) && Knows(cfg, st, p, past)
    ensures Knows(cfg, Apply(cfg, st, act), p, Learn(cfg, st, act, p, past))
  {
    if p in Apply(cfg, st, act).retry {
      if Completes(st, act, p) {
        CompleteRecords(cfg, st, act, p);
        NextSays(cfg, RetryOf(st.retry, p), past, st.workers[act.w].err, st.now);
      } else {
        LostExactly(cfg, st, act, p);
      }
    }
  }

  lemma {:induction false} KnowsRun(cfg: Config, st: State, acts: seq<Action>, p: PeerID, past: Past)
    requires Knows(cfg, st, p, past) && Run(cfg, st, acts)
    ensures Knows(cfg, After(cfg, st, acts), p, PastOf(cfg, st, acts, p, past))
    decreases |acts|
  {
    if acts != [] {
      LearnsStep(cfg, st, acts[0], p, past);
      KnowsRun(cfg, Apply(cfg, st, acts[0]), acts[1..], p, Learn(cfg, st, acts[0], p, past));
    }
  }

  /** In every run: a background submission is let through exactly when the
      scheduler is open, no call for the peer is open, and the time its past asks
      for is over. An explicit one does not wait. */
  lemma AdmittedExactly(cfg: Config, requesters: seq<Requester>, acts: seq<Action>, p: PeerID, explicit: bool)
    requires Fresh(requesters) && Run(cfg, InitialState(requesters), acts)
    requires Enabled(After(cfg, InitialState(requesters), acts), Submit(p, explicit))
    ensures var st := After(cfg, InitialState(requesters), acts);
      var lets := !st.cancelled && p !in st.calls &&
        (explicit || st.now >= Due(cfg, PastOf(cfg, InitialState(requesters), acts, p, Unknown)));
      Apply(cfg, st, Submit(p, explicit)) == if lets then st.(holder := Some(Submitting(p, false, None))) else st
  {
    KnowsRun(cfg, InitialState(requesters), acts, p, Unknown);
  }
}
