/** A node that deletes a friend: the tombstone, the one-time notice and the
    requests of the deleted peer that come in meanwhile
    (pkg/serverless/serverless.go, sdk/go/lanet/peers.go). */
module Deletion {
  import opened PeersDb
  import opened Wrappers
  import PeerRows

  /** handleInfo for a handshake of the peer: a phase stands before each of its
      database queries and transactions. */
  datatype Phase =
    | Start         // explicit request: the tombstone query before AutoReaccept
    | Restore       // maybeAutoReaccept: ClearUnfriended, skipped where it would do nothing
    | Rejoin        // its UpsertPeer
    | Retrust       // its SetTrusted
    | Recheck       // the tombstone query before the notice
    | SawTombstone  // IsUnfriendedNotified
    | MustMark      // MarkUnfriendedNotified, and the marker goes out
    | Policy        // trustPolicy: its tombstone query
    | PolicyDeleted // its IsUnfriendedNotified
    | TrustCheck    // isTrustedPeer: its own tombstone query
    | TrustRead     // and its IsTrusted
    | Accept        // maybeAutoAccept: UpsertPeer
    | AcceptTrust   // and SetTrusted
    | MustRecord    // onPendingRequest: UpsertPeer, whose refusal it ignores
    | MustPend      // and AddPending
    | Done

  datatype Handshake = Handshake(connect: bool, row: PendingRow, phase: Phase)

  /** A node as far as it deals with one other node, `peer`. `auto`: auto_accept
      is on. `notices` counts the markers marked since the last deletion. */
  datatype Node = Node(peer: PeerID, auto: bool, t: Tables, handshakes: seq<Handshake>,
                       notifying: nat, toMark: nat, callbacks: nat, deletes: nat, notices: nat)
  {
    predicate Deleted() { t.IsUnfriended(peer) }
    predicate Notified() { t.IsUnfriendedNotified(peer) }
    predicate Trusted() { t.IsTrusted(peer) }
  }

  datatype Step =
    | Remove(now: Time)     // RemovePeer, RejectPeer
    | PushSent              // NotifyUnfriend wrote its message
    | PushFailed            // it failed, or was not called at all
    | PushMarked            // MarkUnfriendedNotified after the push
    | Told                  // the peer's push or unfriended marker came in
    | Untrusts              // onUnfriendReceived: SetTrusted(peer, false)
    | Deletes               // and DeletePeer
    | HandshakeStarts(connect: bool, row: PendingRow)
    | HandshakeStep(i: nat)
    | Clears                // the user approves or re-adds the peer: ClearUnfriended
    | Trusts                // and SetTrusted(peer, true)
    | Asks                  // the trust check before an own explicit request passed
    | Write(op: Op)         // any other database write

  /** A write about another peer, or one of discovery, naming and seed exchange. */
  predicate Elsewhere(op: Op, p: PeerID) {
    match op
    case Trust(q, _) => q != p
    case Remove(q, _) => q != p
    case Delete(q) => q != p
    case Notified(q) => q != p
    case Clear(q) => q != p
    case Pend(q, _) => q != p
    case _ => true
  }

  predicate Enabled(n: Node, s: Step) {
    match s
    case PushSent => n.notifying > 0
    case PushFailed => n.notifying > 0
    case PushMarked => n.toMark > 0
    case Untrusts => n.callbacks > 0
    case Deletes => n.deletes > 0
    case HandshakeStep(i) => i < |n.handshakes| && n.handshakes[i].phase != Done
    case Asks => n.Trusted()
    case Write(op) => Elsewhere(op, n.peer)
    case _ => true
  }

  /** What the query or the outcome of the transaction leads to. */
  function Next(n: Node, h: Handshake): Phase {
    match h.phase
    case Start => if h.connect && n.auto && n.Deleted() then Restore else Recheck
    case Restore => Rejoin
    case Rejoin => if n.Deleted() then Recheck else Retrust
    case Retrust => if n.Deleted() then Recheck else Done
    case Recheck => if n.Deleted() then SawTombstone else Policy
    case SawTombstone => if n.Notified() then Policy else MustMark
    case MustMark => Done
    case Policy => if !h.connect then Done else if n.Deleted() then PolicyDeleted else TrustCheck
    case PolicyDeleted => if n.Notified() then MustRecord else Done
    case TrustCheck => if !n.Deleted() then TrustRead else if n.auto then Accept else MustRecord
    case TrustRead => if n.Trusted() then Done else if n.auto then Accept else MustRecord
    case Accept => if n.Deleted() then MustRecord else AcceptTrust
    case AcceptTrust => if n.Deleted() then MustRecord else Done
    case MustRecord => MustPend
    case MustPend => Done
    case Done => Done
  }

  /** The transaction before which the handshake stands. */
  function Written(n: Node, h: Handshake): Tables {
    match h.phase
    case Restore => ClearUnfriended(n.t, n.peer)
    case Rejoin => UpsertPeer(n.t, n.peer, h.row.name, None, "", false)
    case Accept => UpsertPeer(n.t, n.peer, h.row.name, None, "", false)
    case MustRecord => UpsertPeer(n.t, n.peer, h.row.name, None, "", false)
    case Retrust => SetTrusted(n.t, n.peer, true)
    case AcceptTrust => SetTrusted(n.t, n.peer, true)
    case MustMark => MarkUnfriendedNotified(n.t, n.peer)
    case MustPend => AddPending(n.t, n.peer, h.row)
    case _ => n.t
  }

  function Advance(n: Node, i: nat): Node
    requires i < |n.handshakes|
  {
    var h := n.handshakes[i];
    n.(t := Written(n, h), handshakes := n.handshakes[i := h.(phase := Next(n, h))],
       notices := n.notices + if h.phase == MustMark then 1 else 0)
  }

  function Apply(n: Node, s: Step): Node
    requires Enabled(n, s)
  {
    match s
    case Remove(now) => n.(t := RemovePeer(n.t, n.peer, now), notifying := n.notifying + 1, notices := 0)
    case PushSent => n.(notifying := n.notifying - 1, toMark := n.toMark + 1)
    case PushFailed => n.(notifying := n.notifying - 1)
    case PushMarked => n.(toMark := n.toMark - 1, t := MarkUnfriendedNotified(n.t, n.peer))
    case Told => n.(callbacks := n.callbacks + 1)
    case Untrusts => n.(callbacks := n.callbacks - 1, deletes := n.deletes + 1, t := SetTrusted(n.t, n.peer, false))
    case Deletes => n.(deletes := n.deletes - 1, t := DeletePeer(n.t, n.peer))
    case HandshakeStarts(connect, row) =>
      n.(handshakes := n.handshakes + [Handshake(connect, row, if connect then Start else Recheck)])
    case HandshakeStep(i) => Advance(n, i)
    case Clears => n.(t := ClearUnfriended(n.t, n.peer))
    case Trusts => n.(t := SetTrusted(n.t, n.peer, true))
    case Asks => n
    case Write(op) => n.(t := PeersDb.Apply(n.t, op))
  }

  ghost predicate Run(n: Node, steps: seq<Step>)
    decreases |steps|
  {
    steps == [] || (Enabled(n, steps[0]) && Run(Apply(n, steps[0]), steps[1..]))
  }

  ghost function After(n: Node, steps: seq<Step>): Node
    requires Run(n, steps)
    decreases |steps|
  {
    if steps == [] then n else After(Apply(n, steps[0]), steps[1..])
  }

  lemma RunCons(n: Node, s: Step, rest: seq<Step>)
    requires Enabled(n, s) && Run(Apply(n, s), rest)
    ensures Run(n, [s] + rest) && After(n, [s] + rest) == After(Apply(n, s), rest)
  {
    assert ([s] + rest)[1..] == rest;
  }

  // ---- the steps as transactions and messages ----

  /** The transaction of the store that a step is; queries and messages are none. */
  function OpOf(n: Node, s: Step): Option<Op> {
    match s
    case Remove(now) => Some(Op.Remove(n.peer, now))
    case PushMarked => Some(Op.Notified(n.peer))
    case Untrusts => Some(Trust(n.peer, false))
    case Deletes => Some(Delete(n.peer))
    case Clears => Some(Clear(n.peer))
    case Trusts => Some(Trust(n.peer, true))
    case Write(op) => Some(op)
    case HandshakeStep(i) => if i < |n.handshakes| then HandshakeOp(n.peer, n.handshakes[i]) else None
    case _ => None
  }

  function HandshakeOp(p: PeerID, h: Handshake): Option<Op> {
    if h.phase == Restore then Some(Clear(p))
    else if h.phase in {Rejoin, Accept, MustRecord} then Some(Upsert(p, h.row.name, None, "", false))
    else if h.phase in {Retrust, AcceptTrust} then Some(Trust(p, true))
    else if h.phase == MustMark then Some(Op.Notified(p))
    else if h.phase == MustPend then Some(Pend(p, h.row))
    else None
  }

  lemma HandshakeIsTransaction(n: Node, h: Handshake)
    ensures Written(n, h) == match HandshakeOp(n.peer, h) case None => n.t case Some(op) => PeersDb.Apply(n.t, op)
  {
  }

  /** Every step is at most one transaction of the store. */
  lemma StepIsTransaction(n: Node, s: Step)
    requires Enabled(n, s)
    ensures Apply(n, s).t == match OpOf(n, s) case None => n.t case Some(op) => PeersDb.Apply(n.t, op)
  {
    if s.HandshakeStep? { HandshakeIsTransaction(n, n.handshakes[s.i]); }
  }

  /** So the tables stay consistent in every run: no tombstoned friend. */
  lemma {:induction false} RunConsistent(n: Node, steps: seq<Step>)
    requires Consistent(n.t) && Run(n, steps)
    ensures Consistent(After(n, steps).t)
    decreases |steps|
  {
    if steps != [] {
      StepIsTransaction(n, steps[0]);
      if OpOf(n, steps[0]).Some? { ApplyConsistent(n.t, OpOf(n, steps[0]).value); }
      RunConsistent(Apply(n, steps[0]), steps[1..]);
    }
  }

  function Count(steps: seq<Step>, p: Step -> bool): nat {
    if steps == [] then 0 else (if p(steps[0]) then 1 else 0) + Count(steps[1..], p)
  }

  /** In every run: each deletion is pushed, failed or still to be pushed, each
      push is marked once, and each notice received untrusts once and deletes once. */
  lemma {:induction false} Ledger(n: Node, steps: seq<Step>)
    requires Run(n, steps)
    ensures var to := After(n, steps);
      && to.notifying + Count(steps, (s: Step) => s.PushSent?) + Count(steps, (s: Step) => s.PushFailed?) ==
           n.notifying + Count(steps, (s: Step) => s.Remove?)
      && to.toMark + Count(steps, (s: Step) => s.PushMarked?) == n.toMark + Count(steps, (s: Step) => s.PushSent?)
      && to.callbacks + Count(steps, (s: Step) => s.Untrusts?) == n.callbacks + Count(steps, (s: Step) => s.Told?)
      && to.deletes + Count(steps, (s: Step) => s.Deletes?) == n.deletes + Count(steps, (s: Step) => s.Untrusts?)
    decreases |steps|
  {
    if steps != [] { Ledger(Apply(n, steps[0]), steps[1..]); }
  }

  // ---- other writes ----

  /** Other writes leave the tombstone of `p` and the trust in it alone and add no
      request of it. */
  ghost predicate Untouched(t: Tables, u: Tables, p: PeerID) {
    && (u.IsUnfriended(p) <==> t.IsUnfriended(p))
    && (u.IsUnfriendedNotified(p) <==> t.IsUnfriendedNotified(p))
    && (u.IsTrusted(p) <==> t.IsTrusted(p))
    && (p in u.pending ==> p in t.pending)
  }

  lemma OtherWrite(t: Tables, op: Op, p: PeerID)
    requires Elsewhere(op, p)
    ensures Untouched(t, PeersDb.Apply(t, op), p)
  {
    PeerRows.TrustExactly(t, op, p);
    PeerRows.TombstoneExactly(t, op, p);
    PeerRows.PendingExactly(t, op, p);
  }

  // ---- pending only after the notice ----

  ghost predicate InPhase(n: Node, i: nat, ph: Phase) {
    i < |n.handshakes| && n.handshakes[i].phase == ph
  }

  /** Past trustPolicy's tombstone query, and the pending write may still come. */
  predicate Asking(ph: Phase) {
    ph in {TrustCheck, TrustRead, Accept, AcceptTrust, MustRecord, MustPend}
  }

  ghost predicate AskingAt(n: Node, i: nat) {
    i < |n.handshakes| && Asking(n.handshakes[i].phase)
  }

  ghost predicate NoneAsking(n: Node) {
    forall i: nat :: !AskingAt(n, i)
  }

  /** No deletion falls between trustPolicy's tombstone query and the pending
      write of a handshake. */
  ghost predicate RemovesApart(n: Node, steps: seq<Step>)
    requires Run(n, steps)
    decreases |steps|
  {
    steps == [] || ((steps[0].Remove? ==> NoneAsking(n)) && RemovesApart(Apply(n, steps[0]), steps[1..]))
  }

  /** The peer is pending only once its deletion counts as notified. */
  ghost predicate PendsNotified(n: Node) {
    n.Deleted() && n.peer in n.t.pending ==> n.Notified()
  }

  ghost predicate NoticeInv(n: Node) {
    && PendsNotified(n)
    && forall i: nat :: AskingAt(n, i) && n.Deleted() ==> n.Notified()
  }

  /** What one step of a handshake does to the tables. */
  lemma HandshakeEffect(n: Node, i: nat)
    requires i < |n.handshakes|
    ensures var to := Advance(n, i);
      && (to.Deleted() ==> n.Deleted())
      && (n.Notified() && to.Deleted() ==> to.Notified())
      && (n.peer in to.t.pending ==> n.peer in n.t.pending || InPhase(n, i, MustPend))
  {
  }

  /** A handshake comes to ask only without a tombstone or after the notice. */
  lemma HandshakeAsks(n: Node, i: nat)
    requires i < |n.handshakes| && AskingAt(Advance(n, i), i)
    ensures AskingAt(n, i) || (n.Deleted() ==> n.Notified())
  {
  }

  lemma HandshakeNotice(n: Node, i: nat)
    requires NoticeInv(n) && i < |n.handshakes|
    ensures NoticeInv(Advance(n, i))
  {
    var to := Advance(n, i);
    HandshakeEffect(n, i);
    assert InPhase(n, i, MustPend) ==> AskingAt(n, i);
    forall j: nat | AskingAt(to, j) && to.Deleted() ensures to.Notified() {
      if j == i { HandshakeAsks(n, i); } else { assert AskingAt(n, j); }
    }
  }

  lemma PlainNotice(n: Node, s: Step)
    requires NoticeInv(n) && Enabled(n, s) && !s.HandshakeStep?
    requires s.Remove? ==> NoneAsking(n)
    ensures NoticeInv(Apply(n, s))
  {
    if s.Write? { OtherWrite(n.t, s.op, n.peer); }
    assert forall i: nat :: AskingAt(Apply(n, s), i) ==> AskingAt(n, i);
  }

  lemma StepNotice(n: Node, s: Step)
    requires NoticeInv(n) && Enabled(n, s) && (s.Remove? ==> NoneAsking(n))
    ensures NoticeInv(Apply(n, s))
  {
    if s.HandshakeStep? { HandshakeNotice(n, s.i); } else { PlainNotice(n, s); }
  }

  /** A deleted peer is pending only once the deletion counts as notified: in
      every run, overlapping handshakes included, in which no deletion falls
      between trustPolicy's tombstone query and the pending write of a handshake. */
  lemma {:induction false} NotifiedBeforePending(n: Node, steps: seq<Step>)
    requires NoticeInv(n) && Run(n, steps) && RemovesApart(n, steps)
    ensures NoticeInv(After(n, steps)) && PendsNotified(After(n, steps))
    decreases |steps|
  {
    if steps != [] {
      StepNotice(n, steps[0]);
      NotifiedBeforePending(Apply(n, steps[0]), steps[1..]);
    }
  }

  /** Nothing goes wrong from here on, as long as no further deletion falls there. */
  ghost predicate StaysNotified(n: Node) {
    forall steps :: Run(n, steps) && RemovesApart(n, steps) ==> PendsNotified(After(n, steps))
  }

  lemma StaysNotifiedNext(n: Node, s: Step)
    requires StaysNotified(n) && Enabled(n, s) && (s.Remove? ==> NoneAsking(n))
    ensures StaysNotified(Apply(n, s))
  {
    forall rest | Run(Apply(n, s), rest) && RemovesApart(Apply(n, s), rest)
      ensures PendsNotified(After(Apply(n, s), rest))
    {
      RunCons(n, s, rest);
      assert ([s] + rest)[1..] == rest;
      assert RemovesApart(n, [s] + rest);
    }
  }

  lemma StaysNotifiedNow(n: Node)
    requires StaysNotified(n)
    ensures PendsNotified(n)
  {
    assert PendsNotified(After(n, []));
  }

  /** How many steps a handshake that asks has to go at most. */
  function ToGo(ph: Phase): nat {
    match ph
    case TrustCheck => 6
    case TrustRead => 5
    case Accept => 4
    case AcceptTrust => 3
    case MustRecord => 2
    case MustPend => 1
    case _ => 0
  }

  /** With a tombstone and no notice every handshake that asks goes on to pend. */
  lemma AskingGoesOn(n: Node, i: nat)
    requires AskingAt(n, i) && n.Deleted() && !n.Notified() && !n.Trusted()
    ensures var to := Advance(n, i);
      && to.Deleted() && !to.Notified() && !to.Trusted()
      && (if InPhase(n, i, MustPend) then !PendsNotified(to)
          else AskingAt(to, i) && ToGo(to.handshakes[i].phase) < ToGo(n.handshakes[i].phase))
  {
  }

  lemma {:induction false} AskingPends(n: Node, i: nat)
    requires AskingAt(n, i) && n.Deleted() && !n.Notified() && !n.Trusted()
    ensures !StaysNotified(n)
    decreases ToGo(n.handshakes[i].phase)
  {
    var to := Apply(n, HandshakeStep(i));
    AskingGoesOn(n, i);
    if StaysNotified(n) {
      StaysNotifiedNext(n, HandshakeStep(i));
      if InPhase(n, i, MustPend) { StaysNotifiedNow(to); } else { AskingPends(to, i); }
    }
  }

  /** A deletion that does fall there leaves the request recorded although the
      peer was not told: the handshake only has to go on. */
  lemma OverlapPendsUnnotified(n: Node, now: Time, i: nat)
    requires AskingAt(n, i)
    ensures !StaysNotified(Apply(n, Step.Remove(now)))
  {
    var to := Apply(n, Step.Remove(now));
    assert AskingAt(to, i);
    AskingPends(to, i);
  }

  /** A deletion keeps the promise for all later runs exactly when, at that
      moment, no handshake stands between that query and its pending write. */
  lemma DeletionSafeExactly(n: Node, now: Time)
    requires NoticeInv(n)
    ensures StaysNotified(Apply(n, Step.Remove(now))) <==> NoneAsking(n)
  {
    var to := Apply(n, Step.Remove(now));
    if NoneAsking(n) {
      StepNotice(n, Step.Remove(now));
      forall steps | Run(to, steps) && RemovesApart(to, steps) ensures PendsNotified(After(to, steps)) {
        NotifiedBeforePending(to, steps);
      }
    } else {
      var i: nat :| AskingAt(n, i);
      OverlapPendsUnnotified(n, now, i);
    }
  }

  /** A node with no handshake under way and no marker out has the invariants
      exactly when its tables keep the promise. */
  lemma FreshNotice(n: Node)
    requires n.handshakes == [] && n.notices == 0
    ensures NoticeInv(n) <==> PendsNotified(n)
    ensures OneMarker(n)
  {
  }

  // ---- one marker per deletion ----

  /** The handshake may still come to send the marker. */
  predicate Undecided(ph: Phase) {
    ph in {Start, Restore, Rejoin, Retrust, Recheck, SawTombstone, MustMark}
  }

  ghost predicate UndecidedAt(n: Node, i: nat) {
    i < |n.handshakes| && Undecided(n.handshakes[i].phase)
  }

  /** No handshake starts while another one may still send the marker, and no
      restoration falls between the two tombstone queries of one after a marker
      went out. Deletions may fall anywhere. */
  ghost predicate Orderly(n: Node, s: Step) {
    && (s.HandshakeStarts? ==> forall i: nat :: !UndecidedAt(n, i))
    && (s.Clears? ==> n.notices == 0 || forall i: nat :: !InPhase(n, i, SawTombstone))
  }

  ghost predicate Serial(n: Node, steps: seq<Step>)
    requires Run(n, steps)
    decreases |steps|
  {
    steps == [] || (Orderly(n, steps[0]) && Serial(Apply(n, steps[0]), steps[1..]))
  }

  /** No marker went out that this handshake would repeat. */
  ghost predicate HandshakeOk(n: Node, h: Handshake) {
    && (h.phase == SawTombstone ==> n.Deleted() || n.notices == 0)
    && (h.phase == MustMark ==> n.notices == 0)
  }

  ghost predicate OneMarker(n: Node) {
    && n.notices <= 1
    && (n.Deleted() && !n.Notified() ==> n.notices == 0)
    && (forall i :: 0 <= i < |n.handshakes| ==> HandshakeOk(n, n.handshakes[i]))
    && (forall i: nat, j: nat :: UndecidedAt(n, i) && UndecidedAt(n, j) ==> i == j)
  }

  lemma PlainMarker(n: Node, s: Step)
    requires OneMarker(n) && Enabled(n, s) && Orderly(n, s) && !s.HandshakeStep?
    ensures OneMarker(Apply(n, s))
  {
    var to := Apply(n, s);
    if s.Write? { OtherWrite(n.t, s.op, n.peer); }
    assert forall i: nat :: UndecidedAt(to, i) ==> UndecidedAt(n, i) || (s.HandshakeStarts? && i == |n.handshakes|);
    forall j | 0 <= j < |to.handshakes| ensures HandshakeOk(to, to.handshakes[j]) {
      if j < |n.handshakes| {
        assert HandshakeOk(n, n.handshakes[j]);
        assert n.handshakes[j].phase == SawTombstone ==> InPhase(n, j, SawTombstone);
      }
    }
  }

  lemma OwnMarker(n: Node, i: nat)
    requires i < |n.handshakes| && HandshakeOk(n, n.handshakes[i]) && n.notices <= 1
    requires n.Deleted() && !n.Notified() ==> n.notices == 0
    ensures var to := Advance(n, i);
      && HandshakeOk(to, to.handshakes[i]) && to.notices <= 1
      && (to.Deleted() && !to.Notified() ==> to.notices == 0)
      && (UndecidedAt(to, i) ==> UndecidedAt(n, i))
      && (!UndecidedAt(n, i) ==> to.notices == n.notices && (to.Deleted() <==> n.Deleted()))
  {
  }

  lemma HandshakeMarker(n: Node, i: nat)
    requires OneMarker(n) && i < |n.handshakes|
    ensures OneMarker(Advance(n, i))
  {
    var to := Advance(n, i);
    OwnMarker(n, i);
    assert forall j: nat :: UndecidedAt(to, j) ==> UndecidedAt(n, j);
    forall j | 0 <= j < |to.handshakes| ensures HandshakeOk(to, to.handshakes[j]) {
      if j != i {
        assert HandshakeOk(n, n.handshakes[j]) && to.handshakes[j] == n.handshakes[j];
        assert UndecidedAt(n, j) ==> !UndecidedAt(n, i);
      }
    }
  }

  lemma StepMarker(n: Node, s: Step)
    requires OneMarker(n) && Enabled(n, s) && Orderly(n, s)
    ensures OneMarker(Apply(n, s))
  {
    if s.HandshakeStep? { HandshakeMarker(n, s.i); } else { PlainMarker(n, s); }
  }

  /** The unfriended marker goes out at most once per deletion in every orderly run. */
  lemma {:induction false} MarkerAtMostOnce(n: Node, steps: seq<Step>)
    requires OneMarker(n) && Run(n, steps) && Serial(n, steps)
    ensures OneMarker(After(n, steps)) && After(n, steps).notices <= 1
    decreases |steps|
  {
    if steps != [] {
      StepMarker(n, steps[0]);
      MarkerAtMostOnce(Apply(n, steps[0]), steps[1..]);
    }
  }

  ghost predicate OnlyOnce(n: Node) {
    forall steps :: Run(n, steps) && Serial(n, steps) ==> After(n, steps).notices <= 1
  }

  lemma OnlyOnceNext(n: Node, s: Step)
    requires OnlyOnce(n) && Enabled(n, s) && Orderly(n, s)
    ensures OnlyOnce(Apply(n, s))
  {
    forall rest | Run(Apply(n, s), rest) && Serial(Apply(n, s), rest) ensures After(Apply(n, s), rest).notices <= 1 {
      RunCons(n, s, rest);
      assert ([s] + rest)[1..] == rest;
      assert Serial(n, [s] + rest);
    }
  }

  lemma OnlyOnceNow(n: Node)
    requires OnlyOnce(n)
    ensures n.notices <= 1
  {
    assert After(n, []).notices <= 1;
  }

  /** Two handshakes that both read the tombstone before either marks it both send the marker. */
  lemma OverlapMarksTwice(n: Node, i: nat, j: nat)
    requires InPhase(n, i, MustMark) && InPhase(n, j, MustMark) && i != j
    ensures !OnlyOnce(n)
  {
    var n1 := Apply(n, HandshakeStep(i));
    if OnlyOnce(n) {
      OnlyOnceNext(n, HandshakeStep(i));
      OnlyOnceNext(n1, HandshakeStep(j));
      OnlyOnceNow(Apply(n1, HandshakeStep(j)));
    }
  }

  /** Past an automatic restoration, before the marker. */
  predicate Ready(ph: Phase) {
    Undecided(ph) && ph != Start && ph != Restore
  }

  ghost predicate ReadyAt(n: Node, i: nat) {
    i < |n.handshakes| && Ready(n.handshakes[i].phase)
  }

  ghost predicate SameBut(n: Node, m: Node, i: nat) {
    && |m.handshakes| == |n.handshakes|
    && forall j :: 0 <= j < |n.handshakes| && j != i ==> m.handshakes[j] == n.handshakes[j]
  }

  lemma GetReady(n: Node, i: nat) returns (m: Node)
    requires UndecidedAt(n, i) && OnlyOnce(n)
    ensures OnlyOnce(m) && ReadyAt(m, i) && SameBut(n, m, i)
  {
    m := n;
    if InPhase(m, i, Start) {
      OnlyOnceNext(m, HandshakeStep(i));
      m := Apply(m, HandshakeStep(i));
    }
    if InPhase(m, i, Restore) {
      OnlyOnceNext(m, HandshakeStep(i));
      m := Apply(m, HandshakeStep(i));
    }
  }

  lemma ReadyStep(n: Node, i: nat)
    requires ReadyAt(n, i) && !InPhase(n, i, MustMark) && n.Deleted() && !n.Notified()
    ensures var m := Advance(n, i);
      && ReadyAt(m, i) && m.t == n.t && SameBut(n, m, i)
      && ToMark(m.handshakes[i].phase) < ToMark(n.handshakes[i].phase)
  {
  }

  function ToMark(ph: Phase): nat {
    if ph == MustMark then 0 else if ph == SawTombstone then 1 else if ph == Recheck then 2 else 3
  }

  /** Under a fresh tombstone a ready handshake comes to mark it. */
  lemma {:induction false} ComesToMark(n: Node, i: nat) returns (m: Node)
    requires ReadyAt(n, i) && OnlyOnce(n) && n.Deleted() && !n.Notified()
    ensures OnlyOnce(m) && InPhase(m, i, MustMark) && m.t == n.t && m.peer == n.peer && SameBut(n, m, i)
    decreases ToMark(n.handshakes[i].phase)
  {
    if InPhase(n, i, MustMark) {
      m := n;
    } else {
      ReadyStep(n, i);
      OnlyOnceNext(n, HandshakeStep(i));
      m := ComesToMark(Apply(n, HandshakeStep(i)), i);
    }
  }

  /** Two handshakes that may both still send the marker can both send it. */
  lemma UndecidedMarkTwice(n: Node, i: nat, j: nat)
    requires UndecidedAt(n, i) && UndecidedAt(n, j) && i != j
    ensures !OnlyOnce(n)
  {
    if OnlyOnce(n) {
      var n1 := GetReady(n, i);
      assert UndecidedAt(n1, j);
      var n2 := GetReady(n1, j);
      OnlyOnceNext(n2, Step.Remove(0));
      var n3 := ComesToMark(Apply(n2, Step.Remove(0)), i);
      assert ReadyAt(n3, j);
      var n4 := ComesToMark(n3, j);
      OverlapMarksTwice(n4, i, j);
    }
  }

  /** After a marker, a restoration between the two tombstone queries of a
      handshake makes it send the marker again. */
  lemma RestorationMarksTwice(n: Node, i: nat)
    requires InPhase(n, i, SawTombstone) && n.notices > 0
    ensures !OnlyOnce(Apply(n, Clears))
  {
    var n1 := Apply(n, Clears);
    var n2 := Apply(n1, HandshakeStep(i));
    if OnlyOnce(n1) {
      OnlyOnceNext(n1, HandshakeStep(i));
      OnlyOnceNext(n2, HandshakeStep(i));
      OnlyOnceNow(Apply(n2, HandshakeStep(i)));
    }
  }

  /** A step keeps "at most one marker per deletion" for all later orderly runs
      exactly when it is orderly itself: a handshake may start exactly while no
      other one may still send the marker, a restoration may come exactly while
      no marker went out or no handshake is between its tombstone queries. */
  lemma MarkerExactly(n: Node, s: Step)
    requires OneMarker(n) && Enabled(n, s)
    ensures OnlyOnce(Apply(n, s)) <==> Orderly(n, s)
  {
    var to := Apply(n, s);
    if Orderly(n, s) {
      StepMarker(n, s);
      forall steps | Run(to, steps) && Serial(to, steps) ensures After(to, steps).notices <= 1 {
        MarkerAtMostOnce(to, steps);
      }
    } else if s.HandshakeStarts? {
      var i: nat :| UndecidedAt(n, i);
      assert UndecidedAt(to, i) && UndecidedAt(to, |n.handshakes|);
      UndecidedMarkTwice(to, i, |n.handshakes|);
    } else {
      var i: nat :| InPhase(n, i, SawTombstone);
      RestorationMarksTwice(n, i);
    }
  }
}
