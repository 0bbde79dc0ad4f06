/** Both nodes of a deletion and the messages between them: who may trust whom
    once the deleted side has learnt of it. */
module DeletionPair {
  import opened Deletion
  import PeersDb

  /** What is under way in one direction. `requests`: explicit requests whose
      trust check at the sender has passed, from then until the receiver's
      handler starts. `notices`: pushes and unfriended markers. */
  datatype Wire = Wire(requests: nat, notices: nat)

  datatype Pair = Pair(a: Node, b: Node, ab: Wire, ba: Wire)

  datatype Act = Left(s: Step) | Right(s: Step) | LostToRight | LostToLeft

  function Flip(p: Pair): Pair { Pair(p.b, p.a, p.ba, p.ab) }

  predicate LeftEnabled(p: Pair, s: Step) {
    && Enabled(p.a, s)
    && (s.Told? ==> p.ba.notices > 0)
    && (s.HandshakeStarts? && s.connect ==> p.ba.requests > 0)
  }

  /** The step puts the unfriended marker on the wire. */
  predicate Marks(n: Node, s: Step) {
    s.HandshakeStep? && s.i < |n.handshakes| && n.handshakes[s.i].phase == MustMark
  }

  function ApplyLeft(p: Pair, s: Step): Pair
    requires LeftEnabled(p, s)
  {
    Pair(Apply(p.a, s), p.b,
         Wire(p.ab.requests + (if s.Asks? then 1 else 0), p.ab.notices + (if s.PushSent? || Marks(p.a, s) then 1 else 0)),
         Wire(p.ba.requests - (if s.HandshakeStarts? && s.connect then 1 else 0), p.ba.notices - (if s.Told? then 1 else 0)))
  }

  predicate PairEnabled(p: Pair, act: Act) {
    match act
    case Left(s) => LeftEnabled(p, s)
    case Right(s) => LeftEnabled(Flip(p), s)
    case LostToRight => p.ab.requests > 0
    case LostToLeft => p.ba.requests > 0
  }

  function PairApply(p: Pair, act: Act): Pair
    requires PairEnabled(p, act)
  {
    match act
    case Left(s) => ApplyLeft(p, s)
    case Right(s) => Flip(ApplyLeft(Flip(p), s))
    case LostToRight => p.(ab := p.ab.(requests := p.ab.requests - 1))
    case LostToLeft => p.(ba := p.ba.(requests := p.ba.requests - 1))
  }

  ghost predicate PairRun(p: Pair, acts: seq<Act>)
    decreases |acts|
  {
    acts == [] || (PairEnabled(p, acts[0]) && PairRun(PairApply(p, acts[0]), acts[1..]))
  }

  ghost function PairAfter(p: Pair, acts: seq<Act>): Pair
    requires PairRun(p, acts)
    decreases |acts|
  {
    if acts == [] then p else PairAfter(PairApply(p, acts[0]), acts[1..])
  }

  // ---- each side by itself ----

  ghost function LeftSteps(acts: seq<Act>): seq<Step> {
    if acts == [] then []
    else if acts[0].Left? then [acts[0].s] + LeftSteps(acts[1..]) else LeftSteps(acts[1..])
  }

  /** What one side does in a run of both is a run of that node, so what holds in
      all runs of a node holds on either side. */
  lemma {:induction false} LeftIsRun(p: Pair, acts: seq<Act>)
    requires PairRun(p, acts)
    ensures Run(p.a, LeftSteps(acts)) && After(p.a, LeftSteps(acts)) == PairAfter(p, acts).a
    decreases |acts|
  {
    if acts != [] {
      var to := PairApply(p, acts[0]);
      LeftIsRun(to, acts[1..]);
      if acts[0].Left? { RunCons(p.a, acts[0].s, LeftSteps(acts[1..])); }
    }
  }

  function FlipAct(act: Act): Act {
    match act
    case Left(s) => Right(s)
    case Right(s) => Left(s)
    case LostToRight => LostToLeft
    case LostToLeft => LostToRight
  }

  ghost function FlipActs(acts: seq<Act>): seq<Act> {
    if acts == [] then [] else [FlipAct(acts[0])] + FlipActs(acts[1..])
  }

  /** The two sides are interchangeable. */
  lemma {:induction false} FlippedRun(p: Pair, acts: seq<Act>)
    requires PairRun(p, acts)
    ensures PairRun(Flip(p), FlipActs(acts)) && PairAfter(Flip(p), FlipActs(acts)) == Flip(PairAfter(p, acts))
    decreases |acts|
  {
    if acts != [] {
      var to := PairApply(p, acts[0]);
      FlippedRun(to, acts[1..]);
      assert PairApply(Flip(p), FlipAct(acts[0])) == Flip(to);
      assert FlipActs(acts)[1..] == FlipActs(acts[1..]);
    }
  }

  // ---- the deletion reaches the other side ----

  lemma PairRunFrom(p: Pair, act: Act, rest: seq<Act>)
    requires PairEnabled(p, act) && PairRun(PairApply(p, act), rest)
    ensures PairRun(p, [act] + rest) && PairAfter(p, [act] + rest) == PairAfter(PairApply(p, act), rest)
  {
    assert ([act] + rest)[1..] == rest;
  }

  /** Both sides have let go: a told tombstone at the left, no row at the right. */
  ghost predicate LetGo(p: Pair) {
    p.a.Deleted() && p.a.Notified() && p.b.peer !in p.b.t.peers
  }

  /** A notice that arrives makes the right node forget the left one. */
  lemma NoticeTakesEffect(p: Pair)
    requires p.ab.notices > 0 && p.a.Deleted() && p.a.Notified()
    ensures var acts := [Right(Told)] + ([Right(Untrusts)] + [Right(Deletes)]);
      PairRun(p, acts) && LetGo(PairAfter(p, acts)) && PairAfter(p, acts).a == p.a
  {
    var p1 := PairApply(p, Right(Told));
    var p2 := PairApply(p1, Right(Untrusts));
    PairRunFrom(p2, Right(Deletes), []);
    assert [Right(Deletes)] + [] == [Right(Deletes)];
    PairRunFrom(p1, Right(Untrusts), [Right(Deletes)]);
    PairRunFrom(p, Right(Told), [Right(Untrusts)] + [Right(Deletes)]);
  }

  /** A deletion while both are online: the push tells the right node, which lets go too. */
  lemma PushReaches(p: Pair, now: PeersDb.Time)
    ensures var notice := [Right(Told)] + ([Right(Untrusts)] + [Right(Deletes)]);
      var acts := [Left(Step.Remove(now))] + ([Left(PushSent)] + ([Left(PushMarked)] + notice));
      PairRun(p, acts) && LetGo(PairAfter(p, acts)) && !PairAfter(p, acts).a.Trusted()
  {
    var notice := [Right(Told)] + ([Right(Untrusts)] + [Right(Deletes)]);
    var p1 := PairApply(p, Left(Step.Remove(now)));
    var p2 := PairApply(p1, Left(PushSent));
    var p3 := PairApply(p2, Left(PushMarked));
    NoticeTakesEffect(p3);
    PairRunFrom(p2, Left(PushMarked), notice);
    PairRunFrom(p1, Left(PushSent), [Left(PushMarked)] + notice);
    PairRunFrom(p, Left(Step.Remove(now)), [Left(PushSent)] + ([Left(PushMarked)] + notice));
  }

  /** A handshake that meets an untold tombstone marks it in three steps. */
  lemma MarkerAdvances(n: Node, i: nat)
    requires InPhase(n, i, Recheck) && n.Deleted() && !n.Notified()
    ensures var n1 := Advance(n, i);
      var n2 := Advance(n1, i);
      var n3 := Advance(n2, i);
      && InPhase(n1, i, SawTombstone) && InPhase(n2, i, MustMark)
      && n3.Deleted() && n3.Notified() && n3.notices == n.notices + 1
  {
  }

  lemma LeftHandshakeStep(p: Pair, i: nat)
    requires i < |p.a.handshakes| && p.a.handshakes[i].phase != Done
    ensures var act := Left(HandshakeStep(i));
      && PairEnabled(p, act)
      && PairApply(p, act) == p.(a := Advance(p.a, i), ab := p.ab.(notices := p.ab.notices + (if InPhase(p.a, i, MustMark) then 1 else 0)))
  {
  }

  /** A deletion the right node missed: its next ordinary handshake is answered
      with the marker, and it lets go then. */
  lemma MarkerReaches(p: Pair, row: PeersDb.PendingRow)
    requires p.a.Deleted() && !p.a.Notified()
    ensures var act := Left(HandshakeStep(|p.a.handshakes|));
      var notice := [Right(Told)] + ([Right(Untrusts)] + [Right(Deletes)]);
      var acts := [Left(HandshakeStarts(false, row))] + ([act] + ([act] + ([act] + notice)));
      PairRun(p, acts) && LetGo(PairAfter(p, acts)) && PairAfter(p, acts).a.notices == p.a.notices + 1
  {
    var i := |p.a.handshakes|;
    var act := Left(HandshakeStep(i));
    var notice := [Right(Told)] + ([Right(Untrusts)] + [Right(Deletes)]);
    var p1 := PairApply(p, Left(HandshakeStarts(false, row)));
    MarkerAdvances(p1.a, i);
    LeftHandshakeStep(p1, i);
    var p2 := PairApply(p1, act);
    LeftHandshakeStep(p2, i);
    var p3 := PairApply(p2, act);
    LeftHandshakeStep(p3, i);
    var p4 := PairApply(p3, act);
    NoticeTakesEffect(p4);
    PairRunFrom(p3, act, notice);
    PairRunFrom(p2, act, [act] + notice);
    PairRunFrom(p1, act, [act] + ([act] + notice));
    PairRunFrom(p, Left(HandshakeStarts(false, row)), [act] + ([act] + ([act] + notice)));
  }

  // ---- neither side trusts ----

  ghost predicate NeitherTrusts(p: Pair) {
    p.a.Deleted() && !p.a.Trusted() && !p.b.Trusted()
  }

  /** The ways back: a user re-adds or approves the peer, or auto_accept at the
      deleting side meets an explicit request of the deleted one. */
  predicate Restores(p: Pair, act: Act) {
    match act
    case Left(s) => s.Clears? || Reaccepts(p.a, s)
    case Right(s) => s.Clears? || s.Trusts?
    case _ => false
  }

  predicate Reaccepts(n: Node, s: Step) {
    s.HandshakeStep? && s.i < |n.handshakes| && n.handshakes[s.i].phase == Restore
  }

  ghost predicate NoRestore(p: Pair, acts: seq<Act>)
    requires PairRun(p, acts)
    decreases |acts|
  {
    acts == [] || (!Restores(p, acts[0]) && NoRestore(PairApply(p, acts[0]), acts[1..]))
  }

  /** Left to itself this handshake ends with trust in the peer. */
  predicate WillAccept(n: Node, h: Handshake) {
    match h.phase
    case Start => h.connect && n.auto
    case Restore => true
    case Recheck => h.connect && n.auto && !n.Deleted()
    case Policy => h.connect && n.auto && !n.Deleted()
    case TrustCheck => n.auto && !n.Deleted()
    case TrustRead => n.auto && !n.Deleted()
    case Rejoin => !n.Deleted()
    case Retrust => !n.Deleted()
    case Accept => !n.Deleted()
    case AcceptTrust => !n.Deleted()
    case _ => false
  }

  ghost predicate WillAcceptAt(n: Node, j: nat) {
    j < |n.handshakes| && WillAccept(n, n.handshakes[j])
  }

  /** An explicit request of the left node is on its way to an accepting right
      one, or is about to be accepted there. */
  ghost predicate MayAccept(p: Pair) {
    (p.b.auto && p.ab.requests > 0) || exists j: nat :: WillAcceptAt(p.b, j)
  }

  /** The deleting node trusts nobody back without a restoration. */
  lemma DeletedStays(n: Node, s: Step)
    requires n.Deleted() && !n.Trusted() && Enabled(n, s) && !s.Clears? && !Reaccepts(n, s)
    ensures Apply(n, s).Deleted() && !Apply(n, s).Trusted()
  {
    if s.Write? { OtherWrite(n.t, s.op, n.peer); }
  }

  lemma OwnRefusal(n: Node, i: nat)
    requires i < |n.handshakes| && !n.Trusted() && !WillAcceptAt(n, i)
    ensures var to := Advance(n, i);
      !to.Trusted() && !WillAcceptAt(to, i) && (to.Deleted() <==> n.Deleted())
  {
  }

  ghost predicate NoneAccepting(n: Node) {
    !n.Trusted() && forall j: nat :: !WillAcceptAt(n, j)
  }

  lemma HandshakeRefuses(n: Node, i: nat)
    requires NoneAccepting(n) && i < |n.handshakes|
    ensures NoneAccepting(Advance(n, i)) && Advance(n, i).auto == n.auto
  {
    var to := Advance(n, i);
    OwnRefusal(n, i);
    forall j: nat ensures !WillAcceptAt(to, j) {
      assert j != i && j < |n.handshakes| ==> !WillAcceptAt(n, j) && to.handshakes[j] == n.handshakes[j];
    }
  }

  lemma PlainRefuses(n: Node, s: Step)
    requires NoneAccepting(n) && Enabled(n, s) && !s.HandshakeStep? && !s.Clears? && !s.Trusts?
    requires s.HandshakeStarts? && s.connect ==> !n.auto
    ensures NoneAccepting(Apply(n, s)) && Apply(n, s).auto == n.auto
  {
    var to := Apply(n, s);
    if s.Write? { OtherWrite(n.t, s.op, n.peer); }
    assert n.Deleted() ==> to.Deleted();
    forall j: nat ensures !WillAcceptAt(to, j) {
      assert j < |n.handshakes| ==> !WillAcceptAt(n, j) && to.handshakes[j] == n.handshakes[j];
    }
  }

  lemma NeitherStep(p: Pair, act: Act)
    requires NeitherTrusts(p) && !MayAccept(p) && PairEnabled(p, act) && !Restores(p, act)
    ensures NeitherTrusts(PairApply(p, act)) && !MayAccept(PairApply(p, act))
  {
    match act
    case Left(s) => DeletedStays(p.a, s);
    case Right(s) => if s.HandshakeStep? { HandshakeRefuses(p.b, s.i); } else { PlainRefuses(p.b, s); }
    case _ =>
  }

  lemma {:induction false} NeitherRun(p: Pair, acts: seq<Act>)
    requires NeitherTrusts(p) && !MayAccept(p) && PairRun(p, acts) && NoRestore(p, acts)
    ensures NeitherTrusts(PairAfter(p, acts))
    decreases |acts|
  {
    if acts != [] {
      NeitherStep(p, acts[0]);
      NeitherRun(PairApply(p, acts[0]), acts[1..]);
    }
  }

  /** Neither side trusts the other in any later state before a restoration. */
  ghost predicate StayApart(p: Pair) {
    forall acts :: PairRun(p, acts) && NoRestore(p, acts) ==> NeitherTrusts(PairAfter(p, acts))
  }

  lemma StayApartNext(p: Pair, act: Act)
    requires StayApart(p) && PairEnabled(p, act) && !Restores(p, act)
    ensures StayApart(PairApply(p, act))
  {
    var to := PairApply(p, act);
    forall rest | PairRun(to, rest) && NoRestore(to, rest) ensures NeitherTrusts(PairAfter(to, rest)) {
      assert ([act] + rest)[1..] == rest;
      assert PairRun(p, [act] + rest) && NoRestore(p, [act] + rest);
    }
  }

  lemma StayApartNow(p: Pair)
    requires StayApart(p)
    ensures NeitherTrusts(p)
  {
    assert NeitherTrusts(PairAfter(p, []));
  }

  function Remaining(ph: Phase): nat {
    match ph
    case Start => 7
    case Recheck => 6
    case Policy => 5
    case TrustCheck => 4
    case TrustRead => 3
    case Restore => 3
    case Rejoin => 2
    case Accept => 2
    case _ => 1
  }

  lemma AcceptingGoesOn(n: Node, j: nat)
    requires WillAcceptAt(n, j) && !n.Trusted()
    ensures var to := Advance(n, j);
      to.Trusted() || (WillAcceptAt(to, j) && Remaining(to.handshakes[j].phase) < Remaining(n.handshakes[j].phase))
  {
  }

  /** A handshake that will accept needs only to go on. */
  lemma {:induction false} AcceptingTrusts(p: Pair, j: nat)
    requires WillAcceptAt(p.b, j)
    ensures !StayApart(p)
    decreases Remaining(p.b.handshakes[j].phase)
  {
    if StayApart(p) {
      var act := Right(HandshakeStep(j));
      var to := PairApply(p, act);
      StayApartNow(p);
      AcceptingGoesOn(p.b, j);
      StayApartNext(p, act);
      StayApartNow(to);
      AcceptingTrusts(to, j);
    }
  }

  /** An explicit request that passed its trust check before the deletion makes
      the other side trust again as soon as that side, with auto_accept on,
      handles it. */
  lemma EarlyRequestRestores(p: Pair)
    requires MayAccept(p)
    ensures !StayApart(p)
  {
    if StayApart(p) {
      if j: nat :| WillAcceptAt(p.b, j) {
        AcceptingTrusts(p, j);
      } else {
        var act := Right(HandshakeStarts(true, PeersDb.PendingRow("", "", 0, "")));
        StayApartNext(p, act);
        AcceptingTrusts(PairApply(p, act), |p.b.handshakes|);
      }
    }
  }

  /** The right node acts on the marker or the push while the left one's
      tombstone stands. Then neither trusts the other in any later state, until
      a user re-adds the peer or auto_accept at the left meets an explicit
      request of the deleted peer, exactly when no earlier request of the left
      node can still be accepted; overlapping handshakes and further deletions at
      either side included. */
  lemma NeitherTrustsAfterNotice(p: Pair)
    requires p.a.Deleted() && !p.a.Trusted() && PairEnabled(p, Right(Untrusts))
    ensures StayApart(PairApply(p, Right(Untrusts))) <==> !MayAccept(p)
  {
    var to := PairApply(p, Right(Untrusts));
    assert forall j: nat :: WillAcceptAt(to.b, j) <==> WillAcceptAt(p.b, j);
    if MayAccept(p) {
      EarlyRequestRestores(to);
    } else {
      forall acts | PairRun(to, acts) && NoRestore(to, acts) ensures NeitherTrusts(PairAfter(to, acts)) {
        NeitherRun(to, acts);
      }
    }
  }
}
