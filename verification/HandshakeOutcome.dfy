/** What one handshake of the peer leads to when nothing else happens meanwhile
    (handleInfo, pkg/serverless/serverless.go). */
module HandshakeOutcome {
  import opened PeersDb
  import opened Deletion
  import opened Wrappers

  type Steps = seq<Deletion.Step>

  /** Handshake `i` runs by itself to its end. */
  ghost predicate RunsAlone(n: Node, i: nat, steps: Steps) {
    && i < |n.handshakes| && Deletion.Run(n, steps)
    && (forall k :: 0 <= k < |steps| ==> steps[k] == HandshakeStep(i))
    && InPhase(Deletion.After(n, steps), i, Done)
  }

  lemma Onward(n: Node, i: nat, steps: Steps)
    requires RunsAlone(n, i, steps) && !InPhase(n, i, Done)
    ensures steps != [] && RunsAlone(Advance(n, i), i, steps[1..])
    ensures Deletion.After(n, steps) == Deletion.After(Advance(n, i), steps[1..])
  {
  }

  lemma Ended(n: Node, i: nat, steps: Steps)
    requires RunsAlone(n, i, steps) && InPhase(n, i, Done)
    ensures Deletion.After(n, steps) == n
  {
  }

  /** `to` differs from `n` in tables and notices at most by `t` and `sent`. */
  ghost predicate Leaves(n: Node, i: nat, steps: Steps, t: Tables, sent: nat)
    requires RunsAlone(n, i, steps)
  {
    var to := Deletion.After(n, steps);
    to.peer == n.peer && to.t == t && to.notices == n.notices + sent
  }

  function Row(n: Node, i: nat): PendingRow
    requires i < |n.handshakes|
  {
    n.handshakes[i].row
  }

  function Recorded(n: Node, i: nat): Tables
    requires i < |n.handshakes|
  {
    UpsertPeer(n.t, n.peer, Row(n, i).name, None, "", false)
  }

  function Applied(n: Node, i: nat): Tables
    requires i < |n.handshakes|
  {
    AddPending(Recorded(n, i), n.peer, Row(n, i))
  }

  lemma FromMustRecord(n: Node, i: nat, steps: Steps)
    requires RunsAlone(n, i, steps) && InPhase(n, i, MustRecord)
    ensures Leaves(n, i, steps, Applied(n, i), 0)
  {
    var n1 := Advance(n, i);
    Onward(n, i, steps);
    Onward(n1, i, steps[1..]);
    Ended(Advance(n1, i), i, steps[1..][1..]);
  }

  lemma FromAccept(n: Node, i: nat, steps: Steps)
    requires RunsAlone(n, i, steps) && InPhase(n, i, Accept) && !n.Deleted()
    ensures Leaves(n, i, steps, SetTrusted(Recorded(n, i), n.peer, true), 0)
  {
    var n1 := Advance(n, i);
    Onward(n, i, steps);
    assert !n1.Deleted();
    Onward(n1, i, steps[1..]);
    Ended(Advance(n1, i), i, steps[1..][1..]);
  }

  lemma FromTrustCheck(n: Node, i: nat, steps: Steps)
    requires RunsAlone(n, i, steps) && InPhase(n, i, TrustCheck) && !n.Deleted()
    ensures Leaves(n, i, steps,
      if n.Trusted() then n.t else if n.auto then SetTrusted(Recorded(n, i), n.peer, true) else Applied(n, i), 0)
  {
    var n1 := Advance(n, i);
    var n2 := Advance(n1, i);
    Onward(n, i, steps);
    Onward(n1, i, steps[1..]);
    if n.Trusted() {
      Ended(n2, i, steps[1..][1..]);
    } else if n.auto {
      FromAccept(n2, i, steps[1..][1..]);
    } else {
      FromMustRecord(n2, i, steps[1..][1..]);
    }
  }

  lemma FromPolicy(n: Node, i: nat, steps: Steps)
    requires RunsAlone(n, i, steps) && InPhase(n, i, Policy) && (n.Deleted() ==> n.Notified())
    ensures Leaves(n, i, steps,
      if !n.handshakes[i].connect then n.t
      else if n.Deleted() then Applied(n, i)
      else if n.Trusted() then n.t
      else if n.auto then SetTrusted(Recorded(n, i), n.peer, true) else Applied(n, i), 0)
  {
    var n1 := Advance(n, i);
    Onward(n, i, steps);
    if !n.handshakes[i].connect {
      Ended(n1, i, steps[1..]);
    } else if n.Deleted() {
      Onward(n1, i, steps[1..]);
      FromMustRecord(Advance(n1, i), i, steps[1..][1..]);
    } else {
      FromTrustCheck(n1, i, steps[1..]);
    }
  }

  lemma FromMustMark(n: Node, i: nat, steps: Steps)
    requires RunsAlone(n, i, steps) && InPhase(n, i, MustMark)
    ensures Leaves(n, i, steps, MarkUnfriendedNotified(n.t, n.peer), 1)
  {
    Onward(n, i, steps);
    Ended(Advance(n, i), i, steps[1..]);
  }

  lemma FromRecheck(n: Node, i: nat, steps: Steps)
    requires RunsAlone(n, i, steps) && InPhase(n, i, Recheck)
    ensures
      if n.Deleted() && !n.Notified() then Leaves(n, i, steps, MarkUnfriendedNotified(n.t, n.peer), 1)
      else Leaves(n, i, steps,
        if !n.handshakes[i].connect then n.t
        else if n.Deleted() then Applied(n, i)
        else if n.Trusted() then n.t
        else if n.auto then SetTrusted(Recorded(n, i), n.peer, true) else Applied(n, i), 0)
  {
    var n1 := Advance(n, i);
    Onward(n, i, steps);
    if n.Deleted() {
      Onward(n1, i, steps[1..]);
      if n.Notified() {
        FromPolicy(Advance(n1, i), i, steps[1..][1..]);
      } else {
        FromMustMark(Advance(n1, i), i, steps[1..][1..]);
      }
    } else {
      FromPolicy(n1, i, steps[1..]);
    }
  }

  lemma FromRestore(n: Node, i: nat, steps: Steps)
    requires RunsAlone(n, i, steps) && InPhase(n, i, Restore)
    ensures var clear := ClearUnfriended(n.t, n.peer);
      Leaves(n, i, steps, SetTrusted(UpsertPeer(clear, n.peer, Row(n, i).name, None, "", false), n.peer, true), 0)
  {
    var n1 := Advance(n, i);
    var n2 := Advance(n1, i);
    Onward(n, i, steps);
    assert !n1.Deleted();
    Onward(n1, i, steps[1..]);
    assert !n2.Deleted();
    Onward(n2, i, steps[1..][1..]);
    Ended(Advance(n2, i), i, steps[1..][1..][1..]);
  }

  /** The handshake makes the peer a friend by itself. */
  predicate Befriends(n: Node, connect: bool) {
    connect && n.auto && (n.Deleted() || !n.Trusted())
  }

  /** The handshake ends as a request for the user. */
  predicate Applies(n: Node, connect: bool) {
    connect && !n.auto && (if n.Deleted() then n.Notified() else !n.Trusted())
  }

  /** The handshake tells the peer that it was deleted. */
  predicate Tells(n: Node, connect: bool) {
    n.Deleted() && !n.Notified() && !(connect && n.auto)
  }

  ghost predicate OthersKept(t: Tables, u: Tables, p: PeerID) {
    && u.peers - {p} == t.peers - {p} && u.unfriended - {p} == t.unfriended - {p} && u.pending - {p} == t.pending - {p}
  }

  /** Start, one step on. */
  lemma FromStart(n: Node, i: nat, steps: Steps)
    requires RunsAlone(n, i, steps) && n.handshakes[i].phase == if n.handshakes[i].connect then Start else Recheck
    ensures
      var connect := n.handshakes[i].connect;
      if Tells(n, connect) then Leaves(n, i, steps, MarkUnfriendedNotified(n.t, n.peer), 1)
      else Leaves(n, i, steps,
        if Befriends(n, connect) then
          SetTrusted(UpsertPeer(ClearUnfriended(n.t, n.peer), n.peer, Row(n, i).name, None, "", false), n.peer, true)
        else if Applies(n, connect) then Applied(n, i) else n.t, 0)
  {
    assert !n.Deleted() ==> ClearUnfriended(n.t, n.peer) == n.t;
    if n.handshakes[i].connect {
      Onward(n, i, steps);
      if n.auto && n.Deleted() {
        FromRestore(Advance(n, i), i, steps[1..]);
      } else {
        FromRecheck(Advance(n, i), i, steps[1..]);
      }
    } else {
      FromRecheck(n, i, steps);
    }
  }

  ghost predicate Concludes(n: Node, connect: bool, row: PendingRow, to: Node) {
    && (to.Trusted() <==> n.Trusted() || Befriends(n, connect))
    && (to.Deleted() <==> n.Deleted() && !Befriends(n, connect))
    && (to.Notified() <==> to.Deleted() && (n.Notified() || Tells(n, connect)))
    && (n.peer in to.t.pending <==> Applies(n, connect) || (n.peer in n.t.pending && !Befriends(n, connect)))
    && (Applies(n, connect) ==> to.t.pending[n.peer].(name := row.name) == row)
    && (Applies(n, connect) && row.name != "" ==> to.t.pending[n.peer].name == row.name)
    && to.notices == n.notices + (if Tells(n, connect) then 1 else 0)
    && (n.peer in to.t.peers <==> n.peer in n.t.peers || Befriends(n, connect) || (Applies(n, connect) && !n.Deleted()))
    && OthersKept(n.t, to.t, n.peer)
  }

  lemma FriendConcludes(n: Node, connect: bool, row: PendingRow, to: Node)
    requires Befriends(n, connect) && to.peer == n.peer && to.notices == n.notices
    requires to.t == SetTrusted(UpsertPeer(ClearUnfriended(n.t, n.peer), n.peer, row.name, None, "", false), n.peer, true)
    ensures Concludes(n, connect, row, to)
  {
  }

  lemma ApplicantConcludes(n: Node, connect: bool, row: PendingRow, to: Node)
    requires Applies(n, connect) && to.peer == n.peer && to.notices == n.notices
    requires to.t == AddPending(UpsertPeer(n.t, n.peer, row.name, None, "", false), n.peer, row)
    ensures Concludes(n, connect, row, to)
  {
  }

  /** One handshake by itself, over all starting tables: whether the peer ends as
      a friend, as an applicant, or told that it was deleted, and what else of
      the tables changes. */
  lemma LoneHandshakeExactly(n: Node, connect: bool, row: PendingRow, steps: Steps)
    requires var n0 := Deletion.Apply(n, HandshakeStarts(connect, row)); RunsAlone(n0, |n.handshakes|, steps)
    ensures Concludes(n, connect, row, Deletion.After(Deletion.Apply(n, HandshakeStarts(connect, row)), steps))
  {
    var n0 := Deletion.Apply(n, HandshakeStarts(connect, row));
    var to := Deletion.After(n0, steps);
    FromStart(n0, |n.handshakes|, steps);
    if Befriends(n, connect) {
      FriendConcludes(n, connect, row, to);
    } else if Applies(n, connect) {
      ApplicantConcludes(n, connect, row, to);
    }
  }

  function Left(ph: Phase): nat {
    match ph
    case Start => 15 case Restore => 14 case Rejoin => 13 case Retrust => 12 case Recheck => 11
    case SawTombstone => 10 case MustMark => 9 case Policy => 8 case PolicyDeleted => 7 case TrustCheck => 6
    case TrustRead => 5 case Accept => 4 case AcceptTrust => 3 case MustRecord => 2 case MustPend => 1 case Done => 0
  }

  /** A handshake that nobody disturbs does come to an end. */
  lemma {:induction false} LoneHandshakeEnds(n: Node, i: nat) returns (steps: Steps)
    requires i < |n.handshakes|
    ensures RunsAlone(n, i, steps) && |steps| <= Left(n.handshakes[i].phase)
    decreases Left(n.handshakes[i].phase)
  {
    if InPhase(n, i, Done) {
      steps := [];
    } else {
      var rest := LoneHandshakeEnds(Advance(n, i), i);
      steps := [HandshakeStep(i)] + rest;
      Deletion.RunCons(n, HandshakeStep(i), rest);
    }
  }

  /** A deleted peer that was told may apply again: its explicit request ends in
      the pending list, or makes it a friend where auto_accept is on. */
  lemma ToldPeerAppliesAgain(n: Node, row: PendingRow, steps: Steps)
    requires n.Deleted() && n.Notified()
    requires var n0 := Deletion.Apply(n, HandshakeStarts(true, row)); RunsAlone(n0, |n.handshakes|, steps)
    ensures var to := Deletion.After(Deletion.Apply(n, HandshakeStarts(true, row)), steps);
      if n.auto then to.Trusted() && !to.Deleted() else n.peer in to.t.pending && to.Deleted()
  {
    LoneHandshakeExactly(n, true, row, steps);
  }

  /** A tombstone that is cleared after isTrustedPeer saw it does not stop the
      handshake from asking auto_accept: it ends in trust where that is on, and
      in the pending list otherwise. */
  lemma ClearedAfterCheck(n: Node, i: nat)
    requires InPhase(n, i, TrustCheck) && n.Deleted()
    ensures var n1 := Deletion.Apply(Advance(n, i), Clears);
      var n3 := Advance(Advance(n1, i), i);
      InPhase(n3, i, Done) && (if n.auto then n3.Trusted() else n3.peer in n3.t.pending && (n3.Trusted() <==> n.Trusted()))
  {
  }

  /** One that is cleared after auto_accept was refused leaves the refusal standing. */
  lemma ClearedAfterRefusal(n: Node, i: nat)
    requires InPhase(n, i, Accept) && n.Deleted()
    ensures var n1 := Deletion.Apply(Advance(n, i), Clears);
      var n3 := Advance(Advance(n1, i), i);
      InPhase(n3, i, Done) && n3.peer in n3.t.pending && (n3.Trusted() <==> n.Trusted())
  {
  }
}
