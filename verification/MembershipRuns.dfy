/** Interleavings of trust checks, table writes, deletions and database writes
    on one node: which of them can bring a deleted or expired peer back. */
module MembershipRuns {
  import opened PeersDb
  import opened Membership

  /** The handlers that check trust first and write the member table later. */
  datatype Kind = Discover | Inbound | Warm | Outbound | Explicit

  /** A handler between its trust check and its write. */
  datatype Flight = Flight(kind: Kind, p: PeerID, checkedAt: Time)

  /** `approval`: connection approval is configured (IsTrusted is not nil). */
  datatype Node = Node(approval: bool, db: Tables, core: Core, flights: seq<Flight>, now: Time)

  datatype Action =
    | Check(kind: Kind, p: PeerID)  // trustPolicyPassive, or trustPolicy once trust is committed
    | Land(i: nat)                  // the critical section of flights[i]
    | Abandon(i: nat)               // the handler fails before its write
    | Db(op: Op)                    // one database transaction
    | Forget(p: PeerID)             // Forget or handleUnfriend: leave the table, set the guard
    | Unguard(p: PeerID)            // auto-reaccept of an explicit request: lift the guard
    | Reap(p: PeerID)               // reapExpired, one member
    | Drop(p: PeerID)               // connectAndIdentify: refused, wrong group, no longer trusted
    | Tick(t: Time)

  /** trustPolicyPassive. */
  predicate Passes(n: Node, p: PeerID) {
    !n.db.IsUnfriended(p) && (!n.approval || n.db.IsTrusted(p))
  }

  /** A tombstoned peer never passes; any other passes where approval is off, and
      as a friend where it is on. */
  lemma PassesExactly(n: Node, p: PeerID)
    ensures n.db.IsUnfriended(p) ==> !Passes(n, p)
    ensures !n.approval && !n.db.IsUnfriended(p) ==> Passes(n, p)
    ensures n.approval && Consistent(n.db) ==> (Passes(n, p) <==> n.db.IsTrusted(p))
  {
    if Consistent(n.db) { assert ConsistentAt(n.db, p); }
  }

  ghost predicate Enabled(n: Node, act: Action) {
    match act
    case Check(_, p) => Passes(n, p)
    case Land(i) => i < |n.flights|
    case Abandon(i) => i < |n.flights|
    case Db(op) => PeersDb.Enabled(n.db, op)
    case Tick(t) => n.now <= t
    case _ => true
  }

  function Landed(n: Node, f: Flight): Core {
    match f.kind
    case Discover => LandDiscover(n.core, f.p, n.now)
    case Inbound => LandInbound(n.core, f.p, n.now)
    case Warm => LandReconnect(n.core, f.p, n.now)
    case Outbound => LandVerified(n.core, f.p, n.now, Passes(n, f.p))
    case Explicit => LandExplicit(n.core, f.p)
  }

  function Without(flights: seq<Flight>, i: nat): seq<Flight>
    requires i < |flights|
  {
    flights[..i] + flights[i + 1..]
  }

  ghost function Apply(n: Node, act: Action): Node
    requires Enabled(n, act)
  {
    match act
    case Check(kind, p) => n.(flights := n.flights + [Flight(kind, p, n.now)])
    case Land(i) => n.(core := Landed(n, n.flights[i]), flights := Without(n.flights, i))
    case Abandon(i) => n.(flights := Without(n.flights, i))
    case Db(op) => n.(db := PeersDb.Apply(n.db, op))
    case Forget(p) => n.(core := Forgotten(n.core, p, n.now))
    case Unguard(p) => n.(core := n.core.(unfriendedAt := n.core.unfriendedAt - {p}))
    case Reap(p) =>
      if p in n.core.members then n.(core := Reaped(n.core, p)) else n
    case Drop(p) => n.(core := n.core.(members := n.core.members - {p}))
    case Tick(t) => n.(now := t)
  }

  ghost predicate Run(n: Node, acts: seq<Action>)
    decreases |acts|
  {
    acts == [] || (Enabled(n, acts[0]) && Run(Apply(n, acts[0]), acts[1..]))
  }

  ghost function After(n: Node, acts: seq<Action>): Node
    requires Run(n, acts)
    decreases |acts|
  {
    if acts == [] then n else After(Apply(n, acts[0]), acts[1..])
  }

  /** No action of the run has the property `p`; evaluated state by state. */
  ghost predicate Never(n: Node, acts: seq<Action>, bad: (Node, Action) -> bool)
    requires Run(n, acts)
    decreases |acts|
  {
    acts == [] || (!bad(n, acts[0]) && Never(Apply(n, acts[0]), acts[1..], bad))
  }

  predicate Lands(n: Node, act: Action, p: PeerID, kinds: set<Kind>) {
    act.Land? && act.i < |n.flights| && n.flights[act.i].p == p && n.flights[act.i].kind in kinds
  }

  /** The two ways past the guard: RequestConnect and an automatic re-acceptance. */
  predicate PassesGuard(n: Node, act: Action, p: PeerID) {
    Lands(n, act, p, {Explicit}) || act == Unguard(p)
  }

  /** The user or an automatic re-acceptance takes the deletion back. */
  predicate Restores(n: Node, act: Action, p: PeerID) {
    PassesGuard(n, act, p) || act == Db(Clear(p))
  }

  // ---- one landing ----

  /** When a handler's write brings an absent peer into the table. */
  predicate Admits(n: Node, f: Flight) {
    f.kind == Explicit ||
    (!GuardBlocked(n.core, f.p, n.now) &&
     (f.kind == Discover ==> !Quarantined(n.core, f.p)) &&
     (f.kind == Outbound ==> Passes(n, f.p)))
  }

  /** Only the guard, the quarantine of a discovery and the repeated trust check
      of an outgoing handshake can stop a write. */
  lemma LandingExactly(n: Node, f: Flight)
    requires f.p !in n.core.members
    ensures f.p in Landed(n, f).members <==> Admits(n, f)
    ensures Landed(n, f).members <= n.core.members + {f.p}
  {
  }

  // ---- a removed peer stays out ----

  /** The peer was forgotten at `t0`; the guard still stands while it matters. */
  ghost predicate Guarded(n: Node, p: PeerID, t0: Time) {
    && t0 <= n.now
    && (n.now < t0 + GUARD_TTL ==>
          p !in n.core.members && p in n.core.unfriendedAt && n.core.unfriendedAt[p] >= t0)
  }

  ghost predicate Shut(n: Node, p: PeerID, t0: Time) {
    Guarded(n, p, t0) && p !in n.core.members && n.db.IsUnfriended(p)
  }

  ghost function PassingGuard(p: PeerID): (Node, Action) -> bool {
    (n, act) => PassesGuard(n, act, p)
  }

  ghost function Restoring(p: PeerID): (Node, Action) -> bool {
    (n, act) => Restores(n, act, p)
  }

  /** A write for `p` that does not check trust again, from `bound` on. */
  ghost function LandingFrom(p: PeerID, bound: Time): (Node, Action) -> bool {
    (n, act) => Lands(n, act, p, {Discover, Inbound, Warm}) && n.now >= bound
  }

  /** A write for `p` that comes too long after its trust check. */
  ghost function LandingLate(p: PeerID): (Node, Action) -> bool {
    (n, act) => Lands(n, act, p, {Discover, Inbound, Warm}) && n.now >= n.flights[act.i].checkedAt + GUARD_TTL
  }

  lemma GuardedStep(n: Node, act: Action, p: PeerID, t0: Time)
    requires Guarded(n, p, t0) && Enabled(n, act) && !PassesGuard(n, act, p)
    ensures Guarded(Apply(n, act), p, t0)
  {
  }

  lemma ShutStep(n: Node, act: Action, p: PeerID, t0: Time)
    requires Shut(n, p, t0) && Enabled(n, act) && !Restores(n, act, p)
    requires !LandingFrom(p, t0 + GUARD_TTL)(n, act)
    ensures Shut(Apply(n, act), p, t0)
  {
    GuardedStep(n, act, p, t0);
    match act
    case Db(op) => TombstoneStep(n.db, op, p);
    case Land(i) =>
      if n.flights[i].p == p { LandingExactly(n, n.flights[i]); }
    case _ =>
  }

  lemma {:induction false} GuardedRun(n: Node, acts: seq<Action>, p: PeerID, t0: Time)
    requires Guarded(n, p, t0) && Run(n, acts) && Never(n, acts, PassingGuard(p))
    ensures Guarded(After(n, acts), p, t0)
    decreases |acts|
  {
    if acts != [] {
      GuardedStep(n, acts[0], p, t0);
      GuardedRun(Apply(n, acts[0]), acts[1..], p, t0);
    }
  }

  lemma {:induction false} ShutRun(n: Node, acts: seq<Action>, p: PeerID, t0: Time)
    requires Shut(n, p, t0) && Run(n, acts)
    requires Never(n, acts, Restoring(p)) && Never(n, acts, LandingFrom(p, t0 + GUARD_TTL))
    ensures Shut(After(n, acts), p, t0)
    decreases |acts|
  {
    if acts != [] {
      ShutStep(n, acts[0], p, t0);
      ShutRun(Apply(n, acts[0]), acts[1..], p, t0);
    }
  }

  /** RemovePeer(p) has written its tombstone and forgets the member at `n.now`.
      From then on p is in no later member table and passes no trust check, in
      every interleaving in which no handler that checked trust before writes for
      p after the guard time, until an explicit re-add or auto-reaccept. */
  lemma RemovedStaysOut(n: Node, acts: seq<Action>, p: PeerID)
    requires n.db.IsUnfriended(p) && Run(Apply(n, Forget(p)), acts)
    requires Never(Apply(n, Forget(p)), acts, Restoring(p))
    requires Never(Apply(n, Forget(p)), acts, LandingFrom(p, n.now + GUARD_TTL))
    ensures var end := After(Apply(n, Forget(p)), acts);
      p !in end.core.members && end.db.IsUnfriended(p) && !Passes(end, p)
  {
    ShutRun(Apply(n, Forget(p)), acts, p, n.now);
  }

  /** Even a renewed approval does not put the peer back before the guard time is
      over; only RequestConnect and an automatic re-acceptance lift the guard. */
  lemma GuardOutlastsApproval(n: Node, acts: seq<Action>, p: PeerID)
    requires Run(Apply(n, Forget(p)), acts) && Never(Apply(n, Forget(p)), acts, PassingGuard(p))
    ensures var end := After(Apply(n, Forget(p)), acts);
      n.now <= end.now && (end.now < n.now + GUARD_TTL ==> p !in end.core.members)
  {
    GuardedRun(Apply(n, Forget(p)), acts, p, n.now);
  }

  // ---- the same by the delay between check and write ----

  ghost predicate ChecksBy(n: Node, p: PeerID, t0: Time) {
    forall i :: 0 <= i < |n.flights| && n.flights[i].p == p ==> n.flights[i].checkedAt <= t0
  }

  ghost predicate ChecksPast(n: Node) {
    forall i :: 0 <= i < |n.flights| ==> n.flights[i].checkedAt <= n.now
  }

  lemma WithoutMembers(flights: seq<Flight>, i: nat)
    requires i < |flights|
    ensures forall f :: f in Without(flights, i) ==> f in flights
  {
  }

  lemma {:induction false} ChecksPastRun(n: Node, acts: seq<Action>)
    requires ChecksPast(n) && Run(n, acts)
    ensures ChecksPast(After(n, acts))
    decreases |acts|
  {
    if acts != [] {
      if acts[0].Land? || acts[0].Abandon? { WithoutMembers(n.flights, acts[0].i); }
      ChecksPastRun(Apply(n, acts[0]), acts[1..]);
    }
  }

  /** A tombstoned peer passes no new check, so its writes stem from old ones. */
  lemma ChecksByStep(n: Node, act: Action, p: PeerID, t0: Time)
    requires ChecksBy(n, p, t0) && n.db.IsUnfriended(p) && Enabled(n, act) && !Restores(n, act, p)
    ensures ChecksBy(Apply(n, act), p, t0) && Apply(n, act).db.IsUnfriended(p)
  {
    if act.Land? || act.Abandon? { WithoutMembers(n.flights, act.i); }
    if act.Db? { TombstoneStep(n.db, act.op, p); }
  }

  lemma {:induction false} DelayBoundsLanding(n: Node, acts: seq<Action>, p: PeerID, t0: Time)
    requires ChecksBy(n, p, t0) && n.db.IsUnfriended(p) && Run(n, acts)
    requires Never(n, acts, Restoring(p)) && Never(n, acts, LandingLate(p))
    ensures Never(n, acts, LandingFrom(p, t0 + GUARD_TTL))
    decreases |acts|
  {
    if acts != [] {
      ChecksByStep(n, acts[0], p, t0);
      DelayBoundsLanding(Apply(n, acts[0]), acts[1..], p, t0);
    }
  }

  /** The same for interleavings whose writes for p follow their trust checks by
      less than the guard time, whatever went on before. */
  lemma PromptWritesStayOut(start: Node, before: seq<Action>, acts: seq<Action>, p: PeerID)
    requires start.flights == [] && Run(start, before) && After(start, before).db.IsUnfriended(p)
    requires var m := Apply(After(start, before), Forget(p));
      Run(m, acts) && Never(m, acts, Restoring(p)) && Never(m, acts, LandingLate(p))
    ensures var end := After(Apply(After(start, before), Forget(p)), acts);
      p !in end.core.members && end.db.IsUnfriended(p) && !Passes(end, p)
  {
    ChecksPastRun(start, before);
    var n := After(start, before);
    DelayBoundsLanding(Apply(n, Forget(p)), acts, p, n.now);
    RemovedStaysOut(n, acts, p);
  }

  // ---- without any bound ----

  /** A handler that checked trust for `p` and can still bring it back. */
  ghost predicate Underway(n: Node, p: PeerID, i: nat) {
    && i < |n.flights| && n.flights[i].p == p
    && (n.flights[i].kind == Inbound || n.flights[i].kind == Warm ||
        (n.flights[i].kind == Discover && !Quarantined(n.core, p)))
  }

  ghost predicate NoneUnderway(n: Node, p: PeerID) {
    forall i: nat :: !Underway(n, p, i)
  }

  /** `p` is in no later table, however long the handlers take, until a restoration. */
  ghost predicate StaysOut(n: Node, p: PeerID) {
    forall acts :: Run(n, acts) && Never(n, acts, Restoring(p)) ==> p !in After(n, acts).core.members
  }

  ghost predicate Gone(n: Node, p: PeerID) {
    p !in n.core.members && n.db.IsUnfriended(p) && NoneUnderway(n, p)
  }

  lemma LandKeepsGone(n: Node, i: nat, p: PeerID)
    requires Gone(n, p) && i < |n.flights| && !Lands(n, Land(i), p, {Explicit})
    ensures Gone(Apply(n, Land(i)), p)
  {
    var to := Apply(n, Land(i));
    assert !Underway(n, p, i);
    if n.flights[i].p == p { LandingExactly(n, n.flights[i]); }
    forall j: nat ensures !Underway(to, p, j) {
      assert !Underway(n, p, if j < i then j else j + 1);
    }
  }

  lemma GoneStep(n: Node, act: Action, p: PeerID)
    requires Gone(n, p) && Enabled(n, act) && !Restores(n, act, p)
    ensures Gone(Apply(n, act), p)
  {
    match act
    case Land(i) => LandKeepsGone(n, i, p);
    case Abandon(i) =>
      forall j: nat ensures !Underway(Apply(n, act), p, j) {
        assert !Underway(n, p, if j < i then j else j + 1);
      }
    case Db(op) =>
      TombstoneStep(n.db, op, p);
      SameUnderway(n, act, p);
    case _ => SameUnderway(n, act, p);
  }

  lemma SameUnderway(n: Node, act: Action, p: PeerID)
    requires NoneUnderway(n, p) && n.db.IsUnfriended(p) && Enabled(n, act) && !act.Land? && !act.Abandon?
    ensures NoneUnderway(Apply(n, act), p)
  {
    forall j: nat ensures !Underway(Apply(n, act), p, j) {
      assert !Underway(n, p, j);
    }
  }

  lemma {:induction false} GoneRun(n: Node, acts: seq<Action>, p: PeerID)
    requires Gone(n, p) && Run(n, acts) && Never(n, acts, Restoring(p))
    ensures Gone(After(n, acts), p)
    decreases |acts|
  {
    if acts != [] {
      GoneStep(n, acts[0], p);
      GoneRun(Apply(n, acts[0]), acts[1..], p);
    }
  }

  lemma RunCons(n: Node, act: Action, rest: seq<Action>)
    requires Enabled(n, act) && Run(Apply(n, act), rest)
    ensures Run(n, [act] + rest) && After(n, [act] + rest) == After(Apply(n, act), rest)
    ensures forall bad :: Never(n, [act] + rest, bad) <==> !bad(n, act) && Never(Apply(n, act), rest, bad)
  {
    assert ([act] + rest)[1..] == rest;
  }

  /** A handler that is under way when the peer is forgotten only has to write
      once the guard time is over: the peer is back, tombstone or not. */
  lemma LateWriteResurrects(n: Node, p: PeerID, i: nat)
    requires Underway(n, p, i)
    ensures var m := Apply(n, Forget(p));
      var acts := [Tick(n.now + GUARD_TTL), Land(i)];
      Run(m, acts) && Never(m, acts, Restoring(p)) && p in After(m, acts).core.members &&
      After(m, acts).db == n.db
  {
    var m := Apply(n, Forget(p));
    var m1 := Apply(m, Tick(n.now + GUARD_TTL));
    assert !GuardBlocked(m1.core, p, m1.now);
    LandingExactly(m1, n.flights[i]);
    RunCons(m1, Land(i), []);
    RunCons(m, Tick(n.now + GUARD_TTL), [Land(i)]);
    assert [Land(i)] + [] == [Land(i)];
    assert [Tick(n.now + GUARD_TTL)] + [Land(i)] == [Tick(n.now + GUARD_TTL), Land(i)];
  }

  /** A deleted peer that is forgotten now stays out of every later table,
      however long handlers take, exactly when no handler that could bring it
      back has checked trust and not written yet. */
  lemma StaysOutExactly(n: Node, p: PeerID)
    requires n.db.IsUnfriended(p)
    ensures StaysOut(Apply(n, Forget(p)), p) <==> NoneUnderway(n, p)
  {
    var m := Apply(n, Forget(p));
    if NoneUnderway(n, p) {
      SameUnderway(n, Forget(p), p);
      forall acts | Run(m, acts) && Never(m, acts, Restoring(p)) ensures p !in After(m, acts).core.members {
        GoneRun(m, acts, p);
      }
    } else {
      var i: nat :| Underway(n, p, i);
      LateWriteResurrects(n, p, i);
    }
  }

  // ---- an expired peer and its handshake ----

  /** Reaped and not verified since. */
  ghost predicate OwesHandshake(n: Node, p: PeerID) {
    p !in n.core.members && Quarantined(n.core, p)
  }

  ghost function Handshaking(p: PeerID): (Node, Action) -> bool {
    (n, act) => Lands(n, act, p, {Inbound, Outbound})
  }

  /** A handshake with `p`, or a dial to it that writes a placeholder first. */
  ghost function Contacting(p: PeerID): (Node, Action) -> bool {
    (n, act) => Lands(n, act, p, {Inbound, Outbound, Warm, Explicit})
  }

  lemma ReapOwes(n: Node, p: PeerID)
    requires p in n.core.members
    ensures OwesHandshake(Apply(n, Reap(p)), p)
  {
  }

  ghost function Reaps(order: seq<PeerID>): seq<Action> {
    if order == [] then [] else [Reap(order[0])] + Reaps(order[1..])
  }

  lemma {:induction false} ReapedFirst(c: Core, order: seq<PeerID>)
    requires order != []
    ensures ReapedAll(c, order) == ReapedAll(Reaped(c, order[0]), order[1..])
  {
    if |order| > 1 {
      var init := order[..|order| - 1];
      ReapedFirst(c, init);
      assert init[1..] == order[1..][..|order| - 2];
    }
  }

  /** What reapExpired does to the table in one go is the run of its single reaps:
      `ReapExpired` ends in this state for the order of its loop. */
  lemma {:induction false} ReapExpiredIsRun(n: Node, order: seq<PeerID>)
    requires Listed(order) <= n.core.members && |Listed(order)| == |order|
    ensures Run(n, Reaps(order)) && After(n, Reaps(order)) == n.(core := ReapedAll(n.core, order))
    decreases |order|
  {
    if order != [] {
      var rest := order[1..];
      assert order == [order[0]] + rest;
      assert Listed(order) == Listed(rest) + {order[0]};
      ListedAtMost(rest);
      OneMore(Listed(rest), order[0]);
      ReapedFirst(n.core, order);
      ReapExpiredIsRun(Apply(n, Reap(order[0])), rest);
      RunCons(n, Reap(order[0]), Reaps(rest));
    }
  }

  lemma {:induction false} ListedAtMost(order: seq<PeerID>)
    ensures |Listed(order)| <= |order|
  {
    if order != [] {
      ListedAtMost(order[1..]);
      assert Listed(order) == {order[0]} + Listed(order[1..]);
    }
  }

  lemma DebtStep(n: Node, act: Action, p: PeerID)
    requires Quarantined(n.core, p) && Enabled(n, act) && !Handshaking(p)(n, act)
    ensures Quarantined(Apply(n, act).core, p)
  {
  }

  /** The debt of a reaped peer ends with a handshake and with nothing else,
      however many other peers are reaped and verified meanwhile. */
  lemma {:induction false} DebtUntilHandshake(n: Node, acts: seq<Action>, p: PeerID)
    requires Quarantined(n.core, p) && Run(n, acts) && Never(n, acts, Handshaking(p))
    ensures Quarantined(After(n, acts).core, p)
    decreases |acts|
  {
    if acts != [] {
      DebtStep(n, acts[0], p);
      DebtUntilHandshake(Apply(n, acts[0]), acts[1..], p);
    }
  }

  /** The writes that bring an owing peer back: never a discovery, but besides a
      handshake also the placeholder of a dial. */
  lemma OwingReturnsExactly(n: Node, f: Flight)
    requires OwesHandshake(n, f.p)
    ensures f.p in Landed(n, f).members <==>
      f.kind == Explicit ||
      (!GuardBlocked(n.core, f.p, n.now) && (f.kind == Inbound || f.kind == Warm || (f.kind == Outbound && Passes(n, f.p))))
    ensures f.kind == Warm || f.kind == Explicit ==> Quarantined(Landed(n, f), f.p)
  {
    LandingExactly(n, f);
  }

  /** So "only a successful handshake re-enters it" fails: a warm-up dial puts the
      peer back into the table while it still owes the handshake. */
  lemma DialReturnsUnverified(n: Node, p: PeerID)
    requires OwesHandshake(n, p) && Passes(n, p) && !GuardBlocked(n.core, p, n.now) && n.flights == []
    ensures var acts := [Check(Warm, p), Land(0)];
      Run(n, acts) && p in After(n, acts).core.members && Quarantined(After(n, acts).core, p)
  {
    var n1 := Apply(n, Check(Warm, p));
    assert n1.flights == [Flight(Warm, p, n.now)];
    OwingReturnsExactly(n1, n1.flights[0]);
    RunCons(n1, Land(0), []);
    RunCons(n, Check(Warm, p), [Land(0)]);
    assert [Land(0)] + [] == [Land(0)];
    assert [Check(Warm, p)] + [Land(0)] == [Check(Warm, p), Land(0)];
  }

  lemma OwesStep(n: Node, act: Action, p: PeerID)
    requires OwesHandshake(n, p) && Enabled(n, act) && !Contacting(p)(n, act)
    ensures OwesHandshake(Apply(n, act), p)
  {
  }

  /** Without a handshake or a dial a reaped peer stays out: discovery records
      alone never put it back. */
  lemma {:induction false} DiscoveryNeverReturns(n: Node, acts: seq<Action>, p: PeerID)
    requires OwesHandshake(n, p) && Run(n, acts) && Never(n, acts, Contacting(p))
    ensures OwesHandshake(After(n, acts), p)
    decreases |acts|
  {
    if acts != [] {
      OwesStep(n, acts[0], p);
      DiscoveryNeverReturns(Apply(n, acts[0]), acts[1..], p);
    }
  }

  // ---- what each action changes ----

  /** A landing enters its peer or not, ends its debt when it was a handshake, and
      lifts its guard when it was an explicit request; nothing else changes. */
  lemma LandedExactly(n: Node, f: Flight, q: PeerID)
    ensures var to := Landed(n, f);
      var enters := f.p in n.core.members || Admits(n, f);
      var shakes := f.kind == Inbound || (f.kind == Outbound && Passes(n, f.p));
      && (q in to.members <==> q in n.core.members || (q == f.p && enters))
      && (q in to.ids <==> q in n.core.ids && !(q == f.p && shakes && enters))
      && (q in to.unfriendedAt <==> q in n.core.unfriendedAt && !(q == f.p && f.kind == Explicit))
      && (q in to.unfriendedAt ==> to.unfriendedAt[q] == n.core.unfriendedAt[q])
      && to.full == n.core.full
  {
  }

  /** Which peers are members after an action. */
  lemma MembersExactly(n: Node, act: Action, q: PeerID)
    requires Enabled(n, act)
    ensures q in Apply(n, act).core.members <==>
      if act.Land? then q in n.core.members || (q == n.flights[act.i].p && Admits(n, n.flights[act.i]))
      else q in n.core.members && !((act.Forget? || act.Reap? || act.Drop?) && act.p == q)
  {
    if act.Land? { LandedExactly(n, n.flights[act.i], q); }
  }

  /** The guard of a peer starts with its deletion and ends with its explicit
      re-adding, its re-acceptance, or its time. */
  lemma GuardExactly(n: Node, act: Action, q: PeerID)
    requires Enabled(n, act) && !act.Land?
    ensures var at, to := n.core.unfriendedAt, Apply(n, act).core.unfriendedAt;
      && (act == Forget(q) ==> q in to && to[q] == n.now)
      && (act == Unguard(q) ==> q !in to)
      && (act != Forget(q) && q in to ==> q in at && to[q] == at[q])
      && (q in at && q !in to ==> act == Unguard(q) || (act.Forget? && act.p != q && at[q] + GUARD_TTL < n.now))
  {
  }

  /** Reaping alone adds debts, and only the debt of a member it drops. */
  lemma DebtExactly(n: Node, act: Action, q: PeerID)
    requires Enabled(n, act) && !act.Land?
    ensures var to := Apply(n, act).core;
      && (q in to.ids <==> q in n.core.ids || (act == Reap(q) && q in n.core.members && |n.core.ids| < QUARANTINE_LIMIT))
      && var late := act.Reap? && act.p in n.core.members && act.p !in n.core.ids && |n.core.ids| >= QUARANTINE_LIMIT;
        (to.full <==> n.core.full || late)
  {
  }

  ghost function Ops(acts: seq<Action>): seq<Op> {
    if acts == [] then []
    else if acts[0].Db? then [acts[0].op] + Ops(acts[1..])
    else Ops(acts[1..])
  }

  /** The database of a node goes through its transactions and nothing else. */
  lemma {:induction false} DbFollows(n: Node, acts: seq<Action>)
    requires Run(n, acts)
    ensures PeersDb.Run(n.db, Ops(acts)) && PeersDb.After(n.db, Ops(acts)) == After(n, acts).db
    decreases |acts|
  {
    if acts != [] {
      DbFollows(Apply(n, acts[0]), acts[1..]);
      if acts[0].Db? { PeersDb.RunCons(n.db, acts[0].op, Ops(acts[1..])); }
    }
  }

  function Starts(acts: seq<Action>): nat {
    if acts == [] then 0 else (if acts[0].Check? then 1 else 0) + Starts(acts[1..])
  }

  function Ends(acts: seq<Action>): nat {
    if acts == [] then 0 else (if acts[0].Land? || acts[0].Abandon? then 1 else 0) + Ends(acts[1..])
  }

  /** Every handler that checked trust writes at most once or is given up. */
  lemma {:induction false} OneWritePerCheck(n: Node, acts: seq<Action>)
    requires Run(n, acts)
    ensures |After(n, acts).flights| + Ends(acts) == |n.flights| + Starts(acts)
    decreases |acts|
  {
    if acts != [] { OneWritePerCheck(Apply(n, acts[0]), acts[1..]); }
  }
}
