/** Which write changes what of a peer's rows, over all writes and all runs
    (pkg/peersdb/store.go, seeds.go). */
module PeerRows {
  import opened PeersDb
  import opened Wrappers

  /** Granting trust to a tombstoned peer is refused. */
  predicate Refused(t: Tables, op: Op) {
    op.Trust? && op.trusted && t.IsUnfriended(op.p)
  }

  predicate Approved(t: Tables, p: PeerID) { p in t.peers && t.peers[p].approved }

  /** A decision about `p`: approval, rejection, deletion, or leaving the book. */
  predicate Decides(op: Op, p: PeerID) {
    (op.Trust? || op.Remove? || op.Delete?) && op.p == p
  }

  // ---- trust ----

  ghost predicate TrustAfter(t: Tables, op: Op, p: PeerID, u: Tables) {
    && (op == Trust(p, true) && !t.IsUnfriended(p) ==> u.IsTrusted(p) && Approved(u, p))
    && (op == Trust(p, false) ==> !u.IsTrusted(p) && Approved(u, p))
    && (Decides(op, p) && !op.Trust? ==> !u.IsTrusted(p) && !Approved(u, p))
    && (!Decides(op, p) || Refused(t, op) ==>
          (u.IsTrusted(p) <==> t.IsTrusted(p)) && (Approved(u, p) <==> Approved(t, p)))
  }

  lemma PeerWriteTrust(t: Tables, op: Op, p: PeerID)
    requires !OnSeeds(op)
    ensures TrustAfter(t, op, p, Apply(t, op))
  {
    match op
    case Upsert(q, name, seen, ip, manual) => UpsertTrust(t, q, name, seen, ip, manual, p);
    case Name(q, name) => NameTrust(t, q, name, p);
    case Notes(q, notes) => NotesTrust(t, q, notes, p);
    case _ =>
  }

  lemma UpsertTrust(t: Tables, q: PeerID, name: string, seen: Option<Time>, ip: string, manual: bool, p: PeerID)
    ensures var u := UpsertPeer(t, q, name, seen, ip, manual);
      (u.IsTrusted(p) <==> t.IsTrusted(p)) && (Approved(u, p) <==> Approved(t, p))
  {
  }

  lemma NameTrust(t: Tables, q: PeerID, name: string, p: PeerID)
    ensures var u := SetName(t, q, name);
      (u.IsTrusted(p) <==> t.IsTrusted(p)) && (Approved(u, p) <==> Approved(t, p))
  {
  }

  lemma NotesTrust(t: Tables, q: PeerID, notes: string, p: PeerID)
    ensures var u := SetNotes(t, q, notes);
      (u.IsTrusted(p) <==> t.IsTrusted(p)) && (Approved(u, p) <==> Approved(t, p))
  {
  }

  /** Only the user's decisions change trust and approval: no sighting, naming,
      note, request, seed or other peer does. */
  lemma TrustExactly(t: Tables, op: Op, p: PeerID)
    ensures TrustAfter(t, op, p, Apply(t, op))
  {
    if OnSeeds(op) { SeedWrite(t, op); } else { PeerWriteTrust(t, op, p); }
  }

  ghost predicate Undecided(ops: seq<Op>, p: PeerID) {
    forall k :: 0 <= k < |ops| ==> !Decides(ops[k], p)
  }

  /** A friend stays a friend, and a stranger a stranger, until a decision names it. */
  lemma {:induction false} TrustLasts(t: Tables, ops: seq<Op>, p: PeerID)
    requires Run(t, ops) && Undecided(ops, p)
    ensures After(t, ops).IsTrusted(p) <==> t.IsTrusted(p)
    ensures Approved(After(t, ops), p) <==> Approved(t, p)
    decreases |ops|
  {
    if ops != [] {
      TrustExactly(t, ops[0], p);
      assert !Decides(ops[0], p);
      TrustLasts(Apply(t, ops[0]), ops[1..], p);
    }
  }

  /** The last decision counts: after it and any writes that decide nothing about
      `p`, trust is what it said, unless the tombstone refused it. */
  lemma LastDecisionCounts(t: Tables, op: Op, ops: seq<Op>, p: PeerID)
    requires Decides(op, p) && !Refused(t, op) && Run(Apply(t, op), ops) && Undecided(ops, p)
    ensures After(Apply(t, op), ops).IsTrusted(p) <==> op == Trust(p, true)
  {
    TrustExactly(t, op, p);
    TrustLasts(Apply(t, op), ops, p);
  }

  // ---- tombstone and request ----

  ghost predicate TombstoneAfter(t: Tables, op: Op, p: PeerID, u: Tables) {
    if op.Remove? && op.p == p then
      p in u.unfriended && u.unfriended[p].at == op.now && !u.unfriended[p].notified
    else if op == Clear(p) then p !in u.unfriended
    else if op == Notified(p) && p in t.unfriended then
      p in u.unfriended && u.unfriended[p] == t.unfriended[p].(notified := true)
    else (p in u.unfriended <==> p in t.unfriended) && (p in t.unfriended ==> u.unfriended[p] == t.unfriended[p])
  }

  lemma TombstoneExactly(t: Tables, op: Op, p: PeerID)
    ensures TombstoneAfter(t, op, p, Apply(t, op))
  {
    if OnSeeds(op) { SeedWrite(t, op); } else { PeerWriteTombstone(t, op, p); }
  }

  lemma PeerWriteTombstone(t: Tables, op: Op, p: PeerID)
    requires !OnSeeds(op)
    ensures TombstoneAfter(t, op, p, Apply(t, op))
  {
  }

  /** The name kept with a tombstone is the one the peer was last known by. */
  lemma TombstoneName(t: Tables, p: PeerID, now: Time)
    ensures var u := Apply(t, Op.Remove(p, now));
      p in u.unfriended && u.unfriended[p].name ==
        if p in t.unfriended then t.unfriended[p].name else if p in t.peers then t.peers[p].name else ""
  {
  }

  ghost predicate PendingAfter(t: Tables, op: Op, p: PeerID, u: Tables) {
    if op.Pend? && op.p == p then
      && p in u.pending && u.pending[p].(name := op.row.name) == op.row
      && u.pending[p].name == (if op.row.name == "" && p in t.pending then t.pending[p].name else op.row.name)
    else if (op.Trust? || op.Remove? || op.Unpend?) && op.p == p && !Refused(t, op) then p !in u.pending
    else (p in u.pending <==> p in t.pending) && (p in t.pending ==> u.pending[p] == t.pending[p])
  }

  lemma PeerWritePending(t: Tables, op: Op, p: PeerID)
    requires !OnSeeds(op)
    ensures PendingAfter(t, op, p, Apply(t, op))
  {
  }

  /** A request stands until approval, rejection, deletion or its own removal. */
  lemma PendingExactly(t: Tables, op: Op, p: PeerID)
    ensures PendingAfter(t, op, p, Apply(t, op))
  {
    if OnSeeds(op) { SeedWrite(t, op); } else { PeerWritePending(t, op, p); }
  }

  // ---- the address book ----

  /** The write is about `p`, and nothing turns it away. */
  predicate Enters(t: Tables, op: Op, p: PeerID) {
    match op
    case Upsert(q, _, _, _, _) => q == p && p !in t.unfriended
    case Trust(q, _) => q == p && !Refused(t, op)
    case Name(q, name) => q == p && p != "" && name != "" && p !in t.unfriended
    case Notes(q, _) => q == p && p != ""
    case _ => false
  }

  function RowOf(t: Tables, p: PeerID): PeerRow {
    if p in t.peers then t.peers[p] else BLANK
  }

  ghost predicate RowAfter(t: Tables, op: Op, p: PeerID, u: Tables) {
    var had, has := RowOf(t, p), RowOf(u, p);
    && (p in u.peers <==> Enters(t, op, p) || (p in t.peers && !((op.Remove? || op.Delete?) && op.p == p)))
    && (p in u.peers ==>
      && has.name == (if Enters(t, op, p) && (op.Upsert? || op.Name?) && op.name != "" then op.name else had.name)
      && has.notes == (if Enters(t, op, p) && op.Notes? then op.notes else had.notes)
      && has.lastIP == (if Enters(t, op, p) && op.Upsert? && op.ip != "" then op.ip else had.lastIP)
      && has.lastSeen == (if Enters(t, op, p) && op.Upsert? then Newer(had.lastSeen, op.seen) else had.lastSeen)
      && (had.manual ==> has.manual)
      && (has.manual && !had.manual ==> Enters(t, op, p) && (if op.Upsert? then op.manual else op.Trust? && p !in t.peers)))
  }

  lemma RowExactly(t: Tables, op: Op, p: PeerID)
    ensures RowAfter(t, op, p, Apply(t, op))
  {
    if OnSeeds(op) { SeedWrite(t, op); } else { PeerWriteRow(t, op, p); }
  }

  /** The row of `p` after a write that enters it with these fields. */
  ghost predicate RowIs(t: Tables, u: Tables, p: PeerID, name: string, notes: string, ip: string, seen: Option<Time>, manual: bool) {
    var had := RowOf(t, p);
    && p in u.peers
    && u.peers[p].name == (if name != "" then name else had.name) && u.peers[p].notes == notes
    && u.peers[p].lastIP == (if ip != "" then ip else had.lastIP) && u.peers[p].lastSeen == Newer(had.lastSeen, seen)
    && u.peers[p].manual == (had.manual || manual)
  }

  ghost predicate SameRow(t: Tables, u: Tables, p: PeerID) {
    (p in u.peers <==> p in t.peers) && (p in t.peers ==> u.peers[p] == t.peers[p])
  }

  lemma PeerWriteRow(t: Tables, op: Op, p: PeerID)
    requires !OnSeeds(op)
    ensures RowAfter(t, op, p, Apply(t, op))
  {
    match op
    case Upsert(q, name, seen, ip, manual) => UpsertRow(t, q, name, seen, ip, manual, p);
    case Trust(q, trusted) => TrustRow(t, q, trusted, p);
    case Name(q, name) => NameRow(t, q, name, p);
    case Notes(q, notes) => NotesRow(t, q, notes, p);
    case _ => PlainRow(t, op, p);
  }

  lemma PlainRow(t: Tables, op: Op, p: PeerID)
    requires op.Remove? || op.Delete? || op.Notified? || op.Clear? || op.Pend? || op.Unpend?
    ensures Apply(t, op).peers == if op.Remove? || op.Delete? then t.peers - {op.p} else t.peers
  {
  }

  lemma UpsertRow(t: Tables, q: PeerID, name: string, seen: Option<Time>, ip: string, manual: bool, p: PeerID)
    ensures var u := UpsertPeer(t, q, name, seen, ip, manual);
      if q == p && p !in t.unfriended then RowIs(t, u, p, name, RowOf(t, p).notes, ip, seen, manual) else SameRow(t, u, p)
  {
  }

  lemma TrustRow(t: Tables, q: PeerID, trusted: bool, p: PeerID)
    ensures var u := SetTrusted(t, q, trusted);
      if q == p && !(trusted && p in t.unfriended)
      then RowIs(t, u, p, "", RowOf(t, p).notes, "", None, p !in t.peers)
      else SameRow(t, u, p)
  {
  }

  lemma NameRow(t: Tables, q: PeerID, name: string, p: PeerID)
    ensures var u := SetName(t, q, name);
      if q == p && p != "" && name != "" && p !in t.unfriended
      then RowIs(t, u, p, name, RowOf(t, p).notes, "", None, false)
      else SameRow(t, u, p)
  {
  }

  lemma NotesRow(t: Tables, q: PeerID, notes: string, p: PeerID)
    ensures var u := SetNotes(t, q, notes);
      if q == p && p != "" then RowIs(t, u, p, "", notes, "", None, false) else SameRow(t, u, p)
  {
  }

  predicate Leaves(op: Op, p: PeerID) { (op.Remove? || op.Delete?) && op.p == p }

  ghost predicate NotOlder(a: Option<Time>, b: Option<Time>) {
    a.None? || (b.Some? && a.value <= b.value)
  }

  /** While a peer stays in the book its name is never erased and its last sighting
      never goes back. */
  lemma {:induction false} KnowledgeGrows(t: Tables, ops: seq<Op>, p: PeerID)
    requires Run(t, ops) && p in t.peers && forall k :: 0 <= k < |ops| ==> !Leaves(ops[k], p)
    ensures var u := After(t, ops);
      && p in u.peers
      && (t.peers[p].name != "" ==> u.peers[p].name != "")
      && NotOlder(t.peers[p].lastSeen, u.peers[p].lastSeen)
      && (t.peers[p].manual ==> u.peers[p].manual)
    decreases |ops|
  {
    if ops != [] {
      RowExactly(t, ops[0], p);
      assert !Leaves(ops[0], p);
      KnowledgeGrows(Apply(t, ops[0]), ops[1..], p);
    }
  }

  // ---- seeds ----

  ghost predicate SeedStays(t: Tables, op: Op, s: Scope, p: PeerID) {
    match op
    case PutSeed(s0, q, _, _, _, _) => p in t.Seeds(s) || (s0 == s && q == p && p != "" && !t.IsTrusted(p))
    case Trust(q, trusted) => p in t.Seeds(s) && !(q == p && trusted && !Refused(t, op))
    case DropSeed(s0, q) => p in t.Seeds(s) && !(s0 == s && q == p)
    case Evict(s0, _, gone) => p in t.Seeds(s) && !(s0 == s && p in gone)
    case Prune => p in t.Seeds(s) && !t.IsTrusted(p)
    case _ => p in t.Seeds(s)
  }

  /** Which peers are seeds after a write: strangers that were recorded, until they
      become friends or are dropped. */
  lemma SeedsExactly(t: Tables, op: Op, s: Scope, p: PeerID)
    ensures p in Apply(t, op).Seeds(s) <==> SeedStays(t, op, s, p)
  {
    match op
    case PutSeed(s0, q, seed, connected, versioned, now) => PutSeedMembers(t, s0, q, seed, connected, versioned, now, s, p);
    case DialSeed(s0, q, ok, now) => DialSeedMembers(t, s0, q, ok, now, s, p);
    case PublicSeed(s0, q, reachable) => PublicMembers(t, s0, q, reachable, s, p);
    case DropSeed(s0, q) => LessMembers(t, s0, {q}, s, p);
    case Evict(s0, _, gone) => LessMembers(t, s0, gone, s, p);
    case Trust(q, trusted) => TrustMembers(t, q, trusted, s, p);
    case Prune =>
    case _ => PeerWriteSeeds(t, op);
  }

  lemma PublicMembers(t: Tables, s0: Scope, q: PeerID, reachable: bool, s: Scope, p: PeerID)
    ensures p in MarkSeedPublic(t, s0, q, reachable).Seeds(s) <==> p in t.Seeds(s)
  {
  }

  lemma LessMembers(t: Tables, s0: Scope, gone: set<PeerID>, s: Scope, p: PeerID)
    ensures p in t.WithSeeds(s0, t.Seeds(s0) - gone).Seeds(s) <==> p in t.Seeds(s) && !(s0 == s && p in gone)
  {
  }

  lemma TrustMembers(t: Tables, q: PeerID, trusted: bool, s: Scope, p: PeerID)
    ensures p in SetTrusted(t, q, trusted).Seeds(s) <==>
      p in t.Seeds(s) && !(q == p && trusted && !t.IsUnfriended(q))
  {
  }

  lemma PeerWriteSeeds(t: Tables, op: Op)
    requires !OnSeeds(op) && !op.Trust?
    ensures Apply(t, op).groupSeeds == t.groupSeeds && Apply(t, op).globalSeeds == t.globalSeeds
  {
  }

  lemma PutSeedMembers(t: Tables, s0: Scope, q: PeerID, seed: Seed, connected: bool, versioned: bool, now: Time,
                       s: Scope, p: PeerID)
    ensures p in UpsertSeed(t, s0, q, seed, connected, versioned, now).Seeds(s) <==>
      p in t.Seeds(s) || (s0 == s && q == p && p != "" && !t.IsTrusted(p))
  {
  }

  lemma DialSeedMembers(t: Tables, s0: Scope, q: PeerID, ok: bool, now: Time, s: Scope, p: PeerID)
    ensures p in NoteSeedDialResult(t, s0, q, ok, now).Seeds(s) <==> p in t.Seeds(s)
  {
  }

  /** The record of `p` is the one thing the write may change among the seeds. */
  predicate Names(op: Op, s: Scope, p: PeerID) {
    (op.PutSeed? || op.DialSeed? || op.PublicSeed?) && op.s == s && op.p == p
  }

  /** No other write changes the record of a seed that stays. */
  lemma OtherSeedsKept(t: Tables, op: Op, s: Scope, p: PeerID)
    requires !Names(op, s, p) && p in t.Seeds(s) && p in Apply(t, op).Seeds(s)
    ensures Apply(t, op).Seeds(s)[p] == t.Seeds(s)[p]
  {
    match op
    case PutSeed(s0, q, seed, connected, versioned, now) => PutSeedKeeps(t, s0, q, seed, connected, versioned, now, s, p);
    case DialSeed(s0, q, ok, now) => DialSeedKeeps(t, s0, q, ok, now, s, p);
    case PublicSeed(s0, q, reachable) => PublicKeeps(t, s0, q, reachable, s, p);
    case DropSeed(s0, q) => LessKeeps(t, s0, {q}, s, p);
    case Evict(s0, _, gone) => LessKeeps(t, s0, gone, s, p);
    case Trust(q, trusted) =>
    case Prune =>
    case _ => PeerWriteSeeds(t, op);
  }

  lemma PublicKeeps(t: Tables, s0: Scope, q: PeerID, reachable: bool, s: Scope, p: PeerID)
    requires !(s0 == s && q == p) && p in t.Seeds(s)
    ensures var u := MarkSeedPublic(t, s0, q, reachable); p in u.Seeds(s) && u.Seeds(s)[p] == t.Seeds(s)[p]
  {
  }

  lemma LessKeeps(t: Tables, s0: Scope, gone: set<PeerID>, s: Scope, p: PeerID)
    ensures var u := t.WithSeeds(s0, t.Seeds(s0) - gone); p in u.Seeds(s) ==> p in t.Seeds(s) && u.Seeds(s)[p] == t.Seeds(s)[p]
  {
  }

  lemma PutSeedKeeps(t: Tables, s0: Scope, q: PeerID, seed: Seed, connected: bool, versioned: bool, now: Time, s: Scope, p: PeerID)
    requires !(s0 == s && q == p) && p in t.Seeds(s)
    ensures var u := UpsertSeed(t, s0, q, seed, connected, versioned, now); p in u.Seeds(s) && u.Seeds(s)[p] == t.Seeds(s)[p]
  {
  }

  lemma DialSeedKeeps(t: Tables, s0: Scope, q: PeerID, ok: bool, now: Time, s: Scope, p: PeerID)
    requires !(s0 == s && q == p) && p in t.Seeds(s)
    ensures var u := NoteSeedDialResult(t, s0, q, ok, now); p in u.Seeds(s) && u.Seeds(s)[p] == t.Seeds(s)[p]
  {
  }

  /** A peer recorded for the first time counts as reached only by a connection. */
  lemma NewSeedExactly(t: Tables, s: Scope, p: PeerID, seed: Seed, connected: bool, versioned: bool, now: Time)
    requires p != "" && !t.IsTrusted(p) && p !in t.Seeds(s)
    ensures var u := UpsertSeed(t, s, p, seed, connected, versioned, now);
      && p in u.Seeds(s) && u.Seeds(s)[p].okCount == (if connected then 1 else 0)
      && u.Seeds(s)[p].lastOK == (if connected then Some(now) else None)
      && u.Seeds(s)[p].(okCount := seed.okCount, lastOK := seed.lastOK) == seed
  {
  }

  /** What a record that is not out of date teaches: whatever it carries is known
      afterwards, and whatever it leaves out stays known. */
  ghost predicate Learnt(had: Seed, seed: Seed, connected: bool, versioned: bool, now: Time, has: Seed) {
    && has.name == (if seed.name != "" then seed.name else had.name)
    && has.addrs == (if seed.addrs != "" then seed.addrs else had.addrs)
    && (has.publicReachable <==> had.publicReachable || seed.publicReachable)
    && has.okCount == (if connected && had.okCount == 0 then 1 else had.okCount)
    && (versioned ==> has.updatedAt == seed.updatedAt)
    && has.firstSeen == had.firstSeen
  }

  /** The record brings something new, or the seed has not been seen for two minutes. */
  predicate News(had: Seed, seed: Seed, connected: bool, versioned: bool, now: Time) {
    (seed.name != "" && seed.name != had.name) || (seed.addrs != "" && seed.addrs != had.addrs) ||
    (seed.publicReachable && !had.publicReachable) || (connected && had.okCount == 0) ||
    (versioned && seed.updatedAt > had.updatedAt) || now >= had.lastSeen + 120
  }

  /** The record of a known seed after an offered one. */
  ghost predicate Updated(had: Seed, seed: Seed, connected: bool, versioned: bool, now: Time, has: Seed) {
    && (seed.updatedAt < had.updatedAt || !News(had, seed, connected, versioned, now) ==> has == had)
    && (seed.updatedAt >= had.updatedAt ==> Learnt(had, seed, connected, versioned, now, has))
    && (seed.updatedAt >= had.updatedAt && News(had, seed, connected, versioned, now) ==>
      && has.updatedAt == seed.updatedAt && has.lastSeen == Max(had.lastSeen, seed.lastSeen)
      && has.source == (if seed.source != "" then seed.source else had.source)
      && has.lastOK == (if connected then Some(now) else had.lastOK))
  }

  lemma MergeUpdates(had: Seed, seed: Seed, connected: bool, versioned: bool, now: Time)
    ensures Updated(had, seed, connected, versioned, now,
      if SeedChanges(had, seed, connected, versioned, now) then MergeSeed(had, seed, connected, now) else had)
  {
  }

  lemma KnownSeedRow(t: Tables, s: Scope, p: PeerID, seed: Seed, connected: bool, versioned: bool, now: Time)
    requires p != "" && !t.IsTrusted(p) && p in t.Seeds(s)
    ensures var had, u := t.Seeds(s)[p], UpsertSeed(t, s, p, seed, connected, versioned, now);
      p in u.Seeds(s) && u.Seeds(s)[p] ==
        if SeedChanges(had, seed, connected, versioned, now) then MergeSeed(had, seed, connected, now) else had
  {
  }

  /** A known seed learns from every record that is not older than what is known,
      is written only when there is news, and ignores older records. */
  lemma KnownSeedExactly(t: Tables, s: Scope, p: PeerID, seed: Seed, connected: bool, versioned: bool, now: Time)
    requires p != "" && !t.IsTrusted(p) && p in t.Seeds(s)
    ensures var u := UpsertSeed(t, s, p, seed, connected, versioned, now);
      p in u.Seeds(s) && Updated(t.Seeds(s)[p], seed, connected, versioned, now, u.Seeds(s)[p])
  {
    KnownSeedRow(t, s, p, seed, connected, versioned, now);
    MergeUpdates(t.Seeds(s)[p], seed, connected, versioned, now);
  }

  /** A dial counts when it succeeds, and is noted either way. */
  lemma DialExactly(t: Tables, s: Scope, p: PeerID, ok: bool, now: Time)
    requires p in t.Seeds(s)
    ensures var had, u := t.Seeds(s)[p], NoteSeedDialResult(t, s, p, ok, now);
      && p in u.Seeds(s) && u.Seeds(s)[p].lastSeen == now
      && u.Seeds(s)[p].okCount == had.okCount + (if ok then 1 else 0)
      && u.Seeds(s)[p].lastOK == (if ok then Some(now) else had.lastOK)
      && u.Seeds(s)[p].(lastSeen := had.lastSeen, okCount := had.okCount, lastOK := had.lastOK) == had
  {
  }

  /** Being reachable is marked once and changes nothing else. */
  lemma PublicExactly(t: Tables, s: Scope, p: PeerID, reachable: bool)
    requires p in t.Seeds(s)
    ensures var had, u := t.Seeds(s)[p], MarkSeedPublic(t, s, p, reachable);
      && p in u.Seeds(s) && (u.Seeds(s)[p].publicReachable <==> had.publicReachable || reachable)
      && u.Seeds(s)[p].(publicReachable := had.publicReachable) == had
  {
  }
}
