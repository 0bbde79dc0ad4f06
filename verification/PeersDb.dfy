/** The peer database (pkg/peersdb/store.go, seeds.go): every method is one
    transaction, modelled as a function from the tables to the tables. */
module PeersDb {
  import opened Wrappers

  type PeerID = string
  type Time = nat
  datatype PeerRow = PeerRow(name: string, trusted: bool, approved: bool, manual: bool,
                             lastSeen: Option<Time>, lastIP: string, notes: string)
  datatype Tombstone = Tombstone(name: string, at: Time, notified: bool)
  datatype PendingRow = PendingRow(name: string, addrs: string, at: Time, reason: string)
  datatype Seed = Seed(name: string, addrs: string, publicReachable: bool, okCount: nat, lastOK: Option<Time>,
                       firstSeen: Time, lastSeen: Time, source: string, updatedAt: Time)

  datatype Scope = Group | Global

  datatype Tables = Tables(peers: map<PeerID, PeerRow>, unfriended: map<PeerID, Tombstone>,
                           pending: map<PeerID, PendingRow>,
                           groupSeeds: map<PeerID, Seed>, globalSeeds: map<PeerID, Seed>)
  {
    function Seeds(s: Scope): map<PeerID, Seed> {
      if s.Group? then groupSeeds else globalSeeds
    }

    function WithSeeds(s: Scope, m: map<PeerID, Seed>): Tables {
      if s.Group? then this.(groupSeeds := m) else this.(globalSeeds := m)
    }

    predicate IsTrusted(p: PeerID) {
      p in peers && peers[p].trusted
    }

    predicate IsUnfriended(p: PeerID) {
      p in unfriended
    }

    predicate IsUnfriendedNotified(p: PeerID) {
      p in unfriended && unfriended[p].notified
    }
  }

  const EMPTY := Tables(map[], map[], map[], map[], map[])
  const BLANK := PeerRow("", false, false, false, None, "", "")

  // ---- transactions ----

  function Newer(a: Option<Time>, b: Option<Time>): Option<Time> {
    if b.Some? && (a.None? || b.value > a.value) then b else a
  }

  function Max(a: Time, b: Time): Time { if a < b then b else a }

  /** UpsertPeer: refused for a tombstoned peer; never changes the approval state. */
  function UpsertPeer(t: Tables, p: PeerID, name: string, seen: Option<Time>, ip: string, manual: bool): Tables {
    if p in t.unfriended then t
    else if p !in t.peers then t.(peers := t.peers[p := PeerRow(name, false, false, manual, seen, ip, "")])
    else
      var r := t.peers[p];
      t.(peers := t.peers[p := r.(name := if name != "" then name else r.name, lastSeen := Newer(r.lastSeen, seen),
                                  lastIP := if ip != "" then ip else r.lastIP, manual := r.manual || manual)])
  }

  /** SetTrusted: granting trust is refused for a tombstoned peer and takes the
      peer out of both seed tables. */
  function SetTrusted(t: Tables, p: PeerID, trusted: bool): Tables {
    if trusted && p in t.unfriended then t
    else
      var row := if p in t.peers then t.peers[p].(trusted := trusted, approved := true)
                 else PeerRow("", trusted, true, true, None, "", "");
      var u := t.(peers := t.peers[p := row], pending := t.pending - {p});
      if trusted then u.(groupSeeds := u.groupSeeds - {p}, globalSeeds := u.globalSeeds - {p}) else u
  }

  function RemovePeer(t: Tables, p: PeerID, now: Time): Tables {
    var name := if p in t.unfriended then t.unfriended[p].name else if p in t.peers then t.peers[p].name else "";
    t.(unfriended := t.unfriended[p := Tombstone(name, now, false)],
       pending := t.pending - {p}, peers := t.peers - {p})
  }

  function DeletePeer(t: Tables, p: PeerID): Tables {
    t.(peers := t.peers - {p})
  }

  function SetName(t: Tables, p: PeerID, name: string): Tables {
    if p == "" || name == "" || p in t.unfriended then t
    else if p in t.peers then t.(peers := t.peers[p := t.peers[p].(name := name)])
    else t.(peers := t.peers[p := BLANK.(name := name)])
  }

  /** SetNotes writes even for a tombstoned peer: notes grant nothing. */
  function SetNotes(t: Tables, p: PeerID, notes: string): Tables {
    if p == "" then t
    else if p in t.peers then t.(peers := t.peers[p := t.peers[p].(notes := notes)])
    else t.(peers := t.peers[p := BLANK.(notes := notes)])
  }

  function MarkUnfriendedNotified(t: Tables, p: PeerID): Tables {
    if p in t.unfriended then t.(unfriended := t.unfriended[p := t.unfriended[p].(notified := true)]) else t
  }

  function ClearUnfriended(t: Tables, p: PeerID): Tables {
    t.(unfriended := t.unfriended - {p})
  }

  function AddPending(t: Tables, p: PeerID, row: PendingRow): Tables {
    var name := if row.name == "" && p in t.pending then t.pending[p].name else row.name;
    t.(pending := t.pending[p := row.(name := name)])
  }

  function DeletePending(t: Tables, p: PeerID): Tables {
    t.(pending := t.pending - {p})
  }

  /** upsertSeedAt. `versioned` tells that the caller supplied updated_at. */
  function UpsertSeed(t: Tables, s: Scope, p: PeerID, seed: Seed, connected: bool, versioned: bool, now: Time): Tables {
    if p == "" || t.IsTrusted(p) then t
    else
      var seeds := t.Seeds(s);
      if p !in seeds then
        t.WithSeeds(s, seeds[p := seed.(okCount := if connected then 1 else 0, lastOK := if connected then Some(now) else None)])
      else if SeedChanges(seeds[p], seed, connected, versioned, now) then
        t.WithSeeds(s, seeds[p := MergeSeed(seeds[p], seed, connected, now)])
      else t
  }

  predicate SeedChanges(had: Seed, seed: Seed, connected: bool, versioned: bool, now: Time) {
    && seed.updatedAt >= had.updatedAt
    && (|| (seed.name != "" && seed.name != had.name)
        || (seed.addrs != "" && seed.addrs != had.addrs)
        || (seed.publicReachable && !had.publicReachable)
        || (connected && had.okCount == 0)
        || (versioned && seed.updatedAt > had.updatedAt)
        || had.lastSeen + 120 <= now)
  }

  function MergeSeed(had: Seed, seed: Seed, connected: bool, now: Time): Seed {
    had.(name := if seed.name != "" then seed.name else had.name,
         addrs := if seed.addrs != "" then seed.addrs else had.addrs,
         publicReachable := had.publicReachable || seed.publicReachable,
         lastSeen := Max(seed.lastSeen, had.lastSeen),
         source := if seed.source != "" then seed.source else had.source,
         updatedAt := seed.updatedAt,
         okCount := if connected && had.okCount == 0 then 1 else had.okCount,
         lastOK := if connected then Some(now) else had.lastOK)
  }

  function NoteSeedDialResult(t: Tables, s: Scope, p: PeerID, ok: bool, now: Time): Tables {
    var seeds := t.Seeds(s);
    if p !in seeds then t
    else if ok then
      t.WithSeeds(s, seeds[p := seeds[p].(okCount := seeds[p].okCount + 1, lastOK := Some(now), lastSeen := now)])
    else t.WithSeeds(s, seeds[p := seeds[p].(lastSeen := now)])
  }

  function MarkSeedPublic(t: Tables, s: Scope, p: PeerID, reachable: bool): Tables {
    var seeds := t.Seeds(s);
    if !reachable || p !in seeds then t
    else t.WithSeeds(s, seeds[p := seeds[p].(publicReachable := true)])
  }

  function DeleteSeed(t: Tables, s: Scope, p: PeerID): Tables {
    t.WithSeeds(s, t.Seeds(s) - {p})
  }

  /** The eviction order: never reached seeds first, then those without a date
      of success, then the oldest success, then the longest unseen. */
  predicate WorseOrEqual(a: Seed, b: Seed) {
    if (a.okCount > 0) != (b.okCount > 0) then a.okCount == 0
    else if a.lastOK.None? != b.lastOK.None? then a.lastOK.None?
    else if a.lastOK.Some? && a.lastOK.value != b.lastOK.value then a.lastOK.value < b.lastOK.value
    else a.lastSeen <= b.lastSeen
  }

  /** The rows EvictSeeds may delete: the overflow, none of it better than a row
      that stays. Ties are broken by the database. */
  ghost predicate Evictable(seeds: map<PeerID, Seed>, limit: int, gone: set<PeerID>) {
    && gone <= seeds.Keys
    && |gone| == (if limit <= 0 || |seeds| <= limit then 0 else |seeds| - limit)
    && forall x, y :: x in gone && y in seeds && y !in gone ==> WorseOrEqual(seeds[x], seeds[y])
  }

  function EvictSeeds(t: Tables, s: Scope, gone: set<PeerID>): Tables {
    t.WithSeeds(s, t.Seeds(s) - gone)
  }

  function PruneTrustedSeeds(t: Tables): Tables {
    var friends := set p | p in t.peers && t.peers[p].trusted;
    t.(groupSeeds := t.groupSeeds - friends, globalSeeds := t.globalSeeds - friends)
  }

  // ---- runs ----

  datatype Op =
    | Upsert(p: PeerID, name: string, seen: Option<Time>, ip: string, manual: bool)
    | Trust(p: PeerID, trusted: bool)
    | Remove(p: PeerID, now: Time)
    | Delete(p: PeerID)
    | Name(p: PeerID, name: string)
    | Notes(p: PeerID, notes: string)
    | Notified(p: PeerID)
    | Clear(p: PeerID)
    | Pend(p: PeerID, row: PendingRow)
    | Unpend(p: PeerID)
    | PutSeed(s: Scope, p: PeerID, seed: Seed, connected: bool, versioned: bool, now: Time)
    | DialSeed(s: Scope, p: PeerID, ok: bool, now: Time)
    | PublicSeed(s: Scope, p: PeerID, reachable: bool)
    | DropSeed(s: Scope, p: PeerID)
    | Evict(s: Scope, limit: int, gone: set<PeerID>)
    | Prune

  ghost predicate Enabled(t: Tables, op: Op) {
    op.Evict? ==> Evictable(t.Seeds(op.s), op.limit, op.gone)
  }

  function Apply(t: Tables, op: Op): Tables {
    match op
    case Upsert(p, name, seen, ip, manual) => UpsertPeer(t, p, name, seen, ip, manual)
    case Trust(p, trusted) => SetTrusted(t, p, trusted)
    case Remove(p, now) => RemovePeer(t, p, now)
    case Delete(p) => DeletePeer(t, p)
    case Name(p, name) => SetName(t, p, name)
    case Notes(p, notes) => SetNotes(t, p, notes)
    case Notified(p) => MarkUnfriendedNotified(t, p)
    case Clear(p) => ClearUnfriended(t, p)
    case Pend(p, row) => AddPending(t, p, row)
    case Unpend(p) => DeletePending(t, p)
    case PutSeed(s, p, seed, connected, versioned, now) => UpsertSeed(t, s, p, seed, connected, versioned, now)
    case DialSeed(s, p, ok, now) => NoteSeedDialResult(t, s, p, ok, now)
    case PublicSeed(s, p, reachable) => MarkSeedPublic(t, s, p, reachable)
    case DropSeed(s, p) => DeleteSeed(t, s, p)
    case Evict(s, _, gone) => EvictSeeds(t, s, gone)
    case Prune => PruneTrustedSeeds(t)
  }

  ghost predicate Run(t: Tables, ops: seq<Op>)
    decreases |ops|
  {
    ops == [] || (Enabled(t, ops[0]) && Run(Apply(t, ops[0]), ops[1..]))
  }

  ghost function After(t: Tables, ops: seq<Op>): Tables
    requires Run(t, ops)
    decreases |ops|
  {
    if ops == [] then t else After(Apply(t, ops[0]), ops[1..])
  }

  lemma RunCons(t: Tables, op: Op, rest: seq<Op>)
    requires Enabled(t, op) && Run(Apply(t, op), rest)
    ensures Run(t, [op] + rest) && After(t, [op] + rest) == After(Apply(t, op), rest)
  {
    assert ([op] + rest)[1..] == rest;
  }

  ghost predicate ConsistentAt(t: Tables, p: PeerID) {
    t.IsTrusted(p) ==> !t.IsUnfriended(p) && p !in t.groupSeeds && p !in t.globalSeeds
  }

  /** No peer is both tombstoned and trusted, and no trusted peer is a seed. */
  ghost predicate Consistent(t: Tables) {
    forall p :: ConsistentAt(t, p)
  }

  predicate OnSeeds(op: Op) {
    op.PutSeed? || op.DialSeed? || op.PublicSeed? || op.DropSeed? || op.Evict? || op.Prune?
  }

  lemma UpsertPeerConsistent(t: Tables, q: PeerID, name: string, seen: Option<Time>, ip: string, manual: bool, p: PeerID)
    requires ConsistentAt(t, p)
    ensures ConsistentAt(UpsertPeer(t, q, name, seen, ip, manual), p)
  {
  }

  lemma SetTrustedConsistent(t: Tables, q: PeerID, trusted: bool, p: PeerID)
    requires ConsistentAt(t, p)
    ensures ConsistentAt(SetTrusted(t, q, trusted), p)
  {
  }

  lemma NameConsistent(t: Tables, q: PeerID, name: string, p: PeerID)
    requires ConsistentAt(t, p)
    ensures ConsistentAt(SetName(t, q, name), p) && ConsistentAt(SetNotes(t, q, name), p)
  {
  }

  lemma PeerOpConsistent(t: Tables, op: Op, p: PeerID)
    requires ConsistentAt(t, p) && !OnSeeds(op)
    ensures ConsistentAt(Apply(t, op), p)
  {
    match op
    case Upsert(q, name, seen, ip, manual) => UpsertPeerConsistent(t, q, name, seen, ip, manual, p);
    case Trust(q, trusted) => SetTrustedConsistent(t, q, trusted, p);
    case Name(q, name) => NameConsistent(t, q, name, p);
    case Notes(q, notes) => NameConsistent(t, q, notes, p);
    case _ =>
  }

  lemma UpsertSeedConsistent(t: Tables, s: Scope, q: PeerID, seed: Seed, connected: bool, versioned: bool, now: Time,
                             p: PeerID)
    requires ConsistentAt(t, p)
    ensures ConsistentAt(UpsertSeed(t, s, q, seed, connected, versioned, now), p)
  {
  }

  lemma OtherSeedConsistent(t: Tables, op: Op, p: PeerID)
    requires ConsistentAt(t, p) && OnSeeds(op) && !op.PutSeed?
    ensures ConsistentAt(Apply(t, op), p)
  {
    match op
    case DialSeed(s, q, ok, now) => DialSeedConsistent(t, s, q, ok, now, p);
    case _ =>
  }

  lemma DialSeedConsistent(t: Tables, s: Scope, q: PeerID, ok: bool, now: Time, p: PeerID)
    requires ConsistentAt(t, p)
    ensures ConsistentAt(NoteSeedDialResult(t, s, q, ok, now), p)
  {
  }

  lemma SeedOpConsistent(t: Tables, op: Op, p: PeerID)
    requires ConsistentAt(t, p) && OnSeeds(op)
    ensures ConsistentAt(Apply(t, op), p)
  {
    if op.PutSeed? {
      UpsertSeedConsistent(t, op.s, op.p, op.seed, op.connected, op.versioned, op.now, p);
    } else {
      OtherSeedConsistent(t, op, p);
    }
  }

  lemma ApplyConsistent(t: Tables, op: Op)
    requires Consistent(t)
    ensures Consistent(Apply(t, op))
  {
    forall p ensures ConsistentAt(Apply(t, op), p) {
      assert ConsistentAt(t, p);
      if OnSeeds(op) { SeedOpConsistent(t, op, p); } else { PeerOpConsistent(t, op, p); }
    }
  }

  lemma {:induction false} RunConsistent(t: Tables, ops: seq<Op>)
    requires Consistent(t) && Run(t, ops)
    ensures Consistent(After(t, ops))
    decreases |ops|
  {
    if ops != [] {
      ApplyConsistent(t, ops[0]);
      RunConsistent(Apply(t, ops[0]), ops[1..]);
    }
  }

  /** In every state reachable from the empty database. */
  lemma AlwaysConsistent(ops: seq<Op>)
    requires Run(EMPTY, ops)
    ensures Consistent(After(EMPTY, ops))
  {
    assert Consistent(EMPTY);
    RunConsistent(EMPTY, ops);
  }

  /** Writes about seeds touch no other table. */
  ghost predicate SameBooks(t: Tables, u: Tables) {
    u.peers == t.peers && u.unfriended == t.unfriended && u.pending == t.pending
  }

  lemma SeedWrite(t: Tables, op: Op)
    requires OnSeeds(op)
    ensures SameBooks(t, Apply(t, op))
  {
    match op
    case PutSeed(s, q, seed, connected, versioned, now) => PutSeedWrite(t, s, q, seed, connected, versioned, now);
    case DialSeed(s, q, ok, now) => DialWrite(t, s, q, ok, now);
    case PublicSeed(s, q, reachable) => PublicWrite(t, s, q, reachable);
    case DropSeed(s, q) => LessSeeds(t, s, {q});
    case Evict(s, _, gone) => LessSeeds(t, s, gone);
    case Prune => PruneWrite(t);
  }

  lemma PutSeedWrite(t: Tables, s: Scope, q: PeerID, seed: Seed, connected: bool, versioned: bool, now: Time)
    ensures SameBooks(t, UpsertSeed(t, s, q, seed, connected, versioned, now))
  {
  }

  lemma PublicWrite(t: Tables, s: Scope, q: PeerID, reachable: bool)
    ensures SameBooks(t, MarkSeedPublic(t, s, q, reachable))
  {
  }

  lemma LessSeeds(t: Tables, s: Scope, gone: set<PeerID>)
    ensures SameBooks(t, t.WithSeeds(s, t.Seeds(s) - gone))
  {
  }

  lemma PruneWrite(t: Tables)
    ensures SameBooks(t, PruneTrustedSeeds(t))
  {
  }

  lemma DialWrite(t: Tables, s: Scope, q: PeerID, ok: bool, now: Time)
    ensures SameBooks(t, NoteSeedDialResult(t, s, q, ok, now))
  {
  }

  lemma TombstoneStep(t: Tables, op: Op, p: PeerID)
    requires t.IsUnfriended(p) && op != Clear(p)
    ensures Apply(t, op).IsUnfriended(p)
  {
    if OnSeeds(op) { SeedWrite(t, op); }
  }

  /** A deletion outlasts everything except the explicit clearing of its
      tombstone: no sequence of writes restores trust in the peer. */
  lemma {:induction false} TombstoneHolds(t: Tables, ops: seq<Op>, p: PeerID)
    requires Consistent(t) && Run(t, ops) && t.IsUnfriended(p) && Clear(p) !in ops
    ensures After(t, ops).IsUnfriended(p) && !After(t, ops).IsTrusted(p)
    decreases |ops|
  {
    if ops != [] {
      ApplyConsistent(t, ops[0]);
      assert ops[0] in ops;
      TombstoneStep(t, ops[0], p);
      TombstoneHolds(Apply(t, ops[0]), ops[1..], p);
    } else {
      assert ConsistentAt(t, p);
    }
  }

  /** What only ever grows while a seed stays in its table. */
  ghost predicate SeedGrows(a: Seed, b: Seed) {
    && a.okCount <= b.okCount && a.updatedAt <= b.updatedAt
    && (a.publicReachable ==> b.publicReachable)
  }

  ghost predicate StaysSeed(t: Tables, ops: seq<Op>, s: Scope, p: PeerID)
    decreases |ops|
  {
    p in t.Seeds(s) && (ops == [] || StaysSeed(Apply(t, ops[0]), ops[1..], s, p))
  }

  /** Exchanged records never make a seed less verified, less reachable or older. */
  lemma {:induction false} SeedsNeverRegress(t: Tables, ops: seq<Op>, s: Scope, p: PeerID)
    requires Run(t, ops) && StaysSeed(t, ops, s, p)
    ensures p in After(t, ops).Seeds(s) && SeedGrows(t.Seeds(s)[p], After(t, ops).Seeds(s)[p])
    decreases |ops|
  {
    if ops != [] {
      SeedStep(t, ops[0], s, p);
      SeedsNeverRegress(Apply(t, ops[0]), ops[1..], s, p);
    }
  }

  lemma MergeGrows(had: Seed, seed: Seed, connected: bool, versioned: bool, now: Time)
    requires SeedChanges(had, seed, connected, versioned, now)
    ensures SeedGrows(had, MergeSeed(had, seed, connected, now))
  {
  }

  lemma UpsertSeedRow(t: Tables, s0: Scope, q: PeerID, seed: Seed, connected: bool, versioned: bool, now: Time,
                      s: Scope, p: PeerID)
    requires p in t.Seeds(s)
    ensures var after := UpsertSeed(t, s0, q, seed, connected, versioned, now).Seeds(s);
      && p in after
      && (after[p] == t.Seeds(s)[p] ||
          (SeedChanges(t.Seeds(s)[p], seed, connected, versioned, now) &&
           after[p] == MergeSeed(t.Seeds(s)[p], seed, connected, now)))
  {
  }

  lemma UpsertSeedStep(t: Tables, s0: Scope, q: PeerID, seed: Seed, connected: bool, versioned: bool, now: Time,
                       s: Scope, p: PeerID)
    requires p in t.Seeds(s)
    ensures var after := UpsertSeed(t, s0, q, seed, connected, versioned, now).Seeds(s);
      p in after && SeedGrows(t.Seeds(s)[p], after[p])
  {
    UpsertSeedRow(t, s0, q, seed, connected, versioned, now, s, p);
    if SeedChanges(t.Seeds(s)[p], seed, connected, versioned, now) {
      MergeGrows(t.Seeds(s)[p], seed, connected, versioned, now);
    }
  }

  lemma DialSeedStep(t: Tables, s0: Scope, q: PeerID, ok: bool, now: Time, s: Scope, p: PeerID)
    requires p in t.Seeds(s)
    ensures var after := NoteSeedDialResult(t, s0, q, ok, now).Seeds(s);
      p in after && SeedGrows(t.Seeds(s)[p], after[p])
  {
  }

  lemma PublicSeedStep(t: Tables, s0: Scope, q: PeerID, reachable: bool, s: Scope, p: PeerID)
    requires p in t.Seeds(s)
    ensures var after := MarkSeedPublic(t, s0, q, reachable).Seeds(s);
      p in after && SeedGrows(t.Seeds(s)[p], after[p])
  {
  }

  lemma OtherSeedStep(t: Tables, op: Op, s: Scope, p: PeerID)
    requires p in Apply(t, op).Seeds(s) && !op.PutSeed? && !op.DialSeed? && !op.PublicSeed?
    ensures p in t.Seeds(s) && Apply(t, op).Seeds(s)[p] == t.Seeds(s)[p]
  {
  }

  lemma SeedStep(t: Tables, op: Op, s: Scope, p: PeerID)
    requires p in t.Seeds(s) && p in Apply(t, op).Seeds(s)
    ensures SeedGrows(t.Seeds(s)[p], Apply(t, op).Seeds(s)[p])
  {
    match op
    case PutSeed(s0, q, seed, connected, versioned, now) =>
      UpsertSeedStep(t, s0, q, seed, connected, versioned, now, s, p);
    case DialSeed(s0, q, ok, now) => DialSeedStep(t, s0, q, ok, now, s, p);
    case PublicSeed(s0, q, reachable) => PublicSeedStep(t, s0, q, reachable, s, p);
    case _ => OtherSeedStep(t, op, s, p);
  }

  predicate Reached(seeds: map<PeerID, Seed>, p: PeerID) {
    p in seeds && seeds[p].okCount > 0
  }

  lemma UpsertReaches(t: Tables, s0: Scope, q: PeerID, seed: Seed, connected: bool, versioned: bool, now: Time,
                      s: Scope, p: PeerID)
    requires Reached(UpsertSeed(t, s0, q, seed, connected, versioned, now).Seeds(s), p) && !Reached(t.Seeds(s), p)
    ensures s0 == s && q == p && connected
  {
  }

  lemma DialReaches(t: Tables, s0: Scope, q: PeerID, ok: bool, now: Time, s: Scope, p: PeerID)
    requires Reached(NoteSeedDialResult(t, s0, q, ok, now).Seeds(s), p) && !Reached(t.Seeds(s), p)
    ensures s0 == s && q == p && ok
  {
  }

  lemma PublicReaches(t: Tables, s0: Scope, q: PeerID, reachable: bool, s: Scope, p: PeerID)
    requires Reached(MarkSeedPublic(t, s0, q, reachable).Seeds(s), p)
    ensures Reached(t.Seeds(s), p)
  {
  }

  /** The verification gate: a record from an exchange never verifies a seed;
      only a successful dial or a live connection does. */
  lemma VerifiedOnlyByContact(t: Tables, op: Op, s: Scope, p: PeerID)
    requires Reached(Apply(t, op).Seeds(s), p) && !Reached(t.Seeds(s), p)
    ensures (op.DialSeed? && op.s == s && op.p == p && op.ok) || (op.PutSeed? && op.s == s && op.p == p && op.connected)
  {
    match op
    case PutSeed(s0, q, seed, connected, versioned, now) =>
      UpsertReaches(t, s0, q, seed, connected, versioned, now, s, p);
    case DialSeed(s0, q, ok, now) => DialReaches(t, s0, q, ok, now, s, p);
    case PublicSeed(s0, q, reachable) => PublicReaches(t, s0, q, reachable, s, p);
    case _ => OtherSeedStep(t, op, s, p);
  }

  /** Eviction leaves exactly the limit and sacrifices no seed that was ever
      reached while a never reached one stays. */
  lemma EvictionKeepsBest(t: Tables, s: Scope, limit: int, gone: set<PeerID>)
    requires Enabled(t, Evict(s, limit, gone))
    ensures var after := Apply(t, Evict(s, limit, gone)).Seeds(s);
      && (limit > 0 ==> |after| == if |t.Seeds(s)| <= limit then |t.Seeds(s)| else limit)
      && (forall x, y :: x in t.Seeds(s) && x !in after && y in after && t.Seeds(s)[x].okCount > 0 ==> after[y].okCount > 0)
  {
    var seeds := t.Seeds(s);
    assert (seeds - gone).Keys == seeds.Keys - gone;
    assert |seeds.Keys - gone| == |seeds| - |gone|;
  }

  /** What eviction weighs, in this order: reached at all, a date of success, that
      date, the last sighting. */
  function Worth(s: Seed): (nat, nat, nat, nat) {
    (if s.okCount > 0 then 1 else 0, if s.lastOK.Some? then 1 else 0, if s.lastOK.Some? then s.lastOK.value else 0, s.lastSeen)
  }

  predicate AtMost(a: (nat, nat, nat, nat), b: (nat, nat, nat, nat)) {
    || a.0 < b.0
    || (a.0 == b.0 && a.1 < b.1)
    || (a.0 == b.0 && a.1 == b.1 && a.2 < b.2)
    || (a.0 == b.0 && a.1 == b.1 && a.2 == b.2 && a.3 <= b.3)
  }

  /** Every evicted seed is worth at most as much as every seed that stays. */
  lemma EvictionByWorth(t: Tables, s: Scope, limit: int, gone: set<PeerID>, x: PeerID, y: PeerID)
    requires Enabled(t, Evict(s, limit, gone)) && x in t.Seeds(s)
    requires var after := Apply(t, Evict(s, limit, gone)).Seeds(s); x !in after && y in after
    ensures AtMost(Worth(t.Seeds(s)[x]), Worth(t.Seeds(s)[y]))
  {
    assert x in gone && y !in gone;
  }
}
