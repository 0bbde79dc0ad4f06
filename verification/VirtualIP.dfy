/** The address decision of pkg/serverless/vaddr_conflict.go for one group key.
    The SHA-256 derivation is a function parameter: `h(id, 0)` is the base
    address of a member, `h(id, salt)` its salted re-derivation. */
module VirtualIP {
  import opened Order

  type PeerID = string
  type IP = string
  type Derivation = (PeerID, nat) -> IP

  const SALT_MAX: nat := 64

  datatype Lease = Lease(baseIP: IP, ip: IP, salt: nat, losers: seq<PeerID>, unresolved: bool)

  /** Members of `s` whose base address is `base`. */
  ghost function Sharers(h: Derivation, s: set<PeerID>, base: IP): set<PeerID> {
    set id | id in s && h(id, 0) == base
  }

  /** `id` lost its base address to a member with a smaller ID. */
  ghost predicate Displaced(h: Derivation, s: set<PeerID>, id: PeerID) {
    id in s && exists j :: j in s && h(j, 0) == h(id, 0) && Less(j, id)
  }

  ghost function DisplacedSet(h: Derivation, s: set<PeerID>): set<PeerID> {
    set id | id in s && Displaced(h, s, id)
  }

  /** Base addresses derived by at least two members. */
  ghost function Contested(h: Derivation, s: set<PeerID>): set<IP> {
    set id | id in DisplacedSet(h, s) :: h(id, 0)
  }

  /** The first salt from `salt` on whose address is free; 0 when all are taken. */
  ghost function FirstFree(h: Derivation, id: PeerID, taken: set<IP>, salt: nat): nat
    requires 1 <= salt <= SALT_MAX + 1
    decreases SALT_MAX + 1 - salt
  {
    if salt > SALT_MAX then 0
    else if h(id, salt) !in taken then salt
    else FirstFree(h, id, taken, salt + 1)
  }

  datatype Assignment = Assignment(salts: map<PeerID, nat>, taken: set<IP>)

  /** Salts handed out in list order, each choice closing its address to the rest. */
  ghost function Assign(h: Derivation, todo: seq<PeerID>, taken: set<IP>): Assignment {
    if todo == [] then Assignment(map[], taken)
    else
      var prev := Assign(h, todo[..|todo| - 1], taken);
      AssignOne(h, prev, todo[|todo| - 1])
  }

  ghost function AssignOne(h: Derivation, prev: Assignment, id: PeerID): Assignment {
    var salt := FirstFree(h, id, prev.taken, 1);
    Assignment(prev.salts[id := salt], if salt == 0 then prev.taken else prev.taken + {h(id, salt)})
  }

  /** The decision as a function of the SET of members and blocked addresses. */
  ghost function Decide(h: Derivation, s: set<PeerID>, blocked: set<IP>): map<PeerID, Lease> {
    var salts := Assign(h, SortSet(DisplacedSet(h, s)), blocked + Contested(h, s)).salts;
    map id | id in s :: LeaseOf(h, s, salts, id)
  }

  ghost function LeaseOf(h: Derivation, s: set<PeerID>, salts: map<PeerID, nat>, id: PeerID): Lease {
    var base := h(id, 0);
    if id in salts then SaltedLease(h, id, salts[id])
    else Lease(base, base, 0, SortSet(Sharers(h, s, base) - {id}), false)
  }

  ghost function SaltedLease(h: Derivation, id: PeerID, salt: nat): Lease {
    Lease(h(id, 0), h(id, salt), salt, [], salt == 0)
  }

  /** The members a list names: duplicates and empty IDs do not count. */
  ghost function Present(peerIDs: seq<PeerID>): set<PeerID> {
    set id | id in peerIDs && id != ""
  }

  // ---- the imperative decision ----

  /** decideVirtualIPsWithBlocked: the result depends only on which members are present. */
  method DecideVirtualIPsWithBlocked(h: Derivation, peerIDs: seq<PeerID>, blocked: set<IP>)
    returns (out: map<PeerID, Lease>)
    ensures out == Decide(h, Present(peerIDs), blocked)
  {
    var ids := DistinctIDs(peerIDs);
    ids := Sort(ids);
    var byBase := GroupByBase(h, ids);
    var heads, toReassign;
    out, heads, toReassign := KeepHeads(h, ids, byBase);
    ContestedGroups(h, ids, byBase);
    FirstPassMeaning(h, ids, byBase, out, toReassign);
    toReassign := SortDisplaced(h, Elements(ids), toReassign);
    ghost var kept := out;
    out := Reassign(h, toReassign, blocked + heads, out);
    DecideByParts(h, Elements(ids), blocked, kept, out);
  }

  method SortDisplaced(h: Derivation, ghost s: set<PeerID>, toReassign: seq<PeerID>) returns (r: seq<PeerID>)
    requires Elements(toReassign) == DisplacedSet(h, s)
    ensures r == SortSet(DisplacedSet(h, s))
    ensures forall id :: id in r <==> id in toReassign
  {
    r := Sort(toReassign);
    SortedUnique(r, SortSet(DisplacedSet(h, s)));
    assert forall id :: id in r <==> id in Elements(r);
  }

  lemma DecideByParts(h: Derivation, s: set<PeerID>, blocked: set<IP>,
                      kept: map<PeerID, Lease>, out: map<PeerID, Lease>)
    requires var todo := SortSet(DisplacedSet(h, s)); var a := Assign(h, todo, blocked + Contested(h, s));
      && kept.Keys == out.Keys == s
      && a.salts.Keys == Elements(todo)
      && (forall id :: id in s && id !in todo ==>
            out[id] == kept[id] == FreshLease(h, id, SortSet(Sharers(h, s, h(id, 0)) - {id})))
      && (forall id :: id in todo ==> id in a.salts && id in s && out[id] == SaltedLease(h, id, a.salts[id]))
    ensures out == Decide(h, s, blocked)
  {
    var todo := SortSet(DisplacedSet(h, s));
    assert forall id :: id in todo <==> id in Elements(todo);
  }

  /** The bases among `done` derived by at least two members. */
  ghost function SharedBases(byBase: map<IP, seq<PeerID>>, done: set<IP>): set<IP>
    requires done <= byBase.Keys
  {
    set base | base in done && |byBase[base]| >= 2
  }

  lemma NextShared(byBase: map<IP, seq<PeerID>>, todo: set<IP>, base: IP)
    requires todo <= byBase.Keys && base in todo
    ensures SharedBases(byBase, byBase.Keys - (todo - {base})) ==
      SharedBases(byBase, byBase.Keys - todo) + if |byBase[base]| >= 2 then {base} else {}
  {
  }

  /** First pass: the smallest member of each contested group keeps the base. Go
      ranges over `byBase` in an arbitrary order; the next base is arbitrary here. */
  method KeepHeads(h: Derivation, ids: seq<PeerID>, byBase: map<IP, seq<PeerID>>)
    returns (out: map<PeerID, Lease>, heads: set<IP>, toReassign: seq<PeerID>)
    requires Grouped(h, ids, byBase)
    ensures heads == SharedBases(byBase, byBase.Keys)
    ensures ReassignSoFar(h, ids, byBase, {}, toReassign)
    ensures out.Keys == Elements(ids)
    ensures LeasesSoFar(h, byBase, {}, out)
  {
    out := InitialLeases(h, ids);
    var todo := byBase.Keys;
    heads, toReassign := {}, [];
    while todo != {}
      invariant todo <= byBase.Keys
      invariant heads == SharedBases(byBase, byBase.Keys - todo)
      invariant ReassignSoFar(h, ids, byBase, todo, toReassign)
      invariant out.Keys == Elements(ids)
      invariant LeasesSoFar(h, byBase, todo, out)
      decreases todo
    {
      var base :| base in todo;
      var group := byBase[base];
      GroupSplit(h, ids, byBase, base);
      NextGroup(h, ids, byBase, todo, base, toReassign);
      NextLeases(h, ids, byBase, todo, base, out);
      NextShared(byBase, todo, base);
      todo := todo - {base};
      if |group| >= 2 {
        out := out[group[0] := out[group[0]].(losers := group[1..])];
        heads := heads + {base};
        toReassign := toReassign + group[1..];
      } else {
        assert toReassign + group[1..] == toReassign;
      }
    }
    assert byBase.Keys - {} == byBase.Keys;
  }

  ghost predicate LeasesSoFar(h: Derivation, byBase: map<IP, seq<PeerID>>, todo: set<IP>, out: map<PeerID, Lease>) {
    forall id :: id in out ==> out[id] == FreshLease(h, id, LosersSoFar(h, byBase, todo, id))
  }

  lemma NextLeases(h: Derivation, ids: seq<PeerID>, byBase: map<IP, seq<PeerID>>,
                   todo: set<IP>, base: IP, out: map<PeerID, Lease>)
    requires Grouped(h, ids, byBase) && base in todo && base in byBase
    requires out.Keys == Elements(ids) && LeasesSoFar(h, byBase, todo, out)
    ensures byBase[base][0] in out
    ensures LeasesSoFar(h, byBase, todo - {base},
      out[byBase[base][0] := out[byBase[base][0]].(losers := byBase[base][1..])])
    ensures |byBase[base]| < 2 ==> LeasesSoFar(h, byBase, todo - {base}, out)
  {
    GroupSplit(h, ids, byBase, base);
  }

  lemma FirstPassMeaning(h: Derivation, ids: seq<PeerID>, byBase: map<IP, seq<PeerID>>,
                         out: map<PeerID, Lease>, toReassign: seq<PeerID>)
    requires Grouped(h, ids, byBase) && out.Keys == Elements(ids)
    requires ReassignSoFar(h, ids, byBase, {}, toReassign) && LeasesSoFar(h, byBase, {}, out)
    ensures Elements(toReassign) == DisplacedSet(h, Elements(ids))
    ensures forall id :: id in toReassign ==> id in out && out[id] == FreshLease(h, id, [])
    ensures forall id :: id in out && id !in toReassign ==>
      out[id] == FreshLease(h, id, SortSet(Sharers(h, Elements(ids), h(id, 0)) - {id}))
  {
    forall id | id in ids
      ensures id in toReassign <==> Displaced(h, Elements(ids), id)
      ensures id !in toReassign ==> out[id].losers == SortSet(Sharers(h, Elements(ids), h(id, 0)) - {id})
    {
      GroupHead(h, ids, byBase, id);
    }
  }

  ghost predicate ReassignSoFar(h: Derivation, ids: seq<PeerID>, byBase: map<IP, seq<PeerID>>,
                                todo: set<IP>, toReassign: seq<PeerID>)
    requires Grouped(h, ids, byBase)
  {
    forall id :: id in toReassign <==> id in ids && h(id, 0) !in todo && byBase[h(id, 0)][0] != id
  }

  lemma NextGroup(h: Derivation, ids: seq<PeerID>, byBase: map<IP, seq<PeerID>>,
                  todo: set<IP>, base: IP, toReassign: seq<PeerID>)
    requires Grouped(h, ids, byBase) && base in todo && base in byBase
    requires ReassignSoFar(h, ids, byBase, todo, toReassign)
    ensures ReassignSoFar(h, ids, byBase, todo - {base}, toReassign + byBase[base][1..])
  {
    GroupSplit(h, ids, byBase, base);
    var next := toReassign + byBase[base][1..];
    forall id ensures id in next <==> id in ids && h(id, 0) !in todo - {base} && byBase[h(id, 0)][0] != id {
      assert id in next <==> id in toReassign || id in byBase[base][1..];
    }
  }

  ghost function FreshLease(h: Derivation, id: PeerID, losers: seq<PeerID>): Lease {
    Lease(h(id, 0), h(id, 0), 0, losers, false)
  }

  ghost function LosersSoFar(h: Derivation, byBase: map<IP, seq<PeerID>>, todo: set<IP>, id: PeerID): seq<PeerID> {
    var base := h(id, 0);
    if base !in todo && base in byBase && byBase[base] != [] && byBase[base][0] == id then byBase[base][1..] else []
  }

  method InitialLeases(h: Derivation, ids: seq<PeerID>) returns (out: map<PeerID, Lease>)
    ensures out.Keys == Elements(ids)
    ensures forall id :: id in out ==> out[id] == FreshLease(h, id, [])
  {
    out := map[];
    for k := 0 to |ids|
      invariant out.Keys == Elements(ids[..k])
      invariant forall id :: id in out ==> out[id] == FreshLease(h, id, [])
    {
      assert ids[..k + 1] == ids[..k] + [ids[k]];
      out := out[ids[k] := Lease(h(ids[k], 0), h(ids[k], 0), 0, [], false)];
    }
    assert ids[..|ids|] == ids;
  }

  /** The salts of one displaced member. */
  method Resalt(h: Derivation, id: PeerID, old': Lease, taken: set<IP>) returns (lease: Lease, taken': set<IP>)
    requires old' == FreshLease(h, id, [])
    ensures lease == SaltedLease(h, id, FirstFree(h, id, taken, 1))
    ensures taken' == if FirstFree(h, id, taken, 1) == 0 then taken else taken + {h(id, FirstFree(h, id, taken, 1))}
  {
    lease, taken' := old', taken;
    var salt := 1;
    while salt <= SALT_MAX && h(id, salt) in taken
      invariant 1 <= salt <= SALT_MAX + 1
      invariant FirstFree(h, id, taken, 1) == FirstFree(h, id, taken, salt)
    {
      salt := salt + 1;
    }
    if salt <= SALT_MAX {
      taken' := taken + {h(id, salt)};
      lease := lease.(ip := h(id, salt), salt := salt, unresolved := false);
    }
    if lease.salt == 0 {
      lease := lease.(ip := lease.baseIP, unresolved := true);
    }
  }

  /** Second pass: salts in ID order, skipping every taken address. */
  method Reassign(h: Derivation, todo: seq<PeerID>, blocked: set<IP>, leases: map<PeerID, Lease>)
    returns (out: map<PeerID, Lease>)
    requires StrictlySorted(todo)
    requires forall id :: id in todo ==> id in leases && leases[id] == FreshLease(h, id, [])
    ensures out.Keys == leases.Keys
    ensures forall id :: id in leases && id !in todo ==> out[id] == leases[id]
    ensures Assign(h, todo, blocked).salts.Keys == Elements(todo)
    ensures forall id :: id in todo ==> id in out && out[id] == SaltedLease(h, id, Assign(h, todo, blocked).salts[id])
  {
    out := leases;
    var taken := blocked;
    for k := 0 to |todo|
      invariant out.Keys == leases.Keys
      invariant taken == Assign(h, todo[..k], blocked).taken
      invariant Assign(h, todo[..k], blocked).salts.Keys == Elements(todo[..k])
      invariant forall id :: id in leases && id !in todo[..k] ==> out[id] == leases[id]
      invariant forall id :: id in todo[..k] ==>
        out[id] == SaltedLease(h, id, Assign(h, todo[..k], blocked).salts[id])
    {
      var id := todo[k];
      AssignNext(h, todo, k, blocked);
      NotYetAssigned(todo, k);
      var lease := out[id];
      lease, taken := Resalt(h, id, lease, taken);
      out := out[id := lease];
    }
    assert todo[..|todo|] == todo;
  }

  method DistinctIDs(peerIDs: seq<PeerID>) returns (ids: seq<PeerID>)
    ensures Elements(ids) == Present(peerIDs)
    ensures forall i, j :: 0 <= i < j < |ids| ==> ids[i] != ids[j]
  {
    ids := [];
    var seen: set<PeerID> := {};
    for k := 0 to |peerIDs|
      invariant Elements(ids) == seen == Present(peerIDs[..k])
      invariant forall i, j :: 0 <= i < j < |ids| ==> ids[i] != ids[j]
    {
      var id := peerIDs[k];
      assert peerIDs[..k + 1] == peerIDs[..k] + [id];
      if id != "" && id !in seen {
        seen := seen + {id};
        ids := ids + [id];
      }
    }
    assert peerIDs[..|peerIDs|] == peerIDs;
  }

  ghost predicate Grouped(h: Derivation, ids: seq<PeerID>, byBase: map<IP, seq<PeerID>>) {
    && (forall id :: id in ids ==> h(id, 0) in byBase)
    && (forall base :: base in byBase ==>
          byBase[base] != [] && StrictlySorted(byBase[base]) &&
          forall id :: id in byBase[base] <==> id in ids && h(id, 0) == base)
  }

  method GroupByBase(h: Derivation, ids: seq<PeerID>) returns (byBase: map<IP, seq<PeerID>>)
    requires StrictlySorted(ids)
    ensures Grouped(h, ids, byBase)
  {
    byBase := map[];
    for k := 0 to |ids|
      invariant Grouped(h, ids[..k], byBase)
    {
      var id := ids[k];
      var base := h(id, 0);
      var group := if base in byBase then byBase[base] else [];
      assert ids[..k + 1] == ids[..k] + [id];
      assert StrictlySorted(group + [id]) by {
        forall i | 0 <= i < |group| ensures Less(group[i], id) {
          assert group[i] in group;
        }
      }
      byBase := byBase[base := group + [id]];
    }
    assert ids[..|ids|] == ids;
  }

  /** A group is its head followed by the members it displaces. */
  lemma GroupSplit(h: Derivation, ids: seq<PeerID>, byBase: map<IP, seq<PeerID>>, base: IP)
    requires Grouped(h, ids, byBase) && base in byBase
    ensures byBase[base][0] in ids && h(byBase[base][0], 0) == base
    ensures forall id :: id in byBase[base][1..] <==> id in ids && h(id, 0) == base && id != byBase[base][0]
  {
    var g := byBase[base];
    assert g[0] in g;
    assert g == [g[0]] + g[1..];
    forall id | id in g[1..] ensures id != g[0] { LessIrreflexive(id); }
  }

  lemma GroupHead(h: Derivation, ids: seq<PeerID>, byBase: map<IP, seq<PeerID>>, id: PeerID)
    requires Grouped(h, ids, byBase) && id in ids
    ensures byBase[h(id, 0)][0] != id <==> Displaced(h, Elements(ids), id)
    ensures byBase[h(id, 0)][0] == id ==>
      byBase[h(id, 0)][1..] == SortSet(Sharers(h, Elements(ids), h(id, 0)) - {id})
  {
    var g := byBase[h(id, 0)];
    GroupSplit(h, ids, byBase, h(id, 0));
    if g[0] != id {
      assert id in g;
      assert g[0] in Elements(ids) && Less(g[0], id);
    } else {
      forall j | j in Elements(ids) && h(j, 0) == h(id, 0) ensures !Less(j, id) {
        assert j in g;
        LessIrreflexive(id);
        if j != id { LessAsymmetric(id, j); }
      }
      SortedUnique(g[1..], SortSet(Sharers(h, Elements(ids), h(id, 0)) - {id}));
    }
  }

  lemma ContestedGroups(h: Derivation, ids: seq<PeerID>, byBase: map<IP, seq<PeerID>>)
    requires Grouped(h, ids, byBase)
    ensures (set base | base in byBase.Keys && |byBase[base]| >= 2) == Contested(h, Elements(ids))
  {
    var s := Elements(ids);
    forall base | base in byBase && |byBase[base]| >= 2 ensures base in Contested(h, s) {
      var id := byBase[base][1];
      assert id in byBase[base];
      LessIrreflexive(id);
      GroupHead(h, ids, byBase, id);
      assert id in DisplacedSet(h, s);
    }
    forall base | base in Contested(h, s) ensures base in byBase && |byBase[base]| >= 2 {
      var id :| id in DisplacedSet(h, s) && h(id, 0) == base;
      GroupHead(h, ids, byBase, id);
      assert id in byBase[base] && byBase[base][0] != id;
    }
  }

  lemma AssignNext(h: Derivation, todo: seq<PeerID>, k: nat, taken: set<IP>)
    requires k < |todo|
    ensures Assign(h, todo[..k + 1], taken) == AssignOne(h, Assign(h, todo[..k], taken), todo[k])
    ensures todo[..k + 1] == todo[..k] + [todo[k]]
  {
    assert todo[..k + 1][..k] == todo[..k];
  }

  lemma NotYetAssigned(todo: seq<PeerID>, k: nat)
    requires StrictlySorted(todo) && k < |todo|
    ensures todo[k] !in todo[..k]
  {
    LessIrreflexive(todo[k]);
  }

  lemma {:induction false} AssignKeys(h: Derivation, todo: seq<PeerID>, taken: set<IP>)
    ensures Assign(h, todo, taken).salts.Keys == Elements(todo)
  {
    if todo != [] {
      AssignKeys(h, todo[..|todo| - 1], taken);
      assert todo == todo[..|todo| - 1] + [todo[|todo| - 1]];
    }
  }
}
