/** The incrementally maintained occupancy table of pkg/serverless/vaddr_conflict.go
    and the member table it indexes. */
module VirtualIPTable {
  import opened Order
  import opened VirtualIP
  import opened VirtualIPLaws

  ghost function UnresolvedIDs(lea: map<PeerID, Lease>): set<PeerID> {
    set id | id in lea && lea[id].unresolved
  }

  /** `owners` is the exact inverse of the leases: sorted, without empty entries. */
  ghost predicate Inverse(lea: map<PeerID, Lease>, owners: map<IP, seq<PeerID>>) {
    && (forall ip :: ip in owners ==> owners[ip] != [] && StrictlySorted(owners[ip]))
    && (forall ip, id :: ip in owners && id in owners[ip] ==> id in lea && lea[id].ip == ip)
    && (forall id :: id in lea ==> lea[id].ip in owners && id in owners[lea[id].ip])
  }

  ghost function AddressOf(lea: map<PeerID, Lease>): map<PeerID, IP> {
    map id | id in lea :: lea[id].ip
  }

  /** A lease that takes part in a conflict. */
  predicate Marks(l: Lease) {
    |l.losers| > 0 || l.salt > 0
  }

  /** Addresses that some member of `s` held under the leases `lea`. */
  ghost function HeldBy(lea: map<PeerID, Lease>, s: set<PeerID>): set<IP> {
    set id | id in lea && id in s :: lea[id].ip
  }

  /** The conflict marks after synchronising a table with members `s`. */
  ghost function ConflictsAfter(h: Derivation, lea: map<PeerID, Lease>, conflicts: set<IP>, s: set<PeerID>): set<IP> {
    (conflicts * HeldBy(lea, s)) + Contested(h, s)
  }

  /** The index after one owner left the address it held. */
  lemma InverseDrop(lea: map<PeerID, Lease>, owners: map<IP, seq<PeerID>>, id: PeerID, kept: seq<PeerID>)
    requires Inverse(lea, owners) && id in lea && StrictlySorted(kept)
    requires forall x :: x in kept <==> x in owners[lea[id].ip] && x != id
    ensures Inverse(lea - {id}, if kept == [] then owners - {lea[id].ip} else owners[lea[id].ip := kept])
  {
    assert kept == [] ==> forall x :: x in owners[lea[id].ip] ==> x == id;
    assert kept != [] ==> kept[0] in kept;
  }

  lemma InverseAdd(lea: map<PeerID, Lease>, owners: map<IP, seq<PeerID>>, id: PeerID, next: Lease, longer: seq<PeerID>)
    requires Inverse(lea, owners) && id !in lea && StrictlySorted(longer)
    requires forall x :: x in longer <==> x == id || (next.ip in owners && x in owners[next.ip])
    ensures Inverse(lea[id := next], owners[next.ip := longer])
  {
    assert id in longer;
  }

  lemma CountDrop(lea: map<PeerID, Lease>, id: PeerID)
    requires id in lea
    ensures AddressOf(lea - {id}) == AddressOf(lea) - {id}
    ensures |UnresolvedIDs(lea - {id})| == |UnresolvedIDs(lea)| - if lea[id].unresolved then 1 else 0
  {
    assert UnresolvedIDs(lea - {id}) == UnresolvedIDs(lea) - {id};
    assert lea[id].unresolved <==> id in UnresolvedIDs(lea);
  }

  lemma CountAdd(lea: map<PeerID, Lease>, id: PeerID, next: Lease)
    requires id !in lea
    ensures AddressOf(lea[id := next]) == AddressOf(lea)[id := next.ip]
    ensures |UnresolvedIDs(lea[id := next])| == |UnresolvedIDs(lea)| + if next.unresolved then 1 else 0
  {
    UnresolvedAdd(lea, id, next);
    assert id !in UnresolvedIDs(lea);
  }

  lemma UnresolvedAdd(lea: map<PeerID, Lease>, id: PeerID, next: Lease)
    requires id !in lea
    ensures UnresolvedIDs(lea[id := next]) == if next.unresolved then UnresolvedIDs(lea) + {id} else UnresolvedIDs(lea)
  {
  }

  /** `lea` is `was` without the members outside `desired`, except those still in `todo`. */
  ghost predicate Kept(was: map<PeerID, Lease>, desired: map<PeerID, Lease>, todo: set<PeerID>, lea: map<PeerID, Lease>) {
    && (forall id :: id in lea <==> id in was && (id in desired || id in todo))
    && (forall id :: id in lea ==> lea[id] == was[id])
  }

  class Table {
    var lea: map<PeerID, Lease>
    var ipOwners: map<IP, seq<PeerID>>
    var peerIPs: map<PeerID, IP>
    var conflicts: set<IP>
    var unresolved: nat

    /** The indexes agree with the leases. */
    ghost predicate Indexed()
      reads this
    {
      Inverse(lea, ipOwners) && peerIPs == AddressOf(lea) && unresolved == |UnresolvedIDs(lea)|
    }

    /** The table is the from-scratch decision for the members it lists. */
    ghost predicate Valid(h: Derivation)
      reads this
    {
      Indexed() && lea == Decide(h, lea.Keys, {}) && Contested(h, lea.Keys) <= conflicts
    }

    constructor ()
      ensures Indexed() && lea == map[] && conflicts == {}
    {
      lea, ipOwners, peerIPs, conflicts, unresolved := map[], map[], map[], {}, 0;
    }

    /** The owner list of one address without one member. */
    method LeaveOwners(peerID: PeerID, ip: IP)
      requires Inverse(lea, ipOwners) && peerID in lea && lea[peerID].ip == ip
      modifies this`ipOwners
      ensures Inverse(lea - {peerID}, ipOwners)
    {
      var owners := if ip in ipOwners then ipOwners[ip] else [];
      if |owners| > 0 {
        var kept := Without(owners, peerID);
        InverseDrop(lea, ipOwners, peerID, kept);
        if |kept| == 0 {
          ipOwners := ipOwners - {ip};
        } else {
          ipOwners := ipOwners[ip := kept];
        }
      }
    }

    /** The owner list of one address with one more member. */
    method JoinOwners(id: PeerID, next: Lease)
      requires Inverse(lea, ipOwners) && id !in lea
      modifies this`ipOwners
      ensures Inverse(lea[id := next], ipOwners)
    {
      var owners := if next.ip in ipOwners then ipOwners[next.ip] else [];
      var longer := AppendOwner(owners, id);
      InverseAdd(lea, ipOwners, id, next, longer);
      ipOwners := ipOwners[next.ip := longer];
    }

    /** dropLocked: releases one member's address. */
    method DropLocked(peerID: PeerID)
      requires Indexed()
      modifies this
      ensures Indexed() && conflicts == old(conflicts)
      ensures lea == old(lea) - {peerID}
    {
      if peerID !in lea {
        assert lea - {peerID} == lea;
        return;
      }
      var lease := lea[peerID];
      CountDrop(lea, peerID);
      LeaveOwners(peerID, lease.ip);
      lea := lea - {peerID};
      peerIPs := peerIPs - {peerID};
      if lease.unresolved && unresolved > 0 {
        unresolved := unresolved - 1;
      }
    }

    /** The insertion half of one update step. */
    method Record(id: PeerID, next: Lease)
      requires Indexed() && id !in lea
      modifies this
      ensures Indexed() && lea == old(lea)[id := next]
      ensures conflicts == old(conflicts) + if Marks(next) then {next.baseIP} else {}
    {
      JoinOwners(id, next);
      CountAdd(lea, id, next);
      lea := lea[id := next];
      peerIPs := peerIPs[id := next.ip];
      if next.unresolved {
        unresolved := unresolved + 1;
      }
      MarkConflict(next);
    }

    /** Marks the base of a lease that takes part in a conflict. */
    method MarkConflict(next: Lease)
      modifies this`conflicts
      ensures conflicts == old(conflicts) + if Marks(next) then {next.baseIP} else {}
    {
      if |next.losers| > 0 || next.salt > 0 {
        conflicts := conflicts + {next.baseIP};
      }
    }

    /** Step 1 of syncLocked, in any order of the departed members. */
    method DropDeparted(desired: map<PeerID, Lease>)
      requires Indexed()
      modifies this
      ensures Indexed() && conflicts == old(conflicts)
      ensures Kept(old(lea), desired, {}, lea)
    {
      var todo := lea.Keys;
      while todo != {}
        invariant todo <= old(lea).Keys
        invariant Indexed() && conflicts == old(conflicts)
        invariant Kept(old(lea), desired, todo, lea)
        decreases todo
      {
        var pid :| pid in todo;
        todo := todo - {pid};
        if pid !in desired {
          DropLocked(pid);
        }
      }
    }

    /** Step 2 of syncLocked, in any order of the marks. */
    method ClearUnowned()
      modifies this`conflicts
      ensures conflicts == old(conflicts) - (set ip | ip in old(conflicts) && ip !in ipOwners)
      requires forall ip :: ip in ipOwners ==> ipOwners[ip] != []
    {
      var todo := conflicts;
      while todo != {}
        invariant todo <= old(conflicts)
        invariant conflicts == old(conflicts) - (set ip | ip in old(conflicts) - todo && ip !in ipOwners)
        decreases todo
      {
        var ip :| ip in todo;
        todo := todo - {ip};
        if ip !in ipOwners || |ipOwners[ip]| == 0 {
          conflicts := conflicts - {ip};
        }
      }
    }

    /** One round of the update loop of syncLocked. */
    method Update(id: PeerID, next: Lease) returns (changed: bool, moved: bool)
      requires Indexed()
      modifies this
      ensures Indexed() && lea == old(lea)[id := next]
      ensures changed <==> !(id in old(lea) && old(lea)[id] == next)
      ensures conflicts == if changed && Marks(next) then old(conflicts) + {next.baseIP} else old(conflicts)
      ensures moved <==> id !in old(lea) || old(lea)[id].ip != next.ip
    {
      if id in lea && lea[id] == next {
        assert lea[id := next] == lea;
        return false, false;
      }
      changed, moved := true, id !in lea || lea[id].ip != next.ip;
      if id in lea {
        DropLocked(id);
      }
      Record(id, next);
      assert lea == old(lea)[id := next];
    }

    /** The update loop of syncLocked; empty IDs are skipped. */
    method UpdateAll(desired: map<PeerID, Lease>, ids: seq<PeerID>) returns (updated: seq<PeerID>, added: seq<PeerID>)
      requires Indexed() && desired.Keys == Present(ids)
      modifies this
      ensures Indexed() && Merged(old(lea), desired, Present(ids), lea)
      ensures conflicts == ChangedMarks(old(lea), desired, Present(ids)) + old(conflicts)
      ensures Elements(updated) == Moved(old(lea), desired, Present(ids))
      ensures Elements(added) == Present(ids) - old(lea).Keys
    {
      ghost var was, marks, done := lea, {}, {};
      updated, added := [], [];
      for k := 0 to |ids|
        invariant Indexed()
        invariant done == Present(ids[..k])
        invariant Merged(was, desired, done, lea)
        invariant marks == ChangedMarks(was, desired, done)
        invariant conflicts == marks + old(conflicts)
        invariant Elements(updated) == Moved(was, desired, done)
        invariant Elements(added) == done - was.Keys
      {
        var id := ids[k];
        PresentNext(ids, k);
        if id != "" {
          MergedNext(was, desired, done, lea, id);
          if id !in lea {
            ElementsSnoc(added, id);
            added := added + [id];
          }
          var changed, moved := Update(id, desired[id]);
          if moved {
            ElementsSnoc(updated, id);
            updated := updated + [id];
          }
          if changed && Marks(desired[id]) {
            UnionShift(marks, old(conflicts), desired[id].baseIP);
            marks := marks + {desired[id].baseIP};
          }
          done := done + {id};
        }
      }
      assert ids[..|ids|] == ids;
    }

    /** syncLocked: the table becomes exactly the from-scratch decision for the members named. */
    method SyncLocked(h: Derivation, ids: seq<PeerID>) returns (updated: seq<PeerID>, added: seq<PeerID>)
      requires Valid(h)
      modifies this
      ensures Valid(h) && lea == Decide(h, Present(ids), {})
      ensures conflicts == ConflictsAfter(h, old(lea), old(conflicts), Present(ids))
      ensures Elements(updated) == Moved(old(lea), lea, lea.Keys)
      ensures Elements(added) == lea.Keys - old(lea).Keys
    {
      var desired := DecideVirtualIPsWithBlocked(h, ids, {});
      DropDeparted(desired);
      ghost var kept := lea;
      ClearUnowned();
      AfterDrop(h, old(lea), desired, kept, ipOwners, old(conflicts));
      updated, added := UpdateAll(desired, ids);
      AfterUpdate(old(lea), desired, kept, lea);
      ConflictsFinal(h, old(lea), old(conflicts), desired.Keys);
    }
  }

  /** Dropping the departed members and then the unowned marks leaves the marks
      of addresses that a staying member holds. */
  lemma AfterDrop(h: Derivation, was: map<PeerID, Lease>, desired: map<PeerID, Lease>, kept: map<PeerID, Lease>,
                  owners: map<IP, seq<PeerID>>, conflicts: set<IP>)
    requires Kept(was, desired, {}, kept) && Inverse(kept, owners)
    ensures conflicts - (set ip | ip in conflicts && ip !in owners) == conflicts * HeldBy(was, desired.Keys)
  {
    OwnersAreHeld(kept, owners);
    assert HeldBy(kept, kept.Keys) == HeldBy(was, desired.Keys);
  }

  lemma AfterUpdate(was: map<PeerID, Lease>, desired: map<PeerID, Lease>, kept: map<PeerID, Lease>, lea: map<PeerID, Lease>)
    requires Kept(was, desired, {}, kept) && Merged(kept, desired, desired.Keys, lea)
    ensures lea == desired
    ensures ChangedMarks(kept, desired, desired.Keys) == ChangedMarks(was, desired, desired.Keys)
    ensures Moved(kept, desired, desired.Keys) == Moved(was, desired, desired.Keys)
    ensures desired.Keys - kept.Keys == desired.Keys - was.Keys
  {
  }

  /** Members of `done` whose address differs from the one they had, if any. */
  ghost function Moved(was: map<PeerID, Lease>, desired: map<PeerID, Lease>, done: set<PeerID>): set<PeerID> {
    set id | id in done && id in desired && (id !in was || was[id].ip != desired[id].ip)
  }

  lemma MergedNext(was: map<PeerID, Lease>, desired: map<PeerID, Lease>, done: set<PeerID>, lea: map<PeerID, Lease>, id: PeerID)
    requires Merged(was, desired, done, lea) && id in desired
    ensures Merged(was, desired, done + {id}, lea[id := desired[id]])
    ensures ChangedMarks(was, desired, done + {id}) ==
      if !(id in lea && lea[id] == desired[id]) && Marks(desired[id])
      then ChangedMarks(was, desired, done) + {desired[id].baseIP} else ChangedMarks(was, desired, done)
    ensures Moved(was, desired, done + {id}) ==
      if id !in lea || lea[id].ip != desired[id].ip then Moved(was, desired, done) + {id} else Moved(was, desired, done)
    ensures done + {id} - was.Keys == if id !in lea then (done - was.Keys) + {id} else done - was.Keys
  {
  }

  lemma UnionShift(a: set<IP>, b: set<IP>, x: IP)
    ensures (a + b) + {x} == (a + {x}) + b
  {
  }

  lemma ElementsSnoc(s: seq<PeerID>, x: PeerID)
    ensures Elements(s + [x]) == Elements(s) + {x}
  {
  }

  lemma PresentNext(ids: seq<PeerID>, k: nat)
    requires k < |ids|
    ensures Present(ids[..k + 1]) == if ids[k] == "" then Present(ids[..k]) else Present(ids[..k]) + {ids[k]}
  {
    assert ids[..k + 1] == ids[..k] + [ids[k]];
  }

  /** The leases half way through the update loop: members in `done` have their new lease. */
  ghost predicate Merged(kept: map<PeerID, Lease>, desired: map<PeerID, Lease>, done: set<PeerID>, lea: map<PeerID, Lease>) {
    && done <= desired.Keys
    && lea.Keys == kept.Keys + done
    && (forall id :: id in lea ==> lea[id] == if id in done then desired[id] else kept[id])
  }

  lemma OwnersAreHeld(lea: map<PeerID, Lease>, owners: map<IP, seq<PeerID>>)
    requires Inverse(lea, owners)
    ensures owners.Keys == HeldBy(lea, lea.Keys)
  {
    forall ip | ip in owners ensures ip in HeldBy(lea, lea.Keys) {
      var o := owners[ip][0];
      assert o in owners[ip];
      assert o in lea && lea[o].ip == ip;
    }
  }

  /** Only contested bases are marked, and the head of each one is. */
  lemma MarksContested(h: Derivation, s: set<PeerID>, id: PeerID)
    requires id in s
    ensures Marks(Decide(h, s, {})[id]) ==> h(id, 0) in Contested(h, s)
  {
    var l := Decide(h, s, {})[id];
    LeaseShape(h, s, {}, id);
    assert Displaced(h, s, id) <==> id in DisplacedSet(h, s);
    if |l.losers| > 0 {
      assert l.losers[0] in Elements(l.losers);
      KeptBasesDiffer(h, s, id, l.losers[0]);
    }
  }

  lemma HeadMarks(h: Derivation, s: set<PeerID>, base: IP) returns (head: PeerID)
    requires base in Contested(h, s)
    ensures head in s && h(head, 0) == base && !Displaced(h, s, head)
    ensures Decide(h, s, {})[head].ip == base && |Decide(h, s, {})[head].losers| > 0
  {
    var x :| x in DisplacedSet(h, s) && h(x, 0) == base;
    head := ContestedHasHead(h, s, x);
    LeaseShape(h, s, {}, head);
    assert x in Sharers(h, s, base) - {head};
    assert x in Elements(Decide(h, s, {})[head].losers);
  }

  ghost function ChangedMarks(was: map<PeerID, Lease>, desired: map<PeerID, Lease>, done: set<PeerID>): set<IP> {
    set id | id in desired && id in done && !(id in was && was[id] == desired[id]) && Marks(desired[id]) :: desired[id].baseIP
  }

  lemma ConflictsFinal(h: Derivation, was: map<PeerID, Lease>, conflicts: set<IP>, s: set<PeerID>)
    requires was == Decide(h, was.Keys, {}) && Contested(h, was.Keys) <= conflicts
    ensures ChangedMarks(was, Decide(h, s, {}), s) + (conflicts * HeldBy(was, s)) == ConflictsAfter(h, was, conflicts, s)
  {
    var desired := Decide(h, s, {});
    forall base | base in ChangedMarks(was, desired, s) ensures base in Contested(h, s) {
      var id :| id in desired && Marks(desired[id]) && desired[id].baseIP == base;
      MarksContested(h, s, id);
      LeaseShape(h, s, {}, id);
    }
    forall base | base in Contested(h, s)
      ensures base in (conflicts * HeldBy(was, s)) + ChangedMarks(was, desired, s)
    {
      var head := HeadMarks(h, s, base);
      LeaseShape(h, s, {}, head);
      if head in was && was[head] == desired[head] {
        MarksContested(h, was.Keys, head);
      }
    }
  }

  method AppendOwner(owners: seq<PeerID>, id: PeerID) returns (longer: seq<PeerID>)
    requires StrictlySorted(owners)
    ensures StrictlySorted(longer)
    ensures forall x :: x in longer <==> x == id || x in owners
  {
    longer := AppendSorted(owners, id);
    assert forall x :: x in longer <==> x in Elements(longer);
    assert forall x :: x in owners <==> x in Elements(owners);
  }

  method Without(owners: seq<PeerID>, id: PeerID) returns (kept: seq<PeerID>)
    requires StrictlySorted(owners)
    ensures StrictlySorted(kept)
    ensures forall x :: x in kept <==> x in owners && x != id
  {
    kept := [];
    for k := 0 to |owners|
      invariant StrictlySorted(kept)
      invariant forall x :: x in kept <==> x in owners[..k] && x != id
    {
      assert owners[..k + 1] == owners[..k] + [owners[k]];
      if owners[k] != id {
        assert forall i :: 0 <= i < |kept| ==> kept[i] in kept;
        kept := kept + [owners[k]];
      }
    }
    assert owners[..|owners|] == owners;
  }
}
