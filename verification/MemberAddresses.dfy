/** The member table's side of the occupancy table: claiming addresses and
    reporting conflicts (pkg/serverless/vaddr_conflict.go). */
module MemberAddresses {
  import opened Order
  import opened VirtualIP
  import opened VirtualIPLaws
  import opened VirtualIPTable
  import opened Wrappers

  datatype Conflict = Conflict(ip: IP, peerID: PeerID, winnerIP: IP,
                               losers: seq<PeerID>, loserIPs: seq<IP>, resolved: bool)

  /** What a report about the contested base `ip` must say. */
  ghost predicate Reports(h: Derivation, s: set<PeerID>, ip: IP, c: Conflict) {
    var d := Decide(h, s, {});
    && c.ip == c.winnerIP == ip
    && c.peerID in s && h(c.peerID, 0) == ip && !Displaced(h, s, c.peerID)
    && StrictlySorted(c.losers) && Elements(c.losers) == Sharers(h, s, ip) - {c.peerID}
    && |c.loserIPs| == |c.losers|
    && (forall i :: 0 <= i < |c.losers| ==> c.losers[i] in d && c.loserIPs[i] == d[c.losers[i]].ip)
    && (c.resolved <==> forall i :: 0 <= i < |c.losers| ==> !d[c.losers[i]].unresolved)
  }

  /** `out` reports on the addresses `ips`, one by one. */
  ghost predicate AllReport(h: Derivation, s: set<PeerID>, ips: seq<IP>, out: seq<Conflict>) {
    |out| == |ips| && forall k :: 0 <= k < |out| ==> Reports(h, s, ips[k], out[k])
  }

  lemma AllReportSnoc(h: Derivation, s: set<PeerID>, ips: seq<IP>, out: seq<Conflict>, ip: IP, c: Conflict)
    requires AllReport(h, s, ips, out) && Reports(h, s, ip, c)
    ensures AllReport(h, s, ips + [ip], out + [c])
  {
    forall k | 0 <= k < |out + [c]| ensures Reports(h, s, (ips + [ip])[k], (out + [c])[k]) {
      if k < |out| { assert (ips + [ip])[k] == ips[k] && (out + [c])[k] == out[k]; }
    }
  }

  class Member {
    const peerID: PeerID
    var virtualIP: IP

    constructor (peerID: PeerID, virtualIP: IP)
      ensures this.peerID == peerID && this.virtualIP == virtualIP
    {
      this.peerID, this.virtualIP := peerID, virtualIP;
    }
  }

  class Discovery {
    const h: Derivation
    var members: map<PeerID, Member>
    var vaddrs: Table?

    constructor (h: Derivation)
      ensures this.h == h && members == map[] && vaddrs == null
    {
      this.h, members, vaddrs := h, map[], null;
    }

    /** No empty ID, one object per member, and leases already issued are shown. */
    ghost predicate Consistent()
      reads this, vaddrs, members.Values
    {
      && "" !in members
      && (forall x, y :: x in members && y in members && x != y ==> members[x] != members[y])
      && (vaddrs != null ==>
            vaddrs.Valid(h) && forall id :: id in members && id in vaddrs.lea ==> members[id].virtualIP == vaddrs.lea[id].ip)
    }

    /** Every member shows the address decided for the current member set. */
    ghost predicate Claimed()
      reads this, vaddrs, members.Values
    {
      && Consistent() && vaddrs != null
      && vaddrs.lea == Decide(h, members.Keys, {})
      && forall id :: id in members ==> members[id].virtualIP == vaddrs.lea[id].ip
    }

    /** claimVirtualIPsLocked, called in the critical section of every table write. */
    method ClaimVirtualIPsLocked() returns (updated: seq<PeerID>)
      requires Consistent()
      modifies this`vaddrs, vaddrs, members.Values
      ensures Claimed() && (old(vaddrs) != null ==> vaddrs == old(vaddrs))
      ensures old(vaddrs) == null ==> fresh(vaddrs)
    {
      if vaddrs == null {
        vaddrs := new Table();
        assert vaddrs.lea.Keys == {};
      }
      updated := Realign(vaddrs);
    }

    method Realign(table: Table) returns (updated: seq<PeerID>)
      requires Consistent() && vaddrs == table
      modifies table, members.Values
      ensures Claimed()
    {
      var ids := IDsOf(members);
      var added;
      updated, added := table.SyncLocked(h, ids);
      assert forall id :: id in updated <==> id in Elements(updated);
      WriteBack(table, updated);
    }

    /** Copies the leases of the updated members into the member table. */
    method WriteBack(table: Table, updated: seq<PeerID>)
      requires "" !in members && vaddrs == table
      requires forall x, y :: x in members && y in members && x != y ==> members[x] != members[y]
      requires table.Valid(h) && table.lea == Decide(h, members.Keys, {})
      requires forall id :: id in updated ==> id in members
      requires forall id :: id in members && id !in updated ==> members[id].virtualIP == table.lea[id].ip
      modifies members.Values
      ensures Claimed()
    {
      CopyLeases(table.lea, updated);
    }

    method CopyLeases(lea: map<PeerID, Lease>, updated: seq<PeerID>)
      requires forall x, y :: x in members && y in members && x != y ==> members[x] != members[y]
      requires forall id :: id in updated ==> id in members
      requires lea.Keys == members.Keys
      requires forall id :: id in members && id !in updated ==> members[id].virtualIP == lea[id].ip
      modifies members.Values
      ensures forall id :: id in members ==> members[id].virtualIP == lea[id].ip
    {
      for k := 0 to |updated|
        invariant forall id :: id in members && id !in updated[k..] ==> members[id].virtualIP == lea[id].ip
      {
        var id := updated[k];
        assert updated[k..] == [id] + updated[k + 1..];
        members[id].virtualIP := lea[id].ip;
      }
    }

    /** The table write itself: leases already issued stay shown. */
    method Rewrite(next: map<PeerID, Member>)
      requires Claimed() && "" !in next
      requires forall x, y :: x in next && y in next && x != y ==> next[x] != next[y]
      requires forall id :: id in next && id in members ==> next[id] == members[id]
      modifies this`members
      ensures members == next && Consistent()
    {
      ghost var lea := vaddrs.lea;
      assert forall id :: id in next && id in lea ==> id in members && next[id].virtualIP == lea[id].ip;
      members := next;
    }

    /** A table write that adds a member and claims in the same critical section. */
    method AddMember(m: Member)
      requires Claimed() && m.peerID != "" && m.peerID !in members && m !in members.Values
      modifies this, vaddrs, members.Values, m
      ensures Claimed() && members == old(members)[m.peerID := m]
    {
      ghost var was := members;
      Rewrite(members[m.peerID := m]);
      assert members.Values <= was.Values + {m};
      var _ := ClaimVirtualIPsLocked();
    }

    /** A table write that removes members and releases their addresses (releaseVirtualIPsLocked). */
    method RemoveMembers(gone: set<PeerID>)
      requires Claimed()
      modifies this, vaddrs, members.Values
      ensures Claimed() && members == old(members) - gone
    {
      ghost var was := members;
      Rewrite(members - gone);
      assert members.Values <= was.Values;
      var _ := ClaimVirtualIPsLocked();
    }

    /** virtualIPConflictsLocked: exactly one report per contested base, in address order. */
    method VirtualIPConflictsLocked() returns (out: seq<Conflict>)
      requires Claimed()
      ensures AllReport(h, members.Keys, SortSet(Contested(h, members.Keys)), out)
    {
      out := [];
      var ips := IPsOf(vaddrs.conflicts);
      ghost var listed := [];
      for k := 0 to |ips|
        invariant ListedUpTo(Contested(h, members.Keys), ips, k, listed)
        invariant AllReport(h, members.Keys, listed, out)
      {
        ListedNext(Contested(h, members.Keys), ips, k, listed);
        var rec := ReportOn(ips[k]);
        if rec.Some? {
          AllReportSnoc(h, members.Keys, listed, out, ips[k], rec.value);
          listed := listed + [ips[k]];
          out := out + [rec.value];
        }
      }
      ListedAll(Contested(h, members.Keys), ips, listed);
    }

    /** The report on one marked address; none when its conflict is over. */
    method ReportOn(ip: IP) returns (rec: Option<Conflict>)
      requires Claimed()
      ensures rec.Some? <==> ip in Contested(h, members.Keys)
      ensures rec.Some? ==> Reports(h, members.Keys, ip, rec.value)
    {
      var winner := FindHead(ip);
      if winner.None? {
        NoHead(ip);
        return None;
      }
      var c := ReportBy(ip, winner.value);
      rec := Some(c);
    }

    /** The report of the head `winner`. */
    method ReportBy(ip: IP, winner: PeerID) returns (c: Conflict)
      requires Claimed() && Heads(ip, winner)
      ensures ip in Contested(h, members.Keys) && Reports(h, members.Keys, ip, c)
    {
      LosersLeased(h, members.Keys, vaddrs.lea, winner);
      c := Describe(ip, winner);
      ReportMeaning(h, members.Keys, vaddrs.lea, c);
    }

    method Describe(ip: IP, winner: PeerID) returns (c: Conflict)
      requires vaddrs != null && winner in vaddrs.lea
      requires forall i :: 0 <= i < |vaddrs.lea[winner].losers| ==> vaddrs.lea[winner].losers[i] in vaddrs.lea
      ensures c.ip == ip && c.peerID == winner && (vaddrs.lea[winner].baseIP == ip ==> Describes(vaddrs.lea, c))
    {
      var losers := vaddrs.lea[winner].losers;
      var loserIPs, resolved := LoserIPs(losers);
      c := Conflict(ip, winner, ip, losers, loserIPs, resolved);
    }

    /** The owner of `ip` that holds the record of the conflict about it. */
    method FindHead(ip: IP) returns (winner: Option<PeerID>)
      requires vaddrs != null
      ensures winner.Some? ==> Heads(ip, winner.value)
      ensures winner.None? ==> forall o :: ip in vaddrs.ipOwners && o in vaddrs.ipOwners[ip] ==> !Heads(ip, o)
    {
      var owners := if ip in vaddrs.ipOwners then vaddrs.ipOwners[ip] else [];
      for i := 0 to |owners|
        invariant forall j :: 0 <= j < i ==> !Heads(ip, owners[j])
      {
        if Heads(ip, owners[i]) {
          return Some(owners[i]);
        }
      }
      winner := None;
    }

    lemma HeadListed(ip: IP)
      requires Claimed() && ip in Contested(h, members.Keys)
      ensures exists o :: ip in vaddrs.ipOwners && o in vaddrs.ipOwners[ip] && Heads(ip, o)
    {
      var head := HeadMarks(h, members.Keys, ip);
      LeaseShape(h, members.Keys, {}, head);
      assert head in vaddrs.lea;
    }

    lemma NoHead(ip: IP)
      requires Claimed() && forall o :: ip in vaddrs.ipOwners && o in vaddrs.ipOwners[ip] ==> !Heads(ip, o)
      ensures ip !in Contested(h, members.Keys)
    {
      if ip in Contested(h, members.Keys) { HeadListed(ip); }
    }

    method LoserIPs(losers: seq<PeerID>) returns (loserIPs: seq<IP>, resolved: bool)
      requires vaddrs != null && forall i :: 0 <= i < |losers| ==> losers[i] in vaddrs.lea
      ensures |loserIPs| == |losers|
      ensures forall i :: 0 <= i < |losers| ==> loserIPs[i] == vaddrs.lea[losers[i]].ip
      ensures resolved <==> forall i :: 0 <= i < |losers| ==> !vaddrs.lea[losers[i]].unresolved
    {
      loserIPs, resolved := [], true;
      for k := 0 to |losers|
        invariant |loserIPs| == k
        invariant forall j :: 0 <= j < k ==> loserIPs[j] == vaddrs.lea[losers[j]].ip
        invariant resolved <==> forall j :: 0 <= j < k ==> !vaddrs.lea[losers[j]].unresolved
      {
        var lease := vaddrs.lea[losers[k]];
        loserIPs := loserIPs + [lease.ip];
        if lease.unresolved {
          resolved := false;
        }
      }
    }

    predicate Heads(ip: IP, o: PeerID)
      requires vaddrs != null
      reads this, vaddrs
    {
      o in vaddrs.lea && vaddrs.lea[o].baseIP == ip && |vaddrs.lea[o].losers| > 0
    }
  }

  /** What `c` says about the leases `lea`. */
  ghost predicate Describes(lea: map<PeerID, Lease>, c: Conflict) {
    && c.ip == c.winnerIP && c.peerID in lea && lea[c.peerID].baseIP == c.ip && c.losers == lea[c.peerID].losers
    && |c.loserIPs| == |c.losers| && (forall i :: 0 <= i < |c.losers| ==> c.losers[i] in lea)
    && (forall i :: 0 <= i < |c.losers| ==> c.loserIPs[i] == lea[c.losers[i]].ip)
    && (c.resolved <==> forall i :: 0 <= i < |c.losers| ==> !lea[c.losers[i]].unresolved)
  }

  lemma ReportMeaning(h: Derivation, s: set<PeerID>, lea: map<PeerID, Lease>, c: Conflict)
    requires lea == Decide(h, s, {}) && Describes(lea, c) && |c.losers| > 0
    ensures c.ip in Contested(h, s) && Reports(h, s, c.ip, c)
  {
    HeadReports(h, s, c.ip, c.peerID);
  }

  lemma LosersLeased(h: Derivation, s: set<PeerID>, lea: map<PeerID, Lease>, winner: PeerID)
    requires lea == Decide(h, s, {}) && winner in s
    ensures forall i :: 0 <= i < |lea[winner].losers| ==> lea[winner].losers[i] in lea
  {
    if |lea[winner].losers| > 0 { HeadReports(h, s, lea[winner].baseIP, winner); }
  }

  lemma HeadReports(h: Derivation, s: set<PeerID>, ip: IP, winner: PeerID)
    requires winner in s && Decide(h, s, {})[winner].baseIP == ip && |Decide(h, s, {})[winner].losers| > 0
    ensures ip in Contested(h, s) && h(winner, 0) == ip && !Displaced(h, s, winner)
    ensures var l := Decide(h, s, {})[winner].losers;
      StrictlySorted(l) && Elements(l) == Sharers(h, s, ip) - {winner} && forall i :: 0 <= i < |l| ==> l[i] in s
  {
    LeaseShape(h, s, {}, winner);
    MarksContested(h, s, winner);
    var l := Decide(h, s, {})[winner].losers;
    LosersSorted(h, s, winner);
    assert forall i :: 0 <= i < |l| ==> l[i] in Elements(l);
  }

  lemma LosersSorted(h: Derivation, s: set<PeerID>, id: PeerID)
    requires id in s
    ensures StrictlySorted(Decide(h, s, {})[id].losers)
  {
    LeaseShape(h, s, {}, id);
    AssignMeaning(h, Todo(h, s), {} + Contested(h, s));
  }

  /** Some listing of the keys: Go's map iteration order is arbitrary. */
  method IDsOf(members: map<PeerID, Member>) returns (ids: seq<PeerID>)
    ensures Elements(ids) == members.Keys
    ensures "" !in members ==> Present(ids) == members.Keys
  {
    ids := [];
    var todo := members.Keys;
    while todo != {}
      invariant todo <= members.Keys && Elements(ids) == members.Keys - todo
      decreases todo
    {
      var id :| id in todo;
      todo := todo - {id};
      ids := ids + [id];
    }
    assert forall id :: id in ids <==> id in Elements(ids);
  }

  method IPsOf(marks: set<IP>) returns (ips: seq<IP>)
    ensures ips == SortSet(marks)
  {
    ips := [];
    var todo := marks;
    while todo != {}
      invariant todo <= marks && forall ip :: ip in ips <==> ip in marks - todo
      decreases todo
    {
      var ip :| ip in todo;
      todo := todo - {ip};
      ips := ips + [ip];
    }
    SortLists(ips, marks);
    ips := Sort(ips);
  }

  /** `listed` holds the live ones among the first `k` marks, in order. */
  ghost predicate ListedUpTo(live: set<IP>, ips: seq<IP>, k: nat, listed: seq<IP>)
    requires k <= |ips|
  {
    && StrictlySorted(ips) && StrictlySorted(listed)
    && forall ip :: ip in listed <==> ip in ips[..k] && ip in live
  }

  lemma ListedNext(live: set<IP>, ips: seq<IP>, k: nat, listed: seq<IP>)
    requires k < |ips| && ListedUpTo(live, ips, k, listed)
    ensures ListedUpTo(live, ips, k + 1, if ips[k] in live then listed + [ips[k]] else listed)
  {
    assert ips[..k + 1] == ips[..k] + [ips[k]];
    forall y | y in listed ensures Less(y, ips[k]) { }
    SortedSnoc(listed, ips[k]);
  }

  lemma ListedAll(live: set<IP>, ips: seq<IP>, listed: seq<IP>)
    requires ListedUpTo(live, ips, |ips|, listed) && live <= Elements(ips)
    ensures listed == SortSet(live)
  {
    assert ips[..|ips|] == ips;
    assert forall ip :: ip in ips <==> ip in Elements(ips);
    SortedUnique(listed, SortSet(live));
  }

  // ---- the count over-reports ----

  /** The reported count equals the number of live conflicts exactly when no
      member that stays holds the address of a conflict that is over. */
  lemma CountExactly(h: Derivation, lea: map<PeerID, Lease>, conflicts: set<IP>, s: set<PeerID>)
    ensures |ConflictsAfter(h, lea, conflicts, s)| >= |Contested(h, s)|
    ensures |ConflictsAfter(h, lea, conflicts, s)| == |Contested(h, s)| <==>
      forall id :: id in lea && id in s && lea[id].ip in conflicts ==> lea[id].ip in Contested(h, s)
  {
    var after, live := ConflictsAfter(h, lea, conflicts, s), Contested(h, s);
    var stale := (conflicts * HeldBy(lea, s)) - live;
    assert after == live + stale && live !! stale;
    assert |after| == |live| + |stale|;
    if forall id :: id in lea && id in s && lea[id].ip in conflicts ==> lea[id].ip in live {
      assert stale == {};
    } else {
      var id :| id in lea && id in s && lea[id].ip in conflicts && lea[id].ip !in live;
      assert lea[id].ip in stale;
    }
  }

  /** "b" leaves a two-member conflict: the mark on the base stays with "a",
      although no conflict is left to list. */
  lemma CountOverReports(h: Derivation)
    requires h("a", 0) == h("b", 0)
    ensures var d := Decide(h, {"a", "b"}, {});
      ConflictsAfter(h, d, Contested(h, {"a", "b"}), {"a"}) == {h("a", 0)} && Contested(h, {"a"}) == {}
  {
    assert Less("a", "b") && !Less("b", "a") && !Less("a", "a") && !Less("b", "b");
    LeaseShape(h, {"a", "b"}, {}, "a");
    assert Displaced(h, {"a", "b"}, "b") && !Displaced(h, {"a", "b"}, "a");
    assert "b" in DisplacedSet(h, {"a", "b"});
    assert DisplacedSet(h, {"a"}) == {};
    assert HeldBy(Decide(h, {"a", "b"}, {}), {"a"}) == {h("a", 0)};
  }
}
