/** The flow table of one router (pkg/tundevice/router.go): one stream per
    peer, reached through an index of the peer's virtual addresses. */
module FlowTable {
  import opened Order
  import opened FlowProtocol
  import opened Wrappers

  type Addr = string

  const MAX_FLOWS: nat := 256

  class PeerFlow {
    const peer: PeerID
    const initiator: PeerID
    var addrs: seq<Addr>
    var retired: bool
    var closed: bool  // stream.Close was called
    var reset: bool   // stream.Reset was called

    /** newPeerFlow: empty aliases are dropped. */
    constructor (peer: PeerID, initiator: PeerID, addrs: seq<Addr>)
      ensures this.peer == peer && this.initiator == initiator
      ensures !retired && !closed && !reset
      ensures forall a :: a in this.addrs <==> a in addrs && a != ""
    {
      this.peer, this.initiator, this.addrs := peer, initiator, [];
      retired, closed, reset := false, false, false;
      new;
      for k := 0 to |addrs|
        invariant !retired && !closed && !reset
        invariant forall a :: a in this.addrs <==> a in addrs[..k] && a != ""
      {
        assert addrs[..k + 1] == addrs[..k] + [addrs[k]];
        if addrs[k] != "" {
          this.addrs := this.addrs + [addrs[k]];
        }
      }
      assert addrs[..|addrs|] == addrs;
    }
  }

  /** The index after `peer` claimed every address nobody owned yet. */
  function MergeAliases(index: map<Addr, PeerID>, peer: PeerID, addrs: seq<Addr>): (r: map<Addr, PeerID>)
    ensures forall a :: a in r <==> a in index || (a in addrs && a != "")
    ensures forall a :: a in r ==> r[a] == if a in index then index[a] else peer
  {
    if addrs == [] then index
    else
      var prev, a := MergeAliases(index, peer, addrs[..|addrs| - 1]), addrs[|addrs| - 1];
      assert addrs == addrs[..|addrs| - 1] + [a];
      if a == "" || a in prev then prev else prev[a := peer]
  }

  lemma MergeAliasesNext(index: map<Addr, PeerID>, peer: PeerID, addrs: seq<Addr>, k: nat)
    requires k < |addrs|
    ensures var prev, a := MergeAliases(index, peer, addrs[..k]), addrs[k];
      MergeAliases(index, peer, addrs[..k + 1]) == if a == "" || a in prev then prev else prev[a := peer]
  {
    assert addrs[..k + 1][..k] == addrs[..k];
  }

  function WithoutOwner(index: map<Addr, PeerID>, peer: PeerID): map<Addr, PeerID> {
    map a | a in index && index[a] != peer :: index[a]
  }

  datatype Verdict = Refused | AlreadyIn | KeepsOld | TakesNew

  class Router {
    const selfID: PeerID
    var flows: map<PeerID, PeerFlow>
    var flowByAddr: map<Addr, PeerID>
    var closed: bool

    constructor (selfID: PeerID)
      ensures this.selfID == selfID && flows == map[] && flowByAddr == map[] && !closed
    {
      this.selfID, flows, flowByAddr, closed := selfID, map[], map[], false;
    }

    ghost predicate Valid()
      reads this, flows.Values
    {
      forall p :: p in flows ==> flows[p].peer == p
    }

    /** What the arbitration rule sees of the peer's current flow. */
    function View(peer: PeerID): Option<FlowView>
      reads this, flows.Values
    {
      if peer in flows then Some(FlowView(flows[peer].initiator, flows[peer].retired)) else None
    }

    function VerdictOn(c: PeerFlow): Verdict
      reads this, flows.Values
    {
      if closed then Refused
      else if c.peer in flows && flows[c.peer] == c then AlreadyIn
      else if c.peer in flows && !Wins(selfID, c.peer, View(c.peer), c.initiator) then KeepsOld
      else if c.peer !in flows && |flows| >= MAX_FLOWS then Refused
      else TakesNew
    }

    /** mergeAddrsLocked: an address that has an owner is never taken from it. */
    method MergeAddrsLocked(flow: PeerFlow, addrs: seq<Addr>)
      modifies this`flowByAddr, flow`addrs
      ensures flowByAddr == MergeAliases(old(flowByAddr), flow.peer, addrs)
      ensures forall a :: a in flow.addrs <==>
        a in old(flow.addrs) || (a in addrs && a != "" && a !in old(flowByAddr))
    {
      for k := 0 to |addrs|
        invariant flowByAddr == MergeAliases(old(flowByAddr), flow.peer, addrs[..k])
        invariant forall a :: a in flow.addrs <==>
          a in old(flow.addrs) || (a in addrs[..k] && a != "" && a !in old(flowByAddr))
      {
        var addr := addrs[k];
        assert addrs[..k + 1] == addrs[..k] + [addr];
        MergeAliasesNext(old(flowByAddr), flow.peer, addrs, k);
        if addr != "" && addr !in flowByAddr {
          flowByAddr := flowByAddr[addr := flow.peer];
          flow.addrs := flow.addrs + [addr];
        }
      }
      assert addrs[..|addrs|] == addrs;
    }

    /** installFlow: at most one flow per peer survives; a flow that leaves is closed, not reset. */
    method InstallFlow(candidate: PeerFlow) returns (kept: PeerFlow?, installed: bool)
      requires Valid() && (candidate in flows.Values ==> candidate.peer in flows && flows[candidate.peer] == candidate)
      modifies this`flows, this`flowByAddr, flows.Values, candidate
      ensures Valid()
      ensures installed <==> old(VerdictOn(candidate)) != Refused
      ensures old(closed) ==> kept == null
      ensures !old(closed) && candidate.peer !in old(flows) ==> (kept == candidate <==> |old(flows)| < MAX_FLOWS)
      ensures !old(closed) && candidate.peer in old(flows) && old(flows)[candidate.peer] != candidate ==>
        (kept == candidate <==>
          old(flows[candidate.peer].retired) ||
          Less(candidate.initiator, old(flows)[candidate.peer].initiator) ||
          (candidate.initiator == old(flows)[candidate.peer].initiator == candidate.peer && candidate.initiator != selfID))
      ensures kept == candidate ==> candidate.peer in flows && flows[candidate.peer] == candidate
      ensures flows == if old(VerdictOn(candidate)) == TakesNew then old(flows)[candidate.peer := candidate] else old(flows)
      ensures match old(VerdictOn(candidate))
        case Refused => kept == null && candidate.closed && flowByAddr == old(flowByAddr)
        case AlreadyIn => kept == candidate && candidate.closed == old(candidate.closed) &&
          flowByAddr == MergeAliases(old(flowByAddr), candidate.peer, old(candidate.addrs))
        case KeepsOld => kept == old(flows[candidate.peer]) && candidate.closed && !(kept == candidate) &&
          flowByAddr == MergeAliases(old(flowByAddr), candidate.peer, old(candidate.addrs))
        case TakesNew => kept == candidate && candidate.closed == old(candidate.closed)
      ensures old(VerdictOn(candidate)) != TakesNew ==> forall f :: f in old(flows.Values) && f != candidate ==>
        f.retired == old(f.retired) && f.closed == old(f.closed) && f.reset == old(f.reset)
      ensures old(VerdictOn(candidate)) == TakesNew && candidate.peer in old(flows) ==>
        old(flows)[candidate.peer].closed && old(flows)[candidate.peer].retired
      ensures old(VerdictOn(candidate)) == TakesNew ==>
        flowByAddr == MergeAliases(
          MergeAliases(WithoutOwner(old(flowByAddr), candidate.peer), candidate.peer, old(candidate.addrs)),
          candidate.peer, if candidate.peer in old(flows) then old(flows[candidate.peer].addrs) else [])
      ensures forall f :: f in old(flows.Values) && f.peer != candidate.peer ==>
        f.retired == old(f.retired) && f.closed == old(f.closed) && f.reset == old(f.reset) && f.addrs == old(f.addrs)
      ensures candidate.retired == old(candidate.retired) && candidate.reset == old(candidate.reset)
    {
      if closed {
        candidate.closed := true;
        return null, false;
      }
      LessIrreflexive(candidate.initiator);
      var existing: PeerFlow? := if candidate.peer in flows then flows[candidate.peer] else null;
      if existing == candidate {
        MergeAddrsLocked(candidate, candidate.addrs);
        return candidate, true;
      }
      if existing != null && !Wins(selfID, candidate.peer, View(candidate.peer), candidate.initiator) {
        MergeAddrsLocked(existing, candidate.addrs);
        candidate.closed := true;
        return existing, true;
      }
      if existing == null && |flows| >= MAX_FLOWS {
        candidate.closed := true;
        return null, false;
      }
      if existing != null {
        existing.retired := true;
      }
      flows := flows[candidate.peer := candidate];
      flowByAddr := WithoutOwner(flowByAddr, candidate.peer);
      MergeAddrsLocked(candidate, candidate.addrs);
      if existing != null {
        MergeAddrsLocked(candidate, existing.addrs);
        existing.closed := true;
      }
      return candidate, true;
    }

    /** retireFlow: only the first caller acts, and it never unlinks a replacement. */
    method RetireFlow(flow: PeerFlow)
      requires Valid()
      modifies this`flows, this`flowByAddr, flow
      ensures Valid() && flow.retired
      ensures old(flow.retired) ==>
        flows == old(flows) && flowByAddr == old(flowByAddr) && flow.closed == old(flow.closed) && flow.reset == old(flow.reset)
      ensures !old(flow.retired) ==>
        (if closed then flow.reset && flow.closed == old(flow.closed) else flow.closed && flow.reset == old(flow.reset)) &&
        (if flow.peer in old(flows) && old(flows)[flow.peer] == flow
         then flows == old(flows) - {flow.peer} && flowByAddr == WithoutOwner(old(flowByAddr), flow.peer)
         else flows == old(flows) && flowByAddr == old(flowByAddr))
    {
      if flow.retired {
        return;
      }
      flow.retired := true;
      if flow.peer in flows && flows[flow.peer] == flow {
        flows := flows - {flow.peer};
        flowByAddr := WithoutOwner(flowByAddr, flow.peer);
      }
      if closed {
        flow.reset := true;
      } else {
        flow.closed := true;
      }
    }

    /** Close: every flow leaves the tables, is retired and reset. */
    method Close()
      requires Valid()
      modifies this, flows.Values
      ensures Valid() && closed
      ensures old(closed) ==> flows == old(flows) && flowByAddr == old(flowByAddr)
      ensures !old(closed) ==> flows == map[] && flowByAddr == map[]
      ensures !old(closed) ==> forall p :: p in old(flows) ==> old(flows)[p].retired && old(flows)[p].reset
    {
      if closed {
        return;
      }
      closed := true;
      var taken := flows;
      flows, flowByAddr := map[], map[];
      var todo := taken.Keys;
      while todo != {}
        invariant todo <= taken.Keys
        invariant flows == map[] && flowByAddr == map[] && closed
        invariant forall p :: p in taken && p !in todo ==> taken[p].retired && taken[p].reset
        decreases todo
      {
        var p :| p in todo;
        todo := todo - {p};
        taken[p].retired := true;
        taken[p].reset := true;
      }
    }
  }

  /** Replacing a flow keeps every alias the two flows know, takes none from
      another peer, and leaves this peer no alias neither flow knows. */
  lemma ReplacementAliases(index: map<Addr, PeerID>, peer: PeerID, next: seq<Addr>, last: seq<Addr>, a: Addr)
    ensures var after := MergeAliases(MergeAliases(WithoutOwner(index, peer), peer, next), peer, last);
      && (a in index && index[a] != peer ==> a in after && after[a] == index[a])
      && (a != "" && (a in next || a in last) && (a !in index || index[a] == peer) ==> a in after && after[a] == peer)
      && (a in after && after[a] == peer ==> a in next || a in last)
  {
  }
}
