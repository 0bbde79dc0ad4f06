/** The flow table of a router takes the steps of its side of the two-router
    protocol (pkg/tundevice/router.go). */
module FlowRefinement {
  import opened FlowProtocol
  import opened FlowTable
  import opened Wrappers

  datatype Flags = Flags(retired: bool, closed: bool, reset: bool)

  ghost function FlagsOf(f: PeerFlow): Flags
    reads f
  {
    Flags(f.retired, f.closed, f.reset)
  }

  /** An end of a stream and the flags of the flow object that stands for it. */
  ghost predicate StatusShows(s: Status, f: Flags) {
    match s
    case Pending => f == Flags(false, false, false)
    case Live => f == Flags(false, false, false)
    case Closing => f.retired
    case Gone => f.closed || f.reset
  }

  /** `r` is side `n` of the protocol state: `ends[k]` is its end of stream `k`. */
  ghost predicate Mirrors(r: Router, ids: IDs, st: State, n: Side, ends: seq<PeerFlow>)
    reads r, ends
  {
    && r.selfID == ids.At(n) && Ends(ids, st, n, ends)
    && TableShows(r.flows, ids.At(n.Other()), st.table.At(n), ends)
    && (forall k :: 0 <= k < |ends| ==> StatusShows(st.streams[k].status.At(n), FlagsOf(ends[k])))
  }

  /** Which object stands for which stream. */
  ghost predicate Ends(ids: IDs, st: State, n: Side, ends: seq<PeerFlow>) {
    && |ends| == |st.streams|
    && (forall i, j :: 0 <= i < j < |ends| ==> ends[i] != ends[j])
    && (forall k :: 0 <= k < |ends| ==> ends[k].peer == ids.At(n.Other()) && ends[k].initiator == ids.At(st.streams[k].opener))
  }

  ghost predicate TableShows(flows: map<PeerID, PeerFlow>, peer: PeerID, current: Option<nat>, ends: seq<PeerFlow>) {
    match current
    case None => peer !in flows
    case Some(k) => k < |ends| && peer in flows && flows[peer] == ends[k]
  }

  // ---- installFlow ----

  /** A closed or full router refuses; otherwise the arbitration decides. */
  ghost function Installs(refuses: bool, ids: IDs, st: State, n: Side, k: nat): State
    requires k < |st.streams|
  {
    if refuses then st.(streams := SendEof(SetStatus(st.streams, n, k, Gone), n.Other(), k)) else Install(ids, st, n, k)
  }

  ghost predicate Refuses(r: Router, st: State, n: Side)
    reads r
  {
    r.closed || (st.table.At(n) == None && |r.flows| >= MAX_FLOWS)
  }

  /** The refusal and the arbitration are the protocol's actions for a stream that arrives. */
  lemma InstallsIsAction(refuses: bool, ids: IDs, st: State, n: Side, k: nat)
    requires StatusIs(st, n, k, Pending) && st.streams[k].opener == n.Other() && st.dial.At(n) != Opened(k)
    ensures var act := if refuses then Refuse(n, k) else Arrive(n, k);
      Enabled(st, act) && Apply(ids, st, act) == Installs(refuses, ids, st, n, k)
  {
  }

  ghost function VerdictFor(refuses: bool, ids: IDs, st: State, n: Side, k: nat): Verdict
    requires k < |st.streams|
  {
    if refuses then Refused else if Won(ids, st, n, k) then TakesNew else KeepsOld
  }

  lemma ViewsAgree(r: Router, ids: IDs, st: State, n: Side, ends: seq<PeerFlow>)
    requires r.Valid() && Mirrors(r, ids, st, n, ends) && Inv(st)
    ensures r.View(ids.At(n.Other())) == View(ids, st, n)
  {
    if st.table.At(n).Some? {
      var k := st.table.At(n).value;
      assert StatusShows(st.streams[k].status.At(n), FlagsOf(ends[k]));
      assert EndOk(st, n, k);
    }
  }

  lemma VerdictAgrees(r: Router, ids: IDs, st: State, n: Side, ends: seq<PeerFlow>, k: nat)
    requires r.Valid() && Mirrors(r, ids, st, n, ends) && Inv(st) && StatusIs(st, n, k, Pending)
    ensures r.VerdictOn(ends[k]) == VerdictFor(Refuses(r, st, n), ids, st, n, k)
  {
    ViewsAgree(r, ids, st, n, ends);
    assert EndOk(st, n, k);
  }

  /** What the verdict does to the flags of the candidate, of the flow in the
      table and of every other one. */
  ghost predicate FlagsStep(v: Verdict, candidate: bool, current: bool, was: Flags, now: Flags) {
    if candidate then (if v == TakesNew then now == was else now == was.(closed := true))
    else if current && v == TakesNew then now.retired && now.closed
    else now == was
  }

  lemma StatusStep(refuses: bool, ids: IDs, st: State, n: Side, k: nat, j: nat, was: Flags, now: Flags)
    requires Inv(st) && StatusIs(st, n, k, Pending) && j < |st.streams|
    requires StatusShows(st.streams[j].status.At(n), was)
    requires FlagsStep(VerdictFor(refuses, ids, st, n, k), j == k, st.table.At(n) == Some(j), was, now)
    ensures var to := Installs(refuses, ids, st, n, k);
      && |to.streams| == |st.streams| && to.streams[j].opener == st.streams[j].opener
      && StatusShows(to.streams[j].status.At(n), now)
  {
    InstallEffect(ids, st, n, k, n, j);
    assert EndOk(st, n, j);
  }

  lemma TableStep(refuses: bool, ids: IDs, st: State, n: Side, k: nat)
    requires Inv(st) && StatusIs(st, n, k, Pending)
    ensures Installs(refuses, ids, st, n, k).table.At(n) ==
      if VerdictFor(refuses, ids, st, n, k) == TakesNew then Some(k) else st.table.At(n)
  {
    InstallEffect(ids, st, n, k, n, k);
  }

  /** The frame of installFlow, flow by flow. */
  method InstallWithFlags(r: Router, ends: seq<PeerFlow>, k: nat, ghost peer: PeerID, ghost current: Option<nat>)
    returns (kept: PeerFlow?, installed: bool, ghost was: seq<Flags>)
    requires r.Valid() && k < |ends| && TableShows(r.flows, peer, current, ends) && current != Some(k)
    requires forall i, j :: 0 <= i < j < |ends| ==> ends[i] != ends[j]
    requires forall j :: 0 <= j < |ends| ==> ends[j].peer == peer
    requires FlagsOf(ends[k]) == Flags(false, false, false)
    modifies r`flows, r`flowByAddr, r.flows.Values, ends[k]
    ensures r.Valid()
    ensures r.flows == if old(r.VerdictOn(ends[k])) == TakesNew then old(r.flows)[peer := ends[k]] else old(r.flows)
    ensures |was| == |ends| && forall j :: 0 <= j < |ends| ==> was[j] == old(FlagsOf(ends[j]))
    ensures forall j :: 0 <= j < |ends| ==>
      FlagsStep(old(r.VerdictOn(ends[k])), j == k, current == Some(j), was[j], FlagsOf(ends[j]))
  {
    was := SnapShot(ends);
    kept, installed := r.InstallFlow(ends[k]);
  }

  ghost method SnapShot(ends: seq<PeerFlow>) returns (was: seq<Flags>)
    ensures |was| == |ends| && forall j :: 0 <= j < |ends| ==> was[j] == FlagsOf(ends[j])
  {
    was := [];
    for j := 0 to |ends|
      invariant |was| == j && forall i :: 0 <= i < j ==> was[i] == FlagsOf(ends[i])
    {
      was := was + [FlagsOf(ends[j])];
    }
  }

  /** installFlow on a new stream is the protocol's arbitration on this side, or
      the refusal of a closed or full router. */
  method InstallOnSide(r: Router, ghost ids: IDs, ghost st: State, ghost n: Side, ends: seq<PeerFlow>, k: nat)
    returns (kept: PeerFlow?, installed: bool)
    requires r.Valid() && Mirrors(r, ids, st, n, ends) && Inv(st) && StatusIs(st, n, k, Pending)
    modifies r`flows, r`flowByAddr, r.flows.Values, ends[k]
    ensures r.Valid() && Mirrors(r, ids, Installs(old(Refuses(r, st, n)), ids, st, n, k), n, ends)
  {
    ghost var refuses := Refuses(r, st, n);
    assert StatusShows(st.streams[k].status.At(n), FlagsOf(ends[k])) && EndOk(st, n, k);
    VerdictAgrees(r, ids, st, n, ends, k);
    TableStep(refuses, ids, st, n, k);
    ghost var was;
    kept, installed, was := InstallWithFlags(r, ends, k, ids.At(n.Other()), st.table.At(n));
    ghost var to := Installs(refuses, ids, st, n, k);
    forall j | 0 <= j < |ends|
      ensures |to.streams| == |ends| && to.streams[j].opener == st.streams[j].opener
      ensures StatusShows(to.streams[j].status.At(n), FlagsOf(ends[j]))
    {
      StatusStep(refuses, ids, st, n, k, j, was[j], FlagsOf(ends[j]));
    }
  }

  // ---- retireFlow and Close ----

  /** The two halves of retireFlow: somebody sets `retired`, then unlinks and closes. */
  predicate Retires(act: Action, n: Side, k: nat) {
    act == Action.Retire(n, k) || act == ReadEof(n, k)
  }

  ghost function Retired(ids: IDs, st: State, act: Action, n: Side, k: nat): State
    requires Retires(act, n, k) && Enabled(st, act) && StatusIs(st, n, k, Live)
  {
    Apply(ids, Apply(ids, st, act), Unlink(n, k))
  }

  lemma RetiredEffect(ids: IDs, st: State, act: Action, n: Side, k: nat, j: nat)
    requires Retires(act, n, k) && Enabled(st, act) && StatusIs(st, n, k, Live) && j < |st.streams|
    ensures var to := Retired(ids, st, act, n, k);
      && |to.streams| == |st.streams| && to.streams[j].opener == st.streams[j].opener
      && to.streams[j].status.At(n) == (if j == k then Gone else st.streams[j].status.At(n))
      && to.table.At(n) == if st.table.At(n) == Some(k) then None else st.table.At(n)
  {
  }

  /** retireFlow on a live flow is the retirement and the unlinking in one go,
      whether an EOF, idleness or a failed write started it; a second call does nothing. */
  method RetireOnSide(r: Router, ghost ids: IDs, ghost st: State, ghost act: Action, ghost n: Side,
                      ends: seq<PeerFlow>, k: nat)
    requires r.Valid() && Mirrors(r, ids, st, n, ends) && Inv(st) && k < |st.streams|
    requires Retires(act, n, k) && Enabled(st, act) && (StatusIs(st, n, k, Live) || ends[k].retired)
    modifies r`flows, r`flowByAddr, ends[k]
    ensures r.Valid()
    ensures Mirrors(r, ids, if StatusIs(st, n, k, Live) then Retired(ids, st, act, n, k) else st, n, ends)
  {
    assert StatusShows(st.streams[k].status.At(n), FlagsOf(ends[k])) && EndOk(st, n, k);
    ghost var was := SnapShot(ends);
    r.RetireFlow(ends[k]);
    forall j | 0 <= j < |ends| && StatusIs(st, n, k, Live)
      ensures var to := Retired(ids, st, act, n, k);
        && |to.streams| == |ends| && to.streams[j].opener == st.streams[j].opener
        && StatusShows(to.streams[j].status.At(n), FlagsOf(ends[j]))
    {
      RetiredEffect(ids, st, act, n, k, j);
      assert StatusShows(st.streams[j].status.At(n), was[j]);
      assert j != k ==> FlagsOf(ends[j]) == was[j];
    }
    if StatusIs(st, n, k, Live) { RetiredEffect(ids, st, act, n, k, k); }
  }

  ghost function Shuts(ids: IDs, st: State, n: Side): State
    requires InRange(st, n)
  {
    if st.table.At(n).Some? then Apply(ids, st, Shut(n)) else st
  }

  lemma ShutsEffect(ids: IDs, st: State, n: Side, j: nat)
    requires InRange(st, n) && j < |st.streams|
    ensures var to := Shuts(ids, st, n);
      && |to.streams| == |st.streams| && to.streams[j].opener == st.streams[j].opener
      && to.streams[j].status.At(n) ==
           (if st.table.At(n) == Some(j) && StatusIs(st, n, j, Live) then Gone else st.streams[j].status.At(n))
      && to.table.At(n) == None
  {
  }

  /** Close is the shutting of this side. */
  method CloseOnSide(r: Router, ghost ids: IDs, ghost st: State, ghost n: Side, ghost ends: seq<PeerFlow>)
    requires r.Valid() && !r.closed && Mirrors(r, ids, st, n, ends) && Inv(st)
    modifies r, r.flows.Values
    ensures r.Valid() && Mirrors(r, ids, Shuts(ids, st, n), n, ends)
  {
    ghost var was := SnapShot(ends);
    forall j | 0 <= j < |ends| ensures StatusShows(st.streams[j].status.At(n), was[j]) {
    }
    ghost var flows := r.flows;
    r.Close();
    forall j | 0 <= j < |ends|
      ensures var to := Shuts(ids, st, n);
        && |to.streams| == |ends| && to.streams[j].opener == st.streams[j].opener
        && StatusShows(to.streams[j].status.At(n), FlagsOf(ends[j]))
    {
      ShutsEffect(ids, st, n, j);
      assert EndOk(st, n, j);
      if st.table.At(n) != Some(j) {
        assert ends[j] !in flows.Values;
        assert FlagsOf(ends[j]) == was[j];
      }
    }
  }
}
