/** Simultaneous-dial arbitration between two routers
    (pkg/tundevice/router.go, router_flow_lifecycle.go) as a state machine:
    every critical section is one action, and streams, EOFs and half-finished
    retirements are part of the state. */
module FlowProtocol {
  import opened Order
  import opened Wrappers

  type PeerID = string

  /** What the arbitration rule looks at in an installed flow. */
  datatype FlowView = FlowView(initiator: PeerID, retired: bool)

  /** candidateWins, for two flows to the same peer. */
  predicate Wins(self: PeerID, peer: PeerID, existing: Option<FlowView>, initiator: PeerID) {
    if existing.None? then true
    else if existing.value.retired then true
    else if initiator != existing.value.initiator then Less(initiator, existing.value.initiator)
    else initiator == peer && initiator != self
  }

  datatype Side = A | B {
    function Other(): Side { if A? then B else A }
  }

  datatype Both<T> = Both(a: T, b: T) {
    function At(n: Side): T { if n.A? then a else b }
    function Put(n: Side, v: T): Both<T> { if n.A? then Both(v, b) else Both(a, v) }
  }

  /** One end of a stream: not yet decided by installFlow, installed and not
      retired, retired with retireFlow still to unlink it, or closed. */
  datatype Status = Pending | Live | Closing | Gone

  /** `eof.At(n)`: a close or reset by the other end is on its way to `n`. */
  datatype Stream = Stream(opener: Side, status: Both<Status>, eof: Both<bool>)

  /** flowTo's single-flight dial: opening, opened but not installed, installed
      but still registered in `dialing`. */
  datatype Dial = NoDial | Opening | Opened(stream: nat) | Settled

  datatype State = State(streams: seq<Stream>, table: Both<Option<nat>>, dial: Both<Dial>)

  datatype Action =
    | BeginDial(n: Side)             // flowTo finds no live flow and no dial
    | DialFails(n: Side)             // OpenStreamToVirtualIP returns an error
    | Opens(n: Side)                 // the stream exists and travels to the other end
    | InstallOwn(n: Side)            // dialStream: installFlow
    | EndDial(n: Side)               // delete(dialing, target)
    | Arrive(n: Side, k: nat)        // ServeInboundStreamAliases: installFlow
    | ReadEof(n: Side, k: nat)       // pump exit: retireFlow sets `retired`
    | Retire(n: Side, k: nat)        // idle or failed write: retireFlow sets `retired`
    | Unlink(n: Side, k: nat)        // rest of retireFlow: leave the table, close
    | Refuse(n: Side, k: nat)        // flow limit reached, router closed or peer not recognised: close
    | Shut(n: Side)                  // Close: the flow leaves the table and is reset

  type IDs = ids: Both<PeerID> | ids.a != ids.b witness Both("a", "b")

  const INITIAL := State([], Both(None, None), Both(NoDial, NoDial))

  predicate StatusIs(st: State, n: Side, k: nat, s: Status) {
    k < |st.streams| && st.streams[k].status.At(n) == s
  }

  predicate HasLive(st: State, n: Side) {
    st.table.At(n).Some? && StatusIs(st, n, st.table.At(n).value, Live)
  }

  function SetStatus(streams: seq<Stream>, n: Side, k: nat, s: Status): seq<Stream>
    requires k < |streams|
  {
    streams[k := streams[k].(status := streams[k].status.Put(n, s))]
  }

  /** Closing at one end sends an EOF to the other. */
  function SendEof(streams: seq<Stream>, to: Side, k: nat): seq<Stream>
    requires k < |streams|
  {
    streams[k := streams[k].(eof := streams[k].eof.Put(to, true))]
  }

  function View(ids: IDs, st: State, n: Side): Option<FlowView> {
    match st.table.At(n)
    case None => None
    case Some(k) =>
      if k < |st.streams| then
        Some(FlowView(ids.At(st.streams[k].opener), st.streams[k].status.At(n) != Live))
      else None
  }

  /** A flow that `n` drops from its table: retired unless somebody else is
      already retiring it, and its stream is closed. */
  function CloseEnd(streams: seq<Stream>, n: Side, k: nat): seq<Stream>
    requires k < |streams|
  {
    SendEof(if streams[k].status.At(n) == Live then SetStatus(streams, n, k, Gone) else streams, n.Other(), k)
  }

  /** installFlow at `n` for stream `k`. */
  function Install(ids: IDs, st: State, n: Side, k: nat): State
    requires k < |st.streams|
  {
    var m := n.Other();
    if Wins(ids.At(n), ids.At(m), View(ids, st, n), ids.At(st.streams[k].opener)) then
      var evicted := match st.table.At(n)
        case None => st.streams
        case Some(j) =>
          if j >= |st.streams| then st.streams else CloseEnd(st.streams, n, j);
      State(SetStatus(evicted, n, k, Live), st.table.Put(n, Some(k)), st.dial)
    else
      st.(streams := SendEof(SetStatus(st.streams, n, k, Gone), m, k))
  }

  predicate Enabled(st: State, act: Action) {
    match act
    case BeginDial(n) => st.dial.At(n) == NoDial && !HasLive(st, n)
    case DialFails(n) => st.dial.At(n) == Opening
    case Opens(n) => st.dial.At(n) == Opening
    case InstallOwn(n) => st.dial.At(n).Opened? && st.dial.At(n).stream < |st.streams|
    case EndDial(n) => st.dial.At(n) == Settled
    case Arrive(n, k) => StatusIs(st, n, k, Pending) && st.streams[k].opener == n.Other()
    case ReadEof(n, k) => k < |st.streams| && st.streams[k].eof.At(n) && !StatusIs(st, n, k, Pending)
    case Retire(n, k) => StatusIs(st, n, k, Live)
    case Unlink(n, k) => StatusIs(st, n, k, Closing)
    case Refuse(n, k) => StatusIs(st, n, k, Pending)
    case Shut(n) => st.table.At(n).Some? && st.table.At(n).value < |st.streams|
  }

  function Apply(ids: IDs, st: State, act: Action): State
    requires Enabled(st, act)
  {
    match act
    case BeginDial(n) => st.(dial := st.dial.Put(n, Opening))
    case DialFails(n) => st.(dial := st.dial.Put(n, NoDial))
    case Opens(n) =>
      st.(streams := st.streams + [Stream(n, Both(Pending, Pending), Both(false, false))],
          dial := st.dial.Put(n, Opened(|st.streams|)))
    case InstallOwn(n) =>
      Install(ids, st, n, st.dial.At(n).stream).(dial := st.dial.Put(n, Settled))
    case EndDial(n) => st.(dial := st.dial.Put(n, NoDial))
    case Arrive(n, k) => Install(ids, st, n, k)
    case ReadEof(n, k) =>
      var drained := st.streams[k := st.streams[k].(eof := st.streams[k].eof.Put(n, false))];
      st.(streams := if StatusIs(st, n, k, Live) then SetStatus(drained, n, k, Closing) else drained)
    case Retire(n, k) => st.(streams := SetStatus(st.streams, n, k, Closing))
    case Unlink(n, k) =>
      State(SendEof(SetStatus(st.streams, n, k, Gone), n.Other(), k),
            if st.table.At(n) == Some(k) then st.table.Put(n, None) else st.table, st.dial)
    case Refuse(n, k) =>
      State(SendEof(SetStatus(st.streams, n, k, Gone), n.Other(), k), st.table,
            if st.dial.At(n) == Opened(k) then st.dial.Put(n, Settled) else st.dial)
    case Shut(n) =>
      State(CloseEnd(st.streams, n, st.table.At(n).value), st.table.Put(n, None), st.dial)
  }

  /** A run: the states after each action of `acts`, starting from `st`. */
  ghost predicate Run(ids: IDs, st: State, acts: seq<Action>)
    decreases |acts|
  {
    acts == [] || (Enabled(st, acts[0]) && Run(ids, Apply(ids, st, acts[0]), acts[1..]))
  }

  ghost function After(ids: IDs, st: State, acts: seq<Action>): State
    requires Run(ids, st, acts)
    decreases |acts|
  {
    if acts == [] then st else After(ids, Apply(ids, st, acts[0]), acts[1..])
  }

  // ---- agreement of the two tables ----

  /** One end of stream `k`, as router `n` sees it: exactly the table's flow is
      live, its own dial holds its undecided stream, and an end that still counts
      on a stream the other end closed has an EOF coming. */
  ghost predicate EndOk(st: State, n: Side, k: nat)
    requires k < |st.streams|
  {
    var s, own := st.streams[k], st.streams[k].status.At(n);
    && (own == Live ==> st.table.At(n) == Some(k))
    && (st.table.At(n) == Some(k) ==> own == Live || own == Closing)
    && (st.dial.At(n) == Opened(k) <==> own == Pending && s.opener == n)
    && (s.status.At(n.Other()) == Gone && (own == Pending || own == Live) ==> s.eof.At(n))
  }

  ghost predicate InRange(st: State, n: Side) {
    && (st.table.At(n).Some? ==> st.table.At(n).value < |st.streams|)
    && (st.dial.At(n).Opened? ==> st.dial.At(n).stream < |st.streams|)
  }

  ghost predicate Inv(st: State) {
    && InRange(st, A) && InRange(st, B)
    && (forall k: nat :: k < |st.streams| ==> EndOk(st, A, k) && EndOk(st, B, k))
  }

  /** Nothing in flight: no undecided end, no EOF, no half-finished retirement, no dial. */
  ghost predicate Quiet(st: State) {
    && st.dial == Both(NoDial, NoDial)
    && forall k :: 0 <= k < |st.streams| ==>
         forall n: Side :: st.streams[k].status.At(n) != Pending && st.streams[k].status.At(n) != Closing && !st.streams[k].eof.At(n)
  }

  lemma StepKeepsInv(ids: IDs, st: State, act: Action)
    requires Inv(st) && Enabled(st, act)
    ensures Inv(Apply(ids, st, act))
  {
    match act
    case InstallOwn(n) =>
      assert EndOk(st, n, st.dial.At(n).stream);
      InstallKeepsInv(ids, st, n, st.dial.At(n).stream);
    case Arrive(n, k) =>
      assert EndOk(st, n, k);
      InstallKeepsInv(ids, st, n, k);
    case _ => PlainStepKeepsInv(ids, st, act);
  }

  lemma PlainStepKeepsInv(ids: IDs, st: State, act: Action)
    requires Inv(st) && Enabled(st, act) && !act.InstallOwn? && !act.Arrive?
    ensures Inv(Apply(ids, st, act))
  {
    var to := Apply(ids, st, act);
    forall k: nat | k < |to.streams| ensures EndOk(to, A, k) && EndOk(to, B, k) {
      if k < |st.streams| { PlainStepEnd(ids, st, act, k); }
    }
  }

  predicate OnDial(act: Action) {
    act.BeginDial? || act.DialFails? || act.Opens? || act.EndDial?
  }

  lemma DialStepEnd(ids: IDs, st: State, act: Action, k: nat)
    requires Enabled(st, act) && OnDial(act)
    requires k < |st.streams| && EndOk(st, A, k) && EndOk(st, B, k)
    ensures k < |Apply(ids, st, act).streams|
    ensures EndOk(Apply(ids, st, act), A, k) && EndOk(Apply(ids, st, act), B, k)
  {
  }

  lemma CloseStepEnd(ids: IDs, st: State, act: Action, k: nat)
    requires Enabled(st, act) && (act.Unlink? || act.Refuse? || act.Shut?)
    requires k < |st.streams| && EndOk(st, A, k) && EndOk(st, B, k)
    ensures k < |Apply(ids, st, act).streams|
    ensures EndOk(Apply(ids, st, act), A, k) && EndOk(Apply(ids, st, act), B, k)
  {
  }

  lemma PlainStepEnd(ids: IDs, st: State, act: Action, k: nat)
    requires Enabled(st, act) && !act.InstallOwn? && !act.Arrive?
    requires k < |st.streams| && EndOk(st, A, k) && EndOk(st, B, k)
    ensures k < |Apply(ids, st, act).streams|
    ensures EndOk(Apply(ids, st, act), A, k) && EndOk(Apply(ids, st, act), B, k)
  {
    if OnDial(act) {
      DialStepEnd(ids, st, act, k);
    } else if act.Unlink? || act.Refuse? || act.Shut? {
      CloseStepEnd(ids, st, act, k);
    }
  }

  ghost predicate Won(ids: IDs, st: State, n: Side, k: nat)
    requires k < |st.streams|
  {
    Wins(ids.At(n), ids.At(n.Other()), View(ids, st, n), ids.At(st.streams[k].opener))
  }

  /** installFlow, end by end: the candidate becomes live or closed, the flow it
      replaces is closed, and each closed stream sends an EOF to the other end. */
  lemma InstallEffect(ids: IDs, st: State, n: Side, k: nat, m: Side, j: nat)
    requires Inv(st) && StatusIs(st, n, k, Pending) && j < |st.streams|
    ensures var to := Install(ids, st, n, k);
      && |to.streams| == |st.streams|
      && to.streams[j].opener == st.streams[j].opener
      && to.streams[j].status.At(m) ==
           (if m == n && j == k then (if Won(ids, st, n, k) then Live else Gone)
            else if m == n && st.table.At(n) == Some(j) && Won(ids, st, n, k) && StatusIs(st, n, j, Live) then Gone
            else st.streams[j].status.At(m))
      && to.streams[j].eof.At(m) ==
           (st.streams[j].eof.At(m) ||
            (m == n.Other() && (if Won(ids, st, n, k) then st.table.At(n) == Some(j) else j == k)))
      && to.table.At(m) == (if m == n && Won(ids, st, n, k) then Some(k) else st.table.At(m))
      && to.dial == st.dial
  {
    assert EndOk(st, n, k);
  }

  ghost function Installed(ids: IDs, st: State, n: Side, k: nat): State
    requires k < |st.streams|
  {
    var to := Install(ids, st, n, k);
    if st.streams[k].opener == n then to.(dial := to.dial.Put(n, Settled)) else to
  }

  /** Installing keeps the invariant once the dial that held the stream moves on. */
  lemma InstallKeepsInv(ids: IDs, st: State, n: Side, k: nat)
    requires Inv(st) && StatusIs(st, n, k, Pending)
    ensures Inv(Installed(ids, st, n, k))
  {
    var to := Installed(ids, st, n, k);
    assert EndOk(st, n, k);
    InstallEffect(ids, st, n, k, A, k);
    InstallEffect(ids, st, n, k, B, k);
    forall j: nat | j < |to.streams| ensures EndOk(to, A, j) && EndOk(to, B, j) {
      InstallEffect(ids, st, n, k, A, j);
      InstallEffect(ids, st, n, k, B, j);
      assert EndOk(st, A, j) && EndOk(st, B, j);
    }
  }

  lemma {:induction false} RunKeepsInv(ids: IDs, st: State, acts: seq<Action>)
    requires Inv(st) && Run(ids, st, acts)
    ensures Inv(After(ids, st, acts))
    decreases |acts|
  {
    if acts != [] {
      StepKeepsInv(ids, st, acts[0]);
      RunKeepsInv(ids, Apply(ids, st, acts[0]), acts[1..]);
    }
  }

  /** A live flow is live at the other end too, still undecided there, being
      retired there, or its EOF is on its way back. */
  lemma LiveAccounted(st: State, n: Side, k: nat)
    requires Inv(st) && StatusIs(st, n, k, Live)
    ensures st.table.At(n) == Some(k)
    ensures (StatusIs(st, n.Other(), k, Live) && st.table.At(n.Other()) == Some(k)) ||
      StatusIs(st, n.Other(), k, Pending) || StatusIs(st, n.Other(), k, Closing) || st.streams[k].eof.At(n)
  {
    assert EndOk(st, A, k) && EndOk(st, B, k);
  }

  /** In every run, whenever nothing is in flight both tables hold the same live
      stream or neither holds one. */
  lemma QuietTablesAgree(ids: IDs, acts: seq<Action>)
    requires Run(ids, INITIAL, acts) && Quiet(After(ids, INITIAL, acts))
    ensures var st := After(ids, INITIAL, acts);
      st.table.a == st.table.b && (st.table.a.Some? ==> HasLive(st, A) && HasLive(st, B))
  {
    RunKeepsInv(ids, INITIAL, acts);
    var st := After(ids, INITIAL, acts);
    forall n: Side | st.table.At(n).Some? ensures st.table.At(n.Other()) == st.table.At(n) && HasLive(st, n) {
      var k := st.table.At(n).value;
      assert EndOk(st, A, k) && EndOk(st, B, k);
      LiveAccounted(st, n, k);
    }
  }

  // ---- which of two streams stays ----

  /** The end of the flow is being retired or closed. */
  predicate Dying(st: State, n: Side, j: nat) {
    StatusIs(st, n, j, Closing) || StatusIs(st, n, j, Gone)
  }

  /** installFlow keeps the candidate exactly when the peer has no healthy flow,
      the candidate's opener has the smaller ID of the two, or the candidate is
      the other side's redial of its own flow. */
  lemma ArbitrationExactly(ids: IDs, st: State, n: Side, k: nat)
    requires Inv(st) && StatusIs(st, n, k, Pending)
    ensures var to, t := Install(ids, st, n, k), st.table.At(n);
      var takes := t == None || Dying(st, n, t.value) ||
        (if st.streams[t.value].opener == st.streams[k].opener then st.streams[k].opener == n.Other()
         else Less(ids.At(st.streams[k].opener), ids.At(st.streams[t.value].opener)));
      && (takes ==> to.table.At(n) == Some(k) && StatusIs(to, n, k, Live))
      && (takes && t.Some? ==> Dying(to, n, t.value) && to.streams[t.value].eof.At(n.Other()))
      && (!takes ==> to.table == st.table && StatusIs(to, n, t.value, Live))
      && (!takes ==> StatusIs(to, n, k, Gone) && to.streams[k].eof.At(n.Other()))
  {
    assert EndOk(st, n, k);
    if st.table.At(n).Some? { assert EndOk(st, n, st.table.At(n).value); }
  }

  /** In every run: a stream that arrives where an older flow of the same remote
      opener is in the table takes its place, and the older one is closed. */
  lemma RedialReplaces(ids: IDs, acts: seq<Action>, n: Side, k: nat, j: nat)
    requires Run(ids, INITIAL, acts) && Enabled(After(ids, INITIAL, acts), Arrive(n, k))
    requires var st := After(ids, INITIAL, acts);
      st.table.At(n) == Some(j) && j < |st.streams| && st.streams[j].opener == n.Other()
    ensures var st := After(ids, INITIAL, acts);
      var to := Apply(ids, st, Arrive(n, k));
      && to.table.At(n) == Some(k) && StatusIs(to, n, k, Live)
      && Dying(to, n, j) && to.streams[j].eof.At(n.Other())
      && (j < k ==> Dying(st, n.Other(), j))
  {
    RunKeepsInv(ids, INITIAL, acts);
    var st := After(ids, INITIAL, acts);
    ArbitrationExactly(ids, st, n, k);
    OwnStreamsInTurn(ids, acts, n.Other());
    assert k != j by { assert EndOk(st, n, k); }
  }

  /** In every run: a stream that arrives where the flow in the table is being
      retired is installed, whoever opened the two. */
  lemma RetiredYields(ids: IDs, acts: seq<Action>, n: Side, k: nat)
    requires Run(ids, INITIAL, acts) && Enabled(After(ids, INITIAL, acts), Arrive(n, k))
    requires var st := After(ids, INITIAL, acts); st.table.At(n).Some? && Dying(st, n, st.table.At(n).value)
    ensures var to := Apply(ids, After(ids, INITIAL, acts), Arrive(n, k));
      to.table.At(n) == Some(k) && StatusIs(to, n, k, Live)
  {
    RunKeepsInv(ids, INITIAL, acts);
    ArbitrationExactly(ids, After(ids, INITIAL, acts), n, k);
  }

  /** A router's own dial never displaces its own live flow. */
  lemma OwnDialYields(ids: IDs, st: State, n: Side, j: nat)
    requires Inv(st) && Enabled(st, InstallOwn(n))
    requires StatusIs(st, n, j, Live) && st.streams[j].opener == n
    ensures var to := Apply(ids, st, InstallOwn(n));
      to.table == st.table && HasLive(to, n) && StatusIs(to, n, st.dial.At(n).stream, Gone)
  {
    assert EndOk(st, n, st.dial.At(n).stream) && EndOk(st, n, j);
    ArbitrationExactly(ids, st, n, st.dial.At(n).stream);
  }

  /** Before a router opens a stream it has retired all it opened before. */
  ghost predicate InTurn(st: State, n: Side) {
    && (forall j: nat, k: nat :: (j < k < |st.streams| && st.streams[j].opener == n && st.streams[k].opener == n) ==>
          Dying(st, n, j))
    && (st.dial.At(n) == Opening ==> forall j: nat :: j < |st.streams| && st.streams[j].opener == n ==> Dying(st, n, j))
  }

  /** An EOF stays on its way until it is read. */
  lemma EofLasts(ids: IDs, st: State, act: Action, n: Side, j: nat)
    requires Inv(st) && Enabled(st, act) && j < |st.streams| && act != ReadEof(n, j)
    ensures st.streams[j].eof.At(n) ==> j < |Apply(ids, st, act).streams| && Apply(ids, st, act).streams[j].eof.At(n)
  {
    match act
    case InstallOwn(m) =>
      assert EndOk(st, m, st.dial.At(m).stream);
      InstallEffect(ids, st, m, st.dial.At(m).stream, n, j);
    case Arrive(m, k) => InstallEffect(ids, st, m, k, n, j);
    case _ =>
  }

  /** No action reorders streams or changes who opened them. */
  lemma OpenersLast(ids: IDs, st: State, act: Action, j: nat)
    requires Enabled(st, act) && j < |st.streams|
    ensures var to := Apply(ids, st, act);
      && |st.streams| <= |to.streams| && to.streams[j].opener == st.streams[j].opener
      && (forall k: nat :: |st.streams| <= k < |to.streams| ==> act == Opens(to.streams[k].opener))
  {
  }

  /** No action revives an end. */
  lemma DeathLasts(ids: IDs, st: State, act: Action, n: Side, j: nat)
    requires Inv(st) && Enabled(st, act) && j < |st.streams|
    ensures Dying(st, n, j) ==> Dying(Apply(ids, st, act), n, j)
  {
    match act
    case InstallOwn(m) =>
      assert EndOk(st, m, st.dial.At(m).stream);
      InstallEffect(ids, st, m, st.dial.At(m).stream, n, j);
    case Arrive(m, k) => InstallEffect(ids, st, m, k, n, j);
    case _ =>
  }

  lemma InTurnStep(ids: IDs, st: State, act: Action, n: Side)
    requires Inv(st) && InTurn(st, n) && Enabled(st, act)
    ensures InTurn(Apply(ids, st, act), n)
  {
    var to := Apply(ids, st, act);
    forall j: nat | j < |st.streams| ensures to.streams[j].opener == st.streams[j].opener && (Dying(st, n, j) ==> Dying(to, n, j)) {
      OpenersLast(ids, st, act, j);
      DeathLasts(ids, st, act, n, j);
    }
    if act == BeginDial(n) { DialsWhenIdle(st, n); }
    if st.streams != [] { OpenersLast(ids, st, act, 0); }
    DialMoves(ids, st, act, n);
  }

  /** A router without dial and live flow has retired all its own streams. */
  lemma DialsWhenIdle(st: State, n: Side)
    requires Inv(st) && Enabled(st, BeginDial(n))
    ensures forall j: nat :: j < |st.streams| && st.streams[j].opener == n ==> Dying(st, n, j)
  {
    forall j: nat | j < |st.streams| && st.streams[j].opener == n ensures Dying(st, n, j) {
      assert EndOk(st, n, j);
    }
  }

  lemma DialMoves(ids: IDs, st: State, act: Action, n: Side)
    requires Enabled(st, act)
    ensures var to := Apply(ids, st, act);
      && (to.dial.At(n) == Opening ==> act == BeginDial(n) || st.dial.At(n) == Opening)
      && (act == Opens(n) ==> st.dial.At(n) == Opening && to.dial.At(n) != Opening)
      && (act.Opens? ==> |to.streams| == |st.streams| + 1)
      && (act.Opens? ==> to.streams[..|st.streams|] == st.streams && to.streams[|st.streams|].opener == act.n)
      && (!act.Opens? ==> |to.streams| == |st.streams|)
  {
  }

  lemma {:induction false} InTurnRun(ids: IDs, st: State, acts: seq<Action>, n: Side)
    requires Inv(st) && InTurn(st, n) && Run(ids, st, acts)
    ensures InTurn(After(ids, st, acts), n)
    decreases |acts|
  {
    if acts != [] {
      StepKeepsInv(ids, st, acts[0]);
      InTurnStep(ids, st, acts[0], n);
      InTurnRun(ids, Apply(ids, st, acts[0]), acts[1..], n);
    }
  }

  /** In every run a router has retired every stream it opened before its latest. */
  lemma OwnStreamsInTurn(ids: IDs, acts: seq<Action>, n: Side)
    requires Run(ids, INITIAL, acts)
    ensures var st := After(ids, INITIAL, acts);
      forall j: nat, k: nat :: (j < k < |st.streams| && st.streams[j].opener == n && st.streams[k].opener == n) ==>
        Dying(st, n, j)
  {
    InTurnRun(ids, INITIAL, acts, n);
  }

  // ---- how a stream comes and goes ----

  lemma RunFrom(ids: IDs, st: State, act: Action, rest: seq<Action>)
    requires Enabled(st, act) && Run(ids, Apply(ids, st, act), rest)
    ensures Run(ids, st, [act] + rest) && After(ids, st, [act] + rest) == After(ids, Apply(ids, st, act), rest)
  {
    assert ([act] + rest)[1..] == rest;
  }

  /** From rest without a flow, the dial of either router connects both. */
  lemma DialConnects(ids: IDs, st: State, n: Side)
    requires Inv(st) && Quiet(st) && st.table == Both(None, None)
    ensures var k := |st.streams|;
      var acts := [BeginDial(n), Opens(n)] + [InstallOwn(n), EndDial(n), Arrive(n.Other(), k)];
      && Run(ids, st, acts)
      && After(ids, st, acts) ==
        State(st.streams + [Stream(n, Both(Live, Live), Both(false, false))], Both(Some(k), Some(k)), st.dial)
  {
    var k, m := |st.streams|, n.Other();
    var s1 := Apply(ids, st, BeginDial(n));
    var s2 := Apply(ids, s1, Opens(n));
    assert s2.streams[k] == Stream(n, Both(Pending, Pending), Both(false, false));
    var s3 := Apply(ids, s2, InstallOwn(n));
    var s4 := Apply(ids, s3, EndDial(n));
    var s5 := Apply(ids, s4, Arrive(m, k));
    assert s5.streams == st.streams + [Stream(n, Both(Live, Live), Both(false, false))];
    RunFrom(ids, s4, Arrive(m, k), []);
    assert [Arrive(m, k)] + [] == [Arrive(m, k)];
    RunFrom(ids, s3, EndDial(n), [Arrive(m, k)]);
    assert [EndDial(n)] + [Arrive(m, k)] == [EndDial(n), Arrive(m, k)];
    RunFrom(ids, s2, InstallOwn(n), [EndDial(n), Arrive(m, k)]);
    assert [InstallOwn(n)] + [EndDial(n), Arrive(m, k)] == [InstallOwn(n), EndDial(n), Arrive(m, k)];
    RunFrom(ids, s1, Opens(n), [InstallOwn(n), EndDial(n), Arrive(m, k)]);
    RunFrom(ids, st, BeginDial(n), [Opens(n)] + [InstallOwn(n), EndDial(n), Arrive(m, k)]);
    assert [BeginDial(n)] + ([Opens(n)] + [InstallOwn(n), EndDial(n), Arrive(m, k)]) ==
      [BeginDial(n), Opens(n)] + [InstallOwn(n), EndDial(n), Arrive(m, k)];
  }

  /** A live flow that one router retires, after idling or a failed write, leaves
      both tables once the other router has read the end of the stream. */
  lemma RetirementSpreads(ids: IDs, st: State, n: Side, k: nat)
    requires Inv(st) && StatusIs(st, A, k, Live) && StatusIs(st, B, k, Live) && !st.streams[k].eof.At(n)
    ensures var m := n.Other();
      var acts := [Retire(n, k), Unlink(n, k)] + [ReadEof(m, k), Unlink(m, k)];
      && Run(ids, st, acts)
      && After(ids, st, acts) == State(
        st.streams[k := Stream(st.streams[k].opener, Both(Gone, Gone), Both(false, false).Put(n, true))], Both(None, None), st.dial)
  {
    var m := n.Other();
    assert EndOk(st, A, k) && EndOk(st, B, k);
    var s1 := Apply(ids, st, Retire(n, k));
    var s2 := Apply(ids, s1, Unlink(n, k));
    var s3 := Apply(ids, s2, ReadEof(m, k));
    var s4 := Apply(ids, s3, Unlink(m, k));
    RunFrom(ids, s3, Unlink(m, k), []);
    assert [Unlink(m, k)] + [] == [Unlink(m, k)];
    RunFrom(ids, s2, ReadEof(m, k), [Unlink(m, k)]);
    assert [ReadEof(m, k)] + [Unlink(m, k)] == [ReadEof(m, k), Unlink(m, k)];
    RunFrom(ids, s1, Unlink(n, k), [ReadEof(m, k), Unlink(m, k)]);
    RunFrom(ids, st, Retire(n, k), [Unlink(n, k)] + [ReadEof(m, k), Unlink(m, k)]);
    assert [Retire(n, k)] + ([Unlink(n, k)] + [ReadEof(m, k), Unlink(m, k)]) ==
      [Retire(n, k), Unlink(n, k)] + [ReadEof(m, k), Unlink(m, k)];
  }

  // ---- convergence without failures ----

  predicate Failure(act: Action) {
    act.DialFails? || act.Retire? || act.Refuse? || act.Shut?
  }

  ghost predicate SmoothRun(ids: IDs, st: State, acts: seq<Action>) {
    Run(ids, st, acts) && forall i :: 0 <= i < |acts| ==> !Failure(acts[i])
  }

  /** The side with the smaller peer ID. */
  function Lower(ids: IDs): Side {
    if Less(ids.a, ids.b) then A else B
  }

  /** The lower side's stream is undecided or live at both ends, and nobody closes it. */
  ghost predicate Winning(st: State, k: nat)
    requires k < |st.streams|
  {
    var s := st.streams[k];
    && (s.status.a == Pending || s.status.a == Live) && (s.status.b == Pending || s.status.b == Live)
    && !s.eof.a && !s.eof.b
  }

  ghost predicate SmoothInv(ids: IDs, st: State) {
    && (forall k: nat :: k < |st.streams| && st.streams[k].opener == Lower(ids) ==> Winning(st, k))
    && (forall j: nat, k: nat :: (j < |st.streams| && k < |st.streams| &&
          st.streams[j].opener == Lower(ids) && st.streams[k].opener == Lower(ids)) ==> j == k)
    && (st.dial.At(Lower(ids)) == Opening ==>
          forall k: nat :: k < |st.streams| ==> st.streams[k].opener != Lower(ids))
  }

  lemma LowerWins(ids: IDs)
    ensures Less(ids.At(Lower(ids)), ids.At(Lower(ids).Other()))
    ensures !Less(ids.At(Lower(ids).Other()), ids.At(Lower(ids)))
  {
    LessTotal(ids.a, ids.b);
    LessAsymmetric(ids.At(Lower(ids)), ids.At(Lower(ids).Other()));
  }

  /** The arbitration keeps the lower side's stream at both ends. */
  lemma InstallKeepsWinner(ids: IDs, st: State, n: Side, k: nat)
    requires Inv(st) && SmoothInv(ids, st) && StatusIs(st, n, k, Pending)
    ensures forall j: nat :: j < |st.streams| && st.streams[j].opener == Lower(ids) ==>
      Winning(Install(ids, st, n, k), j)
    ensures forall j: nat :: j < |st.streams| ==> Install(ids, st, n, k).streams[j].opener == st.streams[j].opener
    ensures |Install(ids, st, n, k).streams| == |st.streams|
  {
    LowerWins(ids);
    assert EndOk(st, n, k);
    InstallEffect(ids, st, n, k, A, k);
    forall j: nat | j < |st.streams|
      ensures Install(ids, st, n, k).streams[j].opener == st.streams[j].opener
      ensures st.streams[j].opener == Lower(ids) ==> Winning(Install(ids, st, n, k), j)
    {
      InstallEffect(ids, st, n, k, A, j);
      InstallEffect(ids, st, n, k, B, j);
      assert EndOk(st, A, j) && EndOk(st, B, j);
    }
  }

  lemma SmoothInstall(ids: IDs, st: State, n: Side, k: nat)
    requires Inv(st) && SmoothInv(ids, st) && StatusIs(st, n, k, Pending)
    ensures SmoothInv(ids, Install(ids, st, n, k)) && Install(ids, st, n, k).dial == st.dial
  {
    InstallKeepsWinner(ids, st, n, k);
  }

  /** The lower side does not dial while its stream exists. */
  lemma SmoothDial(ids: IDs, st: State, n: Side)
    requires Inv(st) && SmoothInv(ids, st) && Enabled(st, BeginDial(n))
    ensures SmoothInv(ids, Apply(ids, st, BeginDial(n)))
  {
    if n == Lower(ids) {
      forall k: nat | k < |st.streams| ensures st.streams[k].opener != n {
        assert EndOk(st, n, k);
        assert st.streams[k].opener == n ==> Winning(st, k);
      }
    }
  }

  /** The other actions leave a stream that nobody closed as it is. */
  lemma SmoothOther(ids: IDs, st: State, act: Action)
    requires Inv(st) && SmoothInv(ids, st) && Enabled(st, act) && !Failure(act)
    requires act.EndDial? || act.ReadEof? || act.Unlink?
    ensures SmoothInv(ids, Apply(ids, st, act))
  {
  }

  lemma SmoothStep(ids: IDs, st: State, act: Action)
    requires Inv(st) && SmoothInv(ids, st) && Enabled(st, act) && !Failure(act)
    ensures SmoothInv(ids, Apply(ids, st, act))
  {
    match act
    case InstallOwn(n) =>
      assert EndOk(st, n, st.dial.At(n).stream);
      SmoothInstall(ids, st, n, st.dial.At(n).stream);
    case Arrive(n, k) => SmoothInstall(ids, st, n, k);
    case BeginDial(n) => SmoothDial(ids, st, n);
    case Opens(n) =>
    case _ => SmoothOther(ids, st, act);
  }

  lemma {:induction false} SmoothRunKeeps(ids: IDs, st: State, acts: seq<Action>)
    requires Inv(st) && SmoothInv(ids, st) && SmoothRun(ids, st, acts)
    ensures Inv(After(ids, st, acts)) && SmoothInv(ids, After(ids, st, acts))
    decreases |acts|
  {
    if acts != [] {
      StepKeepsInv(ids, st, acts[0]);
      SmoothStep(ids, st, acts[0]);
      SmoothRunKeeps(ids, Apply(ids, st, acts[0]), acts[1..]);
    }
  }

  /** Without failures the lower side's stream is never closed by either end,
      there is only one, and when nothing is in flight both tables hold it. */
  lemma LowerStreamWins(ids: IDs, acts: seq<Action>, k: nat)
    requires SmoothRun(ids, INITIAL, acts)
    requires k < |After(ids, INITIAL, acts).streams| && After(ids, INITIAL, acts).streams[k].opener == Lower(ids)
    ensures var st := After(ids, INITIAL, acts);
      && Winning(st, k)
      && (forall j: nat :: j < |st.streams| && st.streams[j].opener == Lower(ids) ==> j == k)
      && (Quiet(st) ==> st.table == Both(Some(k), Some(k)))
  {
    SmoothRunKeeps(ids, INITIAL, acts);
    var st := After(ids, INITIAL, acts);
    assert EndOk(st, A, k) && EndOk(st, B, k);
    if Quiet(st) {
      assert st.streams[k].status.At(A) != Pending && st.streams[k].status.At(B) != Pending;
    }
  }

  /** The lower side's stream has been installed at the higher side. */
  ghost predicate Reached(ids: IDs, st: State) {
    exists k: nat :: k < |st.streams| && st.streams[k].opener == Lower(ids) && StatusIs(st, Lower(ids).Other(), k, Live)
  }

  /** From then on no new dial starts at either router. */
  lemma NoNewDial(ids: IDs, st: State, n: Side)
    requires Inv(st) && SmoothInv(ids, st) && Reached(ids, st)
    ensures !Enabled(st, BeginDial(n))
  {
    var k: nat :| k < |st.streams| && st.streams[k].opener == Lower(ids) && StatusIs(st, Lower(ids).Other(), k, Live);
    assert EndOk(st, A, k) && EndOk(st, B, k) && Winning(st, k);
  }

  // ---- the decreasing measure ----

  function StatusWeight(s: Status): nat {
    match s case Pending => 4 case Live => 2 case Closing => 2 case Gone => 0
  }

  function EofWeight(b: bool): nat { if b then 1 else 0 }

  function Weight(s: Stream): nat {
    StatusWeight(s.status.a) + StatusWeight(s.status.b) + EofWeight(s.eof.a) + EofWeight(s.eof.b)
  }

  function TotalWeight(streams: seq<Stream>): nat {
    if streams == [] then 0 else TotalWeight(streams[..|streams| - 1]) + Weight(streams[|streams| - 1])
  }

  function DialWeight(d: Dial): nat {
    match d case NoDial => 0 case Opening => 11 case Opened(_) => 2 case Settled => 1
  }

  /** Pending arrivals, EOFs, retirements and dials still to be worked off. */
  function Measure(st: State): nat {
    TotalWeight(st.streams) + DialWeight(st.dial.a) + DialWeight(st.dial.b)
  }

  lemma {:induction false} WeightUpdate(streams: seq<Stream>, k: nat, s: Stream)
    requires k < |streams|
    ensures TotalWeight(streams[k := s]) == TotalWeight(streams) - Weight(streams[k]) + Weight(s)
  {
    var last := |streams| - 1;
    if k == last {
      assert streams[k := s][..last] == streams[..last];
    } else {
      WeightUpdate(streams[..last], k, s);
      assert streams[k := s][..last] == streams[..last][k := s];
    }
  }

  lemma WonWeight(ids: IDs, st: State, n: Side, k: nat)
    requires Inv(st) && StatusIs(st, n, k, Pending) && Won(ids, st, n, k)
    ensures TotalWeight(Install(ids, st, n, k).streams) < TotalWeight(st.streams)
  {
    assert EndOk(st, n, k);
    if st.table.At(n).Some? {
      var j := st.table.At(n).value;
      assert EndOk(st, n, j);
      CloseEndWeight(st.streams, n, j);
      LiveWeight(CloseEnd(st.streams, n, j), n, k);
    } else {
      LiveWeight(st.streams, n, k);
    }
  }

  /** The stream after `n` closed its end. */
  function Closed(s: Stream, n: Side): Stream {
    var gone := if s.status.At(n) == Live then s.(status := s.status.Put(n, Gone)) else s;
    gone.(eof := gone.eof.Put(n.Other(), true))
  }

  lemma ClosedWeight(s: Stream, n: Side)
    ensures Weight(Closed(s, n)) <= Weight(s) + 1
  {
  }

  lemma CloseEndIs(streams: seq<Stream>, n: Side, j: nat)
    requires j < |streams|
    ensures CloseEnd(streams, n, j) == streams[j := Closed(streams[j], n)]
  {
  }

  /** Dropping a flow costs at most the EOF it sends. */
  lemma CloseEndWeight(streams: seq<Stream>, n: Side, j: nat)
    requires j < |streams|
    ensures TotalWeight(CloseEnd(streams, n, j)) <= TotalWeight(streams) + 1
  {
    WeightUpdate(streams, j, Closed(streams[j], n));
    ClosedWeight(streams[j], n);
    CloseEndIs(streams, n, j);
  }

  lemma LiveWeight(streams: seq<Stream>, n: Side, k: nat)
    requires k < |streams| && streams[k].status.At(n) == Pending
    ensures TotalWeight(SetStatus(streams, n, k, Live)) == TotalWeight(streams) - 2
  {
    WeightUpdate(streams, k, streams[k].(status := streams[k].status.Put(n, Live)));
  }

  lemma InstallWeight(ids: IDs, st: State, n: Side, k: nat)
    requires Inv(st) && StatusIs(st, n, k, Pending)
    ensures TotalWeight(Install(ids, st, n, k).streams) < TotalWeight(st.streams)
  {
    if Won(ids, st, n, k) {
      WonWeight(ids, st, n, k);
    } else {
      CloseWeight(ids, st, n, k);
    }
  }

  lemma OpensWeight(ids: IDs, st: State, n: Side)
    requires Enabled(st, Opens(n))
    ensures Measure(Apply(ids, st, Opens(n))) < Measure(st)
  {
    var to := Apply(ids, st, Opens(n)).streams;
    assert to[..|to| - 1] == st.streams;
  }

  lemma ReadEofWeight(ids: IDs, st: State, n: Side, k: nat)
    requires Enabled(st, ReadEof(n, k))
    ensures TotalWeight(Apply(ids, st, ReadEof(n, k)).streams) < TotalWeight(st.streams)
    ensures Apply(ids, st, ReadEof(n, k)).dial == st.dial
  {
    var s := st.streams[k];
    var drained := s.(eof := s.eof.Put(n, false));
    var end := if s.status.At(n) == Live then drained.(status := s.status.Put(n, Closing)) else drained;
    assert Apply(ids, st, ReadEof(n, k)).streams == st.streams[k := end];
    WeightUpdate(st.streams, k, end);
  }

  /** Every action but a new dial and a retirement by failure works something off. */
  lemma MeasureDecreases(ids: IDs, st: State, act: Action)
    requires Inv(st) && Enabled(st, act) && !act.BeginDial?
    requires !act.Retire? && !act.Shut?
    ensures Measure(Apply(ids, st, act)) < Measure(st)
  {
    match act
    case InstallOwn(n) =>
      assert EndOk(st, n, st.dial.At(n).stream);
      InstallWeight(ids, st, n, st.dial.At(n).stream);
    case Arrive(n, k) => InstallWeight(ids, st, n, k);
    case Opens(n) => OpensWeight(ids, st, n);
    case ReadEof(n, k) => ReadEofWeight(ids, st, n, k);
    case Unlink(n, k) =>
      CloseWeight(ids, st, n, k);
    case Refuse(n, k) =>
      CloseWeight(ids, st, n, k);
    case _ =>
  }

  lemma CloseWeight(ids: IDs, st: State, n: Side, k: nat)
    requires StatusIs(st, n, k, Closing) || StatusIs(st, n, k, Pending)
    ensures TotalWeight(SendEof(SetStatus(st.streams, n, k, Gone), n.Other(), k)) < TotalWeight(st.streams)
  {
    var s := st.streams[k];
    var gone := s.(status := s.status.Put(n, Gone));
    WeightUpdate(st.streams, k, gone.(eof := gone.eof.Put(n.Other(), true)));
    assert SendEof(SetStatus(st.streams, n, k, Gone), n.Other(), k) ==
      st.streams[k := gone.(eof := gone.eof.Put(n.Other(), true))];
  }

  /** While something is in flight, some action other than a dial is possible. */
  lemma BusyMoves(ids: IDs, st: State) returns (act: Action)
    requires Inv(st) && !Quiet(st)
    ensures Enabled(st, act) && !act.BeginDial? && !Failure(act)
  {
    if st.dial.a != NoDial || st.dial.b != NoDial {
      var n := if st.dial.a != NoDial then A else B;
      act := match st.dial.At(n) case Opening => Opens(n) case Opened(_) => InstallOwn(n) case _ => EndDial(n);
    } else {
      var k, n: Side :| 0 <= k < |st.streams| &&
        (st.streams[k].status.At(n) == Pending || st.streams[k].status.At(n) == Closing || st.streams[k].eof.At(n));
      assert EndOk(st, A, k) && EndOk(st, B, k);
      act := if st.streams[k].status.At(n) == Pending then Arrive(n, k)
             else if st.streams[k].status.At(n) == Closing then Unlink(n, k) else ReadEof(n, k);
    }
  }

  lemma {:induction false} ReachedPersists(ids: IDs, st: State, acts: seq<Action>)
    requires Inv(st) && SmoothInv(ids, st) && Reached(ids, st) && SmoothRun(ids, st, acts)
    ensures Reached(ids, After(ids, st, acts))
    ensures |acts| + Measure(After(ids, st, acts)) <= Measure(st)
    decreases |acts|
  {
    if acts != [] {
      NoNewDial(ids, st, A);
      NoNewDial(ids, st, B);
      var next := Apply(ids, st, acts[0]);
      MeasureDecreases(ids, st, acts[0]);
      StepKeepsInv(ids, st, acts[0]);
      SmoothStep(ids, st, acts[0]);
      ReachedStep(ids, st, acts[0]);
      ReachedPersists(ids, next, acts[1..]);
    }
  }

  lemma ReachedStep(ids: IDs, st: State, act: Action)
    requires Inv(st) && SmoothInv(ids, st) && Reached(ids, st) && Enabled(st, act) && !Failure(act)
    ensures Reached(ids, Apply(ids, st, act))
  {
    var h := Lower(ids).Other();
    var k: nat :| k < |st.streams| && st.streams[k].opener == Lower(ids) && StatusIs(st, h, k, Live);
    assert EndOk(st, A, k) && EndOk(st, B, k) && Winning(st, k);
    StepKeepsInv(ids, st, act);
    SmoothStep(ids, st, act);
    match act
    case InstallOwn(n) => StillLive(ids, st, n, st.dial.At(n).stream, k);
    case Arrive(n, j) => StillLive(ids, st, n, j, k);
    case BeginDial(n) => NoNewDial(ids, st, n);
    case _ => OthersKeepLive(ids, st, act, h, k);
  }

  lemma OthersKeepLive(ids: IDs, st: State, act: Action, h: Side, k: nat)
    requires Enabled(st, act) && !Failure(act) && !act.InstallOwn? && !act.Arrive?
    requires StatusIs(st, h, k, Live) && !st.streams[k].eof.At(h)
    ensures StatusIs(Apply(ids, st, act), h, k, Live)
    ensures Apply(ids, st, act).streams[k].opener == st.streams[k].opener
  {
  }

  lemma StillLive(ids: IDs, st: State, n: Side, j: nat, k: nat)
    requires Inv(st) && SmoothInv(ids, st) && (StatusIs(st, n, j, Pending) || st.dial.At(n) == Opened(j))
    requires k < |st.streams| && st.streams[k].opener == Lower(ids) && StatusIs(st, Lower(ids).Other(), k, Live)
    requires j < |st.streams|
    ensures StatusIs(Install(ids, st, n, j), Lower(ids).Other(), k, Live)
    ensures Install(ids, st, n, j).streams[k].opener == Lower(ids)
  {
    assert EndOk(st, n, j);
    InstallKeepsWinner(ids, st, n, j);
    InstallEffect(ids, st, n, j, Lower(ids).Other(), k);
    assert Winning(Install(ids, st, n, j), k);
  }
}
