/** Which address is tried before which (pkg/p2pkit/reachability.go): the order of
    the kinds of addresses, and what the cleaned list makes of it. */
module UnderlayRanks {
  import opened Underlay

  /** The kinds of addresses, best first. */
  datatype Kind =
    | GlobalV6 | PrimaryV4 | PrivateV4 | PublicV4 | UniqueLocalV6 | OnTunnel | Unclassed | OnHostBridge | OnLinkOnly

  const BEST_FIRST: seq<Kind> :=
    [GlobalV6, PrimaryV4, PrivateV4, PublicV4, UniqueLocalV6, OnTunnel, Unclassed, OnHostBridge, OnLinkOnly]

  ghost predicate Before(k: Kind, l: Kind) {
    exists i, j :: 0 <= i < j < |BEST_FIRST| && BEST_FIRST[i] == k && BEST_FIRST[j] == l
  }

  /** Reached over its own IP: not relayed, no loopback, no wildcard. */
  predicate Direct(a: Multiaddr) {
    a.ip.Some? && !a.circuit && !IsLoopback(a.ip.value) && !IsUnspecified(a.ip.value)
  }

  predicate LinkOnly(a: Multiaddr) { Direct(a) && IsLinkLocal(a.ip.value) }

  predicate OnBridge(sets: Ifaces, a: Multiaddr) { a.ip.Some? && a.ip.value in sets.hostVirtual && !LinkOnly(a) }

  predicate OnVpn(sets: Ifaces, a: Multiaddr) {
    a.ip.Some? && a.ip.value in sets.tunnel && !OnBridge(sets, a) && !LinkOnly(a)
  }

  /** A direct address that no special interface holds. */
  predicate Plain(sets: Ifaces, a: Multiaddr) {
    Direct(a) && !LinkOnly(a) && !OnBridge(sets, a) && !OnVpn(sets, a)
  }

  /** Each kind by what the address is, whatever the order of the tests. */
  predicate Is(sets: Ifaces, a: Multiaddr, k: Kind) {
    match k
    case OnLinkOnly => LinkOnly(a)
    case OnHostBridge => OnBridge(sets, a)
    case OnTunnel => OnVpn(sets, a)
    case GlobalV6 => Plain(sets, a) && a.ip.value.V6? && !IsPrivate(a.ip.value) && !IsMulticast(a.ip.value)
    case UniqueLocalV6 => Plain(sets, a) && a.ip.value.V6? && IsPrivate(a.ip.value)
    case PrimaryV4 => Plain(sets, a) && a.ip.value.V4? && IsPrivate(a.ip.value) && a.ip.value in sets.primary
    case PrivateV4 => Plain(sets, a) && a.ip.value.V4? && IsPrivate(a.ip.value) && a.ip.value !in sets.primary
    case PublicV4 => Plain(sets, a) && a.ip.value.V4? && !IsPrivate(a.ip.value)
    case Unclassed => (
      && !LinkOnly(a) && !OnBridge(sets, a) && !OnVpn(sets, a)
      && (!Direct(a) || (a.ip.value.V6? && IsMulticast(a.ip.value))))
  }

  function KindOf(sets: Ifaces, a: Multiaddr): Kind {
    if LinkOnly(a) then OnLinkOnly
    else if OnBridge(sets, a) then OnHostBridge
    else if OnVpn(sets, a) then OnTunnel
    else if !Direct(a) || (a.ip.value.V6? && IsMulticast(a.ip.value)) then Unclassed
    else if a.ip.value.V6? then (if IsPrivate(a.ip.value) then UniqueLocalV6 else GlobalV6)
    else if !IsPrivate(a.ip.value) then PublicV4
    else if a.ip.value in sets.primary then PrimaryV4 else PrivateV4
  }

  lemma RangesApart(ip: IP)
    ensures IsLinkLocal(ip) ==> !IsPrivate(ip) && !IsMulticast(ip) && !IsLoopback(ip) && !IsUnspecified(ip)
    ensures IsPrivate(ip) ==> !IsMulticast(ip) && !IsLoopback(ip) && !IsUnspecified(ip)
    ensures IsMulticast(ip) ==> !IsLoopback(ip) && !IsUnspecified(ip)
  {
  }

  /** Every address is of exactly one kind. */
  lemma OneKind(sets: Ifaces, a: Multiaddr, k: Kind)
    ensures Is(sets, a, k) <==> k == KindOf(sets, a)
  {
    if a.ip.Some? { RangesApart(a.ip.value); }
  }

  lemma RankIsPosition(sets: Ifaces, a: Multiaddr)
    ensures RankOf(sets, a) < |BEST_FIRST| && BEST_FIRST[RankOf(sets, a)] == KindOf(sets, a)
  {
    if a.ip.Some? { RangesApart(a.ip.value); }
  }

  /** An address ranks before another exactly when its kind is listed before the
      other's; addresses of one kind rank the same. */
  lemma RankExactly(sets: Ifaces, a: Multiaddr, k: Kind, b: Multiaddr, l: Kind)
    requires Is(sets, a, k) && Is(sets, b, l)
    ensures RankOf(sets, a) < RankOf(sets, b) <==> Before(k, l)
    ensures RankOf(sets, a) == RankOf(sets, b) <==> k == l
  {
    OneKind(sets, a, k);
    OneKind(sets, b, l);
    RankIsPosition(sets, a);
    RankIsPosition(sets, b);
    assert forall i, j :: 0 <= i < j < |BEST_FIRST| ==> BEST_FIRST[i] != BEST_FIRST[j];
  }

  /** In a cleaned list of dialable addresses a better kind never stands behind a worse one. */
  lemma CleanedByKind(sets: Ifaces, s: seq<Multiaddr>, i: nat, j: nat, k: Kind, l: Kind)
    requires i < j < |Cleaned(sets, s)| && Collapse(Sorted(sets, Filtered(s))) != []
    requires Is(sets, Cleaned(sets, s)[i], k) && Is(sets, Cleaned(sets, s)[j], l)
    ensures k == l || Before(k, l)
  {
    CutStage(sets, Filtered(s));
    RankExactly(sets, Cleaned(sets, s)[i], k, Cleaned(sets, s)[j], l);
    RankIsPosition(sets, Cleaned(sets, s)[i]);
    RankIsPosition(sets, Cleaned(sets, s)[j]);
    OneKind(sets, Cleaned(sets, s)[i], k);
    OneKind(sets, Cleaned(sets, s)[j], l);
  }

  /** Such a list holds no overlay, loopback or wildcard address. */
  lemma CleanedShareable(sets: Ifaces, s: seq<Multiaddr>, a: Multiaddr)
    requires Collapse(Sorted(sets, Filtered(s))) != [] && a in Cleaned(sets, s) && a.ip.Some?
    ensures !IsOverlayIP(a.ip.value) && !IsLoopback(a.ip.value) && !IsUnspecified(a.ip.value)
  {
    CutStage(sets, Filtered(s));
  }
}
