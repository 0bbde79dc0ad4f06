/** The address-cleaning pipeline (pkg/p2pkit/host.go, reachability.go):
    drop what cannot carry libp2p, order by reachability, fold redundant links,
    cut to a limit. */
module Underlay {
  import opened Wrappers

  type Byte = b: int | 0 <= b < 256
  type Word = w: int | 0 <= w < 0x1_0000

  const MAX_ADDRS: nat := 12

  /** An address after netip's Unmap; the last four groups of an IPv6 address
      are its interface part. */
  datatype IP = V4(a: Byte, b: Byte, c: Byte, d: Byte)
              | V6(g0: Word, g1: Word, g2: Word, g3: Word, h: seq<Word>)

  /** `transport` is the multiaddr without its IP part. */
  datatype Multiaddr = Multiaddr(ip: Option<IP>, circuit: bool, transport: string)

  predicate Zeros(h: seq<Word>) { forall i :: 0 <= i < |h| ==> h[i] == 0 }

  predicate IsLoopback(ip: IP) {
    match ip
    case V4(a, _, _, _) => a == 127
    case V6(g0, g1, g2, g3, h) => g0 == g1 == g2 == g3 == 0 && |h| == 4 && Zeros(h[..3]) && h[3] == 1
  }

  predicate IsUnspecified(ip: IP) {
    match ip
    case V4(a, b, c, d) => a == b == c == d == 0
    case V6(g0, g1, g2, g3, h) => g0 == g1 == g2 == g3 == 0 && |h| == 4 && Zeros(h)
  }

  /** Section 2.5 of RFC 4291 for IPv6: the loopback and the unspecified address
      are one address each. */
  lemma SpecialV6(g0: Word, g1: Word, g2: Word, g3: Word, h: seq<Word>)
    requires |h| == 4
    ensures IsLoopback(V6(g0, g1, g2, g3, h)) <==> [g0, g1, g2, g3] + h == [0, 0, 0, 0, 0, 0, 0, 1]
    ensures IsUnspecified(V6(g0, g1, g2, g3, h)) <==> [g0, g1, g2, g3] + h == [0, 0, 0, 0, 0, 0, 0, 0]
  {
    var all := [g0, g1, g2, g3] + h;
    assert all[0] == g0 && all[1] == g1 && all[2] == g2 && all[3] == g3;
    assert all[4] == h[0] && all[5] == h[1] && all[6] == h[2] && all[7] == h[3];
    assert h[..3] == [h[0], h[1], h[2]];
  }

  predicate IsLinkLocal(ip: IP) {
    match ip
    case V4(a, b, _, _) => a == 169 && b == 254
    case V6(g0, _, _, _, _) => 0xfe80 <= g0 < 0xfec0
  }

  predicate IsPrivate(ip: IP) {
    match ip
    case V4(a, b, _, _) => a == 10 || (a == 172 && 16 <= b < 32) || (a == 192 && b == 168)
    case V6(g0, _, _, _, _) => 0xfc00 <= g0 < 0xfe00
  }

  predicate IsMulticast(ip: IP) {
    match ip
    case V4(a, _, _, _) => 224 <= a < 240
    case V6(g0, _, _, _, _) => g0 >= 0xff00
  }

  /** 10.7.0.0/16 and fd00:6c61:6e65::/48. */
  predicate IsOverlayIP(ip: IP) {
    match ip
    case V4(a, b, _, _) => a == 10 && b == 7
    case V6(g0, g1, g2, _, _) => g0 == 0xfd00 && g1 == 0x6c61 && g2 == 0x6e65
  }

  /** An IPv4 address as a number. */
  function Number(a: Byte, b: Byte, c: Byte, d: Byte): nat { ((a * 256 + b) * 256 + c) * 256 + d }

  /** The address classes are the prefixes of their standards: 127/8, 169.254/16,
      10/8, 172.16/12 and 192.168/16, 224/4, and the overlay's 10.7/16. */
  lemma PrefixesV4(a: Byte, b: Byte, c: Byte, d: Byte)
    ensures var ip, n := V4(a, b, c, d), Number(a, b, c, d);
      && (IsLoopback(ip) <==> n / 0x100_0000 == 127)
      && (IsLinkLocal(ip) <==> n / 0x1_0000 == 169 * 256 + 254)
      && (IsPrivate(ip) <==> n / 0x100_0000 == 10 || n / 0x10_0000 == 172 * 16 + 1 || n / 0x1_0000 == 192 * 256 + 168)
      && (IsMulticast(ip) <==> n / 0x1000_0000 == 14)
      && (IsOverlayIP(ip) <==> n / 0x1_0000 == 10 * 256 + 7)
      && (IsUnspecified(ip) <==> n == 0)
  {
    var n := Number(a, b, c, d);
    assert n == a * 0x100_0000 + b * 0x1_0000 + c * 0x100 + d;
    assert n / 0x1_0000 == a * 256 + b;
    assert n / 0x100_0000 == a;
    assert n / 0x10_0000 == a * 16 + b / 16;
    assert n / 0x1000_0000 == a / 16;
  }

  /** fe80::/10, fc00::/7, ff00::/8 and the overlay's fd00:6c61:6e65::/48. */
  lemma PrefixesV6(g0: Word, g1: Word, g2: Word, g3: Word, h: seq<Word>)
    ensures var ip := V6(g0, g1, g2, g3, h);
      && (IsLinkLocal(ip) <==> g0 / 64 == 0xfe80 / 64)
      && (IsPrivate(ip) <==> g0 / 512 == 0xfc00 / 512)
      && (IsMulticast(ip) <==> g0 / 256 == 0xff)
      && (IsOverlayIP(ip) <==> (g0 * 0x1_0000 + g1) * 0x1_0000 + g2 == 0xfd00_6c61_6e65)
  {
  }

  predicate IsOverlay(a: Multiaddr) { a.ip.Some? && IsOverlayIP(a.ip.value) }

  /** isHarmfulUnderlayAddr: never usable, whatever else is missing. */
  predicate Harmful(a: Multiaddr) { IsOverlay(a) || a.circuit }

  predicate Harmless(a: Multiaddr) { !Harmful(a) }

  predicate IsDialable(a: Multiaddr) {
    !a.circuit &&
    (a.ip.None? || !(IsLoopback(a.ip.value) || IsUnspecified(a.ip.value) || IsLinkLocal(a.ip.value) || IsOverlayIP(a.ip.value)))
  }

  // ---- ranks ----

  /** AddrReachabilityRank. */
  function Rank(a: Multiaddr): nat {
    if a.ip.None? || a.circuit || IsLoopback(a.ip.value) then 6
    else
      var ip := a.ip.value;
      if ip.V4? then
        if IsLinkLocal(ip) then 8 else if IsPrivate(ip) then 2 else if IsUnspecified(ip) then 6 else 3
      else if IsLinkLocal(ip) then 8
      else if IsUnspecified(ip) then 6
      else if IsPrivate(ip) then 4
      else if !IsMulticast(ip) then 0 else 6
  }

  /** The local interface classification: disjointness is not needed. */
  datatype Ifaces = Ifaces(primary: set<IP>, tunnel: set<IP>, hostVirtual: set<IP>)

  /** rankOf. */
  function RankOf(sets: Ifaces, a: Multiaddr): nat {
    var base := Rank(a);
    if a.ip.None? then base
    else if base == 8 then 8
    else if a.ip.value in sets.hostVirtual then 7
    else if a.ip.value in sets.tunnel then 5
    else if base == 2 && a.ip.value in sets.primary then 1
    else base
  }

  datatype Prefix = P24(a: Byte, b: Byte, c: Byte) | P16(a: Byte, b: Byte) | P64(g0: Word, g1: Word, g2: Word, g3: Word)
  datatype LinkKey = LinkKey(prefix: Prefix, transport: string)

  function PrefixKey(ip: IP): Prefix {
    match ip
    case V4(a, b, c, _) => if IsLinkLocal(ip) then P16(a, b) else P24(a, b, c)
    case V6(g0, g1, g2, g3, _) => P64(g0, g1, g2, g3)
  }

  /** collapseKey: none for addresses that belong to no link. */
  function CollapseKey(a: Multiaddr): Option<LinkKey> {
    if a.ip.None? || a.transport == "" then None else Some(LinkKey(PrefixKey(a.ip.value), a.transport))
  }

  /** Two addresses belong to one link exactly when they share the transport and
      the network: the first three bytes of an IPv4 address, two of a link-local
      one, the upper half of an IPv6 address. */
  lemma LinkExactly(a: Multiaddr, b: Multiaddr)
    requires CollapseKey(a).Some?
    ensures a.ip.Some? && a.transport != ""
    ensures CollapseKey(a) == CollapseKey(b) <==> b.ip.Some? && a.transport == b.transport && match (a.ip.value, b.ip.value)
      case (V4(a1, a2, a3, _), V4(b1, b2, b3, _)) => a1 == b1 && a2 == b2 && (a3 == b3 || (a1 == 169 && a2 == 254))
      case (V6(a1, a2, a3, a4, _), V6(b1, b2, b3, b4, _)) => a1 == b1 && a2 == b2 && a3 == b3 && a4 == b4
      case _ => false
  {
  }

  lemma LinkedExactly(a: Multiaddr)
    ensures CollapseKey(a).Some? <==> a.ip.Some? && a.transport != ""
  {
  }

  // ---- list functions ----

  function Keep(p: Multiaddr -> bool, s: seq<Multiaddr>): (r: seq<Multiaddr>)
    ensures forall a :: a in r <==> a in s && p(a)
  {
    if s == [] then []
    else
      var init, last := s[..|s| - 1], s[|s| - 1];
      assert s == init + [last];
      Keep(p, init) + if p(last) then [last] else []
  }

  /** First occurrences only. */
  function Dedup(s: seq<Multiaddr>): (r: seq<Multiaddr>)
    ensures forall a :: a in r <==> a in s
  {
    if s == [] then []
    else
      var init, last := s[..|s| - 1], s[|s| - 1];
      assert s == init + [last];
      Dedup(init) + if last in init then [] else [last]
  }

  /** sort.SliceStable by rank: each element goes behind those of its rank. */
  function InsertStable(sets: Ifaces, s: seq<Multiaddr>, x: Multiaddr): (r: seq<Multiaddr>)
    ensures multiset(r) == multiset(s) + multiset{x}
  {
    if s == [] || RankOf(sets, s[|s| - 1]) <= RankOf(sets, x) then s + [x]
    else
      var init, last := s[..|s| - 1], s[|s| - 1];
      assert s == init + [last];
      InsertStable(sets, init, x) + [last]
  }

  function StableSort(sets: Ifaces, s: seq<Multiaddr>): (r: seq<Multiaddr>)
    ensures multiset(r) == multiset(s)
  {
    if s == [] then []
    else
      assert s == s[..|s| - 1] + [s[|s| - 1]];
      InsertStable(sets, StableSort(sets, s[..|s| - 1]), s[|s| - 1])
  }

  ghost predicate HasKey(s: seq<Multiaddr>, k: Option<LinkKey>) {
    exists a :: a in s && CollapseKey(a) == k
  }

  /** The first address of every link; addresses without a link all stay. */
  ghost function Collapse(s: seq<Multiaddr>): (r: seq<Multiaddr>)
    ensures forall a :: a in r ==> a in s
  {
    if s == [] then []
    else
      var init, last := s[..|s| - 1], s[|s| - 1];
      assert s == init + [last];
      Collapse(init) + if CollapseKey(last).Some? && HasKey(init, CollapseKey(last)) then [] else [last]
  }

  predicate Shareable(a: Multiaddr) {
    !IsOverlay(a) && (a.ip.None? || !(IsLoopback(a.ip.value) || IsUnspecified(a.ip.value)))
  }

  // ---- the pipeline as a function ----

  ghost function Filtered(s: seq<Multiaddr>): seq<Multiaddr> {
    if Keep(IsDialable, s) != [] then Keep(IsDialable, s) else Keep(Harmless, s)
  }

  ghost function Sorted(sets: Ifaces, s: seq<Multiaddr>): seq<Multiaddr> {
    StableSort(sets, Dedup(Keep(Shareable, s)))
  }

  function Cut(s: seq<Multiaddr>): seq<Multiaddr> {
    if |s| > MAX_ADDRS then s[..MAX_ADDRS] else s
  }

  ghost function Cleaned(sets: Ifaces, s: seq<Multiaddr>): seq<Multiaddr> {
    var f := Filtered(s);
    var out := Collapse(Sorted(sets, f));
    Cut(if out == [] then f else out)
  }

  // ---- the pipeline as the source runs it ----

  method FilterUnderlayAddrs(addrs: seq<Multiaddr>) returns (r: seq<Multiaddr>)
    ensures r == Filtered(addrs)
  {
    var filtered: seq<Multiaddr> := [];
    for i := 0 to |addrs|
      invariant filtered == Keep(IsDialable, addrs[..i])
    {
      KeepSnoc(IsDialable, addrs, i);
      if IsDialable(addrs[i]) {
        filtered := filtered + [addrs[i]];
      }
    }
    assert addrs[..|addrs|] == addrs;
    if |filtered| > 0 {
      return filtered;
    }
    var fallback: seq<Multiaddr> := [];
    for i := 0 to |addrs|
      invariant fallback == Keep(Harmless, addrs[..i])
    {
      KeepSnoc(Harmless, addrs, i);
      if !IsOverlay(addrs[i]) && !addrs[i].circuit {
        fallback := fallback + [addrs[i]];
      }
    }
    return fallback;
  }

  method SortByReachability(addrs: seq<Multiaddr>, sets: Ifaces) returns (r: seq<Multiaddr>)
    ensures r == Sorted(sets, addrs)
  {
    var out: seq<Multiaddr> := [];
    var seen: set<Multiaddr> := {};
    ghost var kept: seq<Multiaddr> := [];
    for i := 0 to |addrs|
      invariant kept == Keep(Shareable, addrs[..i])
      invariant out == Dedup(kept)
      invariant forall a :: a in seen <==> a in kept
    {
      var a := addrs[i];
      KeepSnoc(Shareable, addrs, i);
      if Shareable(a) {
        DedupSnoc(kept, a);
        kept := kept + [a];
        if a !in seen {
          seen := seen + {a};
          out := out + [a];
        }
      }
    }
    assert addrs[..|addrs|] == addrs;
    r := StableSort(sets, out);
  }

  lemma KeepSnoc(p: Multiaddr -> bool, s: seq<Multiaddr>, i: nat)
    requires i < |s|
    ensures Keep(p, s[..i + 1]) == if p(s[i]) then Keep(p, s[..i]) + [s[i]] else Keep(p, s[..i])
  {
    assert s[..i + 1][..i] == s[..i];
  }

  lemma DedupSnoc(s: seq<Multiaddr>, a: Multiaddr)
    ensures Dedup(s + [a]) == if a in s then Dedup(s) else Dedup(s) + [a]
  {
    assert (s + [a])[..|s|] == s;
  }

  method CollapseRedundant(addrs: seq<Multiaddr>) returns (out: seq<Multiaddr>)
    ensures out == Collapse(addrs)
  {
    out := [];
    var seen: set<LinkKey> := {};
    for i := 0 to |addrs|
      invariant out == Collapse(addrs[..i])
      invariant forall k :: k in seen <==> HasKey(addrs[..i], Some(k))
    {
      var a := addrs[i];
      assert addrs[..i + 1][..i] == addrs[..i];
      assert forall x :: x in addrs[..i + 1] <==> x in addrs[..i] || x == a;
      var key := CollapseKey(a);
      if key.None? || key.value !in seen {
        out := out + [a];
      }
      if key.Some? {
        seen := seen + {key.value};
      }
    }
    assert addrs[..|addrs|] == addrs;
  }

  method CleanUnderlayAddrs(addrs: seq<Multiaddr>, sets: Ifaces) returns (out: seq<Multiaddr>)
    ensures out == Cleaned(sets, addrs)
  {
    var filtered := FilterUnderlayAddrs(addrs);
    if |filtered| == 0 {
      return filtered;
    }
    var sorted := SortByReachability(filtered, sets);
    out := CollapseRedundant(sorted);
    if |out| == 0 {
      out := filtered;
    }
    if |out| > MAX_ADDRS {
      out := out[..MAX_ADDRS];
    }
  }

  // ---- what each stage guarantees ----

  ghost predicate RankSorted(sets: Ifaces, s: seq<Multiaddr>) {
    forall i, j :: 0 <= i < j < |s| ==> RankOf(sets, s[i]) <= RankOf(sets, s[j])
  }

  ghost predicate Distinct(s: seq<Multiaddr>) {
    forall i, j :: 0 <= i < j < |s| ==> s[i] != s[j]
  }

  ghost predicate LinksDistinct(s: seq<Multiaddr>) {
    forall i, j :: 0 <= i < j < |s| ==> CollapseKey(s[i]).None? || CollapseKey(s[i]) != CollapseKey(s[j])
  }

  lemma SameMembers(s: seq<Multiaddr>, t: seq<Multiaddr>)
    requires multiset(s) == multiset(t)
    ensures forall a :: a in s <==> a in t
  {
    forall a ensures a in s <==> a in t {
      assert a in s <==> a in multiset(s);
      assert a in t <==> a in multiset(t);
    }
  }

  /** No address of the list ranks above `x`. */
  ghost predicate NoneAbove(sets: Ifaces, s: seq<Multiaddr>, x: Multiaddr) {
    forall a :: a in s ==> RankOf(sets, a) <= RankOf(sets, x)
  }

  lemma RankSortedSnoc(sets: Ifaces, s: seq<Multiaddr>, x: Multiaddr)
    requires RankSorted(sets, s) && NoneAbove(sets, s, x)
    ensures RankSorted(sets, s + [x])
  {
    forall i, j | 0 <= i < j < |s + [x]| ensures RankOf(sets, (s + [x])[i]) <= RankOf(sets, (s + [x])[j]) {
      assert (s + [x])[i] == s[i] && s[i] in s;
    }
  }

  lemma RankSortedInit(sets: Ifaces, s: seq<Multiaddr>)
    requires RankSorted(sets, s) && s != []
    ensures RankSorted(sets, s[..|s| - 1]) && NoneAbove(sets, s[..|s| - 1], s[|s| - 1])
  {
  }

  lemma {:induction false} InsertSorted(sets: Ifaces, s: seq<Multiaddr>, x: Multiaddr)
    requires RankSorted(sets, s)
    ensures RankSorted(sets, InsertStable(sets, s, x))
  {
    if s == [] {
      RankSortedSnoc(sets, s, x);
    } else {
      var init, last := s[..|s| - 1], s[|s| - 1];
      RankSortedInit(sets, s);
      assert s == init + [last];
      if RankOf(sets, last) <= RankOf(sets, x) {
        RankSortedSnoc(sets, s, x);
      } else {
        InsertSorted(sets, init, x);
        SameMembers(InsertStable(sets, init, x), init + [x]);
        RankSortedSnoc(sets, InsertStable(sets, init, x), last);
      }
    }
  }

  lemma {:induction false} SortSorted(sets: Ifaces, s: seq<Multiaddr>)
    ensures RankSorted(sets, StableSort(sets, s))
  {
    if s != [] {
      SortSorted(sets, s[..|s| - 1]);
      InsertSorted(sets, StableSort(sets, s[..|s| - 1]), s[|s| - 1]);
    }
  }

  lemma InsertLast(sets: Ifaces, s: seq<Multiaddr>, x: Multiaddr)
    requires NoneAbove(sets, s, x)
    ensures InsertStable(sets, s, x) == s + [x]
  {
    assert s != [] ==> s[|s| - 1] in s;
  }

  lemma StableSortSnoc(sets: Ifaces, s: seq<Multiaddr>, x: Multiaddr)
    ensures StableSort(sets, s + [x]) == InsertStable(sets, StableSort(sets, s), x)
  {
    assert (s + [x])[..|s|] == s;
  }

  /** Rank order from the back, the way the sort goes. */
  ghost predicate InOrder(sets: Ifaces, s: seq<Multiaddr>) {
    s == [] || (InOrder(sets, s[..|s| - 1]) && NoneAbove(sets, s[..|s| - 1], s[|s| - 1]))
  }

  lemma {:induction false} SortedInOrder(sets: Ifaces, s: seq<Multiaddr>)
    requires RankSorted(sets, s)
    ensures InOrder(sets, s)
  {
    if s != [] {
      RankSortedInit(sets, s);
      SortedInOrder(sets, s[..|s| - 1]);
    }
  }

  lemma {:induction false} SortFixed(sets: Ifaces, s: seq<Multiaddr>)
    requires InOrder(sets, s)
    ensures StableSort(sets, s) == s
  {
    if s != [] {
      var init, last := s[..|s| - 1], s[|s| - 1];
      SortFixed(sets, init);
      assert s == init + [last];
      StableSortSnoc(sets, init, last);
      InsertLast(sets, init, last);
    }
  }

  lemma {:induction false} KeepFixed(p: Multiaddr -> bool, s: seq<Multiaddr>)
    requires forall a :: a in s ==> p(a)
    ensures Keep(p, s) == s
  {
    if s != [] {
      var init, last := s[..|s| - 1], s[|s| - 1];
      assert s == init + [last] && s[..|init| + 1] == s;
      KeepFixed(p, init);
      KeepSnoc(p, s, |init|);
    }
  }

  lemma {:induction false} DedupFixed(s: seq<Multiaddr>)
    requires Distinct(s)
    ensures Dedup(s) == s
  {
    if s != [] {
      DedupFixed(s[..|s| - 1]);
      assert s == s[..|s| - 1] + [s[|s| - 1]];
    }
  }

  lemma {:induction false} DedupDistinct(s: seq<Multiaddr>)
    ensures Distinct(Dedup(s))
  {
    if s != [] {
      var init := s[..|s| - 1];
      DedupDistinct(init);
      forall i | 0 <= i < |Dedup(init)| ensures Dedup(init)[i] in init { assert Dedup(init)[i] in Dedup(init); }
    }
  }

  lemma DistinctByCount(s: seq<Multiaddr>)
    ensures Distinct(s) <==> forall a :: multiset(s)[a] <= 1
  {
    if Distinct(s) {
      forall a ensures multiset(s)[a] <= 1 { CountDistinct(s, a); }
    } else {
      var i, j :| 0 <= i < j < |s| && s[i] == s[j];
      assert s == s[..j] + [s[j]] + s[j + 1..];
      assert s[i] in s[..j];
      assert multiset(s)[s[j]] >= 2;
    }
  }

  lemma {:induction false} CountDistinct(s: seq<Multiaddr>, a: Multiaddr)
    requires Distinct(s)
    ensures multiset(s)[a] <= 1
  {
    if s != [] {
      var init, last := s[..|s| - 1], s[|s| - 1];
      assert s == init + [last];
      CountDistinct(init, a);
      if a == last { assert a !in init; }
    }
  }

  lemma {:induction false} CollapseKeepsOrder(sets: Ifaces, s: seq<Multiaddr>)
    requires RankSorted(sets, s) && Distinct(s)
    ensures RankSorted(sets, Collapse(s)) && Distinct(Collapse(s)) && LinksDistinct(Collapse(s))
  {
    if s != [] {
      var init, last := s[..|s| - 1], s[|s| - 1];
      RankSortedInit(sets, s);
      CollapseKeepsOrder(sets, init);
      var c := Collapse(init);
      RankSortedSnoc(sets, c, last);
      forall i | 0 <= i < |c|
        ensures c[i] in init && c[i] != last
      {
        assert c[i] in c;
      }
    }
  }

  lemma {:induction false} CollapseFixed(s: seq<Multiaddr>)
    requires LinksDistinct(s)
    ensures Collapse(s) == s
  {
    if s != [] {
      CollapseFixed(s[..|s| - 1]);
      assert s == s[..|s| - 1] + [s[|s| - 1]];
    }
  }

  /** Every address folded away has an earlier one of its link among the kept. */
  lemma {:induction false} CollapseCovers(sets: Ifaces, s: seq<Multiaddr>, a: Multiaddr) returns (k: Multiaddr)
    requires RankSorted(sets, s) && a in s
    ensures k in Collapse(s) && StandsFor(sets, k, a)
  {
    var init, last := s[..|s| - 1], s[|s| - 1];
    assert s == init + [last];
    RankSortedInit(sets, s);
    if a in init {
      k := CollapseCovers(sets, init, a);
    } else if CollapseKey(a).Some? && HasKey(init, CollapseKey(a)) {
      var b :| b in init && CollapseKey(b) == CollapseKey(a);
      k := CollapseCovers(sets, init, b);
    } else {
      k := a;
    }
  }

  lemma FirstIn(s: seq<Multiaddr>)
    ensures s == [] || s[0] in s
  {
  }

  // ---- main results ----

  lemma SortedStage(sets: Ifaces, s: seq<Multiaddr>)
    ensures var r := Collapse(Sorted(sets, s));
      && RankSorted(sets, r) && Distinct(r) && LinksDistinct(r)
      && RankSorted(sets, Sorted(sets, s))
      && (forall a :: a in Sorted(sets, s) <==> a in s && Shareable(a))
  {
    var d := Dedup(Keep(Shareable, s));
    SortSorted(sets, d);
    SameMembers(StableSort(sets, d), d);
    DedupDistinct(Keep(Shareable, s));
    DistinctByCount(d);
    DistinctByCount(StableSort(sets, d));
    CollapseKeepsOrder(sets, StableSort(sets, d));
  }

  lemma FilteredMeaning(s: seq<Multiaddr>)
    ensures forall a :: a in Filtered(s) ==> a in s && !Harmful(a)
    ensures (exists a :: a in s && IsDialable(a)) ==> forall a :: a in Filtered(s) <==> a in s && IsDialable(a)
    ensures Filtered(s) == [] ==> forall a :: a in s ==> Harmful(a)
  {
    if exists a :: a in s && IsDialable(a) {
      var a :| a in s && IsDialable(a);
      assert a in Keep(IsDialable, s);
    }
    forall a | a in s && !Harmful(a) ensures Filtered(s) != [] {
      assert a in Keep(x => !Harmful(x), s);
    }
  }

  /** The later stages lose no list: what they leave empty is restored. */
  lemma CleanedFromFiltered(sets: Ifaces, s: seq<Multiaddr>)
    ensures |Cleaned(sets, s)| <= MAX_ADDRS
    ensures forall a :: a in Cleaned(sets, s) ==> a in Filtered(s)
    ensures Cleaned(sets, s) == [] <==> Filtered(s) == []
  {
    RestoredMembers(sets, Filtered(s));
    CutMembers(Restored(sets, Filtered(s)));
  }

  /** The list before the cut: the filtered one when the later stages leave nothing. */
  ghost function Restored(sets: Ifaces, f: seq<Multiaddr>): seq<Multiaddr> {
    if Collapse(Sorted(sets, f)) == [] then f else Collapse(Sorted(sets, f))
  }

  lemma RestoredMembers(sets: Ifaces, f: seq<Multiaddr>)
    ensures forall a :: a in Restored(sets, f) ==> a in f
    ensures Restored(sets, f) == [] <==> f == []
  {
    StageMembers(sets, f);
    FirstIn(Collapse(Sorted(sets, f)));
  }

  lemma CutMembers(s: seq<Multiaddr>)
    ensures |Cut(s)| <= MAX_ADDRS && (Cut(s) == [] <==> s == [])
    ensures forall a :: a in Cut(s) ==> a in s
  {
  }

  lemma StageMembers(sets: Ifaces, f: seq<Multiaddr>)
    ensures forall a :: a in Collapse(Sorted(sets, f)) ==> a in f && Shareable(a)
  {
    SortedStage(sets, f);
    forall a | a in Collapse(Sorted(sets, f)) ensures a in f && Shareable(a) { assert a in Sorted(sets, f); }
  }

  /** At most 12, all from the input, never an overlay or circuit address, and
      empty only when every input was one. */
  lemma CleanIsSafe(sets: Ifaces, s: seq<Multiaddr>)
    ensures var out := Cleaned(sets, s);
      && |out| <= MAX_ADDRS
      && (forall a :: a in out ==> a in s && !Harmful(a))
      && (out == [] <==> forall a :: a in s ==> Harmful(a))
  {
    FilteredMeaning(s);
    CleanedFromFiltered(sets, s);
    var f := Filtered(s);
    assert f != [] ==> f[0] in f;
  }

  lemma Fixed(sets: Ifaces, out: seq<Multiaddr>)
    requires RankSorted(sets, out) && Distinct(out) && LinksDistinct(out) && forall a :: a in out ==> Shareable(a)
    ensures Collapse(Sorted(sets, out)) == out
  {
    KeepFixed(Shareable, out);
    DedupFixed(out);
    SortedInOrder(sets, out);
    SortFixed(sets, out);
    CollapseFixed(out);
  }

  lemma NoneKept(p: Multiaddr -> bool, s: seq<Multiaddr>)
    requires forall a :: a in s ==> !p(a)
    ensures Keep(p, s) == []
  {
    if s != [] {
      assert s == s[..|s| - 1] + [s[|s| - 1]];
      NoneKept(p, s[..|s| - 1]);
    }
  }

  lemma FilterFixed(s: seq<Multiaddr>, out: seq<Multiaddr>)
    requires forall a :: a in out ==> a in Filtered(s)
    ensures Filtered(out) == out
  {
    if Keep(IsDialable, s) != [] {
      KeepFixed(IsDialable, out);
      if out == [] { assert Keep(Harmless, out) == []; }
    } else {
      forall a | a in out ensures !IsDialable(a) && !Harmful(a) {
        assert a in s;
        assert IsDialable(a) ==> a in Keep(IsDialable, s);
      }
      NoneKept(IsDialable, out);
      KeepFixed(Harmless, out);
    }
  }

  /** Cleaning a cleaned list changes nothing. */
  lemma CleanIsIdempotent(sets: Ifaces, s: seq<Multiaddr>)
    ensures Cleaned(sets, Cleaned(sets, s)) == Cleaned(sets, s)
  {
    var f, out := Filtered(s), Cleaned(sets, s);
    CleanedFromFiltered(sets, s);
    FilterFixed(s, out);
    if Collapse(Sorted(sets, f)) != [] {
      CutStage(sets, f);
      Fixed(sets, out);
    } else {
      NothingShareable(sets, f);
      NoneShareable(sets, out);
    }
  }

  /** A prefix keeps order and distinctness. */
  lemma CutKeeps(sets: Ifaces, r: seq<Multiaddr>)
    requires RankSorted(sets, r) && Distinct(r) && LinksDistinct(r)
    ensures RankSorted(sets, Cut(r)) && Distinct(Cut(r)) && LinksDistinct(Cut(r))
    ensures forall a :: a in Cut(r) ==> a in r
  {
    assert forall i :: 0 <= i < |Cut(r)| ==> Cut(r)[i] == r[i];
  }

  lemma CutStage(sets: Ifaces, f: seq<Multiaddr>)
    ensures var out := Cut(Collapse(Sorted(sets, f)));
      RankSorted(sets, out) && Distinct(out) && LinksDistinct(out) && forall a :: a in out ==> Shareable(a)
  {
    SortedStage(sets, f);
    CutKeeps(sets, Collapse(Sorted(sets, f)));
    CollapseOnlyKeeps(Sorted(sets, f));
  }

  lemma CollapseOnlyKeeps(s: seq<Multiaddr>)
    ensures forall a :: a in Collapse(s) ==> a in s
  {
  }

  lemma NothingShareable(sets: Ifaces, f: seq<Multiaddr>)
    requires Collapse(Sorted(sets, f)) == []
    ensures forall a :: a in f ==> !Shareable(a)
  {
    SortedStage(sets, f);
    forall a | a in f ensures !Shareable(a) {
      if Shareable(a) {
        var _ := CollapseCovers(sets, Sorted(sets, f), a);
      }
    }
  }

  lemma NoneShareable(sets: Ifaces, f: seq<Multiaddr>)
    requires forall a :: a in f ==> !Shareable(a)
    ensures Collapse(Sorted(sets, f)) == []
  {
    SortedStage(sets, f);
    var r := Collapse(Sorted(sets, f));
    FirstIn(r);
  }

  /** `k` stands in for `a`: the same address or the same link, ranked no worse. */
  ghost predicate StandsFor(sets: Ifaces, k: Multiaddr, a: Multiaddr) {
    RankOf(sets, k) <= RankOf(sets, a) && (k == a || (CollapseKey(a).Some? && CollapseKey(k) == CollapseKey(a)))
  }

  /** Every dialable address that is dropped has a kept one of the same link and
      no worse rank, or ranks no better than everything kept. */
  lemma DroppedForAReason(sets: Ifaces, s: seq<Multiaddr>, a: Multiaddr)
    requires a in s && IsDialable(a)
    ensures (exists k :: k in Cleaned(sets, s) && StandsFor(sets, k, a)) ||
      (forall k :: k in Cleaned(sets, s) ==> RankOf(sets, k) <= RankOf(sets, a))
  {
    var f := Filtered(s);
    FilteredMeaning(s);
    assert a in f && Shareable(a);
    SortedStage(sets, f);
    var k := CollapseCovers(sets, Sorted(sets, f), a);
    CutCovers(sets, Collapse(Sorted(sets, f)), k);
  }

  lemma CutCovers(sets: Ifaces, r: seq<Multiaddr>, k: Multiaddr)
    requires RankSorted(sets, r) && k in r
    ensures k in Cut(r) || forall x :: x in Cut(r) ==> RankOf(sets, x) <= RankOf(sets, k)
  {
    var i :| 0 <= i < |r| && r[i] == k;
    if i < |Cut(r)| { assert Cut(r)[i] == k; }
  }
}
