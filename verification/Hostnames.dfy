/** Host names for members and their resolution (pkg/serverless/vaddr.go).
    `net.ParseIP` is a function parameter. */
module Hostnames {
  import opened Order
  import opened DnsLabel
  import opened Wrappers

  newtype byte = x: int | 0 <= x < 256

  /** A parsed address: V4 when `To4` succeeds, V6 otherwise. */
  datatype IPAddr = V4(a: byte, b: byte, c: byte, d: byte) | V6(bytes: seq<byte>)
  type Parser = string -> Option<IPAddr>

  datatype MemberRef = MemberRef(peerID: string, name: string, virtualIP: string, virtualIPv6: string)

  const DOMAIN := ".lanet"

  // ---- one label ----

  /** strconv.Itoa. */
  function Decimal(n: nat): (s: string)
    ensures s != "" && forall i :: 0 <= i < |s| ==> '0' <= s[i] <= '9'
  {
    var digit := ['0' + (n % 10) as char];
    if n < 10 then digit else Decimal(n / 10) + digit
  }

  /** The number a string of digits stands for. */
  function Value(s: string): int {
    if s == "" then 0 else 10 * Value(s[..|s| - 1]) + (s[|s| - 1] as int - '0' as int)
  }

  lemma {:induction false} DecimalValue(n: nat)
    ensures Value(Decimal(n)) == n && (|Decimal(n)| > 1 ==> Decimal(n)[0] != '0')
    ensures n > 0 ==> Decimal(n)[0] != '0'
  {
    var digit := ['0' + (n % 10) as char];
    assert digit[..0] == "" && Value(digit) == n % 10;
    if n >= 10 {
      DecimalValue(n / 10);
      assert (Decimal(n / 10) + digit)[..|Decimal(n / 10)|] == Decimal(n / 10);
    }
  }

  function HasV4(parse: Parser, m: MemberRef): bool {
    parse(m.virtualIP).Some? && parse(m.virtualIP).value.V4?
  }

  /** The name or the IPv4 address is usable. */
  predicate Named(parse: Parser, m: MemberRef) {
    Label(m.name) != "" || HasV4(parse, m)
  }

  /** Slicing four characters off the PeerID does not panic. */
  predicate Nameable(parse: Parser, m: MemberRef) {
    Named(parse, m) || |m.peerID| >= 4
  }

  /** The label before collisions are looked at. */
  function Base(parse: Parser, m: MemberRef): string
    requires Nameable(parse, m)
  {
    if Label(m.name) != "" then Label(m.name)
    else if HasV4(parse, m) then
      var ip := parse(m.virtualIP).value;
      "node-" + Decimal(ip.c as nat) + "-" + Decimal(ip.d as nat)
    else "node-" + m.peerID[..4]
  }

  function Tail(id: string): string {
    if |id| > 4 then id[|id| - 4..] else id
  }

  /** Text before the first dash. */
  lemma DashSplits(a: string, b: string, a': string, b': string)
    requires a + "-" + b == a' + "-" + b' && '-' !in a && '-' !in a'
    ensures a == a' && b == b'
  {
    var t := a + "-" + b;
    assert t[|a|] == '-' && t[|a'|] == '-';
    assert forall i :: 0 <= i < |a| ==> t[i] == a[i] != '-';
    assert forall i :: 0 <= i < |a'| ==> t[i] == a'[i] != '-';
    assert a == t[..|a|] && b == t[|a| + 1..] && a' == t[..|a'|] && b' == t[|a'| + 1..];
  }

  lemma NodeSplits(a: string, b: string, a': string, b': string)
    requires "node-" + a + "-" + b == "node-" + a' + "-" + b' && '-' !in a && '-' !in a'
    ensures a == a' && b == b'
  {
    var l := "node-" + a + "-" + b;
    assert l[5..] == a + "-" + b && l[5..] == a' + "-" + b';
    DashSplits(a, b, a', b');
  }

  lemma DecimalPlain(n: nat, n': nat)
    ensures '-' !in Decimal(n) && (Decimal(n) == Decimal(n') ==> n == n')
  {
    DecimalValue(n);
    DecimalValue(n');
  }

  /** Two members without usable names get the same base label exactly when the
      last two bytes of their IPv4 addresses agree. */
  lemma FallbackTells(parse: Parser, m: MemberRef, o: MemberRef)
    requires Label(m.name) == "" && Label(o.name) == "" && HasV4(parse, m) && HasV4(parse, o)
    ensures var x, y := parse(m.virtualIP).value, parse(o.virtualIP).value;
      Base(parse, m) == Base(parse, o) <==> x.c == y.c && x.d == y.d
  {
    var x, y := parse(m.virtualIP).value, parse(o.virtualIP).value;
    DecimalPlain(x.c as nat, y.c as nat);
    DecimalPlain(y.c as nat, x.c as nat);
    DecimalPlain(x.d as nat, y.d as nat);
    if Base(parse, m) == Base(parse, o) {
      NodeSplits(Decimal(x.c as nat), Decimal(x.d as nat), Decimal(y.c as nat), Decimal(y.d as nat));
    }
  }

  /** Taken labels at least as long as `cand`. */
  ghost function LongTaken(taken: set<string>, cand: string): set<string> {
    set t | t in taken && |t| >= |cand|
  }

  lemma LongerShrinks(taken: set<string>, cand: string, suffix: string)
    requires cand in taken && suffix != ""
    ensures LongTaken(taken, cand + suffix) < LongTaken(taken, cand)
  {
    assert cand in LongTaken(taken, cand) && cand !in LongTaken(taken, cand + suffix);
  }

  function Bump(cand: string, taken: set<string>): (r: string)
    ensures r !in taken
    decreases LongTaken(taken, cand)
  {
    if cand in taken then LongerShrinks(taken, cand, "-x"); Bump(cand + "-x", taken) else cand
  }

  function Pick(base: string, id: string, taken: set<string>): (r: string)
    ensures r !in taken
  {
    if base in taken then Bump(base + "-" + Lower(Tail(id)), taken) else base
  }

  function Xs(k: nat): string {
    if k == 0 then "" else Xs(k - 1) + "-x"
  }

  lemma XsFront(k: nat)
    ensures Xs(k + 1) == "-x" + Xs(k)
  {
    if k > 0 { XsFront(k - 1); }
    assert "-x" + "" == "" + "-x";
  }

  /** `cand` and its next `k - 1` extensions are taken, the `k`-th is chosen. */
  ghost predicate StopsAt(cand: string, taken: set<string>, k: nat) {
    Bump(cand, taken) == cand + Xs(k) && forall i: nat :: i < k ==> cand + Xs(i) in taken
  }

  /** The suffix loop stops at the first free candidate. */
  lemma {:induction false} BumpFirstFree(cand: string, taken: set<string>)
    ensures exists k: nat :: StopsAt(cand, taken, k)
    decreases LongTaken(taken, cand)
  {
    assert cand + Xs(0) == cand;
    if cand in taken {
      LongerShrinks(taken, cand, "-x");
      BumpFirstFree(cand + "-x", taken);
      var k: nat :| StopsAt(cand + "-x", taken, k);
      OneMore(cand, taken, k);
    } else {
      assert StopsAt(cand, taken, 0);
    }
  }

  lemma OneMore(cand: string, taken: set<string>, k: nat)
    requires cand in taken && StopsAt(cand + "-x", taken, k)
    ensures StopsAt(cand, taken, k + 1)
  {
    XsShift(cand, k);
    forall i: nat | i < k + 1 ensures cand + Xs(i) in taken {
      if i == 0 { assert cand + Xs(0) == cand; } else { XsShift(cand, i - 1); }
    }
  }

  lemma XsShift(cand: string, k: nat)
    ensures cand + Xs(k + 1) == cand + "-x" + Xs(k)
  {
    XsFront(k);
    assert cand + ("-x" + Xs(k)) == cand + "-x" + Xs(k);
  }

  // ---- the member table in PeerID order ----

  ghost predicate Distinct(members: seq<MemberRef>) {
    forall i, j :: 0 <= i < j < |members| ==> members[i].peerID != members[j].peerID
  }

  function IDs(members: seq<MemberRef>): seq<string> {
    seq(|members|, i requires 0 <= i < |members| => members[i].peerID)
  }

  function Find(members: seq<MemberRef>, id: string): (m: MemberRef)
    requires id in IDs(members)
    ensures m in members && m.peerID == id
  {
    if members[0].peerID == id then members[0]
    else
      assert exists i :: 0 <= i < |members| && IDs(members)[i] == id;
      assert forall i :: 0 < i < |members| ==> IDs(members[1..])[i - 1] == IDs(members)[i];
      Find(members[1..], id)
  }

  /** The members in increasing PeerID order. */
  function SortByID(members: seq<MemberRef>): seq<MemberRef> {
    var ids := Order.Sort(IDs(members));
    seq(|ids|, i requires 0 <= i < |ids| => SortedMember(members, i); Find(members, ids[i]))
  }

  lemma SortedMember(members: seq<MemberRef>, i: nat)
    requires i < |Order.Sort(IDs(members))|
    ensures Order.Sort(IDs(members))[i] in IDs(members)
  {
    assert Order.Sort(IDs(members))[i] in Elements(IDs(members));
  }

  lemma SortedMembers(members: seq<MemberRef>)
    requires Distinct(members)
    ensures IDs(SortByID(members)) == Order.Sort(IDs(members))
    ensures forall m :: m in SortByID(members) <==> m in members
    ensures Distinct(SortByID(members))
  {
    var ids, sorted := Order.Sort(IDs(members)), SortByID(members);
    forall i | 0 <= i < |ids| ensures sorted[i] in members && sorted[i].peerID == ids[i] {
      SortedMember(members, i);
    }
    forall m | m in members ensures m in sorted {
      IDMember(members, m);
      assert m.peerID in Elements(ids);
      var k :| 0 <= k < |ids| && ids[k] == m.peerID;
      assert sorted[k] == m;
    }
    forall i, j | 0 <= i < j < |sorted| ensures sorted[i].peerID != sorted[j].peerID {
      LessIrreflexive(ids[i]);
    }
  }

  lemma IDMember(members: seq<MemberRef>, m: MemberRef)
    requires m in members
    ensures m.peerID in IDs(members)
  {
    var i :| 0 <= i < |members| && members[i] == m;
    assert IDs(members)[i] == m.peerID;
  }

  lemma SameIDs(a: seq<MemberRef>, b: seq<MemberRef>, id: string)
    requires id in IDs(a) && forall m :: m in a ==> m in b
    ensures id in IDs(b)
  {
    var i :| 0 <= i < |IDs(a)| && IDs(a)[i] == id;
    IDMember(b, a[i]);
  }

  lemma SameSortedIDs(a: seq<MemberRef>, b: seq<MemberRef>)
    requires forall m :: m in a <==> m in b
    ensures Order.Sort(IDs(a)) == Order.Sort(IDs(b))
  {
    forall id ensures id in Elements(IDs(a)) <==> id in Elements(IDs(b)) {
      if id in IDs(a) { SameIDs(a, b, id); }
      if id in IDs(b) { SameIDs(b, a, id); }
    }
    SortedUnique(Order.Sort(IDs(a)), Order.Sort(IDs(b)));
  }

  /** The listing of the members depends only on which members there are. */
  lemma SortByIDCanonical(a: seq<MemberRef>, b: seq<MemberRef>)
    requires Distinct(a) && Distinct(b) && forall m :: m in a <==> m in b
    ensures SortByID(a) == SortByID(b)
  {
    SameSortedIDs(a, b);
    var ids, sa, sb := Order.Sort(IDs(a)), SortByID(a), SortByID(b);
    forall i | 0 <= i < |ids| ensures sa[i] == sb[i] {
      SortedMember(a, i);
      SortedMember(b, i);
    }
  }

  // ---- Hostnames ----

  ghost predicate AllNameable(parse: Parser, members: seq<MemberRef>) {
    Distinct(members) && forall m :: m in members ==> Nameable(parse, m)
  }

  /** What a member asks for. */
  datatype Claim = Claim(id: string, base: string)

  ghost predicate DistinctClaims(claims: seq<Claim>) {
    forall i, j :: 0 <= i < j < |claims| ==> claims[i].id != claims[j].id
  }

  /** First come, first served over the first `n` claims. */
  function Assign(claims: seq<Claim>, n: nat): map<string, string>
    requires n <= |claims|
  {
    if n == 0 then map[]
    else
      var c, prev := claims[n - 1], Assign(claims, n - 1);
      prev[c.id := Pick(c.base, c.id, prev.Values)]
  }

  function Claims(parse: Parser, sorted: seq<MemberRef>): (claims: seq<Claim>)
    requires forall m :: m in sorted ==> Nameable(parse, m)
    ensures |claims| == |sorted|
    ensures forall i :: 0 <= i < |sorted| ==> claims[i] == Claim(sorted[i].peerID, Base(parse, sorted[i]))
  {
    seq(|sorted|, i requires 0 <= i < |sorted| => Claim(sorted[i].peerID, Base(parse, sorted[i])))
  }

  function HostnameTable(parse: Parser, members: seq<MemberRef>): map<string, string>
    requires AllNameable(parse, members)
  {
    SortedMembers(members);
    Assign(Claims(parse, SortByID(members)), |SortByID(members)|)
  }

  method Suffixed(host: string, id: string, taken: set<string>) returns (cand: string)
    ensures cand == Bump(host + "-" + Lower(Tail(id)), taken)
  {
    var suffix := id;
    if |suffix| > 4 { suffix := suffix[|suffix| - 4..]; }
    cand := host + "-" + Lower(suffix);
    while cand in taken
      invariant Bump(cand, taken) == Bump(host + "-" + Lower(Tail(id)), taken)
      decreases LongTaken(taken, cand)
    {
      LongerShrinks(taken, cand, "-x");
      cand := cand + "-x";
    }
  }

  method BaseLabel(parse: Parser, m: MemberRef) returns (host: string)
    requires Nameable(parse, m)
    ensures host == Base(parse, m)
  {
    host := Label(m.name);
    if host == "" {
      var ip := parse(m.virtualIP);
      if ip.Some? && ip.value.V4? {
        host := "node-" + Decimal(ip.value.c as nat) + "-" + Decimal(ip.value.d as nat);
      }
      if host == "" { host := "node-" + m.peerID[..4]; }
    }
  }

  /** One turn of the loop of Hostnames. */
  method AddHostname(ghost claims: seq<Claim>, ghost i: nat, id: string, base: string,
                     out: map<string, string>, taken: set<string>)
    returns (out': map<string, string>, taken': set<string>)
    requires i < |claims| && DistinctClaims(claims) && claims[i] == Claim(id, base)
    requires out == Assign(claims, i) && taken == out.Values
    ensures out' == Assign(claims, i + 1) && taken' == out'.Values
  {
    var host := base;
    if host in taken { host := Suffixed(host, id, taken); }
    AssignFresh(claims, i);
    ValuesGrow(out, id, host);
    taken' := taken + {host};
    out' := out[id := host];
  }

  method Hostnames(parse: Parser, members: seq<MemberRef>) returns (out: map<string, string>)
    requires AllNameable(parse, members)
    ensures out == HostnameTable(parse, members)
  {
    SortedMembers(members);
    var sorted := SortByID(members);
    ghost var claims := Claims(parse, sorted);
    ClaimsDistinct(parse, sorted);
    out := map[];
    var taken: set<string> := {};
    for i := 0 to |sorted|
      invariant out == Assign(claims, i) && taken == out.Values
    {
      var base := BaseLabel(parse, sorted[i]);
      out, taken := AddHostname(claims, i, sorted[i].peerID, base, out, taken);
    }
  }

  lemma ClaimsDistinct(parse: Parser, sorted: seq<MemberRef>)
    requires AllNameable(parse, sorted)
    ensures DistinctClaims(Claims(parse, sorted))
  {
  }

  lemma ValuesGrow(t: map<string, string>, id: string, host: string)
    requires id !in t
    ensures t[id := host].Values == t.Values + {host}
  {
    var next := t[id := host];
    forall v ensures v in next.Values <==> v in t.Values + {host} {
      if v in t.Values {
        var k :| k in t && t[k] == v;
        assert k in next && next[k] == v;
      }
      assert id in next && next[id] == host;
    }
  }

  lemma {:induction false} AssignKeys(claims: seq<Claim>, n: nat)
    requires n <= |claims|
    ensures forall i :: 0 <= i < n ==> claims[i].id in Assign(claims, n)
    ensures forall id :: id in Assign(claims, n) ==> exists i :: 0 <= i < n && claims[i].id == id
  {
    if n > 0 { AssignKeys(claims, n - 1); }
  }

  lemma AssignFresh(claims: seq<Claim>, n: nat)
    requires n < |claims| && DistinctClaims(claims)
    ensures claims[n].id !in Assign(claims, n)
  {
    AssignKeys(claims, n);
  }

  /** No two members share a label. */
  ghost predicate Injective(t: map<string, string>) {
    forall a, b :: a in t && b in t && t[a] == t[b] ==> a == b
  }

  lemma InjectiveGrows(t: map<string, string>, id: string, host: string)
    requires Injective(t) && host !in t.Values
    ensures Injective(t[id := host])
  {
  }

  lemma {:induction false} AssignInjective(claims: seq<Claim>, n: nat)
    requires n <= |claims|
    ensures Injective(Assign(claims, n))
  {
    if n > 0 {
      AssignInjective(claims, n - 1);
      var c, prev := claims[n - 1], Assign(claims, n - 1);
      InjectiveGrows(prev, c.id, Pick(c.base, c.id, prev.Values));
    }
  }

  /** A later claim changes no earlier label. */
  lemma {:induction false} AssignStable(claims: seq<Claim>, n: nat, k: nat)
    requires n <= k <= |claims| && DistinctClaims(claims)
    ensures forall id :: id in Assign(claims, n) ==> id in Assign(claims, k) && Assign(claims, k)[id] == Assign(claims, n)[id]
  {
    if n < k {
      AssignStable(claims, n, k - 1);
      AssignFresh(claims, k - 1);
    }
  }

  /** Every member gets a label, and no two get the same. */
  lemma LabelsDistinct(parse: Parser, members: seq<MemberRef>)
    requires AllNameable(parse, members)
    ensures Injective(HostnameTable(parse, members))
    ensures forall m :: m in members ==> m.peerID in HostnameTable(parse, members)
  {
    SortedMembers(members);
    var sorted := SortByID(members);
    var claims := Claims(parse, sorted);
    AssignInjective(claims, |claims|);
    AssignKeys(claims, |claims|);
    forall m | m in members ensures m.peerID in HostnameTable(parse, members) {
      var i :| 0 <= i < |sorted| && sorted[i] == m;
      assert claims[i].id == m.peerID;
    }
  }

  /** The table depends only on which members there are, not on their order. */
  lemma OrderDoesNotMatter(parse: Parser, a: seq<MemberRef>, b: seq<MemberRef>)
    requires AllNameable(parse, a) && Distinct(b) && forall m :: m in a <==> m in b
    ensures HostnameTable(parse, a) == HostnameTable(parse, b)
  {
    SortByIDCanonical(a, b);
  }

  // ---- who gets which label ----

  lemma {:induction false} AssignLocal(a: seq<Claim>, b: seq<Claim>, n: nat)
    requires n <= |a| && n <= |b| && forall i :: 0 <= i < n ==> a[i] == b[i]
    ensures Assign(a, n) == Assign(b, n)
  {
    if n > 0 { AssignLocal(a, b, n - 1); }
  }

  ghost predicate LabelIs(parse: Parser, members: seq<MemberRef>, m: MemberRef, v: string)
    requires AllNameable(parse, members)
  {
    m.peerID in HostnameTable(parse, members) && HostnameTable(parse, members)[m.peerID] == v
  }

  ghost predicate At(sorted: seq<MemberRef>, m: MemberRef, i: nat) {
    i < |sorted| && sorted[i] == m
  }

  lemma ClaimServed(claims: seq<Claim>, i: nat)
    requires i < |claims| && DistinctClaims(claims)
    ensures var t := Assign(claims, |claims|);
      claims[i].id in t && t[claims[i].id] == Pick(claims[i].base, claims[i].id, Assign(claims, i).Values)
  {
    AssignStable(claims, i + 1, |claims|);
  }

  lemma SortedNameable(parse: Parser, members: seq<MemberRef>)
    requires AllNameable(parse, members)
    ensures AllNameable(parse, SortByID(members))
  {
    SortedMembers(members);
  }

  /** The label of the `i`-th member is the one it got at its turn. */
  lemma LabelAt(parse: Parser, members: seq<MemberRef>, m: MemberRef) returns (i: nat)
    requires AllNameable(parse, members) && m in members
    ensures AllNameable(parse, SortByID(members)) && At(SortByID(members), m, i)
    ensures LabelIs(parse, members, m, Pick(Base(parse, m), m.peerID, Assign(Claims(parse, SortByID(members)), i).Values))
  {
    SortedNameable(parse, members);
    var sorted := SortByID(members);
    var claims := Claims(parse, sorted);
    ClaimsDistinct(parse, sorted);
    i := SortedPosition(members, m);
    ClaimServed(claims, i);
  }

  lemma SortedPosition(members: seq<MemberRef>, m: MemberRef) returns (i: nat)
    requires Distinct(members) && m in members
    ensures At(SortByID(members), m, i)
  {
    SortedMembers(members);
    i :| 0 <= i < |SortByID(members)| && SortByID(members)[i] == m;
  }

  lemma IndexOrder(sorted: seq<MemberRef>, k: nat, i: nat)
    requires StrictlySorted(IDs(sorted)) && k < |sorted| && i < |sorted|
    ensures k < i <==> Less(sorted[k].peerID, sorted[i].peerID)
  {
    var ids := IDs(sorted);
    LessIrreflexive(ids[i]);
    if i < k { LessAsymmetric(ids[i], ids[k]); }
    if k < i { assert Less(ids[k], ids[i]); }
  }

  /** The members listed before the `i`-th are those with smaller PeerIDs. */
  lemma BeforeIsSmaller(members: seq<MemberRef>, i: nat, o: MemberRef)
    requires Distinct(members) && i < |SortByID(members)|
    ensures (exists k: nat :: k < i && At(SortByID(members), o, k)) <==>
      o in members && Less(o.peerID, SortByID(members)[i].peerID)
  {
    SortedMembers(members);
    var sorted := SortByID(members);
    if o in members {
      var k := SortedPosition(members, o);
      IndexOrder(sorted, k, i);
    }
    forall k: nat | k < i && At(sorted, o, k) ensures Less(o.peerID, sorted[i].peerID) {
      IndexOrder(sorted, k, i);
    }
  }

  /** The labels handed out before the `i`-th turn are those of smaller members. */
  lemma TakenExactly(parse: Parser, members: seq<MemberRef>, i: nat, v: string)
    requires AllNameable(parse, members) && AllNameable(parse, SortByID(members)) && i < |SortByID(members)|
    ensures v in Assign(Claims(parse, SortByID(members)), i).Values <==>
      exists o :: o in members && Less(o.peerID, SortByID(members)[i].peerID) && LabelIs(parse, members, o, v)
  {
    var sorted := SortByID(members);
    var claims := Claims(parse, sorted);
    SortedMembers(members);
    ClaimsDistinct(parse, sorted);
    AssignKeys(claims, i);
    AssignStable(claims, i, |claims|);
    if v in Assign(claims, i).Values {
      var id :| id in Assign(claims, i) && Assign(claims, i)[id] == v;
      var k: nat :| k < i && claims[k].id == id;
      assert At(sorted, sorted[k], k);
      BeforeIsSmaller(members, i, sorted[k]);
      assert LabelIs(parse, members, sorted[k], v);
    }
    forall o | o in members && Less(o.peerID, sorted[i].peerID) && LabelIs(parse, members, o, v)
      ensures v in Assign(claims, i).Values
    {
      BeforeIsSmaller(members, i, o);
      var k: nat :| k < i && At(sorted, o, k);
      assert claims[k].id == o.peerID;
    }
  }

  /** `m` shares its base label with the final label of a smaller PeerID. */
  ghost predicate Beaten(parse: Parser, members: seq<MemberRef>, m: MemberRef)
    requires AllNameable(parse, members) && m in members
  {
    exists o :: o in members && Less(o.peerID, m.peerID) && LabelIs(parse, members, o, Base(parse, m))
  }

  /** A member keeps its base label exactly when no smaller PeerID has it;
      otherwise it gets its PeerID tail and as few "-x" as needed. */
  lemma LabelExactly(parse: Parser, members: seq<MemberRef>, m: MemberRef)
    requires AllNameable(parse, members) && m in members
    ensures LabelIs(parse, members, m, Base(parse, m)) <==> !Beaten(parse, members, m)
    ensures Beaten(parse, members, m) ==>
      exists k: nat :: LabelIs(parse, members, m, Base(parse, m) + "-" + Lower(Tail(m.peerID)) + Xs(k))
  {
    var i := LabelAt(parse, members, m);
    var taken := Assign(Claims(parse, SortByID(members)), i).Values;
    TakenExactly(parse, members, i, Base(parse, m));
    if Base(parse, m) in taken {
      var cand := Base(parse, m) + "-" + Lower(Tail(m.peerID));
      BumpFirstFree(cand, taken);
      var k: nat :| StopsAt(cand, taken, k);
      assert LabelIs(parse, members, m, cand + Xs(k));
    }
  }

  lemma IDsPrefix(a: seq<MemberRef>, b: seq<MemberRef>, i: nat, j: nat)
    requires Distinct(a) && Distinct(b) && i < |SortByID(a)| && j < |SortByID(b)|
    requires SortByID(a)[i] == SortByID(b)[j]
    requires forall m: MemberRef :: !Less(SortByID(a)[i].peerID, m.peerID) ==> (m in a <==> m in b)
    ensures i == j && forall k :: 0 <= k <= i ==> SortByID(a)[k] == SortByID(b)[k]
  {
    SortedMembers(a);
    SortedMembers(b);
    var sa, sb := SortByID(a), SortByID(b);
    var pa, pb := IDs(sa)[..i], IDs(sb)[..j];
    forall id ensures id in Elements(pa) <==> id in Elements(pb) {
      if id in pa { PrefixShared(a, b, i, j, id); }
      if id in pb { PrefixShared(b, a, j, i, id); }
    }
    SortedUnique(pa, pb);
    forall k | 0 <= k < i ensures sa[k] == sb[k] {
      assert pa[k] == pb[k] && sa[k].peerID == sb[k].peerID;
      assert At(sa, sa[k], k);
      BeforeIsSmaller(a, i, sa[k]);
      LessAsymmetric(sa[k].peerID, sa[i].peerID);
      assert sa[k] in b && sb[k] in b;
    }
  }

  lemma PrefixShared(a: seq<MemberRef>, b: seq<MemberRef>, i: nat, j: nat, id: string)
    requires Distinct(a) && Distinct(b) && i < |SortByID(a)| && j < |SortByID(b)|
    requires SortByID(a)[i] == SortByID(b)[j]
    requires forall m: MemberRef :: !Less(SortByID(a)[i].peerID, m.peerID) ==> (m in a <==> m in b)
    requires id in IDs(SortByID(a))[..i]
    ensures id in IDs(SortByID(b))[..j]
  {
    var sa, sb := SortByID(a), SortByID(b);
    var k :| 0 <= k < i && IDs(sa)[k] == id;
    assert At(sa, sa[k], k);
    BeforeIsSmaller(a, i, sa[k]);
    LessAsymmetric(id, sa[i].peerID);
    BeforeIsSmaller(b, j, sa[k]);
    var l: nat :| l < j && At(sb, sa[k], l);
    assert IDs(sb)[..j][l] == id;
  }

  lemma SameTurn(parse: Parser, sa: seq<MemberRef>, sb: seq<MemberRef>, i: nat)
    requires AllNameable(parse, sa) && AllNameable(parse, sb) && i < |sa| && i < |sb|
    requires forall k :: 0 <= k <= i ==> sa[k] == sb[k]
    ensures Assign(Claims(parse, sa), i) == Assign(Claims(parse, sb), i)
  {
    AssignLocal(Claims(parse, sa), Claims(parse, sb), i);
  }

  /** A label depends only on the members with PeerIDs up to its own: whoever
      joins or leaves above it cannot rename it. */
  lemma LaterMembersDoNotMatter(parse: Parser, a: seq<MemberRef>, b: seq<MemberRef>, m: MemberRef, v: string)
    requires AllNameable(parse, a) && AllNameable(parse, b) && m in a && m in b
    requires forall o: MemberRef :: !Less(m.peerID, o.peerID) ==> (o in a <==> o in b)
    ensures LabelIs(parse, a, m, v) <==> LabelIs(parse, b, m, v)
  {
    var i := LabelAt(parse, a, m);
    var j := LabelAt(parse, b, m);
    IDsPrefix(a, b, i, j);
    SameTurn(parse, SortByID(a), SortByID(b), i);
  }
}
