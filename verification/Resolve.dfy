/** Resolution of a connection target to a member (pkg/serverless/vaddr.go). */
module Resolve {
  import opened DnsLabel
  import opened Hostnames
  import opened Subsequence
  import opened Wrappers

  datatype ResolveError =
    | EmptyTarget
    | AddressUnknown
    | AddressAmbiguous
    | LabelAmbiguous
    | NameUnknown
    | NameAmbiguous(addresses: seq<string>)

  function TrimSuffix(s: string, suffix: string): string {
    if |s| >= |suffix| && s[|s| - |suffix|..] == suffix then s[..|s| - |suffix|] else s
  }

  function LastIndex(s: string, sub: string): (r: int)
    ensures r == -1 || (0 <= r <= |s| - |sub| && s[r..r + |sub|] == sub)
    decreases |s|
  {
    if |s| < |sub| then -1
    else if s[|s| - |sub|..] == sub then |s| - |sub|
    else if s == "" then -1
    else
      var i := LastIndex(s[..|s| - 1], sub);
      assert i >= 0 ==> s[..|s| - 1][i..i + |sub|] == s[i..i + |sub|];
      i
  }

  /** What is left of a target when its domain is cut off. */
  function HostPart(target: string): string {
    var l := TrimSuffix(TrimSuffix(Lower(target), "."), DOMAIN);
    var i := LastIndex(l, DOMAIN);
    if i >= 0 then l[..i] else l
  }

  function Hits(members: seq<MemberRef>, p: MemberRef -> bool): (r: seq<MemberRef>)
    ensures forall m :: m in r <==> m in members && p(m)
  {
    if members == [] then []
    else
      var n := |members| - 1;
      assert members == members[..n] + [members[n]];
      Hits(members[..n], p) + if p(members[n]) then [members[n]] else []
  }

  function ByAddress(parse: Parser, ip: IPAddr): MemberRef -> bool {
    (m: MemberRef) => if ip.V4? then parse(m.virtualIP) == Some(ip) else parse(m.virtualIPv6) == Some(ip)
  }

  function ByLabel(hosts: map<string, string>, host: string): MemberRef -> bool {
    (m: MemberRef) => m.peerID in hosts && hosts[m.peerID] == host
  }

  function ByName(name: string): MemberRef -> bool {
    (m: MemberRef) => m.name == name
  }

  function FullAddress(hosts: map<string, string>, m: MemberRef): string {
    (if m.peerID in hosts then hosts[m.peerID] else "") + DOMAIN
  }

  function FullAddresses(hosts: map<string, string>, hits: seq<MemberRef>): (r: seq<string>)
    ensures |r| == |hits| && forall i :: 0 <= i < |hits| ==> r[i] == FullAddress(hosts, hits[i])
  {
    seq(|hits|, i requires 0 <= i < |hits| => FullAddress(hosts, hits[i]))
  }

  /** Whether the host names are computed at all, for the trimmed target `t`
      and its host part. */
  predicate NeedsHosts(parse: Parser, members: seq<MemberRef>, t: string, host: string) {
    t != "" && parse(t).None? && (host != "" || |Hits(members, ByName(t))| > 1)
  }

  /** The host names, where they are computed. */
  ghost function HostsFor(parse: Parser, members: seq<MemberRef>, t: string, host: string): map<string, string>
    requires NeedsHosts(parse, members, t, host) ==> AllNameable(parse, members)
  {
    if NeedsHosts(parse, members, t, host) then HostnameTable(parse, members) else map[]
  }

  function One(hits: seq<MemberRef>, none: ResolveError, many: ResolveError): Result<MemberRef, ResolveError> {
    if |hits| == 1 then Ok(hits[0]) else if hits == [] then Err(none) else Err(many)
  }

  /** What ResolveTarget answers for the trimmed target `t` with host part
      `host`, when the members have the host names `hosts`. */
  function Answer(parse: Parser, members: seq<MemberRef>, hosts: map<string, string>, t: string, host: string)
    : Result<MemberRef, ResolveError>
  {
    if t == "" then Err(EmptyTarget)
    else if parse(t).Some? then One(Hits(members, ByAddress(parse, parse(t).value)), AddressUnknown, AddressAmbiguous)
    else
      var labelled := if host == "" then [] else Hits(members, ByLabel(hosts, host));
      var named := Hits(members, ByName(t));
      if labelled != [] then One(labelled, NameUnknown, LabelAmbiguous)
      else One(named, NameUnknown, NameAmbiguous(FullAddresses(hosts, named)))
  }

  method Select(members: seq<MemberRef>, p: MemberRef -> bool) returns (hits: seq<MemberRef>)
    ensures hits == Hits(members, p)
  {
    hits := [];
    for i := 0 to |members|
      invariant hits == Hits(members[..i], p)
    {
      assert members[..i + 1][..i] == members[..i];
      if p(members[i]) { hits := hits + [members[i]]; }
    }
    assert members[..|members|] == members;
  }

  method ResolveTrimmed(parse: Parser, members: seq<MemberRef>, t: string, host: string)
    returns (r: Result<MemberRef, ResolveError>)
    requires NeedsHosts(parse, members, t, host) ==> AllNameable(parse, members)
    ensures r == Answer(parse, members, HostsFor(parse, members, t, host), t, host)
  {
    if t == "" { return Err(EmptyTarget); }
    var ip := parse(t);
    if ip.Some? {
      var hits := Select(members, ByAddress(parse, ip.value));
      if |hits| == 1 { return Ok(hits[0]); }
      if |hits| == 0 { return Err(AddressUnknown); }
      return Err(AddressAmbiguous);
    }
    if host != "" {
      var hosts := Hostnames.Hostnames(parse, members);
      var hits := Select(members, ByLabel(hosts, host));
      if |hits| == 1 { return Ok(hits[0]); }
      if |hits| > 1 { return Err(LabelAmbiguous); }
    }
    var hit := Select(members, ByName(t));
    if |hit| == 1 { return Ok(hit[0]); }
    if |hit| == 0 { return Err(NameUnknown); }
    var hosts := Hostnames.Hostnames(parse, members);
    r := Err(NameAmbiguous(FullAddresses(hosts, hit)));
  }

  /** What ResolveTarget answers. */
  ghost function Resolved(parse: Parser, members: seq<MemberRef>, target: string): Result<MemberRef, ResolveError>
    requires var t := TrimSpace(target); NeedsHosts(parse, members, t, HostPart(t)) ==> AllNameable(parse, members)
  {
    var t := TrimSpace(target);
    Answer(parse, members, HostsFor(parse, members, t, HostPart(t)), t, HostPart(t))
  }

  method ResolveTarget(parse: Parser, members: seq<MemberRef>, target: string)
    returns (r: Result<MemberRef, ResolveError>)
    requires var t := TrimSpace(target); NeedsHosts(parse, members, t, HostPart(t)) ==> AllNameable(parse, members)
    ensures r == Resolved(parse, members, target)
  {
    var t := TrimSpace(target);
    r := ResolveTrimmed(parse, members, t, HostPart(t));
  }

  // ---- one hit ----

  lemma HitsBound(members: seq<MemberRef>, p: MemberRef -> bool, m: MemberRef)
    requires Distinct(members) && forall o :: o in members && p(o) ==> o == m
    ensures |Hits(members, p)| <= 1
  {
    if members != [] {
      var n := |members| - 1;
      assert forall o :: o in members[..n] ==> o in members;
      HitsBound(members[..n], p, m);
      var prev := Hits(members[..n], p);
      assert prev != [] ==> prev[0] in prev;
      assert members[n] in members;
    }
  }

  /** Exactly one hit: the only member satisfying `p`. */
  lemma OneHit(members: seq<MemberRef>, p: MemberRef -> bool, m: MemberRef)
    requires Distinct(members)
    ensures Hits(members, p) == [m] <==> m in members && p(m) && forall o :: o in members && p(o) ==> o == m
  {
    var hits := Hits(members, p);
    if hits == [m] {
      assert m in hits;
      forall o | o in members && p(o) ensures o == m { assert o in hits; }
    }
    if m in members && p(m) && forall o :: o in members && p(o) ==> o == m {
      HitsBound(members, p, m);
      assert m in hits;
    }
  }

  /** The member has the address, in the field of its family. */
  predicate Holds(parse: Parser, m: MemberRef, ip: IPAddr) {
    match ip
    case V4(_, _, _, _) => parse(m.virtualIP) == Some(ip)
    case V6(_) => parse(m.virtualIPv6) == Some(ip)
  }

  /** An address resolves to a member exactly when it alone has the address. */
  lemma AddressExactly(parse: Parser, members: seq<MemberRef>, hosts: map<string, string>, t: string, host: string,
                       m: MemberRef)
    requires Distinct(members) && t != "" && parse(t).Some?
    ensures Answer(parse, members, hosts, t, host) == Ok(m) <==>
      m in members && Holds(parse, m, parse(t).value) && forall o :: o in members && Holds(parse, o, parse(t).value) ==> o == m
  {
    forall o: MemberRef ensures Holds(parse, o, parse(t).value) <==> ByAddress(parse, parse(t).value)(o) { }
    OneHit(members, ByAddress(parse, parse(t).value), m);
  }

  /** What Hostnames provides: a label each, no two alike. */
  ghost predicate Labelling(hosts: map<string, string>, members: seq<MemberRef>) {
    && Distinct(members) && Injective(hosts)
    && forall m :: m in members ==> m.peerID in hosts
  }

  lemma LabelHits(hosts: map<string, string>, members: seq<MemberRef>, host: string)
    requires Labelling(hosts, members)
    ensures |Hits(members, ByLabel(hosts, host))| <= 1
  {
    var p := ByLabel(hosts, host);
    SomeHit(members, p);
    if m :| m in members && p(m) {
      forall o | o in members && p(o) ensures o == m { assert o.peerID == m.peerID; }
      HitsBound(members, p, m);
    }
  }

  lemma SomeHit(members: seq<MemberRef>, p: MemberRef -> bool)
    ensures Hits(members, p) != [] <==> exists m :: m in members && p(m)
  {
    var hits := Hits(members, p);
    assert hits != [] ==> hits[0] in hits;
  }

  /** Labels are unique, so the ambiguous-label error never occurs. */
  lemma LabelNeverAmbiguous(parse: Parser, members: seq<MemberRef>, hosts: map<string, string>, t: string, host: string)
    requires Labelling(hosts, members)
    ensures Answer(parse, members, hosts, t, host) != Err(LabelAmbiguous)
  {
    LabelHits(hosts, members, host);
  }

  /** Without an address, a member's own label resolves to it and to nobody else. */
  lemma LabelAnswer(parse: Parser, members: seq<MemberRef>, hosts: map<string, string>, t: string, host: string,
                    m: MemberRef)
    requires Labelling(hosts, members) && m in members && t != "" && parse(t).None? && host != ""
    ensures hosts[m.peerID] == host ==> Answer(parse, members, hosts, t, host) == Ok(m)
    ensures hosts[m.peerID] != host && m.name != t ==> Answer(parse, members, hosts, t, host) != Ok(m)
  {
    var p := ByLabel(hosts, host);
    OneHit(members, p, m);
    if p(m) {
      forall o | o in members && p(o) ensures o == m { assert o.peerID == m.peerID; }
    }
    var labelled, named := Hits(members, p), Hits(members, ByName(t));
    assert labelled != [] ==> labelled[0] in labelled;
    assert named != [] ==> named[0] in named;
  }

  /** No member carries the label the target asks for. */
  ghost predicate NoLabel(hosts: map<string, string>, members: seq<MemberRef>, host: string) {
    host == "" || forall m :: m in members ==> !(m.peerID in hosts && hosts[m.peerID] == host)
  }

  ghost predicate Namesakes(members: seq<MemberRef>, name: string) {
    exists m, o :: m in members && o in members && m != o && m.name == o.name == name
  }

  lemma {:induction false} TwoHits(members: seq<MemberRef>, p: MemberRef -> bool)
    requires Distinct(members)
    ensures |Hits(members, p)| > 1 <==> exists m, o :: m in members && o in members && m != o && p(m) && p(o)
  {
    var hits := Hits(members, p);
    SomeHit(members, p);
    if |hits| <= 1 && hits != [] {
      assert hits == [hits[0]];
      OneHit(members, p, hits[0]);
    }
    if |hits| > 1 {
      OneHit(members, p, hits[0]);
      assert hits[0] in hits;
      var o :| o in members && p(o) && o != hits[0];
      assert hits[0] in members && p(hits[0]);
    }
  }

  /** Where neither an address nor a label answers, the raw name does: it finds a
      member exactly when it alone has the name, and namesakes are listed by full
      address, in the order of the members. */
  lemma NameExactly(parse: Parser, members: seq<MemberRef>, hosts: map<string, string>, t: string, host: string)
    requires Distinct(members) && t != "" && parse(t).None? && NoLabel(hosts, members, host)
    ensures var r := Answer(parse, members, hosts, t, host);
      && (forall m :: r == Ok(m) <==> m in members && m.name == t && forall o :: o in members && o.name == t ==> o == m)
      && (r == Err(NameUnknown) <==> forall m :: m in members ==> m.name != t)
      && (r.Err? && r.error.NameAmbiguous? <==> Namesakes(members, t))
  {
    var p := ByName(t);
    SomeHit(members, ByLabel(hosts, host));
    SomeHit(members, p);
    TwoHits(members, p);
    forall m ensures Hits(members, p) == [m] <==> m in members && m.name == t && forall o :: o in members && o.name == t ==> o == m {
      OneHit(members, p, m);
    }
    assert |Hits(members, p)| == 1 ==> Hits(members, p) == [Hits(members, p)[0]];
  }

  lemma HitsSnoc(init: seq<MemberRef>, m: MemberRef, p: MemberRef -> bool)
    ensures Hits(init + [m], p) == if p(m) then Hits(init, p) + [m] else Hits(init, p)
  {
    assert (init + [m])[..|init|] == init;
  }

  lemma {:induction false} HitsInOrder(members: seq<MemberRef>, p: MemberRef -> bool)
    ensures Subseq(Hits(members, p), members)
  {
    if members != [] {
      var init, m := members[..|members| - 1], members[|members| - 1];
      assert members == init + [m];
      HitsInOrder(init, p);
      HitsSnoc(init, m, p);
      SubseqSnoc(Hits(init, p), init, m);
    }
  }

  /** The addresses offered for an ambiguous name are those of all namesakes in
      the order of the members. */
  lemma AmbiguousListed(parse: Parser, members: seq<MemberRef>, hosts: map<string, string>, t: string, host: string)
    requires var r := Answer(parse, members, hosts, t, host); r.Err? && r.error.NameAmbiguous?
    ensures exists named: seq<MemberRef> ::
      Answer(parse, members, hosts, t, host) == Err(NameAmbiguous(FullAddresses(hosts, named))) &&
      Subseq(named, members) && forall m :: m in named <==> m in members && m.name == t
  {
    HitsInOrder(members, ByName(t));
  }

  /** Each address is the label of the member with the domain. */
  lemma AddressesSpelled(hosts: map<string, string>, named: seq<MemberRef>, i: nat)
    requires i < |named| && named[i].peerID in hosts
    ensures FullAddresses(hosts, named)[i] == hosts[named[i].peerID] + ".lanet"
  {
  }

  // ---- the host part ----

  ghost predicate Occurs(s: string, sub: string, i: nat) {
    i + |sub| <= |s| && s[i..i + |sub|] == sub
  }

  /** strings.LastIndex: the last place where the text occurs. */
  lemma {:induction false} LastIndexExactly(s: string, sub: string, i: nat)
    requires Occurs(s, sub, i)
    ensures i <= LastIndex(s, sub)
  {
    if s[|s| - |sub|..] != sub {
      assert i + |sub| < |s|;
      assert s[..|s| - 1][i..i + |sub|] == s[i..i + |sub|];
      LastIndexExactly(s[..|s| - 1], sub, i);
    }
  }

  lemma NoDotAt(host: string, rest: string, k: nat)
    requires '.' !in rest && |host| < k < |host| + |DOMAIN| + |rest|
    ensures (host + DOMAIN + rest)[k] != '.'
  {
    if k < |host| + |DOMAIN| {
      assert (host + DOMAIN + rest)[k] == DOMAIN[k - |host|];
    } else {
      assert (host + DOMAIN + rest)[k] == rest[k - |host| - |DOMAIN|];
    }
  }

  lemma DomainIndex(host: string, rest: string)
    requires '.' !in rest
    ensures LastIndex(host + DOMAIN + rest, DOMAIN) == |host|
  {
    var l := host + DOMAIN + rest;
    assert l[|host|..|host| + |DOMAIN|] == DOMAIN;
    LastIndexExactly(l, DOMAIN, |host|);
    var i := LastIndex(l, DOMAIN);
    assert l[i] == l[i..i + |DOMAIN|][0];
    if i > |host| { NoDotAt(host, rest, i); }
  }

  /** A target that goes on after the domain without a further dot is cut there. */
  lemma HostPartCuts(target: string, host: string, rest: string)
    requires Lower(target) == host + DOMAIN + rest && rest != "" && '.' !in rest
    ensures HostPart(target) == host
  {
    var l := host + DOMAIN + rest;
    NoDotAt(host, rest, |l| - 1);
    assert l[|l| - 1..][0] == l[|l| - 1];
    NoDomainAtEnd(host, rest);
    DomainIndex(host, rest);
    assert l[..|host|] == host;
  }

  /** The domain followed by dotless text is no final domain. */
  lemma NoDomainAtEnd(host: string, rest: string)
    requires rest != "" && '.' !in rest
    ensures var l := host + DOMAIN + rest; TrimSuffix(l, DOMAIN) == l
  {
    var l := host + DOMAIN + rest;
    NoDotAt(host, rest, |l| - |DOMAIN|);
    assert l[|l| - |DOMAIN|..][0] == l[|l| - |DOMAIN|];
  }

  ghost predicate Shared(parse: Parser, members: seq<MemberRef>, ip: IPAddr) {
    exists m, o :: m in members && o in members && m != o && ByAddress(parse, ip)(m) && ByAddress(parse, ip)(o)
  }

  /** The other errors, each with its condition. */
  lemma ErrorsExactly(parse: Parser, members: seq<MemberRef>, hosts: map<string, string>, t: string, host: string)
    requires Distinct(members)
    ensures var r, ip := Answer(parse, members, hosts, t, host), if t == "" then None else parse(t);
      && (r == Err(EmptyTarget) <==> t == "")
      && (r == Err(AddressUnknown) <==> ip.Some? && forall m :: m in members ==> !ByAddress(parse, ip.value)(m))
      && (r == Err(AddressAmbiguous) <==> ip.Some? && Shared(parse, members, ip.value))
  {
    if parse(t).Some? {
      SomeHit(members, ByAddress(parse, parse(t).value));
      TwoHits(members, ByAddress(parse, parse(t).value));
    }
  }
}
