/** ResolveTarget undoes Hostnames (pkg/serverless/vaddr.go), on PeerIDs made of
    letters and digits. */
module ResolveLaws {
  import Order
  import opened DnsLabel
  import opened Hostnames
  import opened Resolve
  import opened Wrappers

  predicate IsHostChar(c: char) { IsLegal(c) || IsUpper(c) }

  predicate HostChars(s: string) {
    forall i :: 0 <= i < |s| ==> IsHostChar(s[i])
  }

  predicate IDChars(id: string) {
    forall i :: 0 <= i < |id| ==> IsAlnum(id[i]) || IsUpper(id[i])
  }

  // ---- the characters of a label ----

  lemma LowerConcat(a: string, b: string)
    ensures Lower(a + b) == Lower(a) + Lower(b)
  {
  }

  lemma LowerTwice(s: string)
    ensures Lower(Lower(s)) == Lower(s)
  {
    forall i | 0 <= i < |s| ensures LowerChar(LowerChar(s[i])) == LowerChar(s[i]) {
    }
  }

  lemma LowerHostChars(s: string)
    requires HostChars(s)
    ensures HostChars(Lower(s))
  {
  }

  lemma LowerLegal(s: string)
    requires forall i :: 0 <= i < |s| ==> IsLegal(s[i])
    ensures Lower(s) == s && HostChars(s)
  {
    forall i | 0 <= i < |s| ensures LowerChar(s[i]) == s[i] { LegalIsPlain(s[i]); }
  }

  lemma LowerXs(k: nat)
    ensures Lower(Xs(k)) == Xs(k) && HostChars(Xs(k))
  {
    if k > 0 {
      LowerXs(k - 1);
      LowerConcat(Xs(k - 1), "-x");
    }
  }

  lemma NodeLabelLower(a: nat, b: nat)
    ensures var l := "node-" + Decimal(a) + "-" + Decimal(b); Lower(l) == l && HostChars(l)
  {
    LowerLegal("node-" + Decimal(a) + "-" + Decimal(b));
  }

  lemma NamedBaseLower(parse: Parser, m: MemberRef)
    requires Named(parse, m)
    ensures Lower(Base(parse, m)) == Base(parse, m) && HostChars(Base(parse, m))
  {
    if Label(m.name) != "" {
      LabelWellFormed(m.name);
      LowerLegal(Label(m.name));
    } else {
      var ip := parse(m.virtualIP).value;
      NodeLabelLower(ip.c as nat, ip.d as nat);
    }
  }

  /** The fallback on the PeerID keeps its case. */
  predicate KeepsCase(parse: Parser, m: MemberRef)
    requires Nameable(parse, m)
  {
    !Named(parse, m) && Lower(m.peerID[..4]) != m.peerID[..4]
  }

  lemma BaseLower(parse: Parser, m: MemberRef)
    requires Nameable(parse, m) && IDChars(m.peerID)
    ensures HostChars(Base(parse, m)) && Base(parse, m) != ""
    ensures Lower(Base(parse, m)) == Base(parse, m) <==> !KeepsCase(parse, m)
  {
    if Named(parse, m) {
      NamedBaseLower(parse, m);
    } else {
      FallbackLower(m.peerID);
    }
  }

  lemma FallbackLower(id: string)
    requires |id| >= 4 && IDChars(id)
    ensures HostChars("node-" + id[..4])
    ensures Lower("node-" + id[..4]) == "node-" + id[..4] <==> Lower(id[..4]) == id[..4]
  {
    var p := id[..4];
    LowerLegal("node-");
    LowerConcat("node-", p);
    assert ("node-" + Lower(p))[5..] == Lower(p) && ("node-" + p)[5..] == p;
  }

  lemma SuffixLower(id: string, k: nat)
    requires IDChars(id)
    ensures var rest := "-" + Lower(Tail(id)) + Xs(k); Lower(rest) == rest && HostChars(rest)
  {
    LowerXs(k);
    LowerTwice(Tail(id));
    LowerHostChars(Tail(id));
    LowerConcat("-" + Lower(Tail(id)), Xs(k));
    LowerConcat("-", Lower(Tail(id)));
  }

  lemma AppendLower(base: string, rest: string)
    requires HostChars(base) && HostChars(rest) && Lower(rest) == rest
    ensures HostChars(base + rest) && (Lower(base + rest) == base + rest <==> Lower(base) == base)
  {
    LowerConcat(base, rest);
    assert (Lower(base) + rest)[..|base|] == Lower(base) && (base + rest)[..|base|] == base;
  }

  lemma SuffixedLower(base: string, id: string, k: nat)
    requires HostChars(base) && IDChars(id)
    ensures var l := base + "-" + Lower(Tail(id)) + Xs(k); HostChars(l) && (Lower(l) == l <==> Lower(base) == base)
  {
    var rest := "-" + Lower(Tail(id)) + Xs(k);
    SuffixLower(id, k);
    AppendLower(base, rest);
    assert base + "-" + Lower(Tail(id)) + Xs(k) == base + rest;
  }

  /** A label is lower case exactly when its member did not need the PeerID
      fallback, or has no upper case there. */
  lemma LabelLowerExactly(parse: Parser, members: seq<MemberRef>, m: MemberRef, v: string)
    requires AllNameable(parse, members) && m in members && IDChars(m.peerID) && LabelIs(parse, members, m, v)
    ensures HostChars(v) && v != ""
    ensures Lower(v) == v <==> !KeepsCase(parse, m)
  {
    LabelExactly(parse, members, m);
    var base := Base(parse, m);
    BaseLower(parse, m);
    if Beaten(parse, members, m) {
      var k: nat :| LabelIs(parse, members, m, base + "-" + Lower(Tail(m.peerID)) + Xs(k));
      SuffixedLower(base, m.peerID, k);
    }
  }

  // ---- cutting the domain off ----

  lemma NoDomainInside(h: string)
    requires HostChars(h)
    ensures LastIndex(h, DOMAIN) == -1
  {
    if h != "" && |h| >= |DOMAIN| {
      assert h[|h| - |DOMAIN|..][0] == h[|h| - |DOMAIN|];
      assert HostChars(h[..|h| - 1]);
      NoDomainInside(h[..|h| - 1]);
    }
  }

  lemma NoDotInside(h: string, suffix: string)
    requires HostChars(h) && suffix != "" && suffix[0] == '.'
    ensures TrimSuffix(h, suffix) == h
  {
    assert |h| >= |suffix| ==> h[|h| - |suffix|..][0] == h[|h| - |suffix|];
  }

  /** The spellings of a host name that the domain rules accept. */
  ghost predicate Spells(t: string, h: string) {
    Lower(t) == h || Lower(t) == h + "." || Lower(t) == h + DOMAIN || Lower(t) == h + DOMAIN + "."
  }

  lemma HostPartOf(t: string, h: string)
    requires HostChars(h) && Spells(t, h)
    ensures HostPart(t) == h
  {
    NoDomainInside(h);
    NoDotInside(h, ".");
    NoDotInside(h, DOMAIN);
    var l := Lower(t);
    if l == h + "." {
      assert l[|l| - 1..] == "." && l[..|l| - 1] == h;
    } else if l == h + DOMAIN {
      DomainCut(h, l);
    } else if l == h + DOMAIN + "." {
      assert l[|l| - 1..] == "." && l[..|l| - 1] == h + DOMAIN;
      DomainCut(h, h + DOMAIN);
    }
  }

  lemma DomainCut(h: string, l: string)
    requires l == h + DOMAIN
    ensures TrimSuffix(l, ".") == l && TrimSuffix(l, DOMAIN) == h
  {
    assert l[|l| - 1..][0] == DOMAIN[5] == 't';
    assert l[|l| - |DOMAIN|..] == DOMAIN && l[..|l| - |DOMAIN|] == h;
  }

  lemma NoSpaceAround(h: string, t: string)
    requires h != "" && HostChars(h) && t == h + DOMAIN
    ensures TrimSpace(t) == t
  {
    assert t[0] == h[0] && t[|t| - 1] == DOMAIN[5] == 't';
    assert IsHostChar(t[0]);
    assert TrimLeft(t, IsSpace) == t;
  }

  // ---- the round trip ----

  lemma LabellingHolds(parse: Parser, members: seq<MemberRef>)
    requires AllNameable(parse, members)
    ensures Labelling(HostnameTable(parse, members), members)
  {
    LabelsDistinct(parse, members);
  }

  /** Every accepted spelling of a lower-case label finds its member: any case,
      with or without the domain, with or without a final dot. */
  lemma SpellingsResolve(parse: Parser, members: seq<MemberRef>, m: MemberRef, v: string, target: string)
    requires AllNameable(parse, members) && m in members && IDChars(m.peerID) && LabelIs(parse, members, m, v)
    requires !KeepsCase(parse, m) && Spells(TrimSpace(target), v) && parse(TrimSpace(target)).None?
    ensures Resolved(parse, members, target) == Ok(m)
  {
    LabelLowerExactly(parse, members, m, v);
    HostPartOf(TrimSpace(target), v);
    LabellingHolds(parse, members);
    LabelAnswer(parse, members, HostnameTable(parse, members), TrimSpace(target), v, m);
  }

  lemma AddressCut(v: string, t: string)
    requires HostChars(v) && v != "" && t == v + DOMAIN
    ensures TrimSpace(t) == t && HostPart(t) == Lower(v)
  {
    NoSpaceAround(v, t);
    LowerHostChars(v);
    LowerConcat(v, DOMAIN);
    LowerDomain();
    HostPartOf(t, Lower(v));
  }

  lemma ResolvedByLabel(parse: Parser, members: seq<MemberRef>, target: string, t: string, host: string)
    requires AllNameable(parse, members) && t == TrimSpace(target) && host == HostPart(t)
    requires t != "" && parse(t).None? && host != ""
    ensures Resolved(parse, members, target) == Answer(parse, members, HostnameTable(parse, members), t, host)
  {
  }

  lemma LowerDomain()
    ensures Lower(DOMAIN) == DOMAIN
  {
  }

  lemma AnswerWhenLower(parse: Parser, members: seq<MemberRef>, hosts: map<string, string>, m: MemberRef, v: string,
                        t: string, host: string)
    requires Labelling(hosts, members) && m in members && hosts[m.peerID] == v
    requires host != "" && t != "" && parse(t).None? && (host != v ==> m.name != t)
    ensures Answer(parse, members, hosts, t, host) == Ok(m) <==> host == v
  {
    LabelAnswer(parse, members, hosts, t, host, m);
  }

  lemma FoundWhenLower(parse: Parser, members: seq<MemberRef>, m: MemberRef, v: string, t: string, host: string)
    requires AllNameable(parse, members) && m in members && LabelIs(parse, members, m, v)
    requires TrimSpace(t) == t && HostPart(t) == host && host != "" && t != ""
    requires parse(t).None? && (host != v ==> m.name != t)
    ensures Resolved(parse, members, t) == Ok(m) <==> host == v
  {
    ResolvedByLabel(parse, members, t, t, host);
    LabellingHolds(parse, members);
    AnswerWhenLower(parse, members, HostnameTable(parse, members), m, v, t, host);
  }

  lemma FullAddressCut(parse: Parser, members: seq<MemberRef>, m: MemberRef, v: string, t: string)
    requires AllNameable(parse, members) && m in members && IDChars(m.peerID) && LabelIs(parse, members, m, v)
    requires t == v + DOMAIN
    ensures t != "" && TrimSpace(t) == t && HostPart(t) != ""
    ensures if KeepsCase(parse, m) then HostPart(t) != v && m.name != t else HostPart(t) == v
  {
    LabelLowerExactly(parse, members, m, v);
    if KeepsCase(parse, m) { NamelessIsNoAddress(m.name, v); }
    AddressCut(v, t);
  }

  /** The full address of a member, its label with the domain, resolves to it
      exactly when the label did not come from the case-keeping fallback. */
  lemma FullAddressExactly(parse: Parser, members: seq<MemberRef>, m: MemberRef, v: string, t: string)
    requires AllNameable(parse, members) && m in members && IDChars(m.peerID) && LabelIs(parse, members, m, v)
    requires t == v + DOMAIN && parse(t).None?
    ensures Resolved(parse, members, t) == Ok(m) <==> !KeepsCase(parse, m)
  {
    FullAddressCut(parse, members, m, v, t);
    FoundWhenLower(parse, members, m, v, t, HostPart(t));
  }

  lemma DomainHasLetters(v: string)
    ensures Letters(Lower(v + DOMAIN)) != ""
  {
    var l := Lower(v + DOMAIN);
    assert l[|l| - 1] == LowerChar(DOMAIN[5]) == 't';
  }

  /** A name that spells no label is not a full address. */
  lemma NamelessIsNoAddress(name: string, v: string)
    requires Label(name) == ""
    ensures name != v + DOMAIN
  {
    LettersKept(name);
    DomainHasLetters(v);
  }

  lemma LibP2PKeepsCase(parse: Parser, m: MemberRef)
    requires Label(m.name) == "" && !HasV4(parse, m) && |m.peerID| >= 4 && m.peerID[..4] == "12D3"
    ensures KeepsCase(parse, m)
  {
    assert Lower(m.peerID[..4])[2] == 'd';
  }

  lemma AloneKeepsBase(parse: Parser, m: MemberRef)
    requires Nameable(parse, m)
    ensures AllNameable(parse, [m]) && LabelIs(parse, [m], m, Base(parse, m))
  {
    assert AllNameable(parse, [m]);
    LabelExactly(parse, [m], m);
    Order.LessIrreflexive(m.peerID);
  }

  /** A lone member without usable name and IPv4 address whose PeerID begins
      with "12D3", as libp2p's do, is not found under its own full address. */
  lemma FallbackBreaksInverse(parse: Parser, m: MemberRef, t: string)
    requires Label(m.name) == "" && !HasV4(parse, m) && |m.peerID| >= 4 && m.peerID[..4] == "12D3"
    requires IDChars(m.peerID) && t == Base(parse, m) + DOMAIN && parse(t).None?
    ensures AllNameable(parse, [m]) && Resolved(parse, [m], t) != Ok(m)
  {
    LibP2PKeepsCase(parse, m);
    AloneKeepsBase(parse, m);
    FullAddressExactly(parse, [m], m, Base(parse, m), t);
  }
}
