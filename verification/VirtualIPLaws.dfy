/** What the address decision guarantees, and exactly where the promised
    group-wide uniqueness stops. */
module VirtualIPLaws {
  import opened Order
  import opened VirtualIP

  ghost function Todo(h: Derivation, s: set<PeerID>): seq<PeerID> {
    SortSet(DisplacedSet(h, s))
  }

  ghost function Salts(h: Derivation, s: set<PeerID>, blocked: set<IP>): map<PeerID, nat> {
    Assign(h, Todo(h, s), blocked + Contested(h, s)).salts
  }

  lemma FirstFreeMeaning(h: Derivation, id: PeerID, taken: set<IP>, from: nat)
    requires 1 <= from <= SALT_MAX + 1
    ensures var k := FirstFree(h, id, taken, from);
      && (k == 0 || from <= k <= SALT_MAX)
      && (k > 0 ==> h(id, k) !in taken)
      && (forall j :: from <= j <= SALT_MAX && (k == 0 || j < k) ==> h(id, j) in taken)
    decreases SALT_MAX + 1 - from
  {
  }

  /** The addresses a list of salts stands for. */
  ghost function Handed(h: Derivation, salts: map<PeerID, nat>): set<IP> {
    set id | id in salts && salts[id] > 0 :: h(id, salts[id])
  }

  /** The salts `a` give fresh, pairwise distinct addresses outside `taken`. */
  ghost predicate HandsOut(h: Derivation, a: Assignment, taken: set<IP>) {
    && a.taken == taken + Handed(h, a.salts)
    && Handed(h, a.salts) !! taken
    && (forall x, y :: x in a.salts && y in a.salts && x != y && a.salts[x] > 0 && a.salts[y] > 0 ==>
          h(x, a.salts[x]) != h(y, a.salts[y]))
  }

  lemma HandedGrows(h: Derivation, salts: map<PeerID, nat>, id: PeerID, salt: nat)
    requires id !in salts
    ensures Handed(h, salts[id := salt]) == if salt > 0 then Handed(h, salts) + {h(id, salt)} else Handed(h, salts)
  {
    var next := salts[id := salt];
    forall x | x in salts ensures x in next && next[x] == salts[x] { }
    assert id in next && next[id] == salt;
  }

  lemma HandsOutOne(h: Derivation, prev: Assignment, id: PeerID, taken: set<IP>)
    requires HandsOut(h, prev, taken) && id !in prev.salts
    ensures HandsOut(h, AssignOne(h, prev, id), taken)
  {
    var salt := FirstFree(h, id, prev.taken, 1);
    FirstFreeMeaning(h, id, prev.taken, 1);
    HandedGrows(h, prev.salts, id, salt);
    assert forall x :: x in prev.salts && prev.salts[x] > 0 ==> h(x, prev.salts[x]) in Handed(h, prev.salts);
  }

  lemma {:induction false} AssignMeaning(h: Derivation, todo: seq<PeerID>, taken: set<IP>)
    requires StrictlySorted(todo)
    ensures Assign(h, todo, taken).salts.Keys == Elements(todo)
    ensures HandsOut(h, Assign(h, todo, taken), taken)
  {
    if todo != [] {
      var init, last := todo[..|todo| - 1], todo[|todo| - 1];
      assert todo == init + [last];
      AssignMeaning(h, init, taken);
      NotYetAssigned(todo, |todo| - 1);
      assert last !in Elements(init);
      HandsOutOne(h, Assign(h, init, taken), last, taken);
    }
  }

  lemma AssignLast(h: Derivation, todo: seq<PeerID>, taken: set<IP>)
    requires StrictlySorted(todo) && todo != []
    ensures var init, last := todo[..|todo| - 1], todo[|todo| - 1];
      var prev, a := Assign(h, init, taken), Assign(h, todo, taken);
      && StrictlySorted(init)
      && a == AssignOne(h, prev, last)
      && Handed(h, prev.salts) <= Handed(h, a.salts)
      && (a.salts[last] > 0 ==> h(last, a.salts[last]) in Handed(h, a.salts))
  {
    var init, last := todo[..|todo| - 1], todo[|todo| - 1];
    NotYetAssigned(todo, |todo| - 1);
    AssignMeaning(h, init, taken);
    assert last !in Elements(init);
    var prev, a := Assign(h, init, taken), Assign(h, todo, taken);
    forall x | x in prev.salts ensures x in a.salts && a.salts[x] == prev.salts[x] { }
  }

  /** Blocking addresses that nobody was handed changes no choice. */
  lemma {:induction false} AssignIgnores(h: Derivation, todo: seq<PeerID>, taken: set<IP>, extra: set<IP>)
    requires StrictlySorted(todo)
    requires Handed(h, Assign(h, todo, taken).salts) !! extra
    ensures Assign(h, todo, taken + extra).salts == Assign(h, todo, taken).salts
    ensures Assign(h, todo, taken + extra).taken == Assign(h, todo, taken).taken + extra
  {
    if todo != [] {
      AssignLast(h, todo, taken);
      AssignIgnores(h, todo[..|todo| - 1], taken, extra);
      var prev, last := Assign(h, todo[..|todo| - 1], taken), todo[|todo| - 1];
      var k := FirstFree(h, last, prev.taken, 1);
      assert Assign(h, todo, taken).salts[last] == k;
      SameFirstFree(h, last, prev.taken, extra, 1);
      assert prev.taken + extra + {h(last, k)} == prev.taken + {h(last, k)} + extra;
    }
  }

  lemma SameFirstFree(h: Derivation, id: PeerID, taken: set<IP>, extra: set<IP>, from: nat)
    requires 1 <= from <= SALT_MAX + 1
    requires var k := FirstFree(h, id, taken, from); k == 0 || h(id, k) !in extra
    ensures FirstFree(h, id, taken + extra, from) == FirstFree(h, id, taken, from)
    decreases SALT_MAX + 1 - from
  {
  }

  /** The three shapes a lease can have. */
  lemma LeaseShape(h: Derivation, s: set<PeerID>, blocked: set<IP>, id: PeerID)
    requires id in s
    ensures var l := Decide(h, s, blocked)[id];
      && l.baseIP == h(id, 0)
      && l.ip == h(id, l.salt)
      && (id in DisplacedSet(h, s) <==> id in Salts(h, s, blocked))
      && (Displaced(h, s, id) ==> l.losers == [] && l.salt == Salts(h, s, blocked)[id] && (l.unresolved <==> l.salt == 0))
      && (!Displaced(h, s, id) ==> l.salt == 0 && !l.unresolved && Elements(l.losers) == Sharers(h, s, h(id, 0)) - {id})
  {
    AssignMeaning(h, Todo(h, s), blocked + Contested(h, s));
  }

  /** Members that kept their base address hold different ones. */
  lemma KeptBasesDiffer(h: Derivation, s: set<PeerID>, x: PeerID, y: PeerID)
    requires x in s && y in s && x != y && h(x, 0) == h(y, 0)
    ensures Displaced(h, s, x) || Displaced(h, s, y)
    ensures h(x, 0) in Contested(h, s)
  {
    LessTotal(x, y);
    assert x in DisplacedSet(h, s) || y in DisplacedSet(h, s);
  }

  /** Every contested base has one holder, and it was not displaced. */
  lemma ContestedHasHead(h: Derivation, s: set<PeerID>, id: PeerID) returns (head: PeerID)
    requires id in s
    ensures head in s && h(head, 0) == h(id, 0) && !Displaced(h, s, head) && (head == id || Less(head, id))
    decreases |set j | j in s && Less(j, id)|
  {
    head := id;
    if Displaced(h, s, id) {
      var j :| j in s && h(j, 0) == h(id, 0) && Less(j, id);
      var below, belowID := set k | k in s && Less(k, j), set k | k in s && Less(k, id);
      forall k | k in below ensures k in belowID { LessTransitive(k, j, id); }
      LessIrreflexive(j);
      assert j in belowID && j !in below;
      SubsetSmaller(below, belowID, j);
      head := ContestedHasHead(h, s, j);
      if head != j { LessTransitive(head, j, id); }
    }
  }

  lemma SubsetSmaller(a: set<PeerID>, b: set<PeerID>, x: PeerID)
    requires a <= b && x in b && x !in a
    ensures |a| < |b|
  {
    assert |b| == |a| + |b - a|;
  }

  /** Reassigned addresses are pairwise distinct and avoid every contested base
      and every blocked address. */
  lemma ReassignedApart(h: Derivation, s: set<PeerID>, blocked: set<IP>)
    ensures var d := Decide(h, s, blocked);
      && (forall x :: x in s && d[x].salt > 0 ==> d[x].ip !in Contested(h, s) && d[x].ip !in blocked)
      && (forall x, y :: x in s && y in s && x != y && d[x].salt > 0 && d[y].salt > 0 ==> d[x].ip != d[y].ip)
  {
    AssignMeaning(h, Todo(h, s), blocked + Contested(h, s));
    forall x | x in s { LeaseShape(h, s, blocked, x); }
    var d, salts := Decide(h, s, blocked), Salts(h, s, blocked);
    forall x | x in s && d[x].salt > 0 ensures d[x].ip in Handed(h, salts) { }
  }

  /** `x` was moved onto the base address of `y`, which nobody contests. */
  ghost predicate LandsOn(h: Derivation, s: set<PeerID>, d: map<PeerID, Lease>, x: PeerID, y: PeerID)
    requires x in d
  {
    d[x].salt > 0 && d[x].ip == h(y, 0) && h(y, 0) !in Contested(h, s)
  }

  /** Two resolved members share an address exactly when one of them was
      reassigned onto the uncontested base of the other. */
  lemma SharedAddressExactly(h: Derivation, s: set<PeerID>, blocked: set<IP>, x: PeerID, y: PeerID)
    requires x in s && y in s && x != y
    requires !Decide(h, s, blocked)[x].unresolved && !Decide(h, s, blocked)[y].unresolved
    ensures var d := Decide(h, s, blocked);
      d[x].ip == d[y].ip <==> LandsOn(h, s, d, x, y) || LandsOn(h, s, d, y, x)
  {
    var d := Decide(h, s, blocked);
    LeaseShape(h, s, blocked, x);
    LeaseShape(h, s, blocked, y);
    ReassignedApart(h, s, blocked);
    if d[x].salt == 0 && d[y].salt == 0 && h(x, 0) == h(y, 0) {
      KeptBasesDiffer(h, s, x, y);
    }
    if LandsOn(h, s, d, x, y) { UncontestedKeepsBase(h, s, blocked, y); }
    if LandsOn(h, s, d, y, x) { UncontestedKeepsBase(h, s, blocked, x); }
  }

  lemma UncontestedKeepsBase(h: Derivation, s: set<PeerID>, blocked: set<IP>, y: PeerID)
    requires y in s && h(y, 0) !in Contested(h, s)
    ensures Decide(h, s, blocked)[y] == Lease(h(y, 0), h(y, 0), 0, [], false)
  {
    LeaseShape(h, s, blocked, y);
    assert Displaced(h, s, y) <==> y in DisplacedSet(h, s);
    forall z | z in Sharers(h, s, h(y, 0)) ensures z == y {
      if z != y { KeptBasesDiffer(h, s, z, y); }
    }
    assert Sharers(h, s, h(y, 0)) - {y} == {};
    SortedUnique(SortSet({}), []);
  }

  ghost predicate AllDistinct(d: map<PeerID, Lease>) {
    forall x, y :: x in d && y in d && x != y ==> d[x].ip != d[y].ip
  }

  ghost function UncontestedBases(h: Derivation, s: set<PeerID>): set<IP> {
    (set id | id in s :: h(id, 0)) - Contested(h, s)
  }

  /** The salt that the `i`-th displaced member gets: the first candidate outside
      the contested bases and the addresses handed out before. */
  ghost function PickAt(h: Derivation, s: set<PeerID>, i: nat): nat
    requires i < |Todo(h, s)|
  {
    FirstFree(h, Todo(h, s)[i], Assign(h, Todo(h, s)[..i], Contested(h, s)).taken, 1)
  }

  /** The search of the `i`-th displaced member ends, and not on an uncontested base. */
  ghost predicate Placed(h: Derivation, s: set<PeerID>, i: nat)
    requires i < |Todo(h, s)|
  {
    PickAt(h, s, i) > 0 && h(Todo(h, s)[i], PickAt(h, s, i)) !in UncontestedBases(h, s)
  }

  lemma AssignAppend(h: Derivation, todo: seq<PeerID>, n: PeerID, taken: set<IP>)
    ensures Assign(h, todo + [n], taken) == AssignOne(h, Assign(h, todo, taken), n)
  {
    var all := todo + [n];
    assert all[..|all| - 1] == todo;
  }

  lemma AssignStep(h: Derivation, list: seq<PeerID>, z: PeerID, taken: set<IP>)
    requires StrictlySorted(list + [z])
    ensures StrictlySorted(list)
    ensures var prev, a := Assign(h, list, taken), Assign(h, list + [z], taken);
      && z !in prev.salts && a.salts[z] == FirstFree(h, z, prev.taken, 1)
      && forall y :: y in prev.salts ==> y in a.salts && a.salts[y] == prev.salts[y]
  {
    var all := list + [z];
    assert all[..|list|] == list;
    NotYetAssigned(all, |list|);
    AssignMeaning(h, list, taken);
    AssignAppend(h, list, z, taken);
    assert z !in Elements(list);
  }

  lemma {:induction false} AssignAt(h: Derivation, todo: seq<PeerID>, taken: set<IP>, i: nat)
    requires StrictlySorted(todo) && i < |todo|
    ensures todo[i] in Assign(h, todo, taken).salts
    ensures Assign(h, todo, taken).salts[todo[i]] == FirstFree(h, todo[i], Assign(h, todo[..i], taken).taken, 1)
  {
    var init, z := todo[..|todo| - 1], todo[|todo| - 1];
    assert todo == init + [z];
    AssignStep(h, init, z, taken);
    if i < |init| {
      AssignAt(h, init, taken, i);
      assert init[..i] == todo[..i];
    }
  }

  lemma SaltIsPick(h: Derivation, s: set<PeerID>, i: nat)
    requires i < |Todo(h, s)|
    ensures Todo(h, s)[i] in DisplacedSet(h, s) && Todo(h, s)[i] in Salts(h, s, {})
    ensures Salts(h, s, {})[Todo(h, s)[i]] == PickAt(h, s, i)
  {
    assert Todo(h, s)[i] in Elements(Todo(h, s));
    assert {} + Contested(h, s) == Contested(h, s);
    AssignAt(h, Todo(h, s), Contested(h, s), i);
  }

  /** Every displaced member got an address that no member keeps as its base. */
  ghost predicate AllPlaced(h: Derivation, s: set<PeerID>) {
    forall i :: 0 <= i < |Todo(h, s)| ==> Placed(h, s, i)
  }

  lemma PlacedMember(h: Derivation, s: set<PeerID>, x: PeerID)
    requires AllPlaced(h, s) && x in DisplacedSet(h, s)
    ensures Decide(h, s, {})[x].salt > 0 && Decide(h, s, {})[x].ip !in UncontestedBases(h, s)
  {
    assert x in Elements(Todo(h, s));
    var i :| 0 <= i < |Todo(h, s)| && Todo(h, s)[i] == x;
    SaltIsPick(h, s, i);
    LeaseShape(h, s, {}, x);
    assert Placed(h, s, i);
  }

  /** The decision leaves all addresses distinct, as the comments promise, exactly
      when no displaced member runs out of salts or stops on an uncontested base. */
  lemma DistinctExactly(h: Derivation, s: set<PeerID>)
    ensures AllDistinct(Decide(h, s, {})) <==> AllPlaced(h, s)
  {
    if AllDistinct(Decide(h, s, {})) {
      forall i | 0 <= i < |Todo(h, s)| ensures Placed(h, s, i) {
        SaltIsPick(h, s, i);
        DistinctPlaces(h, s, Todo(h, s)[i]);
      }
    }
    if AllPlaced(h, s) {
      PlacedDistinct(h, s);
    }
  }

  lemma DistinctPlaces(h: Derivation, s: set<PeerID>, x: PeerID)
    requires AllDistinct(Decide(h, s, {})) && x in DisplacedSet(h, s)
    ensures x in Salts(h, s, {}) && Salts(h, s, {})[x] > 0 && h(x, Salts(h, s, {})[x]) !in UncontestedBases(h, s)
  {
    LeaseShape(h, s, {}, x);
    assert h(x, 0) in Contested(h, s);
    var head := ContestedHasHead(h, s, x);
    LeaseShape(h, s, {}, head);
    if y :| y in s && h(y, 0) == Decide(h, s, {})[x].ip && h(y, 0) !in Contested(h, s) {
      UncontestedKeepsBase(h, s, {}, y);
    }
  }

  lemma PlacedDistinct(h: Derivation, s: set<PeerID>)
    requires AllPlaced(h, s)
    ensures AllDistinct(Decide(h, s, {}))
  {
    var d := Decide(h, s, {});
    forall x | x in s ensures !d[x].unresolved && (d[x].salt > 0 ==> d[x].ip !in UncontestedBases(h, s)) {
      LeaseShape(h, s, {}, x);
      if x in DisplacedSet(h, s) { PlacedMember(h, s, x); }
    }
    forall x, y | x in d && y in d && x != y ensures d[x].ip != d[y].ip {
      SharedAddressExactly(h, s, {}, x, y);
    }
  }

  /** In the terms of the comments: all addresses are distinct exactly when none is
      unresolved and seeding `taken` with the whole table's kept bases would not
      have changed the decision. */
  lemma DistinctAsSeeded(h: Derivation, s: set<PeerID>)
    ensures AllDistinct(Decide(h, s, {})) <==>
      (forall x :: x in s ==> !Decide(h, s, {})[x].unresolved) &&
      Decide(h, s, {}) == Decide(h, s, UncontestedBases(h, s))
  {
    if AllDistinct(Decide(h, s, {})) {
      DistinctForward(h, s);
    }
    if (forall x :: x in s ==> !Decide(h, s, {})[x].unresolved) &&
       Decide(h, s, {}) == Decide(h, s, UncontestedBases(h, s))
    {
      DistinctBackward(h, s);
    }
  }

  lemma DistinctForward(h: Derivation, s: set<PeerID>)
    requires AllDistinct(Decide(h, s, {}))
    ensures forall x :: x in s ==> !Decide(h, s, {})[x].unresolved
    ensures Decide(h, s, {}) == Decide(h, s, UncontestedBases(h, s))
  {
    var free := UncontestedBases(h, s);
    forall x | x in s ensures !Decide(h, s, {})[x].unresolved {
      LeaseShape(h, s, {}, x);
      if x in DisplacedSet(h, s) { DistinctPlaces(h, s, x); }
    }
    AssignMeaning(h, Todo(h, s), {} + Contested(h, s));
    forall ip | ip in Handed(h, Salts(h, s, {})) ensures ip !in free {
      var x :| x in Salts(h, s, {}) && Salts(h, s, {})[x] > 0 && h(x, Salts(h, s, {})[x]) == ip;
      assert x in DisplacedSet(h, s);
      DistinctPlaces(h, s, x);
    }
    AssignIgnores(h, Todo(h, s), {} + Contested(h, s), free);
    assert {} + Contested(h, s) + free == free + Contested(h, s);
  }

  lemma DistinctBackward(h: Derivation, s: set<PeerID>)
    requires forall x :: x in s ==> !Decide(h, s, {})[x].unresolved
    requires Decide(h, s, {}) == Decide(h, s, UncontestedBases(h, s))
    ensures AllDistinct(Decide(h, s, {}))
  {
    var d, free := Decide(h, s, {}), UncontestedBases(h, s);
    ReassignedApart(h, s, free);
    forall x, y | x in d && y in d && x != y ensures d[x].ip != d[y].ip {
      SharedAddressExactly(h, s, {}, x, y);
      assert h(x, 0) in free + Contested(h, s) && h(y, 0) in free + Contested(h, s);
    }
  }

  // ---- uniqueness from the derivations alone ----

  ghost predicate IsSalt(k: nat) { 1 <= k <= SALT_MAX }

  /** Candidate `k` of `x` is no contested base and no candidate of another displaced member. */
  ghost predicate OwnCandidate(h: Derivation, s: set<PeerID>, x: PeerID, k: nat) {
    && IsSalt(k) && h(x, k) !in Contested(h, s)
    && forall y, j: nat :: y in DisplacedSet(h, s) && y != x && IsSalt(j) ==> h(y, j) != h(x, k)
  }

  /** An address that was handed out before is a candidate of another displaced member. */
  lemma TakenBefore(h: Derivation, s: set<PeerID>, i: nat, ip: IP)
    requires i < |Todo(h, s)| && ip !in Contested(h, s)
    requires ip in Assign(h, Todo(h, s)[..i], Contested(h, s)).taken
    ensures exists y, j: nat :: y in DisplacedSet(h, s) && y != Todo(h, s)[i] && IsSalt(j) && h(y, j) == ip
  {
    var todo := Todo(h, s);
    var prev := Assign(h, todo[..i], Contested(h, s));
    AssignMeaning(h, todo[..i], Contested(h, s));
    NotYetAssigned(todo, i);
    var y :| y in prev.salts && prev.salts[y] > 0 && h(y, prev.salts[y]) == ip;
    assert y in Elements(todo[..i]);
    var j :| 0 <= j < i && todo[..i][j] == y;
    AssignAt(h, todo[..i], Contested(h, s), j);
    FirstFreeMeaning(h, y, Assign(h, todo[..i][..j], Contested(h, s)).taken, 1);
    assert y in Elements(todo) && IsSalt(prev.salts[y]);
  }

  lemma OwnCandidateFound(h: Derivation, s: set<PeerID>, i: nat, k: nat)
    requires i < |Todo(h, s)| && OwnCandidate(h, s, Todo(h, s)[i], k)
    ensures PickAt(h, s, i) > 0
  {
    var x, taken := Todo(h, s)[i], Assign(h, Todo(h, s)[..i], Contested(h, s)).taken;
    FirstFreeMeaning(h, x, taken, 1);
    if h(x, k) in taken { TakenBefore(h, s, i, h(x, k)); }
  }

  /** Enough for distinct addresses, and visible in the derivations alone: no
      candidate of a displaced member is an uncontested base, and each displaced
      member has one candidate to itself. */
  lemma DistinctIfApart(h: Derivation, s: set<PeerID>)
    requires forall x, k: nat :: x in DisplacedSet(h, s) && IsSalt(k) ==> h(x, k) !in UncontestedBases(h, s)
    requires forall x :: x in DisplacedSet(h, s) ==> exists k: nat :: OwnCandidate(h, s, x, k)
    ensures AllDistinct(Decide(h, s, {}))
  {
    forall i | 0 <= i < |Todo(h, s)| ensures Placed(h, s, i) {
      var x := Todo(h, s)[i];
      assert x in Elements(Todo(h, s));
      var k: nat :| OwnCandidate(h, s, x, k);
      OwnCandidateFound(h, s, i, k);
      FirstFreeMeaning(h, x, Assign(h, Todo(h, s)[..i], Contested(h, s)).taken, 1);
      assert IsSalt(PickAt(h, s, i));
    }
    DistinctExactly(h, s);
  }

  // ---- witnesses ----

  lemma OnlyDisplaced(h: Derivation, s: set<PeerID>, id: PeerID)
    requires DisplacedSet(h, s) == {id}
    ensures Contested(h, s) == {h(id, 0)}
    ensures Salts(h, s, {}) == map[id := FirstFree(h, id, {h(id, 0)}, 1)]
  {
    SortedUnique(Todo(h, s), [id]);
    assert Contested(h, s) == {h(id, 0)};
    assert {} + Contested(h, s) == {h(id, 0)};
    assert [id][..0] == [];
    assert Assign(h, [id], {h(id, 0)}) == AssignOne(h, Assign(h, [], {h(id, 0)}), id);
  }

  /** Group-wide uniqueness fails: "b" is moved off the contested base "X" onto
      "Y", the base that "c" alone derives and keeps. */
  lemma UniquenessFails(h: Derivation)
    requires h("a", 0) == "X" && h("b", 0) == "X" && h("b", 1) == "Y" && h("c", 0) == "Y"
    ensures var d := Decide(h, {"a", "b", "c"}, {});
      d["b"].ip == d["c"].ip == "Y" && !d["b"].unresolved && !d["c"].unresolved
  {
    var s: set<PeerID> := {"a", "b", "c"};
    assert Less("a", "b") && !Less("b", "a") && !Less("a", "a");
    assert Displaced(h, s, "b") && !Displaced(h, s, "a") && !Displaced(h, s, "c");
    assert DisplacedSet(h, s) == {"b"};
    OnlyDisplaced(h, s, "b");
    LeaseShape(h, s, {}, "b");
    LeaseShape(h, s, {}, "c");
  }
}
