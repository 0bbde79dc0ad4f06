/** What a newcomer to the group does to the addresses of the others. */
module VirtualIPNewcomers {
  import opened Order
  import opened VirtualIP
  import opened VirtualIPLaws

  ghost predicate Joins(h: Derivation, s: set<PeerID>, n: PeerID) {
    exists j :: j in s && h(j, 0) == h(n, 0)
  }

  /** `n` derives the base of a present holder with a greater ID. */
  ghost predicate Overturns(h: Derivation, s: set<PeerID>, n: PeerID) {
    exists x :: x in s && !Displaced(h, s, x) && h(x, 0) == h(n, 0) && Less(n, x)
  }

  /** A newcomer displaces exactly the members behind it on its own base. */
  lemma DisplacedByNewcomer(h: Derivation, s: set<PeerID>, n: PeerID, x: PeerID)
    requires n !in s && x in s
    ensures Displaced(h, s + {n}, x) <==> Displaced(h, s, x) || (h(n, 0) == h(x, 0) && Less(n, x))
  {
    if Displaced(h, s, x) {
      var j :| j in s && h(j, 0) == h(x, 0) && Less(j, x);
      assert j in s + {n};
    }
    assert n in s + {n};
  }

  /** Who keeps its base address. */
  predicate KeepsBase(l: Lease) { l.salt == 0 && !l.unresolved }

  lemma KeepsExactly(h: Derivation, s: set<PeerID>, x: PeerID)
    requires x in s
    ensures KeepsBase(Decide(h, s, {})[x]) <==> !Displaced(h, s, x)
  {
    LeaseShape(h, s, {}, x);
  }

  /** All decisions among the present members stand when `n` arrives exactly when
      `n` overturns none: no present holder shares its base and has a greater ID. */
  lemma RulingsStandExactly(h: Derivation, s: set<PeerID>, n: PeerID)
    requires n !in s
    ensures (forall x :: x in s ==> (KeepsBase(Decide(h, s, {})[x]) <==> KeepsBase(Decide(h, s + {n}, {})[x]))) <==>
      !Overturns(h, s, n)
  {
    forall x | x in s
      ensures KeepsBase(Decide(h, s, {})[x]) <==> !Displaced(h, s, x)
      ensures KeepsBase(Decide(h, s + {n}, {})[x]) <==> !Displaced(h, s, x) && !(h(n, 0) == h(x, 0) && Less(n, x))
    {
      KeepsExactly(h, s, x);
      KeepsExactly(h, s + {n}, x);
      DisplacedByNewcomer(h, s, n, x);
    }
  }

  lemma NewcomerDisplaced(h: Derivation, s: set<PeerID>, n: PeerID)
    requires n !in s && !Overturns(h, s, n)
    ensures Displaced(h, s + {n}, n) <==> Joins(h, s, n)
  {
    LessIrreflexive(n);
    if Joins(h, s, n) {
      var j :| j in s && h(j, 0) == h(n, 0);
      var head := ContestedHasHead(h, s, j);
      LessTotal(head, n);
      assert head in s + {n};
    }
  }

  /** Without an overturned decision at most `n` itself is displaced in addition. */
  lemma NewcomerSets(h: Derivation, s: set<PeerID>, n: PeerID)
    requires n !in s && !Overturns(h, s, n)
    ensures DisplacedSet(h, s + {n}) == if Joins(h, s, n) then DisplacedSet(h, s) + {n} else DisplacedSet(h, s)
    ensures Contested(h, s + {n}) == if Joins(h, s, n) then Contested(h, s) + {h(n, 0)} else Contested(h, s)
  {
    forall x | x in s ensures Displaced(h, s + {n}, x) <==> Displaced(h, s, x) {
      DisplacedByNewcomer(h, s, n, x);
    }
    NewcomerDisplaced(h, s, n);
    assert DisplacedSet(h, s + {n}) == if Joins(h, s, n) then DisplacedSet(h, s) + {n} else DisplacedSet(h, s);
    ContestedFromDisplaced(h, s, s + {n}, n);
  }

  lemma ContestedFromDisplaced(h: Derivation, s: set<PeerID>, t: set<PeerID>, n: PeerID)
    requires DisplacedSet(h, t) == DisplacedSet(h, s) || DisplacedSet(h, t) == DisplacedSet(h, s) + {n}
    ensures Contested(h, t) ==
      if DisplacedSet(h, t) == DisplacedSet(h, s) then Contested(h, s) else Contested(h, s) + {h(n, 0)}
  {
  }

  /** How many displaced members choose before `n`. */
  ghost function Rank(h: Derivation, s: set<PeerID>, n: PeerID): (i: nat)
    ensures i <= |Todo(h, s)|
  {
    Search(Todo(h, s), n)
  }

  lemma NewcomerTodo(h: Derivation, s: set<PeerID>, n: PeerID)
    requires n !in s && !Overturns(h, s, n) && Joins(h, s, n)
    ensures var todo, i := Todo(h, s), Rank(h, s, n);
      && Todo(h, s + {n}) == todo[..i] + [n] + todo[i..]
      && n !in todo && forall k :: i <= k < |todo| ==> Less(n, todo[k])
  {
    NewcomerSets(h, s, n);
    var todo, i := Todo(h, s), Rank(h, s, n);
    assert n !in Elements(todo);
    InsertKeepsOrder(todo, n, i);
    SortedUnique(todo[..i] + [n] + todo[i..], Todo(h, s + {n}));
    forall k | i <= k < |todo| ensures Less(n, todo[k]) { AboveSearch(todo, n, i, k); }
  }

  /** The salt a displaced newcomer gets. */
  ghost function PickOf(h: Derivation, s: set<PeerID>, n: PeerID): nat {
    FirstFree(h, n, Assign(h, Todo(h, s)[..Rank(h, s, n)], Contested(h, s) + {h(n, 0)}).taken, 1)
  }

  /** A reassigned member sits on the base of `n`, which one other member held alone. */
  ghost predicate Evicts(h: Derivation, s: set<PeerID>, n: PeerID) {
    && h(n, 0) in UncontestedBases(h, s)
    && exists r :: r in s && Decide(h, s, {})[r].salt > 0 && Decide(h, s, {})[r].ip == h(n, 0)
  }

  /** A reassigned member behind `n` sits on the address that `n` will choose. */
  ghost predicate Outruns(h: Derivation, s: set<PeerID>, n: PeerID) {
    && Joins(h, s, n) && PickOf(h, s, n) > 0
    && exists r :: r in s && Less(n, r) && Decide(h, s, {})[r].salt > 0 && Decide(h, s, {})[r].ip == h(n, PickOf(h, s, n))
  }

  ghost predicate SameAddress(a: Lease, b: Lease) {
    a.ip == b.ip && a.salt == b.salt && a.unresolved == b.unresolved
  }

  ghost predicate Undisturbed(h: Derivation, s: set<PeerID>, n: PeerID) {
    forall x :: x in s ==> SameAddress(Decide(h, s, {})[x], Decide(h, s + {n}, {})[x])
  }

  /** Any member joins: everybody else keeps address, salt and resolution exactly
      when the newcomer overturns no decision, evicts nobody from a base it makes
      contested, and takes no address from a member that chooses after it. */
  lemma NewcomerExactly(h: Derivation, s: set<PeerID>, n: PeerID)
    requires n !in s
    ensures Undisturbed(h, s, n) <==> !Overturns(h, s, n) && !Evicts(h, s, n) && !Outruns(h, s, n)
  {
    if Undisturbed(h, s, n) {
      UndisturbedStands(h, s, n);
      UndisturbedKeeps(h, s, n);
    }
    if !Overturns(h, s, n) && !Evicts(h, s, n) && !Outruns(h, s, n) {
      NewcomerHarmless(h, s, n);
    }
  }

  lemma UndisturbedStands(h: Derivation, s: set<PeerID>, n: PeerID)
    requires n !in s && Undisturbed(h, s, n)
    ensures !Overturns(h, s, n)
  {
    forall x | x in s ensures SameAddress(Decide(h, s, {})[x], Decide(h, s + {n}, {})[x]) { }
    RulingsStandExactly(h, s, n);
  }

  lemma UndisturbedKeeps(h: Derivation, s: set<PeerID>, n: PeerID)
    requires n !in s && Undisturbed(h, s, n) && !Overturns(h, s, n)
    ensures !Evicts(h, s, n) && !Outruns(h, s, n)
  {
    NewcomerSets(h, s, n);
    ReassignedApart(h, s + {n}, {});
    if Joins(h, s, n) { NewcomerLease(h, s, n); }
    forall r | r in s && Decide(h, s, {})[r].salt > 0
      ensures Joins(h, s, n) ==> Decide(h, s, {})[r].ip != h(n, 0)
      ensures Joins(h, s, n) && PickOf(h, s, n) > 0 ==> Decide(h, s, {})[r].ip != h(n, PickOf(h, s, n))
    {
      assert SameAddress(Decide(h, s, {})[r], Decide(h, s + {n}, {})[r]);
    }
  }

  /** A displaced newcomer gets the salt `PickOf`. */
  lemma NewcomerLease(h: Derivation, s: set<PeerID>, n: PeerID)
    requires n !in s && !Overturns(h, s, n) && Joins(h, s, n)
    ensures Decide(h, s + {n}, {})[n].salt == PickOf(h, s, n)
    ensures Decide(h, s + {n}, {})[n].ip == h(n, PickOf(h, s, n))
  {
    NewcomerSets(h, s, n);
    NewcomerTodo(h, s, n);
    var all, i := Todo(h, s + {n}), Rank(h, s, n);
    assert all[i] == n && all[..i] == Todo(h, s)[..i];
    SaltIsPick(h, s + {n}, i);
    LeaseShape(h, s + {n}, {}, n);
  }

  /** `b` is `a` after `n` chose salt `k` besides. */
  ghost predicate Besides(h: Derivation, a: Assignment, n: PeerID, k: nat, b: Assignment) {
    b.salts == a.salts[n := k] && b.taken == a.taken + Chosen(h, n, k)
  }

  ghost function Chosen(h: Derivation, n: PeerID, k: nat): set<IP> {
    if k > 0 then {h(n, k)} else {}
  }

  lemma BesidesStep(h: Derivation, a: Assignment, n: PeerID, k: nat, b: Assignment, z: PeerID)
    requires Besides(h, a, n, k, b) && z != n
    requires var j := FirstFree(h, z, a.taken, 1); j > 0 && k > 0 ==> h(z, j) != h(n, k)
    ensures Besides(h, AssignOne(h, a, z), n, k, AssignOne(h, b, z))
  {
    SameFirstFree(h, z, a.taken, Chosen(h, n, k), 1);
  }

  /** Nobody in `after` chose the address that `n` chooses with salt `k`. */
  ghost predicate Apart(h: Derivation, a: Assignment, n: PeerID, k: nat, after: seq<PeerID>) {
    forall y :: y in after && y in a.salts && a.salts[y] > 0 && k > 0 ==> h(y, a.salts[y]) != h(n, k)
  }

  lemma InsertStep(h: Derivation, list: seq<PeerID>, list': seq<PeerID>, n: PeerID, z: PeerID, taken: set<IP>, k: nat)
    requires StrictlySorted(list + [z]) && z != n && Apart(h, Assign(h, list + [z], taken), n, k, [z])
    requires Besides(h, Assign(h, list, taken), n, k, Assign(h, list', taken))
    ensures Besides(h, Assign(h, list + [z], taken), n, k, Assign(h, list' + [z], taken))
  {
    AssignStep(h, list, z, taken);
    AssignAppend(h, list, z, taken);
    AssignAppend(h, list', z, taken);
    assert z in [z];
    BesidesStep(h, Assign(h, list, taken), n, k, Assign(h, list', taken), z);
  }

  lemma ApartInit(h: Derivation, before: seq<PeerID>, n: PeerID, init: seq<PeerID>, z: PeerID, taken: set<IP>, k: nat)
    requires StrictlySorted(before + init + [z]) && Apart(h, Assign(h, before + init + [z], taken), n, k, init + [z])
    ensures StrictlySorted(before + init)
    ensures Apart(h, Assign(h, before + init, taken), n, k, init)
    ensures Apart(h, Assign(h, before + init + [z], taken), n, k, [z])
  {
    AssignStep(h, before + init, z, taken);
  }

  lemma Regroup(a: seq<PeerID>, init: seq<PeerID>, z: PeerID)
    ensures a + (init + [z]) == a + init + [z]
  {
  }

  /** An insertion into the list changes no later choice unless it takes the
      address of one. */
  lemma {:induction false} InsertIgnored(h: Derivation, before: seq<PeerID>, n: PeerID, after: seq<PeerID>, taken: set<IP>, k: nat)
    requires StrictlySorted(before + after) && n !in before && n !in after
    requires k == FirstFree(h, n, Assign(h, before, taken).taken, 1)
    requires Apart(h, Assign(h, before + after, taken), n, k, after)
    ensures Besides(h, Assign(h, before + after, taken), n, k, Assign(h, before + [n] + after, taken))
  {
    if after == [] {
      assert before + [] == before && before + [n] + [] == before + [n];
      AssignAppend(h, before, n, taken);
    } else {
      var init, z := after[..|after| - 1], after[|after| - 1];
      Regroup(before, init, z);
      Regroup(before + [n], init, z);
      assert after == init + [z];
      ApartInit(h, before, n, init, z, taken, k);
      InsertIgnored(h, before, n, init, taken, k);
      InsertStep(h, before + init, before + [n] + init, n, z, taken, k);
    }
  }

  lemma NewcomerHarmless(h: Derivation, s: set<PeerID>, n: PeerID)
    requires n !in s && !Overturns(h, s, n) && !Evicts(h, s, n) && !Outruns(h, s, n)
    ensures Undisturbed(h, s, n)
  {
    NewcomerSalts(h, s, n);
    forall x | x in s ensures SameAddress(Decide(h, s, {})[x], Decide(h, s + {n}, {})[x]) {
      LeaseShape(h, s, {}, x);
      LeaseShape(h, s + {n}, {}, x);
      DisplacedByNewcomer(h, s, n, x);
      assert x in DisplacedSet(h, s) <==> x in DisplacedSet(h, s + {n});
    }
  }

  lemma NewcomerSalts(h: Derivation, s: set<PeerID>, n: PeerID)
    requires n !in s && !Overturns(h, s, n) && !Evicts(h, s, n) && !Outruns(h, s, n)
    ensures forall x :: x in DisplacedSet(h, s) ==>
      x in Salts(h, s, {}) && x in Salts(h, s + {n}, {}) && Salts(h, s, {})[x] == Salts(h, s + {n}, {})[x]
  {
    NewcomerSets(h, s, n);
    AssignMeaning(h, Todo(h, s), {} + Contested(h, s));
    if Joins(h, s, n) {
      JoiningSalts(h, s, n);
    } else {
      assert Contested(h, s + {n}) == Contested(h, s);
    }
  }

  lemma JoiningSalts(h: Derivation, s: set<PeerID>, n: PeerID)
    requires n !in s && !Overturns(h, s, n) && !Evicts(h, s, n) && !Outruns(h, s, n) && Joins(h, s, n)
    ensures Salts(h, s + {n}, {}) == Salts(h, s, {})[n := PickOf(h, s, n)]
  {
    NewcomerSets(h, s, n);
    NewcomerTodo(h, s, n);
    BehindApart(h, s, n);
    SaltsFrom(h, s + {n}, Todo(h, s + {n}), Contested(h, s) + {h(n, 0)});
    InsertAt(h, Todo(h, s), Rank(h, s, n), n, Todo(h, s + {n}), Contested(h, s) + {h(n, 0)}, PickOf(h, s, n));
  }

  lemma SaltsFrom(h: Derivation, s: set<PeerID>, todo: seq<PeerID>, taken: set<IP>)
    requires todo == Todo(h, s) && taken == Contested(h, s)
    ensures Salts(h, s, {}) == Assign(h, todo, taken).salts
  {
    assert {} + Contested(h, s) == taken;
  }

  lemma InsertAt(h: Derivation, todo: seq<PeerID>, i: nat, n: PeerID, list: seq<PeerID>, taken: set<IP>, k: nat)
    requires StrictlySorted(todo) && i <= |todo| && n !in todo && list == todo[..i] + [n] + todo[i..]
    requires k == FirstFree(h, n, Assign(h, todo[..i], taken).taken, 1)
    requires Apart(h, Assign(h, todo, taken), n, k, todo[i..])
    ensures Assign(h, list, taken).salts == Assign(h, todo, taken).salts[n := k]
  {
    var before, after := todo[..i], todo[i..];
    assert before + after == todo;
    InsertIgnored(h, before, n, after, taken, k);
  }

  /** Nobody behind `n` holds the address that `n` will choose, and seeding its
      base as well changed no choice. */
  lemma BehindApart(h: Derivation, s: set<PeerID>, n: PeerID)
    requires n !in s && !Overturns(h, s, n) && !Evicts(h, s, n) && !Outruns(h, s, n) && Joins(h, s, n)
    ensures var a := Assign(h, Todo(h, s), Contested(h, s) + {h(n, 0)});
      a.salts == Salts(h, s, {}) && Apart(h, a, n, PickOf(h, s, n), Todo(h, s)[Rank(h, s, n)..])
  {
    NothingHanded(h, s, n);
    WiderSeed(h, s, n);
    forall y | y in Todo(h, s)[Rank(h, s, n)..] && y in Salts(h, s, {}) && Salts(h, s, {})[y] > 0 && PickOf(h, s, n) > 0
      ensures h(y, Salts(h, s, {})[y]) != h(n, PickOf(h, s, n))
    {
      BehindKeeps(h, s, n, y);
    }
  }

  lemma BehindKeeps(h: Derivation, s: set<PeerID>, n: PeerID, y: PeerID)
    requires n !in s && !Overturns(h, s, n) && !Outruns(h, s, n) && Joins(h, s, n) && PickOf(h, s, n) > 0
    requires y in Todo(h, s)[Rank(h, s, n)..] && y in Salts(h, s, {}) && Salts(h, s, {})[y] > 0
    ensures h(y, Salts(h, s, {})[y]) != h(n, PickOf(h, s, n))
  {
    NewcomerTodo(h, s, n);
    assert y in Elements(Todo(h, s));
    LeaseShape(h, s, {}, y);
  }

  /** Seeding the newcomer's base as well changes no choice when nobody sits on it. */
  lemma WiderSeed(h: Derivation, s: set<PeerID>, n: PeerID)
    requires Handed(h, Salts(h, s, {})) !! {h(n, 0)} - Contested(h, s)
    ensures Assign(h, Todo(h, s), Contested(h, s) + {h(n, 0)}).salts == Salts(h, s, {})
  {
    var extra := {h(n, 0)} - Contested(h, s);
    assert {} + Contested(h, s) == Contested(h, s);
    AssignIgnores(h, Todo(h, s), Contested(h, s), extra);
    assert Contested(h, s) + extra == Contested(h, s) + {h(n, 0)};
  }

  lemma NothingHanded(h: Derivation, s: set<PeerID>, n: PeerID)
    requires Joins(h, s, n) && !Evicts(h, s, n)
    ensures Handed(h, Salts(h, s, {})) !! {h(n, 0)} - Contested(h, s)
  {
    AssignMeaning(h, Todo(h, s), {} + Contested(h, s));
    forall ip | ip in Handed(h, Salts(h, s, {})) ensures ip !in {h(n, 0)} - Contested(h, s) {
      var x :| x in Salts(h, s, {}) && Salts(h, s, {})[x] > 0 && h(x, Salts(h, s, {})[x]) == ip;
      assert x in DisplacedSet(h, s);
      LeaseShape(h, s, {}, x);
    }
  }

  /** A newcomer with the greatest ID can only evict. */
  lemma GreatestNewcomerExactly(h: Derivation, s: set<PeerID>, n: PeerID)
    requires n !in s && forall j :: j in s ==> Less(j, n)
    ensures Undisturbed(h, s, n) <==> !Evicts(h, s, n)
  {
    NewcomerExactly(h, s, n);
    forall x | x in s ensures !Less(n, x) { LessAsymmetric(x, n); }
  }

  /** A third member with a smaller ID overturns a decision: "b" held the base
      against "c" until "a" arrived. */
  lemma ThirdMemberOverturns(h: Derivation)
    requires h("a", 0) == h("b", 0) == h("c", 0) && h("b", 0) != h("b", 1)
    ensures Decide(h, {"b", "c"}, {})["b"].ip == h("b", 0)
    ensures Decide(h, {"a", "b", "c"}, {})["b"].ip != h("b", 0) || Decide(h, {"a", "b", "c"}, {})["b"].unresolved
  {
    assert !Less("c", "b") && !Less("b", "b") && Less("a", "b");
    LeaseShape(h, {"b", "c"}, {}, "b");
    assert !Displaced(h, {"b", "c"}, "b");
    assert Displaced(h, {"a", "b", "c"}, "b");
    LeaseShape(h, {"a", "b", "c"}, {}, "b");
    ReassignedApart(h, {"a", "b", "c"}, {});
    assert "b" in DisplacedSet(h, {"a", "b", "c"});
  }
}
