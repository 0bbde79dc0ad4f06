/** Byte-lexicographic order on strings (Go's `<` on strings) and strictly
    sorted lists, which are the canonical listing of a finite set. */
module Order {

  predicate Less(a: string, b: string) {
    |b| > 0 && (|a| == 0 || a[0] < b[0] || (a[0] == b[0] && Less(a[1..], b[1..])))
  }

  lemma LessIrreflexive(a: string)
    ensures !Less(a, a)
  {
  }

  lemma LessTransitive(a: string, b: string, c: string)
    requires Less(a, b) && Less(b, c)
    ensures Less(a, c)
  {
    if |a| > 0 && a[0] == b[0] == c[0] {
      LessTransitive(a[1..], b[1..], c[1..]);
    }
  }

  lemma {:induction false} LessTotal(a: string, b: string)
    ensures a == b || Less(a, b) || Less(b, a)
  {
    if |a| > 0 && |b| > 0 && a[0] == b[0] {
      LessTotal(a[1..], b[1..]);
      assert a == [a[0]] + a[1..] && b == [b[0]] + b[1..];
    }
  }

  lemma LessAsymmetric(a: string, b: string)
    requires Less(a, b)
    ensures !Less(b, a)
  {
    if Less(b, a) {
      LessTransitive(a, b, a);
      LessIrreflexive(a);
    }
  }

  ghost predicate StrictlySorted(s: seq<string>) {
    forall i, j :: 0 <= i < j < |s| ==> Less(s[i], s[j])
  }

  ghost function Elements(s: seq<string>): (r: set<string>)
    ensures forall x :: x in r <==> x in s
  {
    set x | x in s
  }

  /** A strictly sorted list is determined by the set of its elements. */
  lemma {:induction false} SortedUnique(s: seq<string>, t: seq<string>)
    requires StrictlySorted(s) && StrictlySorted(t)
    requires Elements(s) == Elements(t)
    ensures s == t
  {
    assert t != [] ==> t[0] in Elements(t);
    if s != [] {
      assert s[0] in Elements(s);
      SameFirst(s, t);
      forall x ensures x in s[1..] <==> x in t[1..] {
        if x in s[1..] { TailMember(s, t, x); }
        if x in t[1..] { TailMember(t, s, x); }
      }
      SortedUnique(s[1..], t[1..]);
      assert s == [s[0]] + s[1..] && t == [t[0]] + t[1..];
    }
  }

  lemma SameFirst(s: seq<string>, t: seq<string>)
    requires StrictlySorted(s) && StrictlySorted(t) && s != [] && t != []
    requires s[0] in t && t[0] in s
    ensures s[0] == t[0]
  {
    if s[0] != t[0] { LessAsymmetric(s[0], t[0]); }
  }

  lemma TailMember(s: seq<string>, t: seq<string>, x: string)
    requires StrictlySorted(s) && s != [] && t != [] && s[0] == t[0]
    requires x in s[1..] && Elements(s) == Elements(t)
    ensures x in t[1..]
  {
    LessIrreflexive(x);
    assert x in s && x != s[0];
    assert x in Elements(s);
    assert t == [t[0]] + t[1..];
  }

  /** sort.SearchStrings: the first position whose element is not below `id`. */
  function Search(list: seq<string>, id: string): (i: nat)
    ensures i <= |list|
    ensures forall k :: 0 <= k < i ==> Less(list[k], id)
    ensures i < |list| ==> !Less(list[i], id)
  {
    if list == [] || !Less(list[0], id) then 0 else 1 + Search(list[1..], id)
  }

  /** Insertion that keeps a strictly sorted list strictly sorted. */
  function AppendSorted(list: seq<string>, id: string): (r: seq<string>)
    requires StrictlySorted(list)
    ensures StrictlySorted(r)
    ensures Elements(r) == Elements(list) + {id}
  {
    var i := Search(list, id);
    if i < |list| && list[i] == id then list
    else
      InsertKeepsOrder(list, id, i);
      list[..i] + [id] + list[i..]
  }

  lemma InsertKeepsOrder(list: seq<string>, id: string, i: nat)
    requires StrictlySorted(list) && i == Search(list, id)
    requires !(i < |list| && list[i] == id)
    ensures StrictlySorted(list[..i] + [id] + list[i..])
    ensures Elements(list[..i] + [id] + list[i..]) == Elements(list) + {id}
  {
    var r := list[..i] + [id] + list[i..];
    forall k | i <= k < |list| ensures Less(id, list[k]) { AboveSearch(list, id, i, k); }
    InsertedSorted(list, id, i);
    assert list == list[..i] + list[i..];
  }

  lemma AboveSearch(list: seq<string>, id: string, i: nat, k: nat)
    requires StrictlySorted(list) && i <= k < |list| && list[i] != id && !Less(list[i], id)
    ensures Less(id, list[k])
  {
    LessTotal(id, list[i]);
    if k > i { LessTransitive(id, list[i], list[k]); }
  }

  lemma InsertedSorted(list: seq<string>, id: string, i: nat)
    requires StrictlySorted(list) && i <= |list|
    requires forall k :: 0 <= k < i ==> Less(list[k], id)
    requires forall k :: i <= k < |list| ==> Less(id, list[k])
    ensures StrictlySorted(list[..i] + [id] + list[i..])
  {
    var r := list[..i] + [id] + list[i..];
    forall a, b | 0 <= a < b < |r| ensures Less(r[a], r[b]) {
      assert r[a] == if a < i then list[a] else if a == i then id else list[a - 1];
      assert r[b] == if b < i then list[b] else if b == i then id else list[b - 1];
    }
  }

  /** The elements of `s`, each once, in increasing order. */
  function Sort(s: seq<string>): (r: seq<string>)
    ensures StrictlySorted(r)
    ensures Elements(r) == Elements(s)
  {
    if s == [] then []
    else
      assert s == s[..|s| - 1] + [s[|s| - 1]];
      AppendSorted(Sort(s[..|s| - 1]), s[|s| - 1])
  }

  /** The canonical listing of a finite set. */
  ghost function SortSet(s: set<string>): (r: seq<string>)
    ensures StrictlySorted(r)
    ensures Elements(r) == s
  {
    if s == {} then []
    else
      var x :| x in s;
      assert s == (s - {x}) + {x};
      AppendSorted(SortSet(s - {x}), x)
  }

  lemma SortLists(s: seq<string>, elements: set<string>)
    requires forall x :: x in elements <==> x in s
    ensures Sort(s) == SortSet(elements)
  {
    assert Elements(s) == elements;
    SortedUnique(Sort(s), SortSet(elements));
  }

  /** Appending a greater element keeps a list sorted. */
  lemma SortedSnoc(s: seq<string>, x: string)
    requires StrictlySorted(s) && forall y :: y in s ==> Less(y, x)
    ensures StrictlySorted(s + [x])
    ensures Elements(s + [x]) == Elements(s) + {x}
  {
    assert forall i :: 0 <= i < |s| ==> s[i] in s;
  }
}
