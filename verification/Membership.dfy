/** The member table with its resurrection guard and quarantine
    (pkg/serverless/serverless.go, member_quarantine.go). */
module Membership {
  import opened PeersDb
  import opened Wrappers

  const GUARD_TTL: nat := 300          // seconds
  const QUARANTINE_LIMIT: nat := 4096

  // ---- quarantine ----

  /** `owed` are the peers remembered and not verified since. */
  class MemberQuarantine {
    var ids: set<PeerID>
    var full: bool
    ghost var owed: set<PeerID>

    ghost predicate Valid()
      reads this
    {
      |ids| <= QUARANTINE_LIMIT && ids <= owed && (!full ==> ids == owed)
    }

    constructor ()
      ensures Valid() && owed == {} && ids == {} && !full
    {
      ids, full, owed := {}, false, {};
    }

    method Remember(id: PeerID)
      requires Valid()
      modifies this
      ensures Valid() && owed == old(owed) + {id}
      ensures ids == Remembered(old(ids), id) && full == (old(full) || Overflows(old(ids), id))
    {
      owed := owed + {id};
      if id in ids {
        return;
      }
      if |ids| >= QUARANTINE_LIMIT {
        full := true;
        return;
      }
      ids := ids + {id};
    }

    /** Every peer owed a handshake needs one; until the set overflows, no other does. */
    predicate RequiresHandshake(id: PeerID)
      requires Valid()
      reads this
      ensures id in owed ==> RequiresHandshake(id)
      ensures !full ==> (RequiresHandshake(id) <==> id in owed)
    {
      full || id in ids
    }

    method Verified(id: PeerID)
      requires Valid()
      modifies this
      ensures Valid() && owed == old(owed) - {id} && ids == old(ids) - {id} && full == old(full)
    {
      owed := owed - {id};
      ids := ids - {id};
    }
  }

  function Remembered(ids: set<PeerID>, id: PeerID): set<PeerID> {
    if id in ids || |ids| >= QUARANTINE_LIMIT then ids else ids + {id}
  }

  predicate Overflows(ids: set<PeerID>, id: PeerID) {
    id !in ids && |ids| >= QUARANTINE_LIMIT
  }

  // ---- the table as a value ----

  /** The state that d.mu protects. */
  datatype Core = Core(members: set<PeerID>, unfriendedAt: map<PeerID, Time>, ids: set<PeerID>, full: bool)

  predicate GuardBlocked(c: Core, p: PeerID, now: Time) {
    p in c.unfriendedAt && now < c.unfriendedAt[p] + GUARD_TTL
  }

  function Marked(at: map<PeerID, Time>, p: PeerID, now: Time): map<PeerID, Time> {
    var m := at[p := now];
    map q | q in m && m[q] + GUARD_TTL >= now :: m[q]
  }

  function Forgotten(c: Core, p: PeerID, now: Time): Core {
    c.(members := c.members - {p}, unfriendedAt := Marked(c.unfriendedAt, p, now))
  }

  predicate Quarantined(c: Core, p: PeerID) { c.full || p in c.ids }

  /** addMember's critical section. */
  function LandDiscover(c: Core, p: PeerID, now: Time): Core {
    if p in c.members || GuardBlocked(c, p, now) || Quarantined(c, p) then c
    else c.(members := c.members + {p})
  }

  /** handleInfo's critical section. */
  function LandInbound(c: Core, p: PeerID, now: Time): Core {
    if p !in c.members && GuardBlocked(c, p, now) then c
    else c.(members := c.members + {p}, ids := c.ids - {p})
  }

  /** Reconnect's critical section. */
  function LandReconnect(c: Core, p: PeerID, now: Time): Core {
    if GuardBlocked(c, p, now) then c else c.(members := c.members + {p})
  }

  /** verifiedMemberLocked: `trusted` is the check repeated under the lock. */
  function LandVerified(c: Core, p: PeerID, now: Time, trusted: bool): Core {
    if !trusted || (p !in c.members && GuardBlocked(c, p, now)) then c
    else c.(members := c.members + {p}, ids := c.ids - {p})
  }

  /** RequestConnect's critical section: lifts the guard. */
  function LandExplicit(c: Core, p: PeerID): Core {
    c.(members := c.members + {p}, unfriendedAt := c.unfriendedAt - {p})
  }

  /** One member reapExpired drops: it leaves and owes a handshake. */
  function Reaped(c: Core, p: PeerID): Core {
    c.(members := c.members - {p}, ids := Remembered(c.ids, p), full := c.full || Overflows(c.ids, p))
  }

  ghost function ReapedAll(c: Core, order: seq<PeerID>): Core {
    if order == [] then c else Reaped(ReapedAll(c, order[..|order| - 1]), order[|order| - 1])
  }

  ghost function Listed(order: seq<PeerID>): set<PeerID> { set p | p in order }

  /** `ids` took in as much of `all` as the limit allows. */
  ghost predicate TookIn(all: set<PeerID>, ids: set<PeerID>) {
    && ids <= all && |ids| <= QUARANTINE_LIMIT
    && (|all| <= QUARANTINE_LIMIT ==> ids == all)
    && (|all| > QUARANTINE_LIMIT ==> |ids| == QUARANTINE_LIMIT)
  }

  lemma TakesOne(all: set<PeerID>, ids: set<PeerID>, p: PeerID)
    requires TookIn(all, ids)
    ensures TookIn(all + {p}, Remembered(ids, p))
    ensures |all| > QUARANTINE_LIMIT || Overflows(ids, p) <==> |all + {p}| > QUARANTINE_LIMIT
  {
    OneMore(all, p);
    OneMore(ids, p);
    if ids == all { assert Remembered(ids, p) == ids || Remembered(ids, p) == ids + {p}; }
  }

  lemma OutAndIn(members: set<PeerID>, ids: set<PeerID>, gone: set<PeerID>, p: PeerID)
    ensures members - gone - {p} == members - (gone + {p})
    ensures ids + (gone + {p}) == ids + gone + {p}
  {
  }

  /** Whatever the order, the quarantine takes in everybody until it would exceed
      its limit; only then it stands for everybody. */
  lemma {:induction false} ReapedAllMeaning(c: Core, order: seq<PeerID>)
    requires |c.ids| <= QUARANTINE_LIMIT
    ensures var to := ReapedAll(c, order);
      && to.members == c.members - Listed(order) && to.unfriendedAt == c.unfriendedAt
      && (to.full <==> c.full || |c.ids + Listed(order)| > QUARANTINE_LIMIT)
      && TookIn(c.ids + Listed(order), to.ids)
  {
    if order == [] {
      assert c.ids + Listed(order) == c.ids;
    } else {
      var init, p := order[..|order| - 1], order[|order| - 1];
      ReapedAllMeaning(c, init);
      assert order == init + [p];
      ListedNext(c, init, p);
      OutAndIn(c.members, c.ids, Listed(init), p);
      TakesOne(c.ids + Listed(init), ReapedAll(c, init).ids, p);
    }
  }

  lemma OneMore(s: set<PeerID>, p: PeerID)
    ensures |s + {p}| == if p in s then |s| else |s| + 1
  {
    if p in s { assert s + {p} == s; }
  }

  // ---- the table as the source keeps it ----

  datatype Member = Member(lastSeen: Option<Time>, lastDiscovered: Option<Time>, firstSeen: Time) {
    /** Real traffic decides; a placeholder only has the grace of its first discovery. */
    function Freshness(): Time {
      if lastSeen.Some? then lastSeen.value else if lastDiscovered.Some? then lastDiscovered.value else firstSeen
    }
  }

  /** Contact makes a member seen now; when it came first stays known. */
  function Seen(members: map<PeerID, Member>, p: PeerID, now: Time): Member {
    if p in members then Member(Some(now), members[p].lastDiscovered, members[p].firstSeen)
    else Member(Some(now), Some(now), now)
  }

  /** A dial enters a placeholder; a member that is there already is left alone. */
  function WithPlaceholder(members: map<PeerID, Member>, p: PeerID, now: Time): map<PeerID, Member> {
    if p in members then members else members[p := Member(None, Some(now), now)]
  }

  class MemberTable {
    var members: map<PeerID, Member>
    var unfriendedAt: map<PeerID, Time>
    const expired: MemberQuarantine

    constructor ()
      ensures Valid() && View() == Core({}, map[], {}, false) && fresh(expired)
    {
      members, unfriendedAt := map[], map[];
      expired := new MemberQuarantine();
    }

    ghost predicate Valid()
      reads this, expired
    {
      expired.Valid()
    }

    ghost function View(): Core
      reads this, expired
    {
      Core(members.Keys, unfriendedAt, expired.ids, expired.full)
    }

    /** markUnfriendedLocked: records the peer and drops expired entries. */
    method MarkUnfriendedLocked(p: PeerID, now: Time)
      modifies this`unfriendedAt
      ensures unfriendedAt == Marked(old(unfriendedAt), p, now)
    {
      unfriendedAt := unfriendedAt[p := now];
      ghost var all := unfriendedAt;
      var todo := unfriendedAt.Keys;
      while todo != {}
        invariant todo <= unfriendedAt.Keys
        invariant unfriendedAt == map q | q in all && (q in todo || all[q] + GUARD_TTL >= now) :: all[q]
        decreases todo
      {
        var q :| q in todo;
        todo := todo - {q};
        if now > unfriendedAt[q] + GUARD_TTL {
          unfriendedAt := unfriendedAt - {q};
        }
      }
    }

    method Forget(p: PeerID, now: Time)
      requires Valid()
      modifies this
      ensures Valid() && View() == Forgotten(old(View()), p, now) && members == old(members) - {p}
    {
      members := members - {p};
      MarkUnfriendedLocked(p, now);
    }

    predicate UnfriendGuardBlocked(p: PeerID, now: Time)
      reads this
    {
      p in unfriendedAt && now < unfriendedAt[p] + GUARD_TTL
    }

    method AddMember(p: PeerID, now: Time) returns (inserted: bool)
      requires Valid()
      modifies this
      ensures Valid() && View() == LandDiscover(old(View()), p, now)
      ensures inserted <==> p in members && p !in old(members)
      ensures members == if inserted then old(members)[p := Member(None, Some(now), now)] else old(members)
    {
      if p in members || UnfriendGuardBlocked(p, now) || expired.RequiresHandshake(p) {
        return false;
      }
      members := members[p := Member(None, Some(now), now)];
      return true;
    }

    method HandleInfo(p: PeerID, now: Time) returns (kept: bool)
      requires Valid()
      modifies this, expired
      ensures Valid() && View() == LandInbound(old(View()), p, now)
      ensures kept <==> p in members
      ensures kept ==> members[p].Freshness() == now
      ensures members == if kept then old(members)[p := Seen(old(members), p, now)] else old(members)
    {
      if p !in members && UnfriendGuardBlocked(p, now) {
        return false;
      }
      MarkVerified(p, now);
      return true;
    }

    method Reconnect(p: PeerID, now: Time) returns (allowed: bool)
      requires Valid()
      modifies this
      ensures Valid() && View() == LandReconnect(old(View()), p, now)
      ensures allowed <==> !GuardBlocked(old(View()), p, now)
      ensures members == if allowed then WithPlaceholder(old(members), p, now) else old(members)
    {
      if UnfriendGuardBlocked(p, now) {
        return false;
      }
      if p !in members {
        members := members[p := Member(None, Some(now), now)];
      }
      assert members.Keys == old(members).Keys + {p};
      return true;
    }

    method VerifiedMember(p: PeerID, now: Time, trusted: bool) returns (ok: bool)
      requires Valid()
      modifies this, expired
      ensures Valid() && View() == LandVerified(old(View()), p, now, trusted)
      ensures ok <==> trusted && (p in old(members) || !GuardBlocked(old(View()), p, now))
      ensures ok ==> p in members && members[p].Freshness() == now && expired.owed == old(expired.owed) - {p}
      ensures members == if ok then old(members)[p := Seen(old(members), p, now)] else old(members)
    {
      if !trusted || (p !in members && UnfriendGuardBlocked(p, now)) {
        return false;
      }
      MarkVerified(p, now);
      return true;
    }

    /** The member is in the table, seen now and owes no handshake. */
    method MarkVerified(p: PeerID, now: Time)
      requires Valid()
      modifies this, expired
      ensures Valid() && View() == old(View()).(members := old(View()).members + {p}, ids := old(View()).ids - {p})
      ensures p in members && members[p].Freshness() == now && expired.owed == old(expired.owed) - {p}
      ensures members == old(members)[p := Seen(old(members), p, now)]
    {
      var m := if p in members then members[p] else Member(None, Some(now), now);
      members := members[p := m.(lastSeen := Some(now))];
      expired.Verified(p);
    }

    method RequestConnect(p: PeerID, now: Time)
      requires Valid()
      modifies this
      ensures Valid() && View() == LandExplicit(old(View()), p)
      ensures members == WithPlaceholder(old(members), p, now)
    {
      unfriendedAt := unfriendedAt - {p};
      if p !in members {
        members := members[p := Member(None, Some(now), now)];
      }
      assert members.Keys == old(members).Keys + {p};
    }

    method ReapMember(p: PeerID)
      requires Valid()
      modifies this, expired
      ensures Valid() && View() == Reaped(old(View()), p)
      ensures members == old(members) - {p} && expired.owed == old(expired.owed) + {p}
    {
      expired.Remember(p);
      members := members - {p};
    }

    /** The loop of reapExpired; `order` is the order in which it met them. */
    method ReapStale(cutoff: Time) returns (gone: set<PeerID>, ghost order: seq<PeerID>)
      requires Valid()
      modifies this, expired
      ensures Valid() && gone == Stale(old(members), {}, cutoff)
      ensures members == old(members) - gone && expired.owed == old(expired.owed) + gone
      ensures Listed(order) == gone && |order| == |gone| && View() == ReapedAll(old(View()), order)
    {
      gone, order := {}, [];
      var todo := members.Keys;
      ghost var was, start, owed := members, View(), expired.owed;
      assert owed + {} == owed;
      while todo != {}
        invariant Valid() && todo <= members.Keys && members == was - gone
        invariant Lists(was, todo, cutoff, gone, order)
        invariant expired.owed == owed + gone
        invariant View() == ReapedAll(start, order)
        decreases todo
      {
        var p :| p in todo;
        StaleNext(was, todo, p, cutoff, start, order);
        assert members[p] == was[p];
        todo := todo - {p};
        if members[p].Freshness() < cutoff {
          MinusNext(was, gone, p);
          PlusNext(owed, gone, p);
          gone := gone + {p};
          order := order + [p];
          ReapMember(p);
        }
      }
    }

    /** reapExpired: stale members leave and owe a handshake. */
    method ReapExpired(cutoff: Time) returns (gone: set<PeerID>, ghost order: seq<PeerID>)
      requires Valid()
      modifies this, expired
      ensures Valid() && unfriendedAt == old(unfriendedAt)
      ensures gone == set p | p in old(members) && old(members)[p].Freshness() < cutoff
      ensures members == old(members) - gone && expired.owed == old(expired.owed) + gone
      ensures expired.full <==> old(expired.full) || |old(expired.ids) + gone| > QUARANTINE_LIMIT
      ensures TookIn(old(expired.ids) + gone, expired.ids)
      ensures Listed(order) == gone && |order| == |gone| && View() == ReapedAll(old(View()), order)
    {
      ghost var was := View();
      gone, order := ReapStale(cutoff);
      ReapedAllMeaning(was, order);
    }
  }

  /** Who is stale: traffic counts where there was any, else the first discovery. */
  lemma StaleExactly(members: map<PeerID, Member>, cutoff: Time, p: PeerID)
    ensures p in Stale(members, {}, cutoff) <==> p in members && match members[p]
      case Member(Some(seen), _, _) => seen < cutoff
      case Member(None, Some(found), _) => found < cutoff
      case Member(None, None, first) => first < cutoff
  {
  }

  /** The stale members outside `skip`. */
  function Stale(members: map<PeerID, Member>, skip: set<PeerID>, cutoff: Time): set<PeerID> {
    set p | p in members && p !in skip && members[p].Freshness() < cutoff
  }

  /** `gone` are the stale members outside `todo`, met in this order. */
  ghost predicate Lists(members: map<PeerID, Member>, todo: set<PeerID>, cutoff: Time, gone: set<PeerID>, order: seq<PeerID>) {
    gone == Stale(members, todo, cutoff) && Listed(order) == gone && |order| == |gone|
  }

  lemma StaleNext(members: map<PeerID, Member>, todo: set<PeerID>, p: PeerID, cutoff: Time, c: Core, order: seq<PeerID>)
    requires p in todo && p in members && Lists(members, todo, cutoff, Stale(members, todo, cutoff), order)
    ensures p !in Stale(members, todo, cutoff)
    ensures ReapedAll(c, order + [p]) == Reaped(ReapedAll(c, order), p)
    ensures if members[p].Freshness() < cutoff
      then Lists(members, todo - {p}, cutoff, Stale(members, todo, cutoff) + {p}, order + [p])
      else Lists(members, todo - {p}, cutoff, Stale(members, todo, cutoff), order)
  {
    StaleSplit(members, todo, p, cutoff);
    ListedNext(c, order, p);
    OneMore(Stale(members, todo, cutoff), p);
  }

  lemma StaleSplit(members: map<PeerID, Member>, todo: set<PeerID>, p: PeerID, cutoff: Time)
    requires p in todo && p in members
    ensures p !in Stale(members, todo, cutoff)
    ensures Stale(members, todo - {p}, cutoff) ==
      if members[p].Freshness() < cutoff then Stale(members, todo, cutoff) + {p} else Stale(members, todo, cutoff)
  {
  }

  lemma PlusNext(owed: set<PeerID>, gone: set<PeerID>, p: PeerID)
    ensures owed + gone + {p} == owed + (gone + {p})
  {
  }

  lemma MinusNext(m: map<PeerID, Member>, gone: set<PeerID>, p: PeerID)
    ensures m - gone - {p} == m - (gone + {p})
  {
  }

  lemma ListedNext(c: Core, order: seq<PeerID>, p: PeerID)
    ensures Listed(order + [p]) == Listed(order) + {p}
    ensures ReapedAll(c, order + [p]) == Reaped(ReapedAll(c, order), p)
  {
    assert (order + [p])[..|order|] == order;
  }
}
