/** The update distribution limiter (pkg/selfupdate/selfupdate.go): spacing per
    bucket and remote, slots in flight, and a bounded table of last grants. */
module RateLimiter {

  type Time = nat

  const TABLE_LIMIT: nat := 4096
  const SCAN_LIMIT: nat := 64

  datatype Bucket = Manifest | File

  function Name(b: Bucket): string { if b == Manifest then "manifest" else "file" }

  function Key(b: Bucket, remote: string): string { Name(b) + "|" + remote }

  function Min(a: int, b: int): int { if a < b then a else b }
  function Max(a: int, b: int): int { if a > b then a else b }

  lemma KeyInjective(b: Bucket, remote: string, b': Bucket, remote': string)
    requires Key(b, remote) == Key(b', remote')
    ensures b == b' && remote == remote'
  {
    assert Key(b, remote)[0] == Name(b)[0] && Key(b', remote')[0] == Name(b')[0];
    assert Key(b, remote)[|Name(b)| + 1..] == remote && Key(b', remote')[|Name(b')| + 1..] == remote';
  }

  datatype Grant = Grant(bucket: Bucket, remote: string, at: Time)

  /** A table entry is the time of a grant with that key. */
  ghost predicate Recorded(grants: seq<Grant>, k: string, at: Time) {
    exists g :: g in grants && Key(g.bucket, g.remote) == k && g.at == at
  }

  /** A granted key is still on record, or too old to matter. */
  ghost predicate Remembered(last: map<string, Time>, g: Grant, clock: Time, horizon: int) {
    var k := Key(g.bucket, g.remote);
    (k in last && last[k] >= g.at) || g.at + horizon < clock
  }

  ghost predicate TableOk(last: map<string, Time>, grants: seq<Grant>, clock: Time, horizon: int) {
    && |last| <= TABLE_LIMIT
    && (forall k :: k in last ==> Recorded(grants, k, last[k]))
    && (forall g :: g in grants ==> g.at <= clock && Remembered(last, g, clock, horizon))
  }

  function Interval(b: Bucket, per: nat, filePer: nat): nat { if b == File then filePer else per }

  /** Two grants to the same bucket and remote are at least the bucket's interval apart. */
  ghost predicate Spaced(gs: seq<Grant>, per: nat, filePer: nat) {
    forall i, j :: 0 <= i < j < |gs| && gs[i].bucket == gs[j].bucket && gs[i].remote == gs[j].remote ==>
      gs[i].at + (if gs[i].bucket == File then filePer else per) <= gs[j].at
  }

  /** An earlier grant to the same bucket and remote is less than its interval old. */
  ghost predicate TooSoon(gs: seq<Grant>, bucket: Bucket, remote: string, now: Time, interval: nat) {
    exists g :: g in gs && g.bucket == bucket && g.remote == remote && now < g.at + interval
  }

  lemma LaterClock(last: map<string, Time>, grants: seq<Grant>, clock: Time, now: Time, horizon: int)
    requires TableOk(last, grants, clock, horizon) && clock <= now
    ensures TableOk(last, grants, now, horizon)
  {
    forall g | g in grants ensures g.at <= now && Remembered(last, g, now, horizon) {
      assert Remembered(last, g, clock, horizon);
    }
  }

  /** The table after a scan looked at some of its keys: expired ones are gone. */
  ghost function Scanned(table: map<string, Time>, looked: set<string>, now: Time, horizon: int): map<string, Time> {
    map k | k in table && !(k in looked && now > table[k] + horizon) :: table[k]
  }

  lemma ScannedNext(table: map<string, Time>, looked: set<string>, k: string, now: Time, horizon: int)
    requires k in table && k !in looked
    ensures var before := Scanned(table, looked, now, horizon);
      && k in before && before[k] == table[k]
      && Scanned(table, looked + {k}, now, horizon) == if now > table[k] + horizon then before - {k} else before
  {
  }

  lemma {:induction false} Within(a: set<string>, b: set<string>)
    requires a <= b
    ensures |a| <= |b|
  {
    if a != {} {
      var x :| x in a;
      Within(a - {x}, b - {x});
    }
  }

  lemma Fewer(a: set<string>, b: set<string>, k: string)
    requires a <= b && k in b && k !in a
    ensures |a| < |b|
  {
    Within(a, b - {k});
  }

  lemma ScannedOk(table: map<string, Time>, grants: seq<Grant>, looked: set<string>, now: Time, horizon: int)
    requires TableOk(table, grants, now, horizon)
    ensures TableOk(Scanned(table, looked, now, horizon), grants, now, horizon)
  {
    var after := Scanned(table, looked, now, horizon);
    Within(after.Keys, table.Keys);
    assert |after| == |after.Keys| && |table| == |table.Keys|;
    forall g | g in grants ensures Remembered(after, g, now, horizon) {
      assert Remembered(table, g, now, horizon);
    }
  }

  /** The table is full, and so many of its entries still count that a scan can
      look at those alone. */
  ghost predicate StuckFull(table: map<string, Time>, now: Time, horizon: int) {
    |table| >= TABLE_LIMIT &&
    exists looked :: looked <= table.Keys && |looked| == SCAN_LIMIT && forall k :: k in looked ==> now <= table[k] + horizon
  }

  lemma ScanLeavesFull(table: map<string, Time>, looked: set<string>, now: Time, horizon: int)
    requires |table| <= TABLE_LIMIT <= |Scanned(table, looked, now, horizon)|
    requires looked <= table.Keys && |looked| == SCAN_LIMIT
    ensures StuckFull(table, now, horizon)
  {
    var after := Scanned(table, looked, now, horizon);
    assert |after| == |after.Keys| && |table| == |table.Keys|;
    Within(after.Keys, table.Keys);
    forall k | k in looked ensures now <= table[k] + horizon {
      if now > table[k] + horizon {
        Fewer(after.Keys, table.Keys, k);
      }
    }
    assert looked <= table.Keys && |looked| == SCAN_LIMIT && forall k :: k in looked ==> now <= table[k] + horizon;
  }

  lemma StaysRecorded(grants: seq<Grant>, g: Grant, k: string, at: Time)
    requires Recorded(grants, k, at)
    ensures Recorded(grants + [g], k, at)
  {
    var e :| e in grants && Key(e.bucket, e.remote) == k && e.at == at;
    assert e in grants + [g];
  }

  lemma StaysRemembered(last: map<string, Time>, k: string, now: Time, horizon: int, e: Grant)
    requires Remembered(last, e, now, horizon) && e.at <= now
    ensures Remembered(last[k := now], e, now, horizon)
  {
  }

  lemma AdmitKeeps(last: map<string, Time>, grants: seq<Grant>, now: Time, horizon: int, g: Grant)
    requires TableOk(last, grants, now, horizon) && g.at == now
    requires Key(g.bucket, g.remote) in last || |last| < TABLE_LIMIT
    ensures TableOk(last[Key(g.bucket, g.remote) := now], grants + [g], now, horizon)
  {
    var key, all := Key(g.bucket, g.remote), grants + [g];
    var after := last[key := now];
    assert after.Keys == last.Keys + {key};
    assert all[|grants|] == g;
    forall k | k in after ensures Recorded(all, k, after[k]) {
      if k != key { StaysRecorded(grants, g, k, last[k]); }
    }
    forall e | e in all ensures e.at <= now && Remembered(after, e, now, horizon) {
      if e in grants { StaysRemembered(last, key, now, horizon, e); }
    }
  }

  lemma SpacedFromNow(last: map<string, Time>, grants: seq<Grant>, now: Time, per: nat, filePer: nat, g: Grant)
    requires TableOk(last, grants, now, Max(per, filePer)) && Spaced(grants, per, filePer) && g.at == now
    requires Key(g.bucket, g.remote) in last ==> last[Key(g.bucket, g.remote)] + Interval(g.bucket, per, filePer) <= now
    ensures Spaced(grants + [g], per, filePer)
  {
    forall i | 0 <= i < |grants| && grants[i].bucket == g.bucket && grants[i].remote == g.remote
      ensures grants[i].at + Interval(g.bucket, per, filePer) <= now
    {
      assert Remembered(last, grants[i], now, Max(per, filePer));
    }
  }

  lemma RefusalMeaning(last: map<string, Time>, grants: seq<Grant>, now: Time, horizon: int,
                       bucket: Bucket, remote: string, interval: nat)
    requires TableOk(last, grants, now, horizon)
    requires Key(bucket, remote) in last && now < last[Key(bucket, remote)] + interval
    ensures TooSoon(grants, bucket, remote, now, interval)
  {
    var k := Key(bucket, remote);
    assert Recorded(grants, k, last[k]);
    var g :| g in grants && Key(g.bucket, g.remote) == k && g.at == last[k];
    KeyInjective(g.bucket, g.remote, bucket, remote);
  }

  class Limiter {
    const per: nat
    const filePer: nat
    const maxIn: nat
    var last: map<string, Time>
    var inflight: nat
    var files: nat

    ghost var clock: Time           // the latest time seen
    ghost var grants: seq<Grant>    // every grant so far
    ghost var openFiles: nat        // grants not released yet, by bucket
    ghost var openManifests: nat

    /** Entries that still count stay, but for the one that is renewed. */
    ghost predicate KeepsFresh(was: map<string, Time>, table: map<string, Time>, renewed: string, now: Time) {
      forall k :: k in was && k != renewed && now <= was[k] + Max(per, filePer) ==> k in table && table[k] == was[k]
    }

    function FileSlots(): int { Min(2, Max(1, maxIn - 1)) }

    ghost predicate Valid()
      reads this
    {
      && TableOk(last, grants, clock, Max(per, filePer))
      && Spaced(grants, per, filePer)
      && inflight == openFiles + openManifests <= maxIn
      && files == openFiles <= FileSlots()
    }

    /** newRateLimiter: defaults replace values that are not positive. */
    constructor (per: int, filePer: int, maxIn: int)
      ensures Valid() && grants == [] && openFiles == openManifests == 0
      ensures this.per == (if per <= 0 then 30 else per) && this.filePer == (if filePer <= 0 then 300 else filePer)
      ensures this.maxIn == (if maxIn <= 0 then 4 else maxIn)
    {
      this.per := if per <= 0 then 30 else per;
      this.filePer := if filePer <= 0 then 300 else filePer;
      this.maxIn := if maxIn <= 0 then 4 else maxIn;
      last, inflight, files := map[], 0, 0;
      clock, grants, openFiles, openManifests := 0, [], 0, 0;
    }

    /** The bounded scan of a full table, in Go's arbitrary iteration order: it
        drops exactly the expired entries among those it looks at. */
    method Scan(now: Time) returns (ghost looked: set<string>)
      modifies this`last
      ensures looked <= old(last).Keys && |looked| == Min(SCAN_LIMIT, |old(last)|)
      ensures last == Scanned(old(last), looked, now, Max(per, filePer))
    {
      var todo := last.Keys;
      var checked := 0;
      looked := {};
      while todo != {} && checked < SCAN_LIMIT
        invariant todo == old(last).Keys - looked && looked <= old(last).Keys
        invariant checked == |looked| <= SCAN_LIMIT
        invariant last == Scanned(old(last), looked, now, Max(per, filePer))
        decreases todo
      {
        var k :| k in todo;
        ScannedNext(old(last), looked, k, now, Max(per, filePer));
        todo := todo - {k};
        looked := looked + {k};
        if now > last[k] + Max(per, filePer) {
          last := last - {k};
        }
        checked := checked + 1;
      }
      Within(looked, old(last).Keys);
      if todo == {} { assert looked == old(last).Keys; }
      assert |old(last)| == |old(last).Keys|;
    }

    /** allow: a grant keeps every spacing and slot limit. */
    method Allow(bucket: Bucket, remote: string, now: Time) returns (ok: bool)
      requires Valid() && clock <= now
      modifies this
      ensures Valid() && clock == now
      ensures grants == if ok then old(grants) + [Grant(bucket, remote, now)] else old(grants)
      ensures openFiles == old(openFiles) + (if ok && bucket == File then 1 else 0)
      ensures openManifests == old(openManifests) + (if ok && bucket == Manifest then 1 else 0)
      ensures openFiles <= 2 && (maxIn >= 2 ==> openFiles < maxIn)
      ensures KeepsFresh(old(last), last, Key(bucket, remote), now)
      ensures ok ==> Key(bucket, remote) in last && last[Key(bucket, remote)] == now
      ensures !ok ==> (old(inflight) >= maxIn || (bucket == File && (old(files) >= 2 || old(files) >= Max(1, maxIn - 1))) ||
        TooSoon(grants, bucket, remote, now, if bucket == File then filePer else per) || StuckFull(old(last), now, Max(per, filePer)))
    {
      LaterClock(last, grants, clock, now, Max(per, filePer));
      clock := now;
      if inflight >= maxIn || (bucket == File && files >= FileSlots()) {
        return false;
      }
      ok := RecordGrant(bucket, remote, now);
      if ok {
        TakeSlot(bucket);
      }
    }

    method TakeSlot(bucket: Bucket)
      modifies this`inflight, this`files, this`openFiles, this`openManifests
      ensures inflight == old(inflight) + 1
      ensures files == old(files) + (if bucket == File then 1 else 0)
      ensures openFiles == old(openFiles) + (if bucket == File then 1 else 0)
      ensures openManifests == old(openManifests) + (if bucket == Manifest then 1 else 0)
    {
      inflight := inflight + 1;
      if bucket == File {
        files, openFiles := files + 1, openFiles + 1;
      } else {
        openManifests := openManifests + 1;
      }
    }

    /** A full table is scanned once for a new key; that it stays full has a reason. */
    method MakeRoom(key: string, now: Time) returns (room: bool)
      requires TableOk(last, grants, now, Max(per, filePer))
      modifies this`last
      ensures TableOk(last, grants, now, Max(per, filePer))
      ensures room <==> key in last || |last| < TABLE_LIMIT
      ensures !room ==> StuckFull(old(last), now, Max(per, filePer))
      ensures forall k :: k in last ==> k in old(last) && last[k] == old(last)[k]
      ensures forall k :: k in old(last) && now <= old(last)[k] + Max(per, filePer) ==> k in last
      ensures key in old(last) ==> last == old(last)
    {
      if key in last || |last| < TABLE_LIMIT {
        return true;
      }
      ghost var looked := Scan(now);
      ScannedOk(old(last), grants, looked, now, Max(per, filePer));
      room := |last| < TABLE_LIMIT;
      if !room {
        ScanLeavesFull(old(last), looked, now, Max(per, filePer));
      }
    }

    /** The table half of allow: too soon, full, or recorded. */
    method RecordGrant(bucket: Bucket, remote: string, now: Time) returns (ok: bool)
      requires TableOk(last, grants, now, Max(per, filePer)) && Spaced(grants, per, filePer)
      modifies this`last, this`grants
      ensures TableOk(last, grants, now, Max(per, filePer)) && Spaced(grants, per, filePer)
      ensures grants == if ok then old(grants) + [Grant(bucket, remote, now)] else old(grants)
      ensures !ok ==> TooSoon(grants, bucket, remote, now, if bucket == File then filePer else per) || StuckFull(old(last), now, Max(per, filePer))
      ensures ok ==> Key(bucket, remote) in last && last[Key(bucket, remote)] == now
      ensures KeepsFresh(old(last), last, Key(bucket, remote), now)
    {
      var key := Key(bucket, remote);
      if key in last && now < last[key] + Interval(bucket, per, filePer) {
        RefusalMeaning(last, grants, now, Max(per, filePer), bucket, remote, Interval(bucket, per, filePer));
        return false;
      }
      ok := MakeRoom(key, now);
      if ok {
        Record(bucket, remote, now);
      }
    }

    method Record(bucket: Bucket, remote: string, now: Time)
      requires TableOk(last, grants, now, Max(per, filePer)) && Spaced(grants, per, filePer)
      requires Key(bucket, remote) in last || |last| < TABLE_LIMIT
      requires Key(bucket, remote) in last ==> last[Key(bucket, remote)] + Interval(bucket, per, filePer) <= now
      modifies this`last, this`grants
      ensures TableOk(last, grants, now, Max(per, filePer)) && Spaced(grants, per, filePer)
      ensures grants == old(grants) + [Grant(bucket, remote, now)] && last == old(last)[Key(bucket, remote) := now]
    {
      ghost var g := Grant(bucket, remote, now);
      SpacedFromNow(last, grants, now, per, filePer, g);
      AdmitKeeps(last, grants, now, Max(per, filePer), g);
      last := last[Key(bucket, remote) := now];
      grants := grants + [g];
    }

    /** release: the caller holds a grant of this bucket. */
    method Release(bucket: Bucket)
      requires Valid() && (if bucket == File then openFiles > 0 else openManifests > 0)
      modifies this
      ensures Valid() && grants == old(grants) && clock == old(clock) && last == old(last)
      ensures openFiles == old(openFiles) - (if bucket == File then 1 else 0)
      ensures openManifests == old(openManifests) - (if bucket == Manifest then 1 else 0)
    {
      if bucket == File && files > 0 {
        files := files - 1;
      }
      if inflight > 0 {
        inflight := inflight - 1;
      }
      if bucket == File {
        openFiles := openFiles - 1;
      } else {
        openManifests := openManifests - 1;
      }
    }
  }
}
