/** The console log ring (sdk/go/lanet/console_logs.go): a fixed array with
    record IDs, byte limits and generations, read by polling cursors. */
module LogRing {

  const CAPACITY: nat := 2048
  const MAX_BYTES: nat := 2 * 1024 * 1024
  const LINE_BYTES: nat := 4096
  const BATCH_COUNT: nat := 64
  const BATCH_BYTES: nat := 64 * 1024

  datatype Record = Record(id: nat, text: string)

  datatype Batch = Batch(records: seq<Record>, cursor: nat, generation: nat, reset: bool, more: bool)

  // ---- the bounded log the ring refines ----

  /** Every text ever written; those before `first` were dropped. The record of
      `hist[i]` has ID `i + 1`. */
  datatype Log = Log(hist: seq<string>, first: nat, generation: nat)

  ghost predicate LogOk(log: Log) {
    && log.first <= |log.hist| <= log.first + CAPACITY
    && SizeFrom(log.hist, log.first) <= MAX_BYTES
    && forall i :: 0 <= i < |log.hist| ==> |log.hist[i]| <= LINE_BYTES + 12
  }

  /** The bytes of the texts from index `i` on. */
  ghost function SizeFrom(hist: seq<string>, i: nat): nat
    decreases |hist| - i
  {
    if i >= |hist| then 0 else |hist[i]| + SizeFrom(hist, i + 1)
  }

  ghost function Size(texts: seq<string>): nat {
    if texts == [] then 0 else |texts[0]| + Size(texts[1..])
  }

  /** Line ends inside the text of one record are impossible; long lines are cut. */
  function Clip(line: string): string {
    if |line| > LINE_BYTES then line[..LINE_BYTES] + " [truncated]" else line
  }

  function LineEnd(p: string): (end: nat)
    ensures end <= |p|
  {
    if p == "" || p[0] == '\n' then 0 else 1 + LineEnd(p[1..])
  }

  /** It is the first line end, or the end of the text. */
  lemma {:induction false} LineEndFirst(p: string)
    ensures '\n' !in p[..LineEnd(p)]
    ensures LineEnd(p) < |p| ==> p[LineEnd(p)] == '\n'
  {
    if p != "" && p[0] != '\n' {
      LineEndFirst(p[1..]);
      assert p[..LineEnd(p)] == [p[0]] + p[1..][..LineEnd(p[1..])];
    }
  }

  /** The records of one write: one per line, none for a final line end. */
  ghost function Lines(p: string): seq<string>
    decreases |p|
  {
    if p == "" then []
    else
      var end := LineEnd(p);
      [Clip(p[..end])] + if end == |p| then [] else Lines(p[end + 1..])
  }

  /** The oldest index kept so that one more text fits. */
  ghost function Evicted(hist: seq<string>, first: nat, need: nat): (r: nat)
    requires first <= |hist|
    ensures first <= r <= |hist|
    ensures r < |hist| ==> |hist| - r != CAPACITY && SizeFrom(hist, r) + need <= MAX_BYTES
    decreases |hist| - first
  {
    if first < |hist| && (|hist| - first == CAPACITY || SizeFrom(hist, first) + need > MAX_BYTES)
    then Evicted(hist, first + 1, need) else first
  }

  ghost function AppendOne(log: Log, text: string): Log
    requires log.first <= |log.hist|
  {
    log.(hist := log.hist + [text], first := Evicted(log.hist, log.first, |text|))
  }

  ghost function AppendAll(log: Log, texts: seq<string>): (r: Log)
    requires log.first <= |log.hist|
    ensures r.first <= |r.hist|
    decreases |texts|
  {
    if texts == [] then log else AppendAll(AppendOne(log, texts[0]), texts[1..])
  }

  lemma LinesNext(p: string)
    requires p != ""
    ensures var end := LineEnd(p);
      Lines(p) == [Clip(p[..end])] + Lines(if end == |p| then "" else p[end + 1..])
  {
  }

  lemma AppendAllNext(log: Log, text: string, texts: seq<string>)
    requires log.first <= |log.hist|
    ensures AppendAll(log, [text] + texts) == AppendAll(AppendOne(log, text), texts)
  {
    assert ([text] + texts)[1..] == texts;
  }

  ghost function Cleared(log: Log): Log {
    log.(first := |log.hist|, generation := log.generation + 1)
  }

  ghost predicate NeedsReset(log: Log, cursor: nat, generation: nat) {
    generation != log.generation || cursor > |log.hist| || (log.first < |log.hist| && cursor < log.first)
  }

  /** How many texts from index `i` fit into a batch that holds `n` records of `size` bytes. */
  ghost function Fit(hist: seq<string>, i: nat, n: nat, size: nat): (k: nat)
    requires i <= |hist|
    ensures i + k <= |hist|
    decreases |hist| - i
  {
    if i == |hist| || n >= BATCH_COUNT || size + |hist[i]| > BATCH_BYTES then 0
    else 1 + Fit(hist, i + 1, n + 1, size + |hist[i]|)
  }

  ghost function Records(hist: seq<string>, from: nat, to: nat): seq<Record>
    requires from <= to <= |hist|
  {
    seq(to - from, i requires 0 <= i < to - from => Record(from + i + 1, hist[from + i]))
  }

  ghost function BatchOf(log: Log, cursor: nat, generation: nat): Batch
    requires log.first <= |log.hist|
  {
    var reset := NeedsReset(log, cursor, generation);
    var start := if reset then log.first else cursor;
    if log.first == |log.hist| then Batch([], start, log.generation, reset, false)
    else
      var end := start + Fit(log.hist, start, 0, 0);
      Batch(Records(log.hist, start, end), end, log.generation, reset, end < |log.hist|)
  }

  // ---- the ring ----

  function Slot(head: nat, i: nat): (s: nat)
    ensures s < 2048
  {
    (head + i) % 2048
  }

  lemma SlotsDiffer(head: nat, i: nat, j: nat)
    requires i < j < 2048
    ensures Slot(head, i) != Slot(head, j)
  {
    assert (head + j) - (head + i) < 2048;
  }

  /** The ring without its oldest slot holds the remaining records. */
  lemma DropSlot(rs: seq<Record>, hist: seq<string>, head: nat, head': nat, count: nat)
    requires |rs| == 2048 && head < 2048 && head' == (head + 1) % 2048 && 0 < count <= 2048 && count <= |hist|
    requires forall i :: 0 <= i < count ==> rs[Slot(head, i)] == Record(|hist| - count + i + 1, hist[|hist| - count + i])
    ensures forall i :: 0 <= i < count - 1 ==> Slot(head', i) != head
    ensures forall i :: 0 <= i < count - 1 ==>
      rs[Slot(head', i)] == Record(|hist| - (count - 1) + i + 1, hist[|hist| - (count - 1) + i])
  {
    forall i | 0 <= i < count - 1 ensures Slot(head, i + 1) == Slot(head', i) != head {
      SlotsDiffer(head, 0, i + 1);
    }
  }

  lemma EvictedMore(hist: seq<string>, first: nat, need: nat)
    requires first < |hist| && (|hist| - first == CAPACITY || SizeFrom(hist, first) + need > MAX_BYTES)
    ensures Evicted(hist, first, need) == Evicted(hist, first + 1, need)
  {
  }

  lemma EvictedStop(hist: seq<string>, first: nat, need: nat)
    requires first <= |hist|
    requires first == |hist| || (|hist| - first < CAPACITY && SizeFrom(hist, first) + need <= MAX_BYTES)
    ensures Evicted(hist, first, need) == first
  {
  }

  class ConsoleLogBuffer {
    const records: array<Record>
    var head: nat
    var count: nat
    var size: nat
    var next: nat
    var generation: nat
    ghost var hist: seq<string>

    ghost function Abstract(): Log
      reads this
    {
      Log(hist, if count <= next then next - count else 0, generation)
    }

    ghost predicate Valid()
      reads this, records
    {
      && records.Length == 2048 && head < 2048
      && next == |hist| && count <= next
      && LogOk(Abstract())
      && size == SizeFrom(hist, next - count)
      && forall i :: 0 <= i < count ==> records[Slot(head, i)] == Record(next - count + i + 1, hist[next - count + i])
    }

    constructor ()
      ensures Valid() && Abstract() == Log([], 0, 1) && fresh(records)
    {
      records := new Record[2048](_ => Record(0, ""));
      head, count, size, next, generation := 0, 0, 0, 0, 1;
      hist := [];
    }

    /** Drops the oldest record. */
    method DropHead()
      requires Valid() && count > 0
      modifies this`head, this`count, this`size, records
      ensures Valid() && Abstract() == old(Abstract()).(first := old(Abstract()).first + 1)
      ensures records[old(head)] == Record(0, "")
    {
      assert head == Slot(head, 0);
      size := size - |records[head].text|;
      DropSlot(records[..], hist, head, (head + 1) % 2048, count);
      records[head] := Record(0, "");
      head := (head + 1) % 2048;
      count := count - 1;
    }

    method MakeRoom(need: nat)
      requires Valid()
      modifies this`head, this`count, this`size, records
      ensures Valid() && Abstract() == old(Abstract()).(first := Evicted(old(hist), old(Abstract()).first, need))
    {
      ghost var goal := Evicted(hist, next - count, need);
      while count > 0 && (count == CAPACITY || size + need > MAX_BYTES)
        invariant Valid() && hist == old(hist) && generation == old(generation)
        invariant Evicted(hist, next - count, need) == goal
        decreases count
      {
        EvictedMore(hist, next - count, need);
        DropHead();
      }
      EvictedStop(hist, next - count, need);
    }

    /** Appends one text after making room for it. */
    method Append(text: string)
      requires Valid() && |text| <= LINE_BYTES + 12
      modifies this, records
      ensures Valid() && Abstract() == AppendOne(old(Abstract()), text)
    {
      MakeRoom(|text|);
      Push(text);
    }

    method Push(text: string)
      requires Valid() && |text| <= LINE_BYTES + 12 && count < CAPACITY && size + |text| <= MAX_BYTES
      modifies this, records
      ensures Valid() && Abstract() == old(Abstract()).(hist := old(hist) + [text])
    {
      PushOk(Abstract(), text);
      Store(text);
      size := size + |text|;
      next := next + 1;
      count := count + 1;
      hist := hist + [text];
    }

    /** The array write of Push. */
    method Store(text: string)
      requires records.Length == 2048 && head < 2048 && count < 2048 && count <= next == |hist|
      requires forall i :: 0 <= i < count ==> records[Slot(head, i)] == Record(next - count + i + 1, hist[next - count + i])
      modifies records
      ensures forall i :: 0 <= i < count + 1 ==>
        records[Slot(head, i)] == Record(next - count + i + 1, (hist + [text])[next - count + i])
    {
      forall i | 0 <= i < count ensures Slot(head, i) != Slot(head, count) { SlotsDiffer(head, i, count); }
      records[(head + count) % 2048] := Record(next + 1, text);
      assert records[Slot(head, count)] == Record(next + 1, text);
    }

    method ClipLine(line: string) returns (text: string)
      ensures text == Clip(line) && |text| <= LINE_BYTES + 12
    {
      text := line;
      if |text| > LINE_BYTES {
        text := text[..LINE_BYTES];
      }
      if |line| > LINE_BYTES {
        text := text + " [truncated]";
      }
    }

    /** write: one record per line. */
    method Write(p: string)
      requires Valid()
      modifies this, records
      ensures Valid() && Abstract() == AppendAll(old(Abstract()), Lines(p))
    {
      var rest := p;
      ghost var all := AppendAll(Abstract(), Lines(p));
      while |rest| > 0
        invariant Valid()
        invariant AppendAll(Abstract(), Lines(rest)) == all
        decreases |rest|
      {
        var end := LineEnd(rest);
        var text := ClipLine(rest[..end]);
        LinesNext(rest);
        rest := if end == |rest| then "" else rest[end + 1..];
        AppendAllNext(Abstract(), text, Lines(rest));
        Append(text);
      }
    }

    method Clear()
      requires Valid()
      modifies this, records
      ensures Valid() && Abstract() == Cleared(old(Abstract()))
      ensures forall i :: 0 <= i < records.Length ==> records[i] == Record(0, "")
    {
      forall i | 0 <= i < records.Length {
        records[i] := Record(0, "");
      }
      head, count, size := 0, 0, 0;
      generation := generation + 1;
    }

    /** batch: the records after a reader's cursor, as many as fit. */
    method ReadBatch(cursor: nat, readerGeneration: nat) returns (result: Batch)
      requires Valid()
      ensures result == BatchOf(Abstract(), cursor, readerGeneration)
    {
      var reset, start := false, cursor;
      assert count > 0 ==> records[Slot(head, 0)].id == next - count + 1 && Slot(head, 0) == head;
      if readerGeneration != generation || cursor > next || (count > 0 && cursor < records[head].id - 1) {
        reset, start := true, if count > 0 then records[head].id - 1 else next;
      }
      var batch, last, more := ReadFrom(start);
      result := Batch(batch, last, generation, reset, more);
    }

    /** The `i`-th oldest record. */
    method ReadSlot(i: nat) returns (record: Record)
      requires Valid() && i < count
      ensures record == Record(next - count + i + 1, hist[next - count + i])
    {
      record := records[(head + i) % 2048];
      assert record == records[Slot(head, i)];
    }

    /** The loop of batch, from a cursor that is not behind the oldest record. */
    method ReadFrom(start: nat) returns (batch: seq<Record>, last: nat, more: bool)
      requires Valid() && start <= next && (count > 0 ==> next - count <= start)
      ensures count == 0 ==> batch == [] && last == start && !more
      ensures count > 0 ==> last == start + Fit(hist, start, 0, 0)
      ensures count > 0 ==> batch == Records(hist, start, last) && (more <==> last < next)
    {
      batch, last, more := [], start, false;
      var bytes: nat := 0;
      TakenNone(hist, start);
      for i := 0 to count
        invariant count == 0 ==> batch == []
        invariant count > 0 ==> last == if next - count + i <= start then start else next - count + i
        invariant start <= last <= next && Taken(hist, start, batch, last, bytes)
      {
        var record := ReadSlot(i);
        if record.id > last {
          TakenStep(hist, start, batch, last, bytes);
          if |batch| == BATCH_COUNT || bytes + |record.text| > BATCH_BYTES {
            return batch, last, true;
          }
          batch, last := batch + [record], record.id;
          bytes := bytes + |record.text|;
        }
      }
      TakenAll(hist, start, batch, last, bytes);
    }
  }

  /** `batch` holds the records from `start` to `last`, and what else fits is
      decided by the records behind `last` alone. */
  ghost predicate Taken(hist: seq<string>, start: nat, batch: seq<Record>, last: nat, bytes: nat) {
    && start <= last <= |hist| && |batch| == last - start <= BATCH_COUNT
    && batch == Records(hist, start, last)
    && Fit(hist, start, 0, 0) == |batch| + Fit(hist, last, |batch|, bytes)
  }

  lemma TakenNone(hist: seq<string>, start: nat)
    requires start <= |hist|
    ensures Taken(hist, start, [], start, 0)
  {
  }

  lemma TakenStep(hist: seq<string>, start: nat, batch: seq<Record>, last: nat, bytes: nat)
    requires Taken(hist, start, batch, last, bytes) && last < |hist|
    ensures
      if |batch| == BATCH_COUNT || bytes + |hist[last]| > BATCH_BYTES then last == start + Fit(hist, start, 0, 0)
      else Taken(hist, start, batch + [Record(last + 1, hist[last])], last + 1, bytes + |hist[last]|)
  {
    FitStep(hist, last, |batch|, bytes);
    RecordsSnoc(hist, start, last);
  }

  lemma TakenAll(hist: seq<string>, start: nat, batch: seq<Record>, last: nat, bytes: nat)
    requires Taken(hist, start, batch, last, bytes)
    ensures last == |hist| ==> last == start + Fit(hist, start, 0, 0)
  {
  }

  lemma FitStep(hist: seq<string>, i: nat, n: nat, size: nat)
    requires i < |hist| && n <= BATCH_COUNT
    ensures if n == BATCH_COUNT || size + |hist[i]| > BATCH_BYTES then Fit(hist, i, n, size) == 0
            else Fit(hist, i, n, size) == 1 + Fit(hist, i + 1, n + 1, size + |hist[i]|)
  {
  }

  lemma RecordsSnoc(hist: seq<string>, from: nat, to: nat)
    requires from <= to < |hist|
    ensures Records(hist, from, to + 1) == Records(hist, from, to) + [Record(to + 1, hist[to])]
  {
  }

  lemma PushOk(log: Log, text: string)
    requires LogOk(log) && |text| <= LINE_BYTES + 12
    requires |log.hist| - log.first < CAPACITY && SizeFrom(log.hist, log.first) + |text| <= MAX_BYTES
    ensures LogOk(log.(hist := log.hist + [text]))
    ensures SizeFrom(log.hist + [text], log.first) == SizeFrom(log.hist, log.first) + |text|
  {
    SizeAppend(log.hist, log.first, text);
  }

  lemma {:induction false} SizeAppend(hist: seq<string>, i: nat, text: string)
    requires i <= |hist|
    ensures SizeFrom(hist + [text], i) == SizeFrom(hist, i) + |text|
    decreases |hist| - i
  {
    if i < |hist| { SizeAppend(hist, i + 1, text); }
  }

  // ---- a polling reader ----

  datatype Event = Wrote(p: string) | ClearedLog | Polled

  /** A reader that hands back its last cursor and generation; `got` holds what
      it received since the last reset, which started after index `from`. */
  datatype Reading = Reading(log: Log, cursor: nat, generation: nat, from: nat, got: seq<Record>)

  ghost function Happens(r: Reading, e: Event): Reading
    requires r.log.first <= |r.log.hist|
  {
    match e
    case Wrote(p) => r.(log := AppendAll(r.log, Lines(p)))
    case ClearedLog => r.(log := Cleared(r.log))
    case Polled =>
      var b := BatchOf(r.log, r.cursor, r.generation);
      if b.reset then Reading(r.log, b.cursor, b.generation, r.log.first, b.records)
      else Reading(r.log, b.cursor, b.generation, r.from, r.got + b.records)
  }

  ghost function HappenAll(r: Reading, events: seq<Event>): Reading
    requires r.log.first <= |r.log.hist|
    decreases |events|
  {
    if events == [] then r else HappenAll(Happens(r, events[0]), events[1..])
  }

  ghost predicate ReadingOk(r: Reading) {
    && LogOk(r.log)
    && r.from <= r.cursor <= |r.log.hist| && r.generation <= r.log.generation
    && r.got == Records(r.log.hist, r.from, r.cursor)
    && (r.generation == r.log.generation && r.log.first == |r.log.hist| ==> r.cursor == |r.log.hist|)
  }

  lemma {:induction false} LinesClipped(p: string)
    ensures forall t :: t in Lines(p) ==> |t| <= LINE_BYTES + 12
    decreases |p|
  {
    if p != "" && LineEnd(p) < |p| { LinesClipped(p[LineEnd(p) + 1..]); }
  }

  lemma {:induction false} EvictedOk(hist: seq<string>, first: nat, need: nat)
    requires LogOk(Log(hist, first, 0)) && need <= MAX_BYTES
    ensures var r := Evicted(hist, first, need); |hist| - r < CAPACITY && SizeFrom(hist, r) + need <= MAX_BYTES
    decreases |hist| - first
  {
    if first < |hist| {
      if |hist| - first == CAPACITY || SizeFrom(hist, first) + need > MAX_BYTES { EvictedOk(hist, first + 1, need); }
    }
  }

  /** `r` extends `log` by `texts`, within the limits. */
  ghost predicate Extends(log: Log, texts: seq<string>, r: Log) {
    && LogOk(r) && r.generation == log.generation && r.hist == log.hist + texts && log.first <= r.first
    && (texts != [] ==> r.first < |r.hist|)
  }

  lemma AppendOneOk(log: Log, t: string)
    requires LogOk(log) && |t| <= LINE_BYTES + 12
    ensures Extends(log, [t], AppendOne(log, t))
  {
    EvictedOk(log.hist, log.first, |t|);
    PushOk(log.(first := Evicted(log.hist, log.first, |t|)), t);
  }

  lemma ExtendsMore(log: Log, t: string, mid: Log, rest: seq<string>, r: Log)
    requires Extends(log, [t], mid) && Extends(mid, rest, r) && (rest == [] ==> r == mid)
    ensures Extends(log, [t] + rest, r)
  {
    assert log.hist + [t] + rest == log.hist + ([t] + rest);
  }

  lemma {:induction false} AppendAllOk(log: Log, texts: seq<string>)
    requires LogOk(log) && forall t :: t in texts ==> |t| <= LINE_BYTES + 12
    ensures Extends(log, texts, AppendAll(log, texts))
    decreases |texts|
  {
    if texts == [] {
      assert log.hist + texts == log.hist;
    } else {
      var mid := AppendOne(log, texts[0]);
      AppendOneOk(log, texts[0]);
      AppendAllOk(mid, texts[1..]);
      ExtendsMore(log, texts[0], mid, texts[1..], AppendAll(mid, texts[1..]));
      assert [texts[0]] + texts[1..] == texts;
    }
  }

  lemma FitSome(hist: seq<string>, i: nat)
    requires i < |hist| && |hist[i]| <= BATCH_BYTES
    ensures Fit(hist, i, 0, 0) >= 1
  {
  }

  lemma {:induction false} FitLimits(hist: seq<string>, i: nat, n: nat, size: nat)
    requires i <= |hist| && size <= BATCH_BYTES && n <= BATCH_COUNT
    ensures var k := Fit(hist, i, n, size);
      && n + k <= BATCH_COUNT && size + Size(hist[i..i + k]) <= BATCH_BYTES
      && (i + k < |hist| ==> n + k == BATCH_COUNT || size + Size(hist[i..i + k]) + |hist[i + k]| > BATCH_BYTES)
    decreases |hist| - i
  {
    var k := Fit(hist, i, n, size);
    if k > 0 {
      FitLimits(hist, i + 1, n + 1, size + |hist[i]|);
      assert hist[i..i + k][1..] == hist[i + 1..i + k];
    }
  }

  lemma RecordsGrow(hist: seq<string>, more: seq<string>, from: nat, to: nat)
    requires from <= to <= |hist|
    ensures Records(hist + more, from, to) == Records(hist, from, to)
  {
  }

  /** One poll of a reader in good standing: at least one record whenever any is
      unread, within the limits, and `more` exactly when some remain. */
  lemma PollMeaning(r: Reading)
    requires ReadingOk(r)
    ensures var b := BatchOf(r.log, r.cursor, r.generation);
      var start := if b.reset then r.log.first else r.cursor;
      && start <= b.cursor <= |r.log.hist| && r.log.first <= start
      && b.records == Records(r.log.hist, start, b.cursor)
      && (start < |r.log.hist| ==> |b.records| >= 1)
      && |b.records| <= BATCH_COUNT && Size(r.log.hist[start..b.cursor]) <= BATCH_BYTES
      && (b.cursor < |r.log.hist| ==>
            |b.records| == BATCH_COUNT || Size(r.log.hist[start..b.cursor]) + |r.log.hist[b.cursor]| > BATCH_BYTES)
      && (b.more <==> b.cursor < |r.log.hist|)
      && (b.reset <==> r.generation != r.log.generation || r.cursor < r.log.first)
  {
    var b := BatchOf(r.log, r.cursor, r.generation);
    var start := if b.reset then r.log.first else r.cursor;
    FitLimits(r.log.hist, start, 0, 0);
    if start < |r.log.hist| { FitSome(r.log.hist, start); }
  }

  lemma WroteOk(r: Reading, p: string)
    requires ReadingOk(r)
    ensures ReadingOk(Happens(r, Wrote(p)))
  {
    LinesClipped(p);
    AppendAllOk(r.log, Lines(p));
    RecordsGrow(r.log.hist, Lines(p), r.from, r.cursor);
    assert Lines(p) == [] ==> r.log.hist + Lines(p) == r.log.hist;
  }

  lemma PolledOk(r: Reading)
    requires ReadingOk(r)
    ensures ReadingOk(Happens(r, Polled))
  {
    PollMeaning(r);
    var b := BatchOf(r.log, r.cursor, r.generation);
    if !b.reset { RecordsJoin(r.log.hist, r.from, r.cursor, b.cursor); }
  }

  lemma RecordsJoin(hist: seq<string>, from: nat, mid: nat, to: nat)
    requires from <= mid <= to <= |hist|
    ensures Records(hist, from, mid) + Records(hist, mid, to) == Records(hist, from, to)
  {
  }

  lemma HappensOk(r: Reading, e: Event)
    requires ReadingOk(r)
    ensures ReadingOk(Happens(r, e))
  {
    match e
    case Wrote(p) => WroteOk(r, p);
    case ClearedLog => assert r.log.hist[|r.log.hist|..] == [];
    case Polled => PolledOk(r);
  }

  /** Nothing is dropped that could have stayed. */
  lemma {:induction false} EvictedLeast(hist: seq<string>, first: nat, need: nat, q: nat)
    requires first <= |hist| && first <= q < Evicted(hist, first, need)
    ensures q < |hist| && (|hist| - q == CAPACITY || SizeFrom(hist, q) + need > MAX_BYTES)
    decreases |hist| - first
  {
    if q > first { EvictedLeast(hist, first + 1, need, q); }
  }

  /** Over any run of writes, clears and polls the reader's records since its
      last reset are exactly the texts written between two points, each once, in
      order and with consecutive IDs. */
  lemma {:induction false} ReaderGapFree(r: Reading, events: seq<Event>)
    requires ReadingOk(r)
    ensures var end := HappenAll(r, events);
      ReadingOk(end) && end.got == Records(end.log.hist, end.from, end.cursor)
    decreases |events|
  {
    if events != [] {
      HappensOk(r, events[0]);
      ReaderGapFree(Happens(r, events[0]), events[1..]);
    }
  }

  /** The texts of the writes among the events. */
  ghost function Written(events: seq<Event>): seq<string> {
    if events == [] then []
    else (if events[0].Wrote? then Lines(events[0].p) else []) + Written(events[1..])
  }

  function Clears(events: seq<Event>): nat {
    if events == [] then 0 else (if events[0].ClearedLog? then 1 else 0) + Clears(events[1..])
  }

  /** One event: writes extend the history, clears empty the log under the next
      generation, polls leave it alone, and only polls move the reader. */
  lemma EventExactly(r: Reading, e: Event)
    requires ReadingOk(r)
    ensures var to := Happens(r, e);
      && to.log.hist == r.log.hist + Written([e]) && to.log.generation == r.log.generation + Clears([e])
      && (e.Polled? ==> to.log == r.log)
      && (e.ClearedLog? ==> to.log.first == |to.log.hist|)
      && (!e.Polled? ==> to == r.(log := to.log))
  {
    assert [e][1..] == [];
    if e.Wrote? {
      LinesClipped(e.p);
      AppendAllOk(r.log, Lines(e.p));
      assert Lines(e.p) + [] == Lines(e.p);
    }
  }

  lemma WrittenFirst(events: seq<Event>)
    requires events != []
    ensures Written(events) == Written([events[0]]) + Written(events[1..])
    ensures Clears(events) == Clears([events[0]]) + Clears(events[1..])
  {
    assert [events[0]][1..] == [];
  }

  lemma Joined(a: seq<string>, b: seq<string>, c: seq<string>)
    ensures a + (b + c) == a + b + c
  {
  }

  /** Over any run the history is everything written, and the generation counts the clears. */
  lemma {:induction false} HistoryExactly(r: Reading, events: seq<Event>)
    requires ReadingOk(r)
    ensures var end := HappenAll(r, events);
      end.log.hist == r.log.hist + Written(events) && end.log.generation == r.log.generation + Clears(events)
    decreases |events|
  {
    if events == [] {
      assert r.log.hist + [] == r.log.hist;
    } else {
      HappensOk(r, events[0]);
      EventExactly(r, events[0]);
      HistoryExactly(Happens(r, events[0]), events[1..]);
      WrittenFirst(events);
      Joined(r.log.hist, Written([events[0]]), Written(events[1..]));
    }
  }

  ghost function Polls(k: nat): seq<Event> { seq(k, _ => Polled) }

  /** Records the reader has still to fetch, and one for a reset to come. */
  ghost function Unread(r: Reading): nat
    requires ReadingOk(r)
  {
    if r.generation != r.log.generation || r.cursor < r.log.first then 1 + |r.log.hist| - r.log.first
    else |r.log.hist| - r.cursor
  }

  lemma PollFetches(r: Reading)
    requires ReadingOk(r)
    ensures var to := Happens(r, Polled);
      && ReadingOk(to) && to.log == r.log
      && (if Unread(r) > 0 then Unread(to) < Unread(r) else Unread(to) == 0)
      && to.generation == r.log.generation
  {
    PollMeaning(r);
    PolledOk(r);
  }

  /** A reader that goes on polling fetches everything that is still in the log. */
  lemma {:induction false} PollsCatchUp(r: Reading, k: nat)
    requires ReadingOk(r) && k > 0 && k >= Unread(r)
    ensures var end := HappenAll(r, Polls(k));
      && ReadingOk(end) && end.log == r.log
      && end.cursor == |r.log.hist| && end.generation == r.log.generation
    decreases k
  {
    var to := Happens(r, Polled);
    PollFetches(r);
    PollMeaning(r);
    assert Polls(k)[0] == Polled && Polls(k)[1..] == Polls(k - 1);
    if k > 1 {
      PollsCatchUp(to, k - 1);
    } else {
      assert HappenAll(to, Polls(0)) == to;
    }
  }

  /** A new reader of a new buffer: generation 0 forces a reset. */
  lemma NewReaderOk()
    ensures ReadingOk(Reading(Log([], 0, 1), 0, 0, 0, []))
  {
  }

  /** A write appends its lines and keeps a suffix within the two limits. */
  lemma WriteMeaning(log: Log, p: string)
    requires LogOk(log)
    ensures var r := AppendAll(log, Lines(p));
      LogOk(r) && r.hist == log.hist + Lines(p) && log.first <= r.first && r.generation == log.generation
  {
    LinesClipped(p);
    AppendAllOk(log, Lines(p));
  }
}
