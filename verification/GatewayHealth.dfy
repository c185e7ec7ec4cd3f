// Latency samples: buffering, the per-minute flush with its 95th percentile, and the sliding window.
module GatewayHealth {
  import opened Wrappers
  import opened CircuitBreaker

  datatype Sample = Sample(latencyMs: nat, success: bool)

  type Buffer = map<Key, seq<Sample>>

  datatype MetricsRow = MetricsRow(key: Key, successCount: nat, totalCount: nat, p95LatencyMs: nat, avgLatencyMs: nat, recordedAt: int)

  // ---------------------------------------------------------------- one bucket

  function Successes(samples: seq<Sample>): nat {
    if samples == [] then 0 else Successes(samples[1..]) + if samples[0].success then 1 else 0
  }

  function TotalLatency(samples: seq<Sample>): nat {
    if samples == [] then 0 else TotalLatency(samples[1..]) + samples[0].latencyMs
  }

  function Latencies(samples: seq<Sample>): (r: seq<nat>)
    ensures |r| == |samples| && forall i :: 0 <= i < |samples| ==> r[i] == samples[i].latencyMs
  {
    if samples == [] then [] else [samples[0].latencyMs] + Latencies(samples[1..])
  }

  function InsertAscending(x: nat, s: seq<nat>): (r: seq<nat>)
    ensures |r| == |s| + 1
  {
    if s == [] then [x] else if x <= s[0] then [x] + s else [s[0]] + InsertAscending(x, s[1..])
  }

  // latencies.sort((a, b) => a - b)
  function SortAscending(s: seq<nat>): (r: seq<nat>)
    ensures |r| == |s|
  {
    if s == [] then [] else InsertAscending(s[0], SortAscending(s[1..]))
  }

  // Math.floor(length * 0.95)
  function P95Index(n: nat): nat {
    19 * n / 20
  }

  lemma P95IndexInRange(n: nat)
    requires n > 0
    ensures P95Index(n) < n
    ensures 20 * (P95Index(n) + 1) > 19 * n >= 20 * P95Index(n)
  {
  }

  function P95(samples: seq<Sample>): nat
    requires samples != []
  {
    P95IndexInRange(|samples|);
    SortAscending(Latencies(samples))[P95Index(|samples|)]
  }

  // Math.round(total / n), halves going up, by repeated subtraction.
  function RoundedQuotient(total: int, n: nat): nat
    requires n > 0
    decreases total + n
  {
    if 2 * total < n then 0 else 1 + RoundedQuotient(total - n, n)
  }

  // No integer is nearer to the quotient.
  lemma {:induction false} RoundedQuotientIsNearest(total: int, n: nat)
    requires n > 0 && 2 * total + n >= 0
    ensures 2 * total - n < 2 * (RoundedQuotient(total, n) * n) <= 2 * total + n
    decreases total + n
  {
    if 2 * total >= n {
      RoundedQuotientIsNearest(total - n, n);
      assert RoundedQuotient(total, n) * n == RoundedQuotient(total - n, n) * n + n;
    }
  }

  function RowFor(key: Key, samples: seq<Sample>, now: int): MetricsRow
    requires samples != []
  {
    var n := |samples|;
    MetricsRow(key, Successes(samples), n, P95(samples), RoundedQuotient(TotalLatency(samples), n), now)
  }

  // How many samples are at or below a latency.
  function AtOrBelow(s: seq<nat>, v: nat): nat {
    if s == [] then 0 else AtOrBelow(s[1..], v) + if s[0] <= v then 1 else 0
  }

  lemma {:induction false} InsertCounts(x: nat, s: seq<nat>, v: nat)
    ensures AtOrBelow(InsertAscending(x, s), v) == AtOrBelow(s, v) + if x <= v then 1 else 0
    decreases |s|
  {
    if s != [] && x > s[0] {
      InsertCounts(x, s[1..], v);
      assert InsertAscending(x, s)[1..] == InsertAscending(x, s[1..]);
    } else {
      assert ([x] + s)[1..] == s;
    }
  }

  lemma {:induction false} SortCounts(s: seq<nat>, v: nat)
    ensures AtOrBelow(SortAscending(s), v) == AtOrBelow(s, v)
    decreases |s|
  {
    if s != [] {
      SortCounts(s[1..], v);
      InsertCounts(s[0], SortAscending(s[1..]), v);
    }
  }

  ghost predicate Ascending(s: seq<nat>) {
    forall i, j :: 0 <= i < j < |s| ==> s[i] <= s[j]
  }

  lemma {:induction false} InsertAscends(x: nat, s: seq<nat>)
    requires Ascending(s)
    ensures Ascending(InsertAscending(x, s))
    ensures forall v :: v in InsertAscending(x, s) ==> v == x || v in s
    decreases |s|
  {
    if s != [] && x > s[0] {
      InsertAscends(x, s[1..]);
      var r := InsertAscending(x, s[1..]);
      forall i | 0 <= i < |r| ensures s[0] <= r[i] {
        assert r[i] in r;
      }
    }
  }

  lemma {:induction false} SortAscends(s: seq<nat>)
    ensures Ascending(SortAscending(s))
    decreases |s|
  {
    if s != [] {
      SortAscends(s[1..]);
      InsertAscends(s[0], SortAscending(s[1..]));
    }
  }

  // In an ascending sequence the element at `i` has more than `i` elements at or below it, and
  // any smaller value at most `i`.
  lemma {:induction false} RankInAscending(s: seq<nat>, i: nat, v: nat)
    requires Ascending(s) && i < |s|
    ensures v >= s[i] ==> AtOrBelow(s, v) >= i + 1
    ensures v < s[i] ==> AtOrBelow(s, v) <= i
    decreases |s|
  {
    if i == 0 {
      if v < s[0] { NoneBelow(s, v); }
    } else {
      RankInAscending(s[1..], i - 1, v);
    }
  }

  lemma {:induction false} NoneBelow(s: seq<nat>, v: nat)
    requires forall i :: 0 <= i < |s| ==> v < s[i]
    ensures AtOrBelow(s, v) == 0
    decreases |s|
  {
    if s != [] { NoneBelow(s[1..], v); }
  }

  // The recorded percentile is the least latency that more than 95% of the samples do not exceed.
  lemma P95IsThePercentile(samples: seq<Sample>, v: nat)
    requires samples != []
    ensures 20 * AtOrBelow(Latencies(samples), v) > 19 * |samples| <==> v >= P95(samples)
  {
    var latencies := Latencies(samples);
    P95IndexInRange(|samples|);
    SortAscends(latencies);
    SortCounts(latencies, v);
    RankInAscending(SortAscending(latencies), P95Index(|samples|), v);
  }

  lemma {:induction false} SuccessesBounded(samples: seq<Sample>)
    ensures Successes(samples) <= |samples|
  {
    if samples != [] { SuccessesBounded(samples[1..]); }
  }

  // ---------------------------------------------------------------- a row in terms of its samples

  lemma {:induction false} SuccessesCount(samples: seq<Sample>)
    ensures Successes(samples) == |set i: nat | i < |samples| && samples[i].success|
    decreases |samples|
  {
    if samples != [] {
      var rest := samples[1..];
      var chosen, later := set i: nat | i < |samples| && samples[i].success, set i: nat | i < |rest| && rest[i].success;
      SuccessesCount(rest);
      forall i | i in chosen && i != 0 ensures i - 1 in later {
        assert rest[i - 1] == samples[i];
      }
      OneMore(later, chosen, samples[0].success);
    }
  }

  lemma {:induction false} AtOrBelowCounts(samples: seq<Sample>, v: nat)
    ensures AtOrBelow(Latencies(samples), v) == CountAtOrBelow(samples, v)
    decreases |samples|
  {
    if samples != [] {
      var rest := samples[1..];
      var chosen, later := set i: nat | i < |samples| && samples[i].latencyMs <= v, set i: nat | i < |rest| && rest[i].latencyMs <= v;
      AtOrBelowCounts(rest, v);
      assert Latencies(samples)[1..] == Latencies(rest);
      forall i | i in chosen && i != 0 ensures i - 1 in later {
        assert rest[i - 1] == samples[i];
      }
      OneMore(later, chosen, samples[0].latencyMs <= v);
    }
  }

  // Indices shifted by one, with or without a new first one.
  lemma OneMore(later: set<nat>, chosen: set<nat>, first: bool)
    requires forall i :: i in later ==> i + 1 in chosen
    requires forall i :: i in chosen && i != 0 ==> i - 1 in later
    requires 0 in chosen <==> first
    ensures |chosen| == |later| + if first then 1 else 0
  {
    var shifted := Shifted(later);
    ShiftedCount(later);
    forall i | i in chosen && i != 0 ensures i in shifted {
      assert i == (i - 1) + 1;
    }
    assert chosen == shifted + (if first then {0} else {});
  }

  ghost function Shifted(indices: set<nat>): set<nat> {
    set i | i in indices :: i + 1
  }

  lemma {:induction false} ShiftedCount(indices: set<nat>)
    ensures |Shifted(indices)| == |indices|
    decreases |indices|
  {
    if indices != {} {
      var i :| i in indices;
      var rest := indices - {i};
      ShiftedCount(rest);
      forall x | x in Shifted(indices) ensures x in Shifted(rest) + {i + 1} {
        var j :| j in indices && x == j + 1;
        assert j != i ==> j in rest;
      }
      assert Shifted(indices) == Shifted(rest) + {i + 1};
    }
  }

  // Latencies add up.
  lemma {:induction false} TotalLatencyAdds(samples: seq<Sample>, more: seq<Sample>, one: Sample)
    ensures TotalLatency(samples + more) == TotalLatency(samples) + TotalLatency(more)
    ensures TotalLatency([one]) == one.latencyMs
    decreases |samples|
  {
    if samples == [] {
      assert samples + more == more;
    } else {
      TotalLatencyAdds(samples[1..], more, one);
      assert (samples + more)[1..] == samples[1..] + more;
    }
  }

  ghost function CountAtOrBelow(samples: seq<Sample>, v: nat): nat {
    |set i: nat | i < |samples| && samples[i].latencyMs <= v|
  }

  // What a row says, going by the samples alone.
  ghost predicate Describes(row: MetricsRow, key: Key, samples: seq<Sample>, now: int) {
    && row.key == key && row.recordedAt == now && row.totalCount == |samples|
    && row.successCount == |set i: nat | i < |samples| && samples[i].success|
    && (forall v: nat :: 20 * CountAtOrBelow(samples, v) > 19 * |samples| <==> v >= row.p95LatencyMs)
    && 2 * TotalLatency(samples) - |samples| < 2 * (row.avgLatencyMs * |samples|) <= 2 * TotalLatency(samples) + |samples|
  }

  lemma RowDescribes(key: Key, samples: seq<Sample>, now: int)
    requires samples != []
    ensures Describes(RowFor(key, samples, now), key, samples, now)
  {
    SuccessesCount(samples);
    RoundedQuotientIsNearest(TotalLatency(samples), |samples|);
    forall v: nat ensures 20 * CountAtOrBelow(samples, v) > 19 * |samples| <==> v >= P95(samples) {
      AtOrBelowCounts(samples, v);
      P95IsThePercentile(samples, v);
    }
  }

  // ---------------------------------------------------------------- the service

  function Recorded(buffer: Buffer, key: Key, sample: Sample): Buffer {
    buffer[key := (if key in buffer then buffer[key] else []) + [sample]]
  }

  datatype KeyedSample = KeyedSample(key: Key, sample: Sample)

  function RecordedAll(buffer: Buffer, history: seq<KeyedSample>): Buffer {
    if history == [] then buffer
    else Recorded(RecordedAll(buffer, history[..|history| - 1]), history[|history| - 1].key, history[|history| - 1].sample)
  }

  ghost predicate Lists(order: seq<Key>, keys: set<Key>) {
    && (forall i, j :: 0 <= i < j < |order| ==> order[i] != order[j])
    && (forall k :: k in order <==> k in keys)
  }

  lemma ListsAppend(order: seq<Key>, keys: set<Key>, key: Key)
    requires Lists(order, keys) && key !in keys
    ensures Lists(order + [key], keys + {key})
  {
  }

  function RowsFor(order: seq<Key>, buffer: Buffer, now: int): (r: seq<MetricsRow>)
    requires forall k :: k in order ==> k in buffer && buffer[k] != []
    ensures |r| == |order|
  {
    if order == [] then []
    else RowsFor(order[..|order| - 1], buffer, now) + [RowFor(order[|order| - 1], buffer[order[|order| - 1]], now)]
  }

  class GatewayHealthService {
    var buffer: Buffer
    var table: seq<MetricsRow>

    constructor ()
      ensures buffer == map[] && table == []
      ensures NoEmptyBucket()
    {
      buffer, table := map[], [];
    }

    ghost predicate NoEmptyBucket()
      reads this
    {
      forall k :: k in buffer ==> buffer[k] != []
    }

    method Record(key: Key, sample: Sample)
      requires NoEmptyBucket()
      modifies `buffer
      ensures buffer == Recorded(old(buffer), key, sample) && NoEmptyBucket()
    {
      if key !in buffer {
        buffer := buffer[key := []];
      }
      buffer := buffer[key := buffer[key] + [sample]];
    }

    // flush(). `during` are the samples recorded while the save is awaited. If the save throws,
    // the buffer is kept and nothing is written; if not, it is cleared, with `during`, of which
    // no row was made.
    method Flush(now: int, during: seq<KeyedSample>, saveThrows: bool) returns (threw: bool)
      requires NoEmptyBucket()
      modifies this
      ensures threw <==> saveThrows && old(buffer) != map[]
      ensures threw ==> table == old(table) && buffer == RecordedAll(old(buffer), during)
      ensures !threw ==> exists order :: Lists(order, old(buffer).Keys) && table == old(table) + RowsFor(order, old(buffer), now)
      ensures !threw && old(buffer) != map[] ==> buffer == map[]
      ensures old(buffer) == map[] ==> buffer == RecordedAll(map[], during)
      ensures NoEmptyBucket()
      ensures Sound(old(table)) ==> Sound(table)
    {
      threw := false;
      if |buffer| == 0 {
        assert buffer == map[];
        RecordDuring(during);
        assert Lists([], old(buffer).Keys) && table == old(table) + RowsFor([], old(buffer), now);
        return;
      }
      var entries, order := Aggregate(now);
      FlushedRowsAreSound(order, buffer, now);
      RecordDuring(during);
      if saveThrows {
        threw := true;
        return;
      }
      if |entries| > 0 {
        table := table + entries;
      }
      buffer := map[];
    }

    // The loop over the buffer's entries.
    method Aggregate(now: int) returns (entries: seq<MetricsRow>, ghost order: seq<Key>)
      requires NoEmptyBucket()
      ensures Lists(order, buffer.Keys) && entries == RowsFor(order, buffer, now)
    {
      order, entries := [], [];
      var left := buffer.Keys;
      while left != {}
        invariant left <= buffer.Keys
        invariant Lists(order, buffer.Keys - left)
        invariant entries == RowsFor(order, buffer, now)
        decreases left
      {
        var key :| key in left;
        var samples := buffer[key];
        var latencies := SortAscending(Latencies(samples));
        P95IndexInRange(|samples|);
        var p95LatencyMs := latencies[P95Index(|samples|)];
        var avgLatencyMs := RoundedQuotient(TotalLatency(samples), |samples|);
        entries := entries + [MetricsRow(key, Successes(samples), |samples|, p95LatencyMs, avgLatencyMs, now)];
        ListsAppend(order, buffer.Keys - left, key);
        assert (order + [key])[..|order|] == order;
        assert buffer.Keys - left + {key} == buffer.Keys - (left - {key});
        order := order + [key];
        left := left - {key};
      }
      assert buffer.Keys - left == buffer.Keys;
    }

    // The other requests' turn while a save is pending.
    method RecordDuring(samples: seq<KeyedSample>)
      requires NoEmptyBucket()
      modifies `buffer
      ensures buffer == RecordedAll(old(buffer), samples) && NoEmptyBucket()
    {
      var i := 0;
      while i < |samples|
        invariant 0 <= i <= |samples|
        invariant buffer == RecordedAll(old(buffer), samples[..i]) && NoEmptyBucket()
      {
        assert samples[..i + 1][..i] == samples[..i];
        Record(samples[i].key, samples[i].sample);
        i := i + 1;
      }
      assert samples[..i] == samples;
    }
  }

  // ---------------------------------------------------------------- nothing lost, nothing twice

  function SamplesOf(history: seq<KeyedSample>, key: Key): seq<Sample> {
    if history == [] then []
    else
      var init, last := history[..|history| - 1], history[|history| - 1];
      if last.key == key then SamplesOf(init, key) + [last.sample] else SamplesOf(init, key)
  }

  // A bucket holds exactly the samples recorded for its key, in order.
  lemma {:induction false} BufferGroupsByKey(history: seq<KeyedSample>, key: Key)
    ensures var b := RecordedAll(map[], history);
            && (key in b <==> SamplesOf(history, key) != [])
            && (key in b ==> b[key] == SamplesOf(history, key))
    decreases |history|
  {
    if history != [] { BufferGroupsByKey(history[..|history| - 1], key); }
  }

  function SumOfTotals(rows: seq<MetricsRow>): nat {
    if rows == [] then 0 else SumOfTotals(rows[..|rows| - 1]) + rows[|rows| - 1].totalCount
  }

  function SumOfBuckets(order: seq<Key>, history: seq<KeyedSample>): nat {
    if order == [] then 0 else SumOfBuckets(order[..|order| - 1], history) + |SamplesOf(history, order[|order| - 1])|
  }

  lemma {:induction false} BucketsAfterOne(order: seq<Key>, history: seq<KeyedSample>)
    requires forall i, j :: 0 <= i < j < |order| ==> order[i] != order[j]
    requires history != []
    ensures SumOfBuckets(order, history)
         == SumOfBuckets(order, history[..|history| - 1]) + if history[|history| - 1].key in order then 1 else 0
    decreases |order|
  {
    if order != [] {
      BucketsAfterOne(order[..|order| - 1], history);
      assert order == order[..|order| - 1] + [order[|order| - 1]];
    }
  }

  lemma {:induction false} BucketsPartition(order: seq<Key>, history: seq<KeyedSample>)
    requires forall i, j :: 0 <= i < j < |order| ==> order[i] != order[j]
    requires forall i :: 0 <= i < |history| ==> history[i].key in order
    ensures SumOfBuckets(order, history) == |history|
    decreases |history|
  {
    if history == [] {
      EmptyBuckets(order);
    } else {
      BucketsAfterOne(order, history);
      BucketsPartition(order, history[..|history| - 1]);
    }
  }

  lemma {:induction false} EmptyBuckets(order: seq<Key>)
    ensures SumOfBuckets(order, []) == 0
    decreases |order|
  {
    if order != [] { EmptyBuckets(order[..|order| - 1]); }
  }

  lemma {:induction false} RowsAreInOrder(order: seq<Key>, b: Buffer, now: int)
    requires forall k :: k in order ==> k in b && b[k] != []
    ensures forall i :: 0 <= i < |order| ==> RowsFor(order, b, now)[i] == RowFor(order[i], b[order[i]], now)
    decreases |order|
  {
    if order != [] {
      RowsAreInOrder(order[..|order| - 1], b, now);
    }
  }

  lemma {:induction false} TotalsAreBuckets(order: seq<Key>, rows: seq<MetricsRow>, history: seq<KeyedSample>)
    requires |rows| == |order|
    requires forall i :: 0 <= i < |order| ==> rows[i].totalCount == |SamplesOf(history, order[i])|
    ensures SumOfTotals(rows) == SumOfBuckets(order, history)
    decreases |order|
  {
    if order != [] {
      TotalsAreBuckets(order[..|order| - 1], rows[..|order| - 1], history);
    }
  }

  // The buckets a flush lists are the keys that have samples, each with exactly its samples.
  lemma ListedBuckets(history: seq<KeyedSample>, order: seq<Key>)
    requires Lists(order, RecordedAll(map[], history).Keys)
    ensures forall k :: k in order <==> SamplesOf(history, k) != []
    ensures var b := RecordedAll(map[], history);
            forall k :: k in order ==> k in b && b[k] != [] && b[k] == SamplesOf(history, k)
  {
    forall k ensures k in order <==> SamplesOf(history, k) != [] {
      BufferGroupsByKey(history, k);
    }
    var b := RecordedAll(map[], history);
    forall k | k in order ensures k in b && b[k] != [] && b[k] == SamplesOf(history, k) {
      BufferGroupsByKey(history, k);
    }
  }

  // A flush with nothing recorded meanwhile puts every sample recorded since the last one in
  // exactly one row: one row per key that has samples, made of exactly that key's samples, with
  // as many samples in all rows together as were recorded.
  lemma FlushAccountsForEverySample(history: seq<KeyedSample>, order: seq<Key>, b: Buffer, now: int)
    requires b == RecordedAll(map[], history) && Lists(order, b.Keys)
    ensures forall k :: k in order <==> SamplesOf(history, k) != []
    ensures forall k :: k in order ==> k in b && b[k] != [] && b[k] == SamplesOf(history, k)
    ensures var rows := RowsFor(order, b, now);
            && SumOfTotals(rows) == |history|
            && Sound(rows)
            && |rows| == |order| && (forall i :: 0 <= i < |rows| ==> Describes(rows[i], order[i], SamplesOf(history, order[i]), now))
  {
    ListedBuckets(history, order);
    RowsAreInOrder(order, b, now);
    TotalsAreBuckets(order, RowsFor(order, b, now), history);
    FlushedRowsAreSound(order, b, now);
    EverySampleListed(history, order);
    BucketsPartition(order, history);
    forall i | 0 <= i < |order| ensures Describes(RowsFor(order, b, now)[i], order[i], SamplesOf(history, order[i]), now) {
      assert order[i] in order;
      RowDescribes(order[i], b[order[i]], now);
    }
  }

  lemma EverySampleListed(history: seq<KeyedSample>, order: seq<Key>)
    requires forall k :: k in order <==> SamplesOf(history, k) != []
    ensures forall i :: 0 <= i < |history| ==> history[i].key in order
  {
    forall i | 0 <= i < |history| ensures history[i].key in order {
      RecordedSampleFound(history, i);
    }
  }

  lemma {:induction false} RecordedSampleFound(history: seq<KeyedSample>, i: nat)
    requires i < |history|
    ensures SamplesOf(history, history[i].key) != []
    decreases |history|
  {
    if i < |history| - 1 { RecordedSampleFound(history[..|history| - 1], i); }
  }

  // ---------------------------------------------------------------- the sliding window

  datatype WindowMetrics = WindowMetrics(successRate: real, p95LatencyMs: nat, totalCount: nat)

  function InWindow(table: seq<MetricsRow>, since: int, gateway: Gateway): seq<MetricsRow> {
    if table == [] then []
    else
      var init, last := table[..|table| - 1], table[|table| - 1];
      if last.recordedAt >= since && last.key.gateway == gateway then InWindow(init, since, gateway) + [last]
      else InWindow(init, since, gateway)
  }

  function SumOfSuccesses(rows: seq<MetricsRow>): nat {
    if rows == [] then 0 else SumOfSuccesses(rows[..|rows| - 1]) + rows[|rows| - 1].successCount
  }

  function WorstP95(rows: seq<MetricsRow>): nat {
    if rows == [] then 0
    else
      var worst := WorstP95(rows[..|rows| - 1]);
      if rows[|rows| - 1].p95LatencyMs > worst then rows[|rows| - 1].p95LatencyMs else worst
  }

  // One group of getSlidingWindowMetrics(); a gateway without rows has none.
  function SlidingWindow(table: seq<MetricsRow>, since: int, gateway: Gateway): Option<WindowMetrics> {
    var rows := InWindow(table, since, gateway);
    if rows == [] then None
    else
      var total := SumOfTotals(rows);
      Some(WindowMetrics(if total > 0 then SumOfSuccesses(rows) as real / total as real else 0.0, WorstP95(rows), total))
  }

  ghost predicate Sound(rows: seq<MetricsRow>) {
    forall i :: 0 <= i < |rows| ==> rows[i].successCount <= rows[i].totalCount
  }

  lemma {:induction false} WindowIsSound(table: seq<MetricsRow>, since: int, gateway: Gateway)
    requires Sound(table)
    ensures Sound(InWindow(table, since, gateway))
    decreases |table|
  {
    if table != [] { WindowIsSound(table[..|table| - 1], since, gateway); }
  }

  lemma {:induction false} SuccessesWithinTotals(rows: seq<MetricsRow>)
    requires Sound(rows)
    ensures SumOfSuccesses(rows) <= SumOfTotals(rows)
    decreases |rows|
  {
    if rows != [] { SuccessesWithinTotals(rows[..|rows| - 1]); }
  }

  // Over any table whose rows came from flushes, a window's success rate is a rate, its p95 is
  // the worst of its rows, and it is positive as soon as one row's is.
  lemma WindowRateInRange(table: seq<MetricsRow>, since: int, gateway: Gateway)
    requires Sound(table)
    ensures var w := SlidingWindow(table, since, gateway);
            && (w.Some? <==> InWindow(table, since, gateway) != [])
            && (w.Some? ==> 0.0 <= w.value.successRate <= 1.0 && w.value.p95LatencyMs == WorstP95(InWindow(table, since, gateway)))
    ensures var rows := InWindow(table, since, gateway);
            && (forall i :: 0 <= i < |rows| ==> rows[i].p95LatencyMs <= WorstP95(rows))
            && (rows != [] ==> exists i :: 0 <= i < |rows| && rows[i].p95LatencyMs == WorstP95(rows))
  {
    var rows := InWindow(table, since, gateway);
    WindowIsSound(table, since, gateway);
    SuccessesWithinTotals(rows);
    WorstIsWorst(rows);
    if SumOfTotals(rows) > 0 {
      QuotientInRange(SumOfSuccesses(rows), SumOfTotals(rows));
    }
  }

  lemma QuotientInRange(x: nat, y: nat)
    requires x <= y && y > 0
    ensures 0.0 <= x as real / y as real <= 1.0
  {
  }

  lemma {:induction false} WorstIsWorst(rows: seq<MetricsRow>)
    ensures forall i :: 0 <= i < |rows| ==> rows[i].p95LatencyMs <= WorstP95(rows)
    ensures rows != [] ==> exists i :: 0 <= i < |rows| && rows[i].p95LatencyMs == WorstP95(rows)
    decreases |rows|
  {
    if rows != [] {
      var init := rows[..|rows| - 1];
      WorstIsWorst(init);
      assert init == [] ==> WorstP95(init) == 0;
      if WorstP95(rows) == rows[|rows| - 1].p95LatencyMs {
        assert rows[|rows| - 1].p95LatencyMs == WorstP95(rows);
      } else {
        var i :| 0 <= i < |init| && init[i].p95LatencyMs == WorstP95(init);
        assert rows[i].p95LatencyMs == WorstP95(rows);
      }
    }
  }

  // The rows of a window are those of its gateway and time, each as often as the table has it.
  lemma {:induction false} InWindowExactly(table: seq<MetricsRow>, since: int, gateway: Gateway, row: MetricsRow)
    ensures multiset(InWindow(table, since, gateway))[row]
         == if row.recordedAt >= since && row.key.gateway == gateway then multiset(table)[row] else 0
    decreases |table|
  {
    if table != [] {
      var init := table[..|table| - 1];
      InWindowExactly(init, since, gateway, row);
      assert table == init + [table[|table| - 1]];
    }
  }

  function Flattened(samples: seq<seq<Sample>>): seq<Sample> {
    if samples == [] then [] else Flattened(samples[..|samples| - 1]) + samples[|samples| - 1]
  }

  lemma {:induction false} SuccessesAdd(samples: seq<Sample>, more: seq<Sample>)
    ensures Successes(samples + more) == Successes(samples) + Successes(more)
    decreases |samples|
  {
    if samples == [] {
      assert samples + more == more;
    } else {
      SuccessesAdd(samples[1..], more);
      assert (samples + more)[1..] == samples[1..] + more;
    }
  }

  lemma {:induction false} CountsAdd(rows: seq<MetricsRow>, samples: seq<seq<Sample>>)
    requires |rows| == |samples|
    requires forall i :: 0 <= i < |rows| ==> rows[i].successCount == Successes(samples[i]) && rows[i].totalCount == |samples[i]|
    ensures SumOfSuccesses(rows) == Successes(Flattened(samples)) && SumOfTotals(rows) == |Flattened(samples)|
    decreases |rows|
  {
    if rows != [] {
      var n := |rows| - 1;
      CountsAdd(rows[..n], samples[..n]);
      SuccessesAdd(Flattened(samples[..n]), samples[n]);
    }
  }

  // From rows back to samples: a window's rate is the share of successes among all the samples its
  // rows were made of.
  lemma WindowRateIsSampleRate(table: seq<MetricsRow>, since: int, gateway: Gateway, samples: seq<seq<Sample>>)
    requires var rows := InWindow(table, since, gateway);
             && rows != [] && |samples| == |rows|
             && forall i :: 0 <= i < |rows| ==> samples[i] != [] && Describes(rows[i], rows[i].key, samples[i], rows[i].recordedAt)
    ensures var all := Flattened(samples);
            var w := SlidingWindow(table, since, gateway);
            && w.Some? && w.value.totalCount == |all| > 0
            && w.value.successRate == (|set i: nat | i < |all| && all[i].success|) as real / |all| as real
  {
    var rows := InWindow(table, since, gateway);
    forall i | 0 <= i < |rows| ensures rows[i].successCount == Successes(samples[i]) && rows[i].totalCount == |samples[i]| {
      SuccessesCount(samples[i]);
    }
    CountsAdd(rows, samples);
    SuccessesCount(Flattened(samples));
    assert Flattened(samples) != [] by {
      assert samples[|samples| - 1] != [];
    }
  }

  // Rows written by a flush are sound.
  lemma {:induction false} FlushedRowsAreSound(order: seq<Key>, buffer: Buffer, now: int)
    requires forall k :: k in order ==> k in buffer && buffer[k] != []
    ensures Sound(RowsFor(order, buffer, now))
    decreases |order|
  {
    if order != [] {
      FlushedRowsAreSound(order[..|order| - 1], buffer, now);
      SuccessesBounded(buffer[order[|order| - 1]]);
    }
  }
}
