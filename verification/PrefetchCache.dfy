/** The keyed metric map that a prefetch refresh marks, merges into and sweeps, and the synchronous collector. */
module PrefetchCache {
  import opened Metrics

  type MetricMap = map<string, Metric>

  const CHUNK: nat := 100

  /** The simple form: the last metric of each name. */
  function LastWins(ms: seq<Metric>): MetricMap {
    if ms == [] then map[] else LastWins(ms[..|ms| - 1])[Name(ms[|ms| - 1]) := ms[|ms| - 1]]
  }

  /** The index of the metric that a name ends up with: no later metric of the stream has the same name. */
  predicate IsLast(ms: seq<Metric>, i: nat) {
    i < |ms| && forall j :: i < j < |ms| ==> Name(ms[j]) != Name(ms[i])
  }

  /** Every name that occurs is kept, with the last metric of that name. */
  lemma {:induction false} LastWinsAt(ms: seq<Metric>, i: nat)
    requires i < |ms|
    ensures Name(ms[i]) in LastWins(ms)
    ensures IsLast(ms, i) ==> LastWins(ms)[Name(ms[i])] == ms[i]
  {
    var n := |ms| - 1;
    if i < n {
      LastWinsAt(ms[..n], i);
    }
  }

  /** Nothing else is kept. */
  lemma {:induction false} LastWinsOnly(ms: seq<Metric>, k: string) returns (i: nat)
    requires k in LastWins(ms)
    ensures i < |ms| && Name(ms[i]) == k && IsLast(ms, i)
  {
    var n := |ms| - 1;
    if k == Name(ms[n]) {
      i := n;
    } else {
      i := LastWinsOnly(ms[..n], k);
      assert forall j :: i < j < n ==> ms[j] == ms[..n][j];
    }
  }

  lemma LastWinsSnoc(ms: seq<Metric>, m: Metric)
    ensures LastWins(ms + [m]) == LastWins(ms)[Name(m) := m]
  {
    assert (ms + [m])[..|ms|] == ms;
  }

  lemma OverrideThenSet(m: MetricMap, n: MetricMap, k: string, v: Metric)
    ensures (m + n)[k := v] == m + n[k := v]
  {
  }

  /** Merging a stream in two parts is merging it whole, so the chunk size does not show. */
  lemma {:induction false} LastWinsConcat(a: seq<Metric>, b: seq<Metric>)
    ensures LastWins(a + b) == LastWins(a) + LastWins(b)
  {
    if b == [] {
      assert a + b == a;
    } else {
      var init, last := b[..|b| - 1], b[|b| - 1];
      LastWinsConcat(a, init);
      LastWinsSnoc(a + init, last);
      LastWinsSnoc(init, last);
      OverrideThenSet(LastWins(a), LastWins(init), Name(last), last);
      assert b == init + [last] && a + b == (a + init) + [last];
    }
  }

  /** What a locked merge makes of a map. */
  function Merged(m: MetricMap, ms: seq<Metric>): MetricMap {
    m + LastWins(ms)
  }

  lemma MergedConcat(m: MetricMap, a: seq<Metric>, b: seq<Metric>)
    ensures Merged(Merged(m, a), b) == Merged(m, a + b)
  {
    LastWinsConcat(a, b);
    OverrideTwice(m, LastWins(a), LastWins(b));
  }

  lemma OverrideTwice(m: MetricMap, n: MetricMap, l: MetricMap)
    ensures (m + n) + l == m + (n + l)
  {
  }

  lemma MergedStep(m: MetricMap, ms: seq<Metric>, i: nat)
    requires i < |ms|
    ensures Merged(m, ms[..i + 1]) == Merged(m, ms[..i])[Name(ms[i]) := ms[i]]
  {
    assert ms[..i + 1][..i] == ms[..i];
  }

  /** Every entry is filed under its own name. */
  ghost predicate Keyed(m: MetricMap) {
    forall k :: k in m ==> Name(m[k]) == k
  }

  predicate AllFresh(ms: seq<Metric>) {
    forall i :: 0 <= i < |ms| ==> !ms[i].deprecated
  }

  lemma {:induction false} LastWinsKeyed(ms: seq<Metric>)
    ensures Keyed(LastWins(ms))
    ensures AllFresh(ms) ==> Unmarked(LastWins(ms))
  {
    if ms != [] {
      LastWinsKeyed(ms[..|ms| - 1]);
    }
  }

  function Mark(m: Metric): Metric {
    m.(deprecated := true)
  }

  function Marked(m: MetricMap): MetricMap {
    map k | k in m :: Mark(m[k])
  }

  function Swept(m: MetricMap): MetricMap {
    map k | k in m && !m[k].deprecated :: m[k]
  }

  /** Marking is invisible: the scrapes of a marked map are those of the map. */
  lemma MarkIsInvisible(m: MetricMap, n: MetricMap, out: seq<Sample>)
    ensures Lists(out, Marked(m) + n) <==> Lists(out, m + n)
  {
    if ks :| ListsInOrder(out, Marked(m) + n, ks) {
      SameShownListed(out, Marked(m) + n, m + n, ks);
    }
    if ks :| ListsInOrder(out, m + n, ks) {
      SameShownListed(out, m + n, Marked(m) + n, ks);
    }
  }

  lemma SameShownListed(out: seq<Sample>, m: MetricMap, n: MetricMap, ks: seq<string>)
    requires m.Keys == n.Keys && forall k :: k in m ==> Mark(m[k]) == Mark(n[k])
    requires ListsInOrder(out, m, ks)
    ensures Lists(out, n)
  {
    forall i | 0 <= i < |ks| && ks[i] in n
      ensures Shows(out[i], n[ks[i]])
    {
      assert Shows(out[i], m[ks[i]]) && Mark(m[ks[i]]) == Mark(n[ks[i]]);
    }
    assert ListsInOrder(out, n, ks);
  }

  ghost predicate Unmarked(m: MetricMap) {
    forall k :: k in m ==> !m[k].deprecated
  }

  /** Sweeping removes exactly what no merge has replaced since the marking. */
  lemma SweepAfterMark(m: MetricMap, n: MetricMap)
    requires Unmarked(n)
    ensures Swept(Marked(m) + n) == n
  {
    assert Swept(Marked(m) + n).Keys == n.Keys;
  }

  /** `out` shows every entry of `m` once, with its own descriptor, type, value and labels, and nothing else. */
  ghost predicate Lists(out: seq<Sample>, m: MetricMap) {
    exists ks: seq<string> :: ListsInOrder(out, m, ks)
  }

  ghost predicate ListsInOrder(out: seq<Sample>, m: MetricMap, ks: seq<string>) {
    && |out| == |ks|
    && Distinct(ks)
    && (forall k :: k in ks <==> k in m)
    && (forall i :: 0 <= i < |ks| && ks[i] in m ==> Shows(out[i], m[ks[i]]))
  }

  class AsyncFetcher {
    var metrics: MetricMap

    constructor ()
      ensures metrics == map[]
    {
      metrics := map[];
    }

    method DeprecateAll()
      modifies this
      ensures metrics == Marked(old(metrics))
    {
      var todo := metrics.Keys;
      while todo != {}
        invariant todo <= metrics.Keys == old(metrics).Keys
        invariant forall k :: k in metrics ==>
          metrics[k] == if k in todo then old(metrics)[k] else Mark(old(metrics)[k])
        decreases |todo|
      {
        var key :| key in todo;
        metrics := metrics[key := Mark(metrics[key])];
        todo := todo - {key};
      }
    }

    method Merge(cache: seq<Metric>)
      modifies this
      ensures metrics == Merged(old(metrics), cache)
    {
      for i := 0 to |cache|
        invariant metrics == Merged(old(metrics), cache[..i])
      {
        MergedStep(old(metrics), cache, i);
        var name := ComputeName(cache[i]);
        metrics := metrics[name := cache[i]];
      }
      assert cache[..|cache|] == cache;
    }

    method DeleteDeprecated()
      modifies this
      ensures metrics == Swept(old(metrics))
    {
      var todo := metrics.Keys;
      while todo != {}
        invariant todo <= metrics.Keys <= old(metrics).Keys
        invariant forall k :: k in old(metrics) ==> (k in metrics <==> k in todo || !old(metrics)[k].deprecated)
        invariant forall k :: k in metrics ==> metrics[k] == old(metrics)[k]
        decreases |todo|
      {
        var key :| key in todo;
        if metrics[key].deprecated {
          metrics := metrics - {key};
        }
        todo := todo - {key};
      }
    }

    /** A scrape: every entry once, in no particular order. */
    method Collect() returns (out: seq<Sample>)
      ensures Lists(out, metrics)
    {
      out := CollectMap(metrics);
    }

    /** One refresh, given the metrics the channel delivers before it is closed. */
    method ReadMetrics(stream: seq<Metric>)
      requires AllFresh(stream)
      modifies this
      ensures metrics == LastWins(stream)
    {
      DeprecateAll();
      ghost var before := Marked(old(metrics));
      var cache: seq<Metric> := [];
      ghost var merged: seq<Metric> := [];
      for i := 0 to |stream|
        invariant |cache| < CHUNK
        invariant merged + cache == stream[..i]
        invariant metrics == Merged(before, merged)
      {
        cache := cache + [stream[i]];
        assert merged + cache == stream[..i + 1];
        if |cache| >= CHUNK {
          Merge(cache);
          MergedConcat(before, merged, cache);
          merged := merged + cache;
          cache := [];
        }
      }
      Merge(cache);
      MergedConcat(before, merged, cache);
      assert merged + cache == stream;
      LastWinsKeyed(stream);
      SweepAfterMark(old(metrics), LastWins(stream));
      DeleteDeprecated();
    }
  }

  /** Ranging over a Go map: each key once, in an order the program does not choose. */
  method CollectMap(m: MetricMap) returns (out: seq<Sample>)
    ensures Lists(out, m)
  {
    out := [];
    ghost var ks: seq<string> := [];
    var todo := m.Keys;
    while todo != {}
      invariant todo <= m.Keys
      invariant |out| == |ks|
      invariant Distinct(ks)
      invariant forall k :: k in ks <==> k in m && k !in todo
      invariant forall i :: 0 <= i < |ks| && ks[i] in m ==> Shows(out[i], m[ks[i]])
      decreases |todo|
    {
      var key :| key in todo;
      out := out + [Expose(m[key])];
      ks := ks + [key];
      todo := todo - {key};
    }
    assert ListsInOrder(out, m, ks);
  }

  ghost predicate IsOfLast(x: Sample, stream: seq<Metric>) {
    exists i: nat :: IsLast(stream, i) && Shows(x, stream[i])
  }

  ghost predicate IsShown(m: Metric, out: seq<Sample>) {
    exists p :: 0 <= p < |out| && Shows(out[p], m)
  }

  /** Every sample shows the last metric of its name in the stream, and every such metric is shown. */
  ghost predicate ShowsLastOnes(out: seq<Sample>, stream: seq<Metric>) {
    && (forall p :: 0 <= p < |out| ==> IsOfLast(out[p], stream))
    && (forall i: nat :: IsLast(stream, i) ==> IsShown(stream[i], out))
  }

  lemma ListedAreLast(out: seq<Sample>, stream: seq<Metric>)
    requires Lists(out, LastWins(stream))
    ensures ShowsLastOnes(out, stream)
  {
    var m := LastWins(stream);
    var ks :| ListsInOrder(out, m, ks);
    forall p | 0 <= p < |out|
      ensures IsOfLast(out[p], stream)
    {
      assert ks[p] in ks;
      var i := LastWinsOnly(stream, ks[p]);
      LastWinsAt(stream, i);
    }
    forall i: nat | IsLast(stream, i)
      ensures IsShown(stream[i], out)
    {
      LastWinsAt(stream, i);
      assert Name(stream[i]) in ks;
      var p :| 0 <= p < |ks| && ks[p] == Name(stream[i]);
      assert Shows(out[p], m[ks[p]]);
    }
  }

  /** The synchronous collector: the same stream filtered through a map of its own. */
  method CollectSync(stream: seq<Metric>) returns (out: seq<Sample>)
    ensures Lists(out, LastWins(stream))
    ensures ShowsLastOnes(out, stream)
  {
    var distinctMetrics: MetricMap := map[];
    for i := 0 to |stream|
      invariant distinctMetrics == LastWins(stream[..i])
    {
      var name := ComputeName(stream[i]);
      distinctMetrics := distinctMetrics[name := stream[i]];
      assert stream[..i + 1][..i] == stream[..i];
    }
    assert stream[..|stream|] == stream;
    out := CollectMap(distinctMetrics);
    ListedAreLast(out, stream);
  }

  /** Two listings of one map are permutations of each other: a finished refresh and the synchronous collector
      show the same samples for the same stream. */
  lemma ListingsAgree(out: seq<Sample>, out': seq<Sample>, m: MetricMap)
    requires Lists(out, m) && Lists(out', m)
    ensures multiset(out) == multiset(out')
  {
    var ks :| ListsInOrder(out, m, ks);
    var ks' :| ListsInOrder(out', m, ks');
    OrderedListingsAgree(out, ks, out', ks', m);
  }

  lemma {:induction false} OrderedListingsAgree(
    out: seq<Sample>, ks: seq<string>, out': seq<Sample>, ks': seq<string>, m: MetricMap)
    requires ListsInOrder(out, m, ks) && ListsInOrder(out', m, ks')
    ensures multiset(out) == multiset(out')
    decreases |ks|
  {
    if ks == [] {
      assert m == map[];
    } else {
      var k := ks[0];
      assert k in m && k in ks';
      var i :| 0 <= i < |ks'| && ks'[i] == k;
      DropListed(out, ks, m, 0);
      DropListed(out', ks', m, i);
      OrderedListingsAgree(Drop(out, 0), Drop(ks, 0), Drop(out', i), Drop(ks', i), m - {k});
    }
  }

  function Drop<T>(s: seq<T>, i: nat): seq<T>
    requires i < |s|
  {
    s[..i] + s[i + 1..]
  }

  ghost predicate Distinct<T>(s: seq<T>) {
    forall i, j :: 0 <= i < j < |s| ==> s[i] != s[j]
  }

  lemma DropDistinct<T>(s: seq<T>, i: nat)
    requires i < |s| && Distinct(s)
    ensures Distinct(Drop(s, i))
    ensures forall x :: x in Drop(s, i) <==> x in s && x != s[i]
  {
    var rest := Drop(s, i);
    assert forall j :: 0 <= j < |rest| ==> rest[j] == if j < i then s[j] else s[j + 1];
    assert forall j :: 0 <= j < |s| && j != i ==> s[j] == rest[if j < i then j else j - 1];
  }

  lemma DropMultiset<T>(s: seq<T>, i: nat)
    requires i < |s|
    ensures multiset(s) == multiset(Drop(s, i)) + multiset{s[i]}
  {
    assert s == s[..i] + [s[i]] + s[i + 1..];
  }

  lemma DropListed(out: seq<Sample>, ks: seq<string>, m: MetricMap, i: nat)
    requires ListsInOrder(out, m, ks) && i < |ks|
    ensures ListsInOrder(Drop(out, i), m - {ks[i]}, Drop(ks, i))
    ensures ks[i] in m && multiset(out) == multiset(Drop(out, i)) + multiset{Expose(m[ks[i]])}
  {
    assert ks[i] in ks;
    DropDistinct(ks, i);
    DropMultiset(out, i);
    var rest, left := Drop(ks, i), m - {ks[i]};
    forall j | 0 <= j < |rest| && rest[j] in left
      ensures Shows(Drop(out, i)[j], left[rest[j]])
    {
      assert rest[j] == ks[if j < i then j else j + 1];
    }
  }

  /** A scrape of a map whose entries are filed under their names never shows a series twice. */
  lemma NoSeriesTwice(out: seq<Sample>, m: MetricMap, i: nat, j: nat)
    requires Keyed(m) && Lists(out, m)
    requires i < j < |out|
    ensures out[i].desc.fqName != out[j].desc.fqName
         || out[i].desc.variableLabels != out[j].desc.variableLabels
         || out[i].labelValues != out[j].labelValues
  {
    var ks :| ListsInOrder(out, m, ks);
    assert ks[i] in ks && ks[j] in ks;
    assert Name(m[ks[i]]) != Name(m[ks[j]]);
  }

  /* ---------- the map by series ---------- */

  ghost predicate PlainMetrics(ms: seq<Metric>) {
    forall i :: 0 <= i < |ms| ==> PlainDesc(ms[i].desc) && QuoteFree(ms[i].labelValues)
  }

  /** No later metric of the stream belongs to the same series. */
  predicate IsLastOfSeries(ms: seq<Metric>, i: nat) {
    i < |ms| && forall j :: i < j < |ms| ==> !SameSeries(ms[j], ms[i])
  }

  lemma LastByEither(ms: seq<Metric>, i: nat)
    requires PlainMetrics(ms) && i < |ms|
    ensures IsLast(ms, i) <==> IsLastOfSeries(ms, i)
  {
    forall j | i < j < |ms|
      ensures Name(ms[j]) == Name(ms[i]) <==> SameSeries(ms[j], ms[i])
    {
      NameInjective(ms[j], ms[i]);
    }
  }

  /** The map keeps the last metric of every series. */
  lemma SeriesKept(ms: seq<Metric>, i: nat)
    requires PlainMetrics(ms) && IsLastOfSeries(ms, i)
    ensures Name(ms[i]) in LastWins(ms) && LastWins(ms)[Name(ms[i])] == ms[i]
  {
    LastByEither(ms, i);
    LastWinsAt(ms, i);
  }

  /** It keeps nothing else, and merges no two series: entries under different keys are of different series. */
  lemma SeriesApart(ms: seq<Metric>, k: string, l: string) returns (i: nat)
    requires PlainMetrics(ms) && k in LastWins(ms) && l in LastWins(ms)
    ensures IsLastOfSeries(ms, i) && LastWins(ms)[k] == ms[i]
    ensures SameSeries(LastWins(ms)[k], LastWins(ms)[l]) <==> k == l
  {
    i := LastWinsOnly(ms, k);
    LastByEither(ms, i);
    LastWinsAt(ms, i);
    var j := LastWinsOnly(ms, l);
    LastWinsAt(ms, j);
    NameInjective(ms[i], ms[j]);
  }
}
