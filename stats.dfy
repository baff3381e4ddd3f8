/**
 The stats endpoint: six counts over the catalog and the library. Source
 keys and metric keys are collected in sets across every origin (and, for
 metrics, every source), so a key met twice is counted once; the other four
 counts are plain container sizes. The walk takes the catalog and library as
 values, so it cannot change them.
 */
module Stats {
  import opened Entities

  datatype StatsResponse = StatsResponse(
    origins: int, sources: int, metrics: int, graphs: int, collections: int, groups: int)

  /** What serveStats answers: a refusal for a wrong method, or the counts. */
  datatype StatsReply = NotAllowed | Served(stats: StatsResponse)

  function ReplyStatus(reply: StatsReply): int {
    if reply.NotAllowed? then 405 else 200
  }

  /** The keys of the sources of the origins in `os`. */
  function SourceKeysIn(cat: Catalog, os: set<string>): set<string> {
    set o, k | o in os && o in cat.origins && k in cat.origins[o].sources :: k
  }

  /** The metric keys of the sources in `srcs` whose keys are in `ks`. */
  function MetricKeysOf(srcs: map<string, Source>, ks: set<string>): set<string> {
    set k, m | k in ks && k in srcs && m in srcs[k].metrics :: m
  }

  /** The metric keys of every source of the origins in `os`. */
  function MetricKeysIn(cat: Catalog, os: set<string>): set<string> {
    set o, k, m | o in os && o in cat.origins && k in cat.origins[o].sources
                  && m in cat.origins[o].sources[k].metrics :: m
  }

  function AllSourceKeys(cat: Catalog): set<string> {
    SourceKeysIn(cat, cat.origins.Keys)
  }

  function AllMetricKeys(cat: Catalog): set<string> {
    MetricKeysIn(cat, cat.origins.Keys)
  }

  /** The report getStats promises: distinct keys for sources and metrics, sizes for the rest. */
  predicate IsStatsOf(r: StatsResponse, cat: Catalog, lib: Library) {
    && r.origins == |cat.origins|
    && r.sources == |AllSourceKeys(cat)|
    && r.metrics == |AllMetricKeys(cat)|
    && r.graphs == |lib.graphs|
    && r.collections == |lib.collections|
    && r.groups == |lib.groups|
  }

  lemma SourceKeysStep(cat: Catalog, os: set<string>, o: string)
    requires o in cat.origins
    ensures SourceKeysIn(cat, os + {o}) == SourceKeysIn(cat, os) + cat.origins[o].sources.Keys
  {
    var srcs := cat.origins[o].sources;
    forall k | k in srcs.Keys ensures k in SourceKeysIn(cat, os + {o}) {
      assert o in os + {o};
    }
  }

  lemma MetricKeysOfStep(srcs: map<string, Source>, ks: set<string>, k: string)
    requires k in srcs
    ensures MetricKeysOf(srcs, ks + {k}) == MetricKeysOf(srcs, ks) + srcs[k].metrics
  {
    forall m | m in srcs[k].metrics ensures m in MetricKeysOf(srcs, ks + {k}) {
      assert k in ks + {k};
    }
  }

  lemma MetricKeysStep(cat: Catalog, os: set<string>, o: string)
    requires o in cat.origins
    ensures MetricKeysIn(cat, os + {o})
            == MetricKeysIn(cat, os) + MetricKeysOf(cat.origins[o].sources, cat.origins[o].sources.Keys)
  {
    var srcs := cat.origins[o].sources;
    forall m | m in MetricKeysOf(srcs, srcs.Keys) ensures m in MetricKeysIn(cat, os + {o}) {
      var k :| k in srcs && m in srcs[k].metrics;
      assert o in os + {o};
    }
    forall m | m in MetricKeysIn(cat, os + {o}) && m !in MetricKeysIn(cat, os)
      ensures m in MetricKeysOf(srcs, srcs.Keys)
    {
      var o', k :| o' in os + {o} && o' in cat.origins && k in cat.origins[o'].sources
                   && m in cat.origins[o'].sources[k].metrics;
      assert o' == o;
    }
  }

  /** The innermost loop of getStats: add every key of `keys` to `acc`, one at a time. */
  method AddEach(acc: set<string>, keys: set<string>) returns (acc': set<string>)
    ensures acc' == acc + keys
  {
    acc' := acc;
    var left := keys;
    while left != {}
      invariant left <= keys
      invariant acc' == acc + (keys - left)
      decreases |left|
    {
      var k :| k in left;
      acc' := acc' + {k};
      left := left - {k};
    }
  }

  /**
   The body of getStats's origin loop: every source of one origin adds its
   key to `sourceSet` and each of its metric keys to `metricSet`.
   */
  method WalkSources(sources: map<string, Source>, sourceSet: set<string>, metricSet: set<string>)
    returns (sourceSet': set<string>, metricSet': set<string>)
    ensures sourceSet' == sourceSet + sources.Keys
    ensures metricSet' == metricSet + MetricKeysOf(sources, sources.Keys)
  {
    sourceSet', metricSet' := sourceSet, metricSet;
    var left := sources.Keys;
    while left != {}
      invariant left <= sources.Keys
      invariant sourceSet' == sourceSet + (sources.Keys - left)
      invariant metricSet' == metricSet + MetricKeysOf(sources, sources.Keys - left)
      decreases |left|
    {
      var key :| key in left;
      sourceSet' := sourceSet' + {key};
      metricSet' := AddEach(metricSet', sources[key].metrics);
      MetricKeysOfStep(sources, sources.Keys - left, key);
      assert sources.Keys - (left - {key}) == (sources.Keys - left) + {key};
      left := left - {key};
    }
  }

  /**
   getStats: walk every origin, every source of it and every metric of that
   source, adding source keys and metric keys to two sets, and report the
   sets' sizes beside the sizes of the other containers.
   */
  method GetStats(cat: Catalog, lib: Library) returns (r: StatsResponse)
    ensures IsStatsOf(r, cat, lib)
  {
    var sourceSet: set<string> := {};
    var metricSet: set<string> := {};
    var todo := cat.origins.Keys;
    ghost var done: set<string> := {};
    while todo != {}
      invariant todo <= cat.origins.Keys && done == cat.origins.Keys - todo
      invariant sourceSet == SourceKeysIn(cat, done)
      invariant metricSet == MetricKeysIn(cat, done)
      decreases |todo|
    {
      var o :| o in todo;
      sourceSet, metricSet := WalkSources(cat.origins[o].sources, sourceSet, metricSet);
      SourceKeysStep(cat, done, o);
      MetricKeysStep(cat, done, o);
      done := done + {o};
      todo := todo - {o};
    }
    assert done == cat.origins.Keys;
    r := StatsResponse(|cat.origins|, |sourceSet|, |metricSet|,
                       |lib.graphs|, |lib.collections|, |lib.groups|);
  }

  /** serveStats: only GET and HEAD compute the report; any other method is refused with 405. */
  method ServeStats(verb: string, cat: Catalog, lib: Library) returns (reply: StatsReply)
    ensures !IsReadMethod(verb) <==> reply == NotAllowed
    ensures ReplyStatus(reply) == (if IsReadMethod(verb) then 200 else 405)
    ensures reply.Served? ==> IsStatsOf(reply.stats, cat, lib)
  {
    if !IsReadMethod(verb) {
      return NotAllowed;
    }
    var stats := GetStats(cat, lib);
    reply := Served(stats);
  }

  /** Pick some element of a non-empty set (the same one every time). */
  ghost function Pick(s: set<string>): (x: string)
    requires s != {}
    ensures x in s
  {
    var x :| x in s; x
  }

  /** The number of source entries under the origins `os`, repeats included. */
  ghost function SourceEntries(cat: Catalog, os: set<string>): nat
    requires os <= cat.origins.Keys
    decreases os
  {
    if os == {} then 0
    else
      var o := Pick(os);
      |cat.origins[o].sources| + SourceEntries(cat, os - {o})
  }

  /** The number of metric entries of the sources `ks`, repeats included. */
  ghost function MetricEntriesOf(srcs: map<string, Source>, ks: set<string>): nat
    requires ks <= srcs.Keys
    decreases ks
  {
    if ks == {} then 0
    else
      var k := Pick(ks);
      |srcs[k].metrics| + MetricEntriesOf(srcs, ks - {k})
  }

  /** The number of metric entries walked under the origins `os`. */
  ghost function MetricEntries(cat: Catalog, os: set<string>): nat
    requires os <= cat.origins.Keys
    decreases os
  {
    if os == {} then 0
    else
      var o := Pick(os);
      var srcs := cat.origins[o].sources;
      MetricEntriesOf(srcs, srcs.Keys) + MetricEntries(cat, os - {o})
  }

  lemma {:induction false} SourceKeysBound(cat: Catalog, os: set<string>)
    requires os <= cat.origins.Keys
    ensures |SourceKeysIn(cat, os)| <= SourceEntries(cat, os)
    decreases os
  {
    if os != {} {
      var o := Pick(os);
      SourceKeysBound(cat, os - {o});
      SourceKeysStep(cat, os - {o}, o);
      assert (os - {o}) + {o} == os;
    }
  }

  lemma {:induction false} MetricKeysOfBound(srcs: map<string, Source>, ks: set<string>)
    requires ks <= srcs.Keys
    ensures |MetricKeysOf(srcs, ks)| <= MetricEntriesOf(srcs, ks)
    decreases ks
  {
    if ks != {} {
      var k := Pick(ks);
      MetricKeysOfBound(srcs, ks - {k});
      MetricKeysOfStep(srcs, ks - {k}, k);
      assert (ks - {k}) + {k} == ks;
    }
  }

  lemma {:induction false} MetricKeysBound(cat: Catalog, os: set<string>)
    requires os <= cat.origins.Keys
    ensures |MetricKeysIn(cat, os)| <= MetricEntries(cat, os)
    decreases os
  {
    if os != {} {
      var o := Pick(os);
      var srcs := cat.origins[o].sources;
      MetricKeysBound(cat, os - {o});
      MetricKeysOfBound(srcs, srcs.Keys);
      MetricKeysStep(cat, os - {o}, o);
      assert (os - {o}) + {o} == os;
    }
  }

  /**
   Deduplication never inflates the counts: distinct source keys are at most
   the source entries walked, distinct metric keys at most the metric entries
   walked, and an empty catalog has neither.
   */
  lemma StatsBounds(cat: Catalog)
    ensures |AllSourceKeys(cat)| <= SourceEntries(cat, cat.origins.Keys)
    ensures |AllMetricKeys(cat)| <= MetricEntries(cat, cat.origins.Keys)
    ensures cat.origins == map[] ==> |AllSourceKeys(cat)| == 0 && |AllMetricKeys(cat)| == 0
  {
    SourceKeysBound(cat, cat.origins.Keys);
    MetricKeysBound(cat, cat.origins.Keys);
  }

  /**
   A new origin whose source keys are all known already leaves the distinct
   source count as it was: a key under several origins counts once.
   */
  lemma KnownSourcesAddNothing(cat: Catalog, name: string, origin: Origin)
    requires name !in cat.origins
    requires origin.sources.Keys <= AllSourceKeys(cat)
    ensures AllSourceKeys(Catalog(cat.origins[name := origin])) == AllSourceKeys(cat)
  {
    var cat' := Catalog(cat.origins[name := origin]);
    forall k | k in SourceKeysIn(cat, cat.origins.Keys)
      ensures k in SourceKeysIn(cat', cat.origins.Keys)
    {
      var o :| o in cat.origins && k in cat.origins[o].sources;
      assert cat'.origins[o] == cat.origins[o];
    }
    forall k | k in SourceKeysIn(cat', cat.origins.Keys)
      ensures k in SourceKeysIn(cat, cat.origins.Keys)
    {
      var o :| o in cat.origins && k in cat'.origins[o].sources;
      assert cat'.origins[o] == cat.origins[o];
    }
    SourceKeysStep(cat', cat.origins.Keys, name);
    assert cat'.origins.Keys == cat.origins.Keys + {name};
  }

  /** Two origins sharing a source, with overlapping metrics. */
  function ExampleCatalog(): Catalog {
    Catalog(map[
      "origin1" := Origin(map["sourceA" := Source("sourceA", {"m1", "m2"})]),
      "origin2" := Origin(map["sourceA" := Source("sourceA", {"m2", "m3"})])])
  }

  /** The shared source counts once and the shared metric counts once: 1 source, 3 metrics. */
  lemma TwoOriginsExample()
    ensures |AllSourceKeys(ExampleCatalog())| == 1
    ensures |AllMetricKeys(ExampleCatalog())| == 3
  {
    ExampleSourceKeys();
    ExampleMetricKeys();
  }

  lemma ExampleSourceKeys()
    ensures AllSourceKeys(ExampleCatalog()) == {"sourceA"}
  {
    var cat := ExampleCatalog();
    assert cat.origins.Keys == {"origin1", "origin2"};
    assert "sourceA" in cat.origins["origin1"].sources;
  }

  lemma ExampleMetricKeys()
    ensures AllMetricKeys(ExampleCatalog()) == {"m1", "m2", "m3"}
  {
    var cat := ExampleCatalog();
    assert cat.origins.Keys == {"origin1", "origin2"};
    var a1 := cat.origins["origin1"].sources["sourceA"];
    var a2 := cat.origins["origin2"].sources["sourceA"];
    assert "m1" in a1.metrics && "m2" in a1.metrics && "m3" in a2.metrics;
    assert "m1" in AllMetricKeys(cat);
    assert "m2" in AllMetricKeys(cat);
    assert "m3" in AllMetricKeys(cat);
  }
}
