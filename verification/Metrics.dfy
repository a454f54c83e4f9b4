/** Counters advanced by the increase between absolute samples, and the baselines behind them. */
module Metrics {
  import Text

  /** The counter vectors fed from INFO. All of them carry a pod label, and all are dropped with
      a pod and with a cluster. */
  datatype Vec = RejectedConnections | CommandsProcessed | KeyspaceHits | KeyspaceMisses

  datatype Labels = Labels(namespace: string, name: string, pod: string)

  const SEP := '\0'

  predicate Plain(s: string) { Text.Free(s, SEP) }
  predicate PlainLabels(l: Labels) { Plain(l.namespace) && Plain(l.name) && Plain(l.pod) }

  function Key(l: Labels): string { Text.Join([l.namespace, l.name, l.pod], SEP) }
  function ClusterKey(namespace: string, name: string): string { namespace + [SEP] + name }

  // ------------------------------------------------------------------ keys

  lemma SplitKey(l: Labels)
    requires PlainLabels(l)
    ensures Text.Split(Key(l), SEP) == [l.namespace, l.name, l.pod]
  {
    Text.SplitJoin([l.namespace, l.name, l.pod], SEP);
  }

  lemma KeyShape(l: Labels)
    ensures Key(l) == ClusterKey(l.namespace, l.name) + [SEP] + l.pod
  {
    var parts := [l.namespace, l.name, l.pod];
    assert parts[1..] == [l.name, l.pod] && parts[1..][1..] == [l.pod];
    assert Text.Join(parts[1..], SEP) == l.name + [SEP] + l.pod;
  }

  lemma SplitClusterKey(namespace: string, name: string)
    requires Plain(namespace) && Plain(name)
    ensures Text.Split(ClusterKey(namespace, name), SEP) == [namespace, name]
  {
    Text.SplitConcat(namespace, name, SEP);
    Text.SplitFree(namespace, SEP);
    Text.SplitFree(name, SEP);
  }

  /** Two label sets never share a tracking key, nor two clusters a pod list. */
  lemma KeysAreDistinct(l: Labels, m: Labels)
    requires PlainLabels(l) && PlainLabels(m)
    ensures Key(l) == Key(m) <==> l == m
    ensures ClusterKey(l.namespace, l.name) == ClusterKey(m.namespace, m.name) <==>
      l.namespace == m.namespace && l.name == m.name
  {
    SplitKey(l);
    SplitKey(m);
    SplitClusterKey(l.namespace, l.name);
    SplitClusterKey(m.namespace, m.name);
    assert [l.namespace, l.name, l.pod][0] == l.namespace && [l.namespace, l.name, l.pod][1] == l.name &&
      [l.namespace, l.name, l.pod][2] == l.pod;
    assert [l.namespace, l.name][0] == l.namespace && [l.namespace, l.name][1] == l.name;
    if Key(l) == Key(m) {
      assert [l.namespace, l.name, l.pod] == [m.namespace, m.name, m.pod];
    }
    if ClusterKey(l.namespace, l.name) == ClusterKey(m.namespace, m.name) {
      assert [l.namespace, l.name] == [m.namespace, m.name];
    }
  }

  /** What forgetCounterBaselines matches a tracking key against. */
  function ForgetPrefix(namespace: string, name: string, pod: string): string {
    if pod == "" then ClusterKey(namespace, name) else ClusterKey(namespace, name) + [SEP] + pod
  }

  predicate Matches(key: string, prefix: string) {
    key == prefix || prefix + [SEP] <= key
  }

  /** Forgetting a cluster (no pod given) or a pod takes exactly its own keys. */
  lemma ForgetIsExact(l: Labels, namespace: string, name: string, pod: string)
    requires PlainLabels(l) && Plain(namespace) && Plain(name) && Plain(pod)
    ensures Matches(Key(l), ForgetPrefix(namespace, name, pod)) <==>
      l.namespace == namespace && l.name == name && (pod == "" || l.pod == pod)
  {
    var key, cluster, prefix := Key(l), ClusterKey(namespace, name), ForgetPrefix(namespace, name, pod);
    SplitKey(l);
    SplitClusterKey(namespace, name);
    Text.SplitConcat(cluster, pod, SEP);
    Text.SplitFree(pod, SEP);
    var parts := if pod == "" then [namespace, name] else [namespace, name, pod];
    assert Text.Split(prefix, SEP) == parts;
    KeyShape(l);
    if prefix + [SEP] <= key {
      var rest := key[|prefix| + 1..];
      assert key == prefix + [SEP] + rest;
      Text.SplitConcat(prefix, rest, SEP);
      assert [l.namespace, l.name, l.pod] == parts + Text.Split(rest, SEP);
      assert (parts + Text.Split(rest, SEP))[0] == namespace && (parts + Text.Split(rest, SEP))[1] == name;
      assert |parts| == 2;
    }
    if key == prefix {
      assert [l.namespace, l.name, l.pod] == parts;
      assert parts[0] == namespace && parts[1] == name && parts[2] == pod;
    }
  }

  /** So forgetting a pod leaves every other pod's baselines exactly when the pod has a name: an
      empty one would take its whole cluster along. */
  lemma ForgettingAPodSparesTheOthers(namespace: string, name: string, pod: string)
    requires Plain(namespace) && Plain(name) && Plain(pod)
    ensures (forall l :: PlainLabels(l) ==>
      (Matches(Key(l), ForgetPrefix(namespace, name, pod)) <==> l == Labels(namespace, name, pod)))
      <==> pod != ""
  {
    forall l | PlainLabels(l)
      ensures Matches(Key(l), ForgetPrefix(namespace, name, pod)) <==>
        l.namespace == namespace && l.name == name && (pod == "" || l.pod == pod)
    {
      ForgetIsExact(l, namespace, name, pod);
    }
    var other := Labels(namespace, name, "x");
    assert PlainLabels(other);
  }

  /** Forgetting a nameless pod takes the baselines of another one. */
  lemma NamelessPodTakesAnother()
    ensures Matches(Key(Labels("ns", "cache", "cache-0")), ForgetPrefix("ns", "cache", ""))
  {
    ForgetIsExact(Labels("ns", "cache", "cache-0"), "ns", "cache", "");
  }

  // ------------------------------------------------------------------ what the history says

  datatype Float = NaN | Infinite | Finite(value: real)

  datatype Event =
    | Sampled(vec: Vec, value: Float, labels: Labels)
    | Synced(namespace: string, name: string, live: set<string>)
    | Deleted(namespace: string, name: string)

  predicate Counts(f: Float) { f.Finite? && f.value >= 0.0 }

  /** The pods a cluster last reported. */
  function Reported(events: seq<Event>, namespace: string, name: string): set<string> {
    if events == [] then {}
    else
      var e := events[|events| - 1];
      if e.Synced? && e.namespace == namespace && e.name == name then e.live
      else if e.Deleted? && e.namespace == namespace && e.name == name then {}
      else Reported(events[..|events| - 1], namespace, name)
  }

  /** The event takes the series away: its cluster is deleted, or its pod was reported before and
      no longer is. */
  predicate Ends(before: seq<Event>, e: Event, l: Labels) {
    || (e.Deleted? && e.namespace == l.namespace && e.name == l.name)
    || (e.Synced? && e.namespace == l.namespace && e.name == l.name
        && l.pod in Reported(before, l.namespace, l.name) && l.pod !in e.live)
  }

  /** The accepted samples of a series since it last came into being. */
  function Samples(events: seq<Event>, vec: Vec, l: Labels): seq<real> {
    if events == [] then []
    else
      var before, e := events[..|events| - 1], events[|events| - 1];
      if Ends(before, e, l) then []
      else if e.Sampled? && e.vec == vec && e.labels == l && Counts(e.value)
      then Samples(before, vec, l) + [e.value.value]
      else Samples(before, vec, l)
  }

  /** From one sample to the next; a smaller sample is a restarted node, counting from zero. */
  function Increase(previous: real, value: real): real {
    if value >= previous then value - previous else value
  }

  /** All the increases after the first sample. */
  function Increases(samples: seq<real>): real {
    if |samples| < 2 then 0.0
    else Increases(samples[..|samples| - 1]) + Increase(samples[|samples| - 2], samples[|samples| - 1])
  }

  lemma OneMoreSample(samples: seq<real>, value: real)
    ensures Increases(samples + [value]) ==
      if samples == [] then 0.0 else Increases(samples) + Increase(samples[|samples| - 1], value)
    ensures samples == [] ==> Increases(samples) == 0.0
  {
    assert (samples + [value])[..|samples|] == samples;
  }

  predicate Rising(samples: seq<real>) { forall i, j :: 0 <= i < j < |samples| ==> samples[i] <= samples[j] }

  /** Over one lifetime of a node the counter advances by what lies between the first and the last
      sample, however many there are in between. */
  lemma {:induction false} RisingTelescopes(samples: seq<real>)
    requires samples != [] && Rising(samples)
    ensures Increases(samples) == samples[|samples| - 1] - samples[0]
  {
    if |samples| > 1 {
      RisingTelescopes(samples[..|samples| - 1]);
    }
  }

  /** A restart, seen as a sample below the last one, counts from zero: the whole first sample of the
      new lifetime, and then what it advances by. */
  lemma {:induction false} RestartCountsFromZero(before: seq<real>, after: seq<real>)
    requires before != [] && after != [] && after[0] < before[|before| - 1]
    ensures Increases(before + after) == Increases(before) + after[0] + Increases(after)
    decreases |after|
  {
    var init, last := after[..|after| - 1], after[|after| - 1];
    OneMoreSample(before + init, last);
    assert before + after == before + init + [last];
    if |after| == 1 {
      assert before + init == before;
    } else {
      RestartCountsFromZero(before, init);
      OneMoreSample(init, last);
      assert after == init + [last];
    }
  }

  /** A value that cannot be counted leaves every history as it was. */
  lemma UnusableIsIgnored(events: seq<Event>, vec: Vec, value: Float, l: Labels, v: Vec, m: Labels)
    requires value == NaN || value == Infinite || value.value < 0.0
    ensures Samples(events + [Sampled(vec, value, l)], v, m) == Samples(events, v, m)
  {
    OneMoreEvent(events, Sampled(vec, value, l), v, m);
  }

  /** When a pod list follows another, exactly the series of the pods that are gone end. */
  lemma GonePodsEnd(events: seq<Event>, namespace: string, name: string, first: set<string>, second: set<string>,
                    vec: Vec, l: Labels)
    ensures
      var before := events + [Synced(namespace, name, first)];
      Samples(before + [Synced(namespace, name, second)], vec, l) ==
        if l.namespace == namespace && l.name == name && l.pod in first && l.pod !in second then []
        else Samples(before, vec, l)
  {
    LastOf(events, Synced(namespace, name, first));
    LastOf(events + [Synced(namespace, name, first)], Synced(namespace, name, second));
  }

  /** A deletion ends exactly the series of its cluster. */
  lemma DeletedClusterEnds(events: seq<Event>, namespace: string, name: string, vec: Vec, l: Labels)
    ensures Samples(events + [Deleted(namespace, name)], vec, l) ==
      if l.namespace == namespace && l.name == name then [] else Samples(events, vec, l)
    ensures Reported(events + [Deleted(namespace, name)], namespace, name) == {}
  {
    LastOf(events, Deleted(namespace, name));
  }

  lemma OneMoreEvent(events: seq<Event>, e: Event, vec: Vec, l: Labels)
    requires !Ends(events, e, l)
    ensures Samples(events + [e], vec, l) ==
      if e.Sampled? && e.vec == vec && e.labels == l && Counts(e.value)
      then Samples(events, vec, l) + [e.value.value] else Samples(events, vec, l)
  {
    assert (events + [e])[..|events|] == events && (events + [e])[|events|] == e;
  }

  lemma EventKeepsCounter(events: seq<Event>, e: Event, vec: Vec, l: Labels)
    requires !Ends(events, e, l)
    ensures Samples(events, vec, l) <= Samples(events + [e], vec, l)
    ensures Increases(Samples(events, vec, l)) <= Increases(Samples(events + [e], vec, l))
  {
    OneMoreEvent(events, e, vec, l);
    hide Samples, Increases, Ends;
    if e.Sampled? && e.vec == vec && e.labels == l && Counts(e.value) {
      OneMoreSample(Samples(events, vec, l), e.value.value);
    }
  }

  /** While a series lives its counter never decreases: over any stretch of events that does not
      take the series away, whatever else happens. */
  lemma {:induction false} CounterNeverDecreases(events: seq<Event>, more: seq<Event>, vec: Vec, l: Labels)
    requires forall i :: 0 <= i < |more| ==> !Ends(events + more[..i], more[i], l)
    ensures Samples(events, vec, l) <= Samples(events + more, vec, l)
    ensures Increases(Samples(events, vec, l)) <= Increases(Samples(events + more, vec, l))
    decreases |more|
  {
    if more == [] {
      assert events + more == events;
    } else {
      var init, e := more[..|more| - 1], more[|more| - 1];
      assert forall i :: 0 <= i < |init| ==> init[..i] == more[..i] && init[i] == more[i];
      hide Samples, Increases, Ends;
      CounterNeverDecreases(events, init, vec, l);
      EventKeepsCounter(events + init, e, vec, l);
      assert events + more == events + init + [e];
    }
  }

  // ------------------------------------------------------------------ what the registry holds

  /** All the series of one cluster, or those of some of its pods. */
  datatype Group =
    | WholeCluster(namespace: string, name: string)
    | PodsOf(namespace: string, name: string, pods: set<string>)
  {
    predicate Has(l: Labels) {
      l.namespace == namespace && l.name == name && (WholeCluster? || l.pod in pods)
    }
  }

  /** The tracked baselines, the exported counters and the pods last reported. */
  datatype State = State(
    counters: map<Vec, map<string, real>>, exported: map<Vec, map<Labels, real>>, pods: map<string, set<string>>)
  {
    function Baselines(vec: Vec): map<string, real> { if vec in counters then counters[vec] else map[] }
    function Exports(vec: Vec): map<Labels, real> { if vec in exported then exported[vec] else map[] }
    function Pods(cluster: string): set<string> { if cluster in pods then pods[cluster] else {} }

    /** What the samples of a series say: a baseline and an exported counter exactly when there
        are samples, the last of them as the baseline and the sum of the increases as the counter. */
    ghost predicate Tracks(vec: Vec, l: Labels, samples: seq<real>) {
      && (Key(l) in Baselines(vec) <==> samples != [])
      && (l in Exports(vec) <==> samples != [])
      && (samples != [] ==>
            Baselines(vec)[Key(l)] == samples[|samples| - 1] && Exports(vec)[l] == Increases(samples))
    }

    /** Baselines and exported series have the same label sets. */
    ghost predicate SameLabelSets() {
      && (forall vec, l :: l in Exports(vec) ==> PlainLabels(l) && Key(l) in Baselines(vec))
      && (forall vec, key :: key in Baselines(vec) ==> exists l :: l in Exports(vec) && Key(l) == key)
    }

    ghost predicate Reports(events: seq<Event>) {
      forall namespace, name :: Plain(namespace) && Plain(name) ==>
        Pods(ClusterKey(namespace, name)) == Reported(events, namespace, name)
    }

    /** The state is the one the history calls for. */
    ghost predicate Faithful(events: seq<Event>) {
      && SameLabelSets()
      && (forall vec, l :: PlainLabels(l) ==> Tracks(vec, l, Samples(events, vec, l)))
      && Reports(events)
    }

    /** The series is as it was in s. */
    ghost predicate Keeps(s: State, vec: Vec, l: Labels) {
      && (Key(l) in Baselines(vec) <==> Key(l) in s.Baselines(vec))
      && (Key(l) in Baselines(vec) ==> Baselines(vec)[Key(l)] == s.Baselines(vec)[Key(l)])
      && (l in Exports(vec) <==> l in s.Exports(vec))
      && (l in Exports(vec) ==> Exports(vec)[l] == s.Exports(vec)[l])
    }

    ghost predicate Lacks(vec: Vec, l: Labels) {
      Key(l) !in Baselines(vec) && l !in Exports(vec)
    }

    /** From s to this state nothing came into being, the series of `gone` left, and all other
        series are as they were. */
    ghost predicate Removed(s: State, gone: Group) {
      && (forall vec, l :: l in Exports(vec) ==> l in s.Exports(vec))
      && (forall vec, key :: key in Baselines(vec) ==> key in s.Baselines(vec))
      && (forall vec, l :: PlainLabels(l) ==> if gone.Has(l) then Lacks(vec, l) else Keeps(s, vec, l))
    }
  }

  lemma LastOf(events: seq<Event>, e: Event)
    ensures (events + [e])[..|events + [e]| - 1] == events && (events + [e])[|events + [e]| - 1] == e
  {
  }

  lemma RemovalTracks(s: State, t: State, events: seq<Event>, e: Event, vec: Vec, l: Labels)
    requires s.Faithful(events) && !e.Sampled? && PlainLabels(l)
    requires if Ends(events, e, l) then t.Lacks(vec, l) else t.Keeps(s, vec, l)
    ensures t.Tracks(vec, l, Samples(events + [e], vec, l))
  {
    LastOf(events, e);
    assert s.Tracks(vec, l, Samples(events, vec, l));
    hide Ends, Key, PlainLabels;
  }

  lemma RemovalKeepsLabelSets(s: State, t: State, gone: Group)
    requires s.SameLabelSets() && t.Removed(s, gone)
    ensures t.SameLabelSets()
  {
    hide Key, PlainLabels;
    forall vec, l | l in t.Exports(vec) ensures PlainLabels(l) && Key(l) in t.Baselines(vec) {
      assert l in s.Exports(vec) && PlainLabels(l);
      assert t.Keeps(s, vec, l);
    }
    forall vec, key | key in t.Baselines(vec) ensures exists l :: l in t.Exports(vec) && Key(l) == key {
      assert key in s.Baselines(vec);
      var l :| l in s.Exports(vec) && Key(l) == key;
      assert t.Keeps(s, vec, l);
    }
  }

  /** Events that take series away and add none. */
  lemma RemovalIsFaithful(s: State, t: State, events: seq<Event>, e: Event, gone: Group)
    requires s.Faithful(events) && !e.Sampled? && forall l :: gone.Has(l) <==> Ends(events, e, l)
    requires t.Removed(s, gone) && t.Reports(events + [e])
    ensures t.Faithful(events + [e])
  {
    RemovalKeepsLabelSets(s, t, gone);
    forall vec, l | PlainLabels(l) ensures t.Tracks(vec, l, Samples(events + [e], vec, l)) {
      RemovalTracks(s, t, events, e, vec, l);
    }
  }

  /** A sample that does not count changes nothing. */
  lemma IgnoredSampleIsFaithful(s: State, events: seq<Event>, e: Event)
    requires s.Faithful(events) && e.Sampled? && !Counts(e.value)
    ensures s.Faithful(events + [e])
  {
    LastOf(events, e);
    forall vec, l | PlainLabels(l) ensures s.Tracks(vec, l, Samples(events + [e], vec, l)) {
      assert Samples(events + [e], vec, l) == Samples(events, vec, l);
    }
    SampleReports(s, s, events, e);
  }

  /** t is s after a counted sample. */
  ghost predicate Advanced(s: State, t: State, vec: Vec, value: real, l: Labels) {
    && t.pods == s.pods
    && (forall v :: v != vec ==> t.Baselines(v) == s.Baselines(v) && t.Exports(v) == s.Exports(v))
    && t.Baselines(vec) == s.Baselines(vec)[Key(l) := value]
    && t.Exports(vec) == s.Exports(vec)[l :=
         (if l in s.Exports(vec) then s.Exports(vec)[l] else 0.0)
         + (if Key(l) in s.Baselines(vec) then Increase(s.Baselines(vec)[Key(l)], value) else 0.0)]
  }

  lemma OwnSampleTracks(s: State, t: State, samples: seq<real>, vec: Vec, value: real, l: Labels)
    requires s.Tracks(vec, l, samples) && Advanced(s, t, vec, value, l)
    ensures t.Tracks(vec, l, samples + [value])
  {
    OneMoreSample(samples, value);
    hide Key, Increase, Increases;
  }

  lemma OtherSampleTracks(s: State, t: State, samples: seq<real>, vec: Vec, value: real, l: Labels, v: Vec, m: Labels)
    requires s.Tracks(v, m, samples) && Advanced(s, t, vec, value, l)
    requires PlainLabels(l) && PlainLabels(m) && (v != vec || m != l)
    ensures t.Tracks(v, m, samples)
  {
    KeysAreDistinct(l, m);
    hide Key, PlainLabels, Increase, Increases;
  }

  lemma SampleTracks(s: State, t: State, events: seq<Event>, vec: Vec, value: real, l: Labels, v: Vec, m: Labels)
    requires s.Tracks(v, m, Samples(events, v, m)) && value >= 0.0 && PlainLabels(l) && PlainLabels(m)
    requires Advanced(s, t, vec, value, l)
    ensures t.Tracks(v, m, Samples(events + [Sampled(vec, Finite(value), l)], v, m))
  {
    SampledHistory(events, vec, value, l, v, m);
    hide Advanced, State.Tracks, PlainLabels, Samples;
    if v == vec && m == l {
      OwnSampleTracks(s, t, Samples(events, v, m), vec, value, l);
    } else {
      OtherSampleTracks(s, t, Samples(events, v, m), vec, value, l, v, m);
    }
  }

  lemma SampledHistory(events: seq<Event>, vec: Vec, value: real, l: Labels, v: Vec, m: Labels)
    requires value >= 0.0
    ensures Samples(events + [Sampled(vec, Finite(value), l)], v, m) ==
      if v == vec && m == l then Samples(events, v, m) + [value] else Samples(events, v, m)
  {
    OneMoreEvent(events, Sampled(vec, Finite(value), l), v, m);
  }

  lemma SampleKeepsLabelSets(s: State, t: State, vec: Vec, value: real, l: Labels)
    requires s.SameLabelSets() && PlainLabels(l) && Advanced(s, t, vec, value, l)
    ensures t.SameLabelSets()
  {
    hide Key, PlainLabels;
    forall v, key | key in t.Baselines(v) ensures exists m :: m in t.Exports(v) && Key(m) == key {
      if v == vec && key == Key(l) {
        assert l in t.Exports(v);
      } else {
        var m :| m in s.Exports(v) && Key(m) == key;
        assert m in t.Exports(v);
      }
    }
  }

  /** A sample that counts becomes the baseline, and the counter grows by the increase. */
  lemma SampleIsFaithful(s: State, t: State, events: seq<Event>, vec: Vec, value: real, l: Labels)
    requires s.Faithful(events) && value >= 0.0 && PlainLabels(l) && Advanced(s, t, vec, value, l)
    ensures t.Faithful(events + [Sampled(vec, Finite(value), l)])
  {
    var e := Sampled(vec, Finite(value), l);
    SampleKeepsLabelSets(s, t, vec, value, l);
    forall v, m | PlainLabels(m) ensures t.Tracks(v, m, Samples(events + [e], v, m)) {
      SampleTracks(s, t, events, vec, value, l, v, m);
    }
    SampleReports(s, t, events, e);
  }

  lemma SampleReports(s: State, t: State, events: seq<Event>, e: Event)
    requires s.Reports(events) && e.Sampled? && t.pods == s.pods
    ensures t.Reports(events + [e])
  {
    LastOf(events, e);
    forall namespace, name | Plain(namespace) && Plain(name)
      ensures t.Pods(ClusterKey(namespace, name)) == Reported(events + [e], namespace, name)
    {
      assert s.Pods(ClusterKey(namespace, name)) == Reported(events, namespace, name);
    }
  }

  // ------------------------------------------------------------------ the registry

  function Without(series: map<string, real>, prefix: string): map<string, real> {
    map key | key in series && !Matches(key, prefix) :: series[key]
  }

  /** forgetCounterBaselines, one vector: the keys that match are deleted. */
  method Sweep(series: map<string, real>, prefix: string) returns (kept: map<string, real>)
    ensures kept == Without(series, prefix)
  {
    kept := series;
    var todo := series.Keys;
    while todo != {}
      invariant todo <= series.Keys
      invariant kept == map key | key in series && (key in todo || !Matches(key, prefix)) :: series[key]
    {
      var key :| key in todo;
      todo := todo - {key};
      if Matches(key, prefix) {
        kept := kept - {key};
      }
    }
  }

  lemma AdvancedBy(s: State, vec: Vec, value: real, l: Labels, sum: real)
    requires sum == (if l in s.Exports(vec) then s.Exports(vec)[l] else 0.0)
      + (if Key(l) in s.Baselines(vec) then Increase(s.Baselines(vec)[Key(l)], value) else 0.0)
    ensures Advanced(s,
      State(s.counters[vec := s.Baselines(vec)[Key(l) := value]], s.exported[vec := s.Exports(vec)[l := sum]], s.pods),
      vec, value, l)
  {
    hide Key, Increase;
  }

  method DeltaFrom(previous: real, value: real) returns (delta: real)
    ensures delta == Increase(previous, value)
  {
    if value >= previous {
      delta := value - previous;
    } else {
      delta := value;
    }
  }

  /** What a call with no pod, or with one, is about. */
  function Selected(namespace: string, name: string, pod: string): Group {
    if pod == "" then WholeCluster(namespace, name) else PodsOf(namespace, name, {pod})
  }

  function Unselected(series: map<Labels, real>, gone: Group): map<Labels, real> {
    map l | l in series && !gone.Has(l) :: series[l]
  }

  lemma DropIsRemoval(s: State, t: State, namespace: string, name: string, pod: string)
    requires Plain(namespace) && Plain(name) && Plain(pod)
    requires forall vec :: t.Baselines(vec) == Without(s.Baselines(vec), ForgetPrefix(namespace, name, pod))
    requires forall vec :: t.Exports(vec) == Unselected(s.Exports(vec), Selected(namespace, name, pod))
    ensures t.Removed(s, Selected(namespace, name, pod))
  {
    forall vec, l | PlainLabels(l)
      ensures if Selected(namespace, name, pod).Has(l) then t.Lacks(vec, l) else t.Keeps(s, vec, l)
    {
      ForgetIsExact(l, namespace, name, pod);
      hide Key, PlainLabels, Matches, ForgetPrefix;
    }
  }

  lemma NothingRemoved(s: State, namespace: string, name: string)
    ensures s.Removed(s, PodsOf(namespace, name, {}))
  {
  }

  /** Removals add up, and do not depend on the pods reported. */
  lemma RemovalsCompose(s: State, t: State, u: State, namespace: string, name: string, done: set<string>, pod: string)
    requires t.Removed(s, PodsOf(namespace, name, done)) && u.Removed(t, PodsOf(namespace, name, {pod}))
    ensures u.Removed(s, PodsOf(namespace, name, done + {pod}))
  {
    hide Key, PlainLabels;
    var first, second := PodsOf(namespace, name, done), PodsOf(namespace, name, {pod});
    forall vec, l | PlainLabels(l)
      ensures if PodsOf(namespace, name, done + {pod}).Has(l) then u.Lacks(vec, l) else u.Keeps(s, vec, l)
    {
      assert if second.Has(l) then u.Lacks(vec, l) else u.Keeps(t, vec, l);
      assert if first.Has(l) then t.Lacks(vec, l) else t.Keeps(s, vec, l);
    }
  }

  lemma RemovedWhateverThePods(s: State, t: State, gone: Group, pods: map<string, set<string>>)
    requires t.Removed(s, gone)
    ensures t.(pods := pods).Removed(s, gone)
  {
    hide Key, PlainLabels;
    var u := t.(pods := pods);
    assert forall vec :: u.Baselines(vec) == t.Baselines(vec) && u.Exports(vec) == t.Exports(vec);
    forall vec, l | PlainLabels(l) ensures if gone.Has(l) then u.Lacks(vec, l) else u.Keeps(s, vec, l) {
      assert if gone.Has(l) then t.Lacks(vec, l) else t.Keeps(s, vec, l);
    }
  }

  lemma DeletedReports(s: State, t: State, events: seq<Event>, namespace: string, name: string)
    requires s.Faithful(events) && Plain(namespace) && Plain(name)
    requires t.pods == s.pods - {ClusterKey(namespace, name)}
    ensures t.Reports(events + [Deleted(namespace, name)])
  {
    LastOf(events, Deleted(namespace, name));
    forall ns, n | Plain(ns) && Plain(n)
      ensures t.Pods(ClusterKey(ns, n)) == Reported(events + [Deleted(namespace, name)], ns, n)
    {
      KeysAreDistinct(Labels(ns, n, ""), Labels(namespace, name, ""));
      assert s.Pods(ClusterKey(ns, n)) == Reported(events, ns, n);
    }
  }

  lemma SyncedReports(s: State, t: State, events: seq<Event>, namespace: string, name: string, live: set<string>)
    requires s.Faithful(events) && Plain(namespace) && Plain(name)
    requires t.pods == s.pods[ClusterKey(namespace, name) := live]
    ensures t.Reports(events + [Synced(namespace, name, live)])
  {
    LastOf(events, Synced(namespace, name, live));
    forall ns, n | Plain(ns) && Plain(n)
      ensures t.Pods(ClusterKey(ns, n)) == Reported(events + [Synced(namespace, name, live)], ns, n)
    {
      KeysAreDistinct(Labels(ns, n, ""), Labels(namespace, name, ""));
      assert s.Pods(ClusterKey(ns, n)) == Reported(events, ns, n);
    }
  }

  lemma {:induction false} ReportedAreNamed(events: seq<Event>, namespace: string, name: string)
    requires NamedPods(events)
    ensures forall p :: p in Reported(events, namespace, name) ==> p != "" && Plain(p)
  {
    if events != [] { ReportedAreNamed(events[..|events| - 1], namespace, name); }
  }

  /** Pods have names, and names have no separator in them. */
  ghost predicate NamedPods(events: seq<Event>) {
    forall i :: 0 <= i < |events| && events[i].Synced? ==> forall p :: p in events[i].live ==> p != "" && Plain(p)
  }

  class Registry {
    var counters: map<Vec, map<string, real>>
    var exported: map<Vec, map<Labels, real>>
    var pods: map<string, set<string>>
    ghost var events: seq<Event>

    ghost function View(): State reads this { State(counters, exported, pods) }

    ghost predicate Valid() reads this { View().Faithful(events) && NamedPods(events) }

    constructor ()
      ensures Valid() && events == []
    {
      counters, exported, pods, events := map[], map[], map[], [];
    }

    /** A sample that counts: the first only sets the baseline, a smaller one is a restart. */
    method Advance(vec: Vec, value: real, labels: Labels)
      modifies this`counters, this`exported
      ensures Advanced(old(View()), View(), vec, value, labels)
    {
      hide Key, Increase, Advanced;
      var key := Key(labels);
      var series := if vec in counters then counters[vec] else map[];
      var counts := if vec in exported then exported[vec] else map[];
      var delta := 0.0;
      if key in series {
        delta := DeltaFrom(series[key], value);
      }
      var sum := (if labels in counts then counts[labels] else 0.0) + delta;
      counters := counters[vec := series[key := value]];
      exported := exported[vec := counts[labels := sum]];
      AdvancedBy(old(View()), vec, value, labels, sum);
    }

    /** AddCounterDelta */
    method AddCounterDelta(vec: Vec, value: Float, labels: Labels)
      requires Valid() && PlainLabels(labels)
      modifies this
      ensures Valid() && events == old(events) + [Sampled(vec, value, labels)]
    {
      hide State.Faithful, PlainLabels, Plain, Advanced;
      if !value.Finite? || value.value < 0.0 {
        IgnoredSampleIsFaithful(View(), events, Sampled(vec, value, labels));
      } else {
        Advance(vec, value.value, labels);
        SampleIsFaithful(old(View()), View(), events, vec, value.value, labels);
      }
      events := events + [Sampled(vec, value, labels)];
    }

    /** forgetCounterBaselines */
    method ForgetBaselines(prefix: string)
      modifies this`counters
      ensures forall vec :: View().Baselines(vec) == Without(old(View()).Baselines(vec), prefix)
    {
      var todo := counters.Keys;
      while todo != {}
        invariant todo <= counters.Keys == old(counters).Keys
        invariant forall vec :: vec in todo ==> counters[vec] == old(counters)[vec]
        invariant forall vec :: vec in counters && vec !in todo ==> counters[vec] == Without(old(counters)[vec], prefix)
      {
        var vec :| vec in todo;
        todo := todo - {vec};
        var kept := Sweep(counters[vec], prefix);
        counters := counters[vec := kept];
      }
    }

    /** What a cluster (no pod given) or one of its pods exports, and its baselines, go. */
    method Drop(namespace: string, name: string, pod: string)
      requires Plain(namespace) && Plain(name) && Plain(pod)
      modifies this`counters, this`exported
      ensures View().Removed(old(View()), Selected(namespace, name, pod))
    {
      exported := map vec | vec in exported :: Unselected(exported[vec], Selected(namespace, name, pod));
      ForgetBaselines(ForgetPrefix(namespace, name, pod));
      DropIsRemoval(old(View()), View(), namespace, name, pod);
    }

    /** DeleteClusterSeries */
    method DeleteClusterSeries(namespace: string, name: string)
      requires Valid() && Plain(namespace) && Plain(name)
      modifies this
      ensures Valid() && events == old(events) + [Deleted(namespace, name)]
    {
      assert Plain("");
      hide State.Faithful, State.Removed, Plain;
      ghost var e := Deleted(namespace, name);
      Drop(namespace, name, "");
      RemovedWhateverThePods(old(View()), View(), WholeCluster(namespace, name), pods - {ClusterKey(namespace, name)});
      pods := pods - {ClusterKey(namespace, name)};
      DeletedReports(old(View()), View(), events, namespace, name);
      RemovalIsFaithful(old(View()), View(), events, e, WholeCluster(namespace, name));
      events := events + [e];
    }

    /** The pods the cluster reported before and does not now lose their series. */
    method DropPods(namespace: string, name: string, gone: set<string>)
      requires Plain(namespace) && Plain(name) && forall p :: p in gone ==> p != "" && Plain(p)
      modifies this`counters, this`exported
      ensures View().Removed(old(View()), PodsOf(namespace, name, gone))
    {
      hide State.Removed, Plain;
      ghost var done := {};
      var todo := gone;
      NothingRemoved(View(), namespace, name);
      while todo != {}
        invariant todo <= gone && done == gone - todo && pods == old(pods)
        invariant View().Removed(old(View()), PodsOf(namespace, name, done))
      {
        var pod :| pod in todo;
        ghost var before := View();
        Drop(namespace, name, pod);
        RemovalsCompose(old(View()), before, View(), namespace, name, done, pod);
        todo := todo - {pod};
        done := done + {pod};
      }
      assert done == gone;
    }

    /** SyncClusterPods */
    method SyncClusterPods(namespace: string, name: string, live: seq<string>)
      requires Valid() && Plain(namespace) && Plain(name)
      requires forall p :: p in live ==> p != "" && Plain(p)
      modifies this
      ensures Valid() && events == old(events) + [Synced(namespace, name, set p | p in live)]
    {
      ReportedAreNamed(events, namespace, name);
      assert View().Pods(ClusterKey(namespace, name)) == Reported(events, namespace, name);
      hide State.Faithful, State.Removed, Plain;
      var cluster, current := ClusterKey(namespace, name), set p | p in live;
      var gone := (if cluster in pods then pods[cluster] else {}) - current;
      ghost var e := Synced(namespace, name, current);
      DropPods(namespace, name, gone);
      RemovedWhateverThePods(old(View()), View(), PodsOf(namespace, name, gone), pods[cluster := current]);
      pods := pods[cluster := current];
      SyncedReports(old(View()), View(), events, namespace, name, current);
      RemovalIsFaithful(old(View()), View(), events, e, PodsOf(namespace, name, gone));
      events := events + [e];
    }
  }
}
