// Alert deduplication of app/agent_runtime/proactive.py: the monitor probes services, and a store of
// last alert times, in memory or in Redis with expiry, holds back repeats. Time is a real.
module Alerts {
  import opened Common

  datatype Metric = Cpu | Memory

  datatype Severity = Warning | Critical

  datatype Anomaly = Anomaly(key: string, service: string, metric: Metric, maxValue: real, threshold: real)

  datatype Alert = Alert(key: string, service: string, metric: Metric, severity: Severity, timestamp: real)

  // When the monitor did what while it handled one anomaly: read the store, read the clock to decide,
  // stamped the alert, read the clock to record it, wrote the store. A suppressed anomaly, or one
  // without an earlier alert, uses only some of them.
  datatype Times = Times(read: real, decide: real, stamp: real, record: real, write: real) {
    predicate InOrder() { read <= decide <= stamp <= record <= write }
  }

  datatype Sighting = Sighting(anomaly: Anomaly, times: Times)

  // ----- The stores -----

  datatype Entry = Entry(timestamp: real, expires: real)

  datatype Store = InMemory(last: map<string, real>) | Redis(ttl: nat, entries: map<string, Entry>) {

    function LastAlertTime(key: string, at: real): Option<real> {
      match this
      case InMemory(last) => if key in last then Some(last[key]) else None
      case Redis(_, entries) =>
        if key in entries && at < entries[key].expires then Some(entries[key].timestamp) else None
    }

    function WithLastAlertTime(key: string, timestamp: real, at: real): Store {
      match this
      case InMemory(last) => InMemory(last[key := timestamp])
      case Redis(ttl, entries) => Redis(ttl, entries[key := Entry(timestamp, at + ttl as real)])
    }
  }

  predicate Suppresses(store: Store, interval: real, s: Sighting) {
    var last := store.LastAlertTime(s.anomaly.key, s.times.read);
    last.Some? && s.times.decide - last.value < interval
  }

  function AlertFor(s: Sighting): Alert {
    var a := s.anomaly;
    Alert(a.key, a.service, a.metric, if a.maxValue >= a.threshold * 1.2 then Critical else Warning, s.times.stamp)
  }

  // ----- Any number of sightings -----

  // The store, the alerts and the count of suppressed ones after a history of sightings.
  datatype Outcome = Outcome(store: Store, alerts: seq<Alert>, suppressed: nat)

  function Handle(o: Outcome, interval: real, s: Sighting): Outcome {
    if Suppresses(o.store, interval, s) then o.(suppressed := o.suppressed + 1)
    else
      Outcome(o.store.WithLastAlertTime(s.anomaly.key, s.times.record, s.times.write), o.alerts + [AlertFor(s)],
              o.suppressed)
  }

  function HandleAll(store: Store, interval: real, h: seq<Sighting>): Outcome {
    if h == [] then Outcome(store, [], 0)
    else Handle(HandleAll(store, interval, h[..|h| - 1]), interval, h[|h| - 1])
  }

  // ----- The monitor -----

  // What the provider answers for a metric; a failure counts as a maximum of zero.
  datatype Reading = Failed | Maximum(value: real) {
    function Value(): real { if Failed? then 0.0 else value }
  }

  datatype ProbeResult = ProbeResult(anomalies: seq<Anomaly>, alerts: seq<Alert>, suppressed: nat,
                                     runId: Option<string>)

  // Given the times of handling, the anomalies of a probe become sightings.
  function Sightings(anomalies: seq<Anomaly>, times: nat -> Times): seq<Sighting> {
    if anomalies == [] then []
    else Sightings(anomalies[..|anomalies| - 1], times)
         + [Sighting(anomalies[|anomalies| - 1], times(|anomalies| - 1))]
  }

  function KeyOf(service: string, metric: Metric): string {
    service + if metric == Cpu then ":cpu" else ":memory"
  }

  function Over(service: string, metric: Metric, value: real, threshold: real): seq<Anomaly> {
    if value >= threshold then [Anomaly(KeyOf(service, metric), service, metric, value, threshold)] else []
  }

  class ProactiveMonitor {
    const services: seq<string>
    const cpuThreshold: real
    const memoryThreshold: real
    const interval: real
    var store: Store

    constructor (services: seq<string>, cpuThreshold: real, memoryThreshold: real, interval: real, store: Store)
      ensures this.services == services && this.cpuThreshold == cpuThreshold
      ensures this.memoryThreshold == memoryThreshold && this.interval == interval && this.store == store
    {
      this.services, this.cpuThreshold, this.memoryThreshold := services, cpuThreshold, memoryThreshold;
      this.interval, this.store := interval, store;
    }

    function AnomaliesOf(service: string, metrics: (string, Metric) -> Reading): seq<Anomaly> {
      Over(service, Cpu, metrics(service, Cpu).Value(), cpuThreshold)
      + Over(service, Memory, metrics(service, Memory).Value(), memoryThreshold)
    }

    function AnomaliesOfAll(services: seq<string>, metrics: (string, Metric) -> Reading): seq<Anomaly> {
      if services == [] then []
      else AnomaliesOfAll(services[..|services| - 1], metrics) + AnomaliesOf(services[|services| - 1], metrics)
    }

    // A probe finds exactly the metrics at or over their threshold.
    lemma {:induction false} FoundExactlyWhen(services: seq<string>, metrics: (string, Metric) -> Reading, a: Anomaly)
      ensures a in AnomaliesOfAll(services, metrics) <==>
                && a.service in services
                && a.key == a.service + (if a.metric == Cpu then ":cpu" else ":memory")
                && a.maxValue == (match metrics(a.service, a.metric) case Failed => 0.0 case Maximum(v) => v)
                && a.threshold == (if a.metric == Cpu then cpuThreshold else memoryThreshold)
                && a.maxValue >= a.threshold
      decreases |services|
    {
      if services != [] {
        FoundExactlyWhen(services[..|services| - 1], metrics, a);
      }
    }

    // Services are probed in order, and each for its processor before its memory.
    lemma FoundInOrder(services: seq<string>, service: string, metrics: (string, Metric) -> Reading)
      ensures AnomaliesOfAll([], metrics) == []
      ensures var (cpu, memory) := (metrics(service, Cpu).Value(), metrics(service, Memory).Value());
              AnomaliesOfAll(services + [service], metrics)
              == AnomaliesOfAll(services, metrics)
                 + ((if cpu >= cpuThreshold then
                       [Anomaly(service + ":cpu", service, Cpu, cpu, cpuThreshold)] else [])
                    + (if memory >= memoryThreshold then
                         [Anomaly(service + ":memory", service, Memory, memory, memoryThreshold)] else []))
    {
      assert (services + [service])[..|services|] == services;
    }

    // should_suppress and record_alert around the making of an alert.
    method HandleOne(s: Sighting, before: seq<Alert>, suppressedBefore: nat)
      returns (alerts: seq<Alert>, suppressed: nat)
      modifies this`store
      ensures Outcome(store, alerts, suppressed) == Handle(Outcome(old(store), before, suppressedBefore), interval, s)
    {
      alerts, suppressed := before, suppressedBefore;
      if Suppresses(store, interval, s) {
        suppressed := suppressed + 1;
      } else {
        alerts := alerts + [AlertFor(s)];
        store := store.WithLastAlertTime(s.anomaly.key, s.times.record, s.times.write);
      }
    }

    // One probe: every anomaly of every service is found in order and handled as one more sighting.
    method Probe(metrics: (string, Metric) -> Reading, times: nat -> Times,
                 trigger: Option<(string, seq<Anomaly>) -> Option<string>>) returns (result: ProbeResult)
      modifies this`store
      ensures result.anomalies == AnomaliesOfAll(services, metrics)
      ensures Outcome(store, result.alerts, result.suppressed)
              == HandleFound(old(store), interval, result.anomalies, times)
      ensures |result.anomalies| == |result.alerts| + result.suppressed
      ensures result.runId
              == if result.anomalies != [] && trigger.Some? then trigger.value(services[0], result.anomalies) else None
    {
      var all: seq<Anomaly>, alerts: seq<Alert>, suppressed := [], [], 0;
      for i := 0 to |services|
        invariant all == AnomaliesOfAll(services[..i], metrics)
        invariant Outcome(store, alerts, suppressed) == HandleFound(old(store), interval, all, times)
      {
        var before := all;
        var anomalies := AnomaliesOf(services[i], metrics);
        all := all + anomalies;
        assert before + anomalies[..0] == before;
        for j := 0 to |anomalies|
          invariant Outcome(store, alerts, suppressed)
                    == HandleFound(old(store), interval, before + anomalies[..j], times)
        {
          FindOneMore(old(store), interval, before, anomalies, j, times);
          alerts, suppressed := HandleOne(Sighting(anomalies[j], times(|before| + j)), alerts, suppressed);
        }
        assert anomalies[..|anomalies|] == anomalies && services[..i + 1][..i] == services[..i];
      }
      assert services[..|services|] == services;
      FoundIsCounted(old(store), interval, all, times);
      var runId := None;
      if all != [] && trigger.Some? {
        runId := trigger.value(if services != [] then services[0] else "unknown", all);
      }
      return ProbeResult(all, alerts, suppressed, runId);
    }
  }

  // Handling the anomalies of one probe.
  function HandleFound(store: Store, interval: real, anomalies: seq<Anomaly>, times: nat -> Times): Outcome {
    HandleAll(store, interval, Sightings(anomalies, times))
  }

  lemma FindOneMore(store: Store, interval: real, before: seq<Anomaly>, found: seq<Anomaly>, j: nat,
                    times: nat -> Times)
    requires j < |found|
    ensures HandleFound(store, interval, before + found[..j + 1], times)
            == Handle(HandleFound(store, interval, before + found[..j], times), interval,
                      Sighting(found[j], times(|before| + j)))
  {
    assert before + found[..j + 1] == before + found[..j] + [found[j]];
    OneMoreSighting(store, interval, before + found[..j], found[j], times);
  }

  lemma FoundIsCounted(store: Store, interval: real, anomalies: seq<Anomaly>, times: nat -> Times)
    ensures var o := HandleFound(store, interval, anomalies, times); |anomalies| == |o.alerts| + o.suppressed
  {
    EmittedOrSuppressed(store, interval, Sightings(anomalies, times));
    SightingsAre(anomalies, times);
  }

  lemma OneMoreSighting(store: Store, interval: real, anomalies: seq<Anomaly>, a: Anomaly, times: nat -> Times)
    ensures HandleAll(store, interval, Sightings(anomalies + [a], times))
            == Handle(HandleAll(store, interval, Sightings(anomalies, times)), interval,
                      Sighting(a, times(|anomalies|)))
  {
    assert (anomalies + [a])[..|anomalies|] == anomalies;
    OneMore(store, interval, Sightings(anomalies, times), Sighting(a, times(|anomalies|)));
  }

  lemma OneMore(store: Store, interval: real, h: seq<Sighting>, s: Sighting)
    ensures HandleAll(store, interval, h + [s]) == Handle(HandleAll(store, interval, h), interval, s)
  {
    assert (h + [s])[..|h|] == h;
  }

  lemma {:induction false} SightingsAre(anomalies: seq<Anomaly>, times: nat -> Times)
    ensures |Sightings(anomalies, times)| == |anomalies|
    ensures forall i | 0 <= i < |anomalies| :: Sightings(anomalies, times)[i] == Sighting(anomalies[i], times(i))
  {
    if anomalies != [] {
      SightingsAre(anomalies[..|anomalies| - 1], times);
    }
  }

  function Join(first: Outcome, second: Outcome): Outcome {
    Outcome(second.store, first.alerts + second.alerts, first.suppressed + second.suppressed)
  }

  lemma HandleJoins(first: Outcome, second: Outcome, interval: real, s: Sighting)
    ensures Handle(Join(first, second), interval, s) == Join(first, Handle(second, interval, s))
  {
    assert first.alerts + second.alerts + [AlertFor(s)] == first.alerts + (second.alerts + [AlertFor(s)]);
  }

  // Two probes one after the other are one longer history.
  lemma {:induction false} HandleInParts(store: Store, interval: real, h: seq<Sighting>, more: seq<Sighting>)
    ensures HandleAll(store, interval, h + more)
            == Join(HandleAll(store, interval, h), HandleAll(HandleAll(store, interval, h).store, interval, more))
    decreases |more|
  {
    var first := HandleAll(store, interval, h);
    if more == [] {
      assert h + more == h && first.alerts + [] == first.alerts;
    } else {
      var init, s := more[..|more| - 1], more[|more| - 1];
      HandleInParts(store, interval, h, init);
      HandleJoins(first, HandleAll(first.store, interval, init), interval, s);
      assert (h + more)[..|h + more| - 1] == h + init;
    }
  }

  // Every sighting is either emitted or counted as suppressed.
  lemma {:induction false} EmittedOrSuppressed(store: Store, interval: real, h: seq<Sighting>)
    ensures var o := HandleAll(store, interval, h); |h| == |o.alerts| + o.suppressed
  {
    if h != [] {
      EmittedOrSuppressed(store, interval, h[..|h| - 1]);
    }
  }

  // ----- Spacing -----

  // The clock never goes back, neither while an anomaly is handled nor from one to the next.
  ghost predicate IsOrdered(h: seq<Sighting>) {
    && (forall i | 0 <= i < |h| :: h[i].times.InOrder())
    && (forall i, j | 0 <= i < j < |h| :: h[i].times.write <= h[j].times.read)
  }

  // The alerts of one key are apart, none is later than its entry in the store or than the time.
  ghost predicate Spaced(o: Outcome, interval: real, now: real)
    requires o.store.InMemory?
  {
    && (forall a | a in o.alerts :: a.key in o.store.last && a.timestamp <= o.store.last[a.key] <= now)
    && AreApart(o.alerts, interval)
  }

  ghost predicate AreApart(alerts: seq<Alert>, interval: real) {
    forall i, j | 0 <= i < j < |alerts| && alerts[i].key == alerts[j].key ::
      alerts[j].timestamp - alerts[i].timestamp >= interval
  }

  lemma SpacedStep(o: Outcome, interval: real, s: Sighting, now: real)
    requires o.store.InMemory? && Spaced(o, interval, now) && s.times.InOrder() && now <= s.times.read
    ensures Spaced(Handle(o, interval, s), interval, s.times.write)
  {
    if !Suppresses(o.store, interval, s) {
      forall a | a in o.alerts && a.key == AlertFor(s).key
        ensures s.times.stamp - a.timestamp >= interval
      {}
      AppendApart(o.alerts, AlertFor(s), interval);
    }
  }

  lemma AppendApart(alerts: seq<Alert>, a: Alert, interval: real)
    requires AreApart(alerts, interval)
    requires forall b | b in alerts && b.key == a.key :: a.timestamp - b.timestamp >= interval
    ensures AreApart(alerts + [a], interval)
  {}

  lemma {:induction false} StoreKeepsSpacing(interval: real, h: seq<Sighting>, now: real)
    requires IsOrdered(h) && forall i | 0 <= i < |h| :: h[i].times.write <= now
    ensures var o := HandleAll(InMemory(map[]), interval, h); o.store.InMemory? && Spaced(o, interval, now)
  {
    if h != [] {
      var init, s := h[..|h| - 1], h[|h| - 1];
      StoreKeepsSpacing(interval, init, s.times.read);
      SpacedStep(HandleAll(InMemory(map[]), interval, init), interval, s, s.times.read);
    }
  }

  // Timestamps of emitted alerts with the same key are at least the interval apart.
  lemma AlertsAreApart(interval: real, h: seq<Sighting>)
    requires IsOrdered(h)
    ensures AreApart(HandleAll(InMemory(map[]), interval, h).alerts, interval)
  {
    StoreKeepsSpacing(interval, h, if h == [] then 0.0 else h[|h| - 1].times.write);
  }

  // ----- Windows -----

  function CountIn(alerts: seq<Alert>, key: string, from: real, width: real): nat {
    if alerts == [] then 0
    else CountIn(alerts[..|alerts| - 1], key, from, width)
         + if IsIn(alerts[|alerts| - 1], key, from, width) then 1 else 0
  }

  predicate IsIn(a: Alert, key: string, from: real, width: real) {
    a.key == key && from <= a.timestamp <= from + width
  }

  function Span(n: nat, interval: real): real { n as real * interval }

  lemma SpanNext(n: nat, interval: real)
    ensures Span(n + 1, interval) == Span(n, interval) + interval
  {}

  // The c-th alert inside the window comes at least c - 1 intervals after its start.
  lemma {:induction false} CountReaches(alerts: seq<Alert>, interval: real, key: string, from: real, width: real)
    returns (last: nat)
    requires AreApart(alerts, interval)
    ensures CountIn(alerts, key, from, width) > 0 ==>
              && last < |alerts| && IsIn(alerts[last], key, from, width)
              && alerts[last].timestamp >= from + Span(CountIn(alerts, key, from, width) - 1, interval)
  {
    last := 0;
    if alerts != [] {
      var init, a := alerts[..|alerts| - 1], alerts[|alerts| - 1];
      last := CountReaches(init, interval, key, from, width);
      var c := CountIn(init, key, from, width);
      if IsIn(a, key, from, width) {
        if c > 0 {
          SpanNext(c - 1, interval);
          assert a.timestamp - alerts[last].timestamp >= interval;
        }
        last := |alerts| - 1;
      }
    }
  }

  lemma ApartAreFew(alerts: seq<Alert>, interval: real, key: string, from: real, width: real)
    requires AreApart(alerts, interval) && interval > 0.0 && width >= 0.0
    ensures CountIn(alerts, key, from, width) <= (width / interval).Floor + 1
  {
    var last := CountReaches(alerts, interval, key, from, width);
    var c := CountIn(alerts, key, from, width);
    if c > 0 {
      assert Span(c - 1, interval) <= width;
      Fits(c - 1, interval, width);
    }
  }

  lemma Fits(n: nat, interval: real, width: real)
    requires interval > 0.0 && width >= 0.0 && Span(n, interval) <= width
    ensures n <= (width / interval).Floor
  {
    var q := width / interval;
    assert q * interval == width;
    AtMostAfterScaling(n as real, q, interval);
  }

  // Any window of width W holds at most floor(W / interval) + 1 alerts of a key.
  lemma WindowHoldsFew(interval: real, h: seq<Sighting>, key: string, from: real, width: real)
    requires IsOrdered(h) && interval > 0.0 && width >= 0.0
    ensures CountIn(HandleAll(InMemory(map[]), interval, h).alerts, key, from, width) <= (width / interval).Floor + 1
  {
    AlertsAreApart(interval, h);
    ApartAreFew(HandleAll(InMemory(map[]), interval, h).alerts, interval, key, from, width);
  }

  // ----- When exactly an anomaly is suppressed -----

  // The sightings of a history that became alerts.
  function Emitted(interval: real, h: seq<Sighting>): seq<Sighting> {
    if h == [] then []
    else
      var init, s := h[..|h| - 1], h[|h| - 1];
      Emitted(interval, init)
      + if Suppresses(HandleAll(InMemory(map[]), interval, init).store, interval, s) then [] else [s]
  }

  // The alerts are those of the emitted sightings, in order.
  lemma {:induction false} AlertsAreEmitted(interval: real, h: seq<Sighting>)
    ensures var alerts := HandleAll(InMemory(map[]), interval, h).alerts;
            && |alerts| == |Emitted(interval, h)|
            && forall i | 0 <= i < |alerts| :: alerts[i] == AlertFor(Emitted(interval, h)[i])
  {
    if h != [] {
      AlertsAreEmitted(interval, h[..|h| - 1]);
    }
  }

  // The store holds, for each key, when its last alert was recorded.
  ghost predicate HoldsLast(last: map<string, real>, emitted: seq<Sighting>, now: real) {
    && (forall e | e in emitted ::
          e.anomaly.key in last && e.times.record <= last[e.anomaly.key] && e.times.record <= now)
    && (forall key | key in last :: IsRecorded(emitted, key, last[key]))
  }

  ghost predicate IsRecorded(emitted: seq<Sighting>, key: string, record: real) {
    exists e :: e in emitted && e.anomaly.key == key && e.times.record == record
  }

  lemma HoldsLastStep(last: map<string, real>, emitted: seq<Sighting>, now: real, s: Sighting)
    requires HoldsLast(last, emitted, now) && now <= s.times.record
    ensures HoldsLast(last[s.anomaly.key := s.times.record], emitted + [s], s.times.record)
  {
    var next, more := last[s.anomaly.key := s.times.record], emitted + [s];
    assert s in more;
    forall key | key in next
      ensures IsRecorded(more, key, next[key])
    {
      if key != s.anomaly.key {
        var e :| e in emitted && e.anomaly.key == key && e.times.record == last[key];
        assert e in more;
      }
    }
  }

  lemma {:induction false} StoreHoldsLast(interval: real, h: seq<Sighting>, now: real)
    requires IsOrdered(h) && forall i | 0 <= i < |h| :: h[i].times.write <= now
    ensures HandleAll(InMemory(map[]), interval, h).store.InMemory?
    ensures HoldsLast(HandleAll(InMemory(map[]), interval, h).store.last, Emitted(interval, h), now)
  {
    if h != [] {
      var init, s := h[..|h| - 1], h[|h| - 1];
      StoreHoldsLast(interval, init, s.times.read);
      var store := HandleAll(InMemory(map[]), interval, init).store;
      if !Suppresses(store, interval, s) {
        HoldsLastStep(store.last, Emitted(interval, init), s.times.read, s);
      }
    }
  }

  // A sighting is suppressed exactly when an alert of its key was recorded less than the interval ago.
  lemma SuppressedExactlyWhen(interval: real, h: seq<Sighting>, s: Sighting)
    requires IsOrdered(h)
    ensures Suppresses(HandleAll(InMemory(map[]), interval, h).store, interval, s) <==>
              exists e :: e in Emitted(interval, h) && e.anomaly.key == s.anomaly.key
                          && s.times.decide - e.times.record < interval
  {
    StoreHoldsLast(interval, h, if h == [] then 0.0 else h[|h| - 1].times.write);
    var last := HandleAll(InMemory(map[]), interval, h).store.last;
    if s.anomaly.key in last {
      assert IsRecorded(Emitted(interval, h), s.anomaly.key, last[s.anomaly.key]);
    }
  }

  // ----- The expiring store -----

  // The Redis store has every entry of the memory store, expiring no sooner than ttl after its time.
  ghost predicate Mirrors(r: Store, m: Store) {
    && r.Redis? && m.InMemory? && r.entries.Keys == m.last.Keys
    && forall key | key in m.last ::
         r.entries[key].timestamp == m.last[key] && r.entries[key].expires >= m.last[key] + r.ttl as real
  }

  lemma MirrorsStep(r: Outcome, m: Outcome, interval: real, s: Sighting)
    requires Mirrors(r.store, m.store) && r.alerts == m.alerts && r.suppressed == m.suppressed
    requires r.store.ttl as real >= interval && s.times.InOrder()
    ensures var (r', m') := (Handle(r, interval, s), Handle(m, interval, s));
            && Suppresses(r.store, interval, s) == Suppresses(m.store, interval, s)
            && Mirrors(r'.store, m'.store) && r'.store.ttl == r.store.ttl
            && r'.alerts == m'.alerts && r'.suppressed == m'.suppressed
  {}

  lemma {:induction false} RedisMirrors(ttl: nat, interval: real, h: seq<Sighting>)
    requires ttl as real >= interval && IsOrdered(h)
    ensures var (r, m) := (HandleAll(Redis(ttl, map[]), interval, h), HandleAll(InMemory(map[]), interval, h));
            Mirrors(r.store, m.store) && r.store.ttl == ttl && r.alerts == m.alerts && r.suppressed == m.suppressed
  {
    if h != [] {
      var init, s := h[..|h| - 1], h[|h| - 1];
      RedisMirrors(ttl, interval, init);
      MirrorsStep(HandleAll(Redis(ttl, map[]), interval, init), HandleAll(InMemory(map[]), interval, init),
                  interval, s);
    }
  }

  ghost predicate SameAnswers(ttl: nat, interval: real, h: seq<Sighting>) {
    var (r, m) := (HandleAll(Redis(ttl, map[]), interval, h), HandleAll(InMemory(map[]), interval, h));
    r.alerts == m.alerts && r.suppressed == m.suppressed
  }

  // The two stores answer alike on every history exactly when entries live at least the interval.
  lemma StoresAgreeExactlyWhen(ttl: nat, interval: real)
    ensures ttl as real >= interval <==> forall h | IsOrdered(h) :: SameAnswers(ttl, interval, h)
  {
    if ttl as real >= interval {
      forall h | IsOrdered(h)
        ensures SameAnswers(ttl, interval, h)
      {
        RedisMirrors(ttl, interval, h);
      }
    } else {
      var h := ShortLived(ttl, interval);
      assert IsOrdered(h) && !SameAnswers(ttl, interval, h);
    }
  }

  // In the expiring store an alert holds back a repeat exactly while both the interval since its record
  // and the life of its entry since the write last; in the other store, while the interval lasts. A
  // suppressed sighting, or one of another key, changes no answer.
  lemma HoldsBackExactlyWhen(o: Outcome, interval: real, s: Sighting, t: Sighting)
    ensures var after := Handle(o, interval, s).store;
            if s.anomaly.key == t.anomaly.key && !Suppresses(o.store, interval, s) then
              Suppresses(after, interval, t) <==>
                && t.times.decide - s.times.record < interval
                && (o.store.Redis? ==> t.times.read < s.times.write + o.store.ttl as real)
            else Suppresses(after, interval, t) <==> Suppresses(o.store, interval, t)
  {}

  function At(a: Anomaly, t: real): Sighting { Sighting(a, Times(t, t, t, t, t)) }

  lemma HandleTwo(store: Store, interval: real, s: Sighting, t: Sighting)
    ensures HandleAll(store, interval, [s, t]) == Handle(Handle(Outcome(store, [], 0), interval, s), interval, t)
  {
    OneMore(store, interval, [], s);
    OneMore(store, interval, [s], t);
    assert [] + [s] == [s] && [s] + [t] == [s, t];
  }

  lemma RedisLetsThrough(a: Anomaly, ttl: nat, interval: real)
    ensures |HandleAll(Redis(ttl, map[]), interval, [At(a, 0.0), At(a, ttl as real)]).alerts| == 2
  {
    HandleTwo(Redis(ttl, map[]), interval, At(a, 0.0), At(a, ttl as real));
  }

  lemma MemoryHoldsBack(a: Anomaly, ttl: nat, interval: real)
    requires interval > ttl as real
    ensures |HandleAll(InMemory(map[]), interval, [At(a, 0.0), At(a, ttl as real)]).alerts| == 1
  {
    HandleTwo(InMemory(map[]), interval, At(a, 0.0), At(a, ttl as real));
  }

  // An entry that expires within the interval lets the repeat through.
  lemma ShortLived(ttl: nat, interval: real) returns (h: seq<Sighting>)
    requires interval > ttl as real
    ensures IsOrdered(h) && !SameAnswers(ttl, interval, h)
  {
    var a := Anomaly("api:cpu", "api", Cpu, 90.0, 80.0);
    h := [At(a, 0.0), At(a, ttl as real)];
    RedisLetsThrough(a, ttl, interval);
    MemoryHoldsBack(a, ttl, interval);
  }

  // ----- What an alert tells -----

  // The key of an alert names its service and metric, and no other pair has it.
  lemma KeyNames(service: string, metric: Metric, other: string, otherMetric: Metric)
    ensures KeyOf(service, Cpu) == service + ":cpu" && KeyOf(service, Memory) == service + ":memory"
    ensures KeyOf(service, metric) == KeyOf(other, otherMetric) <==> service == other && metric == otherMetric
  {
    var a, b := KeyOf(service, metric), KeyOf(other, otherMetric);
    if a == b {
      assert a[|a| - 1] == if metric == Cpu then 'u' else 'y';
      assert b[|b| - 1] == if otherMetric == Cpu then 'u' else 'y';
      var n := if metric == Cpu then 4 else 7;
      assert service == a[..|a| - n] && other == b[..|b| - n];
    }
  }

  // Every alert is made of one sighting in the history: it carries its key, service and metric and the
  // time of its stamp, and is critical exactly when the value is at least 1.2 times the threshold.
  lemma {:induction false} AlertTells(store: Store, interval: real, h: seq<Sighting>, alert: Alert)
    requires alert in HandleAll(store, interval, h).alerts
    ensures exists s :: && s in h && alert.key == s.anomaly.key && alert.service == s.anomaly.service
                        && alert.metric == s.anomaly.metric && alert.timestamp == s.times.stamp
                        && (alert.severity == Critical <==> s.anomaly.maxValue >= 1.2 * s.anomaly.threshold)
  {
    var init, s := h[..|h| - 1], h[|h| - 1];
    if alert in HandleAll(store, interval, init).alerts {
      AlertTells(store, interval, init, alert);
    } else {
      assert s in h && alert == AlertFor(s);
    }
  }
}
