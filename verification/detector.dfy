/**
 One scan cycle of the change detector, as a pure diff of what the cycle
 observes against the previous snapshot. Every observation is classified
 against the PREVIOUS snapshot only, so the events of a cycle do not depend
 on what else the same cycle has seen; the candidate snapshot collects every
 observation and replaces the previous one only when it is non-empty.
 */
module Detector {
  import opened Snapshot
  import opened Listings

  /** The events one observation gives rise to: none, or exactly one, about
      the observed path; none exactly when the path is remembered with the
      same timestamp. */
  function Classify(prev: State, o: Observation): (r: seq<Event>)
    ensures |r| <= 1
    ensures forall k :: 0 <= k < |r| ==> r[k].path == o.path
    ensures r == [] <==> o.path in prev && prev[o.path].modTime == o.info.modTime
  {
    if o.path !in prev then [Event(o.path, Create)]
    else if prev[o.path].modTime != o.info.modTime then [Event(o.path, Modified)]
    else []
  }

  /** The events of a run of observations, in observation order: at most one
      per observation. */
  function Detect(prev: State, obs: seq<Observation>): (r: seq<Event>)
    ensures |r| <= |obs|
    decreases |obs|
  {
    if |obs| == 0 then []
    else Detect(prev, obs[..|obs| - 1]) + Classify(prev, obs[|obs| - 1])
  }

  /** The candidate snapshot: every observation recorded, a later
      observation of the same path overwriting an earlier one. */
  function Collect(obs: seq<Observation>): (r: State)
    ensures |r| <= |obs|
    decreases |obs|
  {
    if |obs| == 0 then map[]
    else Collect(obs[..|obs| - 1])[obs[|obs| - 1].path := obs[|obs| - 1].info]
  }

  /** The outcome of one cycle: the events handed to the processors, the
      candidate snapshot, and the snapshot the detector keeps afterwards. */
  datatype Cycle = Cycle(events: seq<Event>, current: State, next: State)

  /** One scan cycle over the feed locations' listings: at most one event
      and one candidate record per resolved entry, and the detector keeps
      either the candidate snapshot or the previous one. */
  function Scan(prev: State, ls: seq<Listing>): (r: Cycle)
    ensures |r.events| <= |Observations(ls)|
    ensures |r.current| <= |Observations(ls)|
    ensures r.next == r.current || r.next == prev
  {
    var obs := Observations(ls);
    var current := Collect(obs);
    Cycle(Detect(prev, obs), current, if |current| > 0 then current else prev)
  }

  /** How many observations resolved to `p`. */
  function CountPath(obs: seq<Observation>, p: Path): nat
    decreases |obs|
  {
    if |obs| == 0 then 0
    else CountPath(obs[..|obs| - 1], p) + (if obs[|obs| - 1].path == p then 1 else 0)
  }

  /** How many observations resolved to `p` with a timestamp other than `t`. */
  function CountChanged(obs: seq<Observation>, p: Path, t: int): nat
    decreases |obs|
  {
    if |obs| == 0 then 0
    else CountChanged(obs[..|obs| - 1], p, t)
         + (if obs[|obs| - 1].path == p && obs[|obs| - 1].info.modTime != t then 1 else 0)
  }

  /** `k` is the last observation of its path in `obs`. */
  predicate LastOf(obs: seq<Observation>, k: int)
  {
    && 0 <= k < |obs|
    && forall m :: k < m < |obs| ==> obs[m].path != obs[k].path
  }

  // ---------------------------------------------------------------------
  // Classification

  /** Ordering and independence: the events of two runs of observations are
      those of the first followed by those of the second, because each is
      classified against the previous snapshot alone. */
  lemma {:induction false} DetectAppend(prev: State, a: seq<Observation>, b: seq<Observation>)
    ensures Detect(prev, a + b) == Detect(prev, a) + Detect(prev, b)
    decreases |b|
  {
    if |b| == 0 {
      assert a + b == a;
    } else {
      var b', o := b[..|b| - 1], b[|b| - 1];
      assert (a + b)[..|a + b| - 1] == a + b';
      assert (a + b)[|a + b| - 1] == o;
      var c := Classify(prev, o);
      calc {
        Detect(prev, a + b);
        Detect(prev, a + b') + c;
        { DetectAppend(prev, a, b'); }
        (Detect(prev, a) + Detect(prev, b')) + c;
        Detect(prev, a) + (Detect(prev, b') + c);
        Detect(prev, a) + Detect(prev, b);
      }
    }
  }

  /** How often one observation's classification holds each event. */
  lemma ClassifyCounts(prev: State, o: Observation, p: Path)
    ensures multiset(Classify(prev, o))[Event(p, Create)]
            == if p !in prev && o.path == p then 1 else 0
    ensures multiset(Classify(prev, o))[Event(p, Modified)]
            == if p in prev && o.path == p && o.info.modTime != prev[p].modTime then 1 else 0
  {
  }

  /** Every observation of a path unknown to the previous snapshot yields its
      own CREATE event, and a known path never yields one. */
  lemma {:induction false} DetectCreates(prev: State, obs: seq<Observation>, p: Path)
    ensures multiset(Detect(prev, obs))[Event(p, Create)]
            == if p in prev then 0 else CountPath(obs, p)
    decreases |obs|
  {
    if |obs| > 0 {
      var obs' := obs[..|obs| - 1];
      var o := obs[|obs| - 1];
      DetectCreates(prev, obs', p);
      ClassifyCounts(prev, o, p);
      var before := multiset(Detect(prev, obs'))[Event(p, Create)];
      var step := multiset(Classify(prev, o))[Event(p, Create)];
      assert multiset(Detect(prev, obs))[Event(p, Create)] == before + step;
      assert CountPath(obs, p) == CountPath(obs', p) + (if o.path == p then 1 else 0);
    }
  }

  /** Every observation of a known path whose timestamp differs from the
      remembered one yields its own MODIFIED event; an equal timestamp yields
      none, and an unknown path never yields one. */
  lemma {:induction false} DetectModifies(prev: State, obs: seq<Observation>, p: Path)
    ensures multiset(Detect(prev, obs))[Event(p, Modified)]
            == if p in prev then CountChanged(obs, p, prev[p].modTime) else 0
    decreases |obs|
  {
    if |obs| > 0 {
      var obs' := obs[..|obs| - 1];
      var o := obs[|obs| - 1];
      DetectModifies(prev, obs', p);
      ClassifyCounts(prev, o, p);
      var before := multiset(Detect(prev, obs'))[Event(p, Modified)];
      var step := multiset(Classify(prev, o))[Event(p, Modified)];
      assert multiset(Detect(prev, obs))[Event(p, Modified)] == before + step;
    }
  }

  /** Every event stems from an observation that the previous snapshot did
      not know, or knew with another timestamp. */
  lemma {:induction false} DetectSound(prev: State, obs: seq<Observation>, e: Event)
    requires e in Detect(prev, obs)
    ensures exists k :: 0 <= k < |obs| && obs[k].path == e.path
                        && (e.op == Create <==> e.path !in prev)
                        && (e.op == Modified ==> prev[e.path].modTime != obs[k].info.modTime)
    decreases |obs|
  {
    var obs' := obs[..|obs| - 1];
    if e in Detect(prev, obs') {
      DetectSound(prev, obs', e);
      var k :| 0 <= k < |obs'| && obs'[k].path == e.path
               && (e.op == Create <==> e.path !in prev)
               && (e.op == Modified ==> prev[e.path].modTime != obs'[k].info.modTime);
      assert obs[k] == obs'[k];
    } else {
      assert e in Classify(prev, obs[|obs| - 1]);
    }
  }

  // ---------------------------------------------------------------------
  // The candidate snapshot

  /** The candidate snapshot holds exactly the observed paths. */
  lemma {:induction false} CollectKeys(obs: seq<Observation>, p: Path)
    ensures p in Collect(obs) <==> exists k :: 0 <= k < |obs| && obs[k].path == p
    decreases |obs|
  {
    if |obs| > 0 {
      var obs' := obs[..|obs| - 1];
      CollectKeys(obs', p);
      if exists k :: 0 <= k < |obs| && obs[k].path == p {
        var k :| 0 <= k < |obs| && obs[k].path == p;
        if k < |obs| - 1 {
          assert obs'[k] == obs[k];
        }
      }
      if p in Collect(obs') {
        var k :| 0 <= k < |obs'| && obs'[k].path == p;
        assert obs[k] == obs'[k];
      }
    }
  }

  /** The candidate snapshot records, for each path, the metadata of its
      last observation in the cycle. */
  lemma {:induction false} CollectLatest(obs: seq<Observation>, k: int)
    requires LastOf(obs, k)
    ensures obs[k].path in Collect(obs)
    ensures Collect(obs)[obs[k].path] == obs[k].info
    decreases |obs|
  {
    var obs' := obs[..|obs| - 1];
    if k < |obs| - 1 {
      assert LastOf(obs', k);
      CollectLatest(obs', k);
      assert obs[|obs| - 1].path != obs[k].path;
    }
  }

  /** The candidate snapshot is empty exactly when nothing was observed. */
  lemma {:induction false} CollectEmpty(obs: seq<Observation>)
    ensures |Collect(obs)| == 0 <==> |obs| == 0
  {
    if |obs| > 0 {
      CollectKeys(obs, obs[0].path);
      assert obs[0].path in Collect(obs);
    }
  }

  /** A path counted by `CountPath` is one the cycle observed. */
  lemma {:induction false} CountPathObserved(obs: seq<Observation>, p: Path)
    ensures CountPath(obs, p) > 0 <==> exists k :: 0 <= k < |obs| && obs[k].path == p
    decreases |obs|
  {
    if |obs| > 0 {
      var obs' := obs[..|obs| - 1];
      CountPathObserved(obs', p);
      if exists k :: 0 <= k < |obs| && obs[k].path == p {
        var k :| 0 <= k < |obs| && obs[k].path == p;
        if k < |obs| - 1 {
          assert obs'[k] == obs[k];
        }
      }
      if CountPath(obs', p) > 0 {
        var k :| 0 <= k < |obs'| && obs'[k].path == p;
        assert obs[k] == obs'[k];
      }
    }
  }

  // ---------------------------------------------------------------------
  // Whole cycles

  /** Events follow the configured location order: scanning two runs of
      locations emits the first run's events, then the second's. */
  lemma {:induction false} ScanEventsAppend(prev: State, a: seq<Listing>, b: seq<Listing>)
    ensures Scan(prev, a + b).events == Scan(prev, a).events + Scan(prev, b).events
  {
    ObservationsAppend(a, b);
    DetectAppend(prev, Observations(a), Observations(b));
  }

  /** A location whose listing fails changes nothing about the cycle: no
      events, no snapshot entries, and the remaining locations are scanned. */
  lemma {:induction false} ScanSkipsUnreadable(prev: State, a: seq<Listing>, b: seq<Listing>)
    ensures Scan(prev, a + [Unreadable] + b) == Scan(prev, a + b)
  {
    UnreadableContributesNothing(a, b);
  }

  /** CREATE detection: a path the previous snapshot does not hold yields one
      CREATE event per time the cycle lists it, and no MODIFIED event; so a
      path listed twice in one cycle is reported twice. */
  lemma {:induction false} ScanCreates(prev: State, ls: seq<Listing>, p: Path)
    requires p !in prev
    ensures multiset(Scan(prev, ls).events)[Event(p, Create)] == CountPath(Observations(ls), p)
    ensures multiset(Scan(prev, ls).events)[Event(p, Modified)] == 0
  {
    DetectCreates(prev, Observations(ls), p);
    DetectModifies(prev, Observations(ls), p);
  }

  /** New-file detection: a cycle that lists a path the previous snapshot
      does not hold reports CREATE for it. */
  lemma {:induction false} ScanCreatesListed(prev: State, ls: seq<Listing>, p: Path)
    requires p !in prev
    requires Lists(ls, p)
    ensures Event(p, Create) in Scan(prev, ls).events
  {
    var obs := Observations(ls);
    DetectCreates(prev, obs, p);
    CountPathObserved(obs, p);
  }

  /** MODIFIED detection: a path the previous snapshot holds yields one
      MODIFIED event per listing of it with a different timestamp, and never
      a CREATE event. */
  lemma {:induction false} ScanModifies(prev: State, ls: seq<Listing>, p: Path)
    requires p in prev
    ensures multiset(Scan(prev, ls).events)[Event(p, Modified)]
            == CountChanged(Observations(ls), p, prev[p].modTime)
    ensures multiset(Scan(prev, ls).events)[Event(p, Create)] == 0
  {
    DetectCreates(prev, Observations(ls), p);
    DetectModifies(prev, Observations(ls), p);
  }

  /** An unchanged timestamp yields no event: if every listing of a known
      path reports the remembered timestamp, no event names that path. */
  lemma {:induction false} ScanQuietWhenUnchanged(prev: State, ls: seq<Listing>, p: Path)
    requires p in prev
    requires forall o :: o in Observations(ls) && o.path == p ==> o.info.modTime == prev[p].modTime
    ensures forall e :: e in Scan(prev, ls).events ==> e.path != p
  {
    var obs := Observations(ls);
    forall e | e in Scan(prev, ls).events
      ensures e.path != p
    {
      DetectSound(prev, obs, e);
      var k :| 0 <= k < |obs| && obs[k].path == e.path
               && (e.op == Create <==> e.path !in prev)
               && (e.op == Modified ==> prev[e.path].modTime != obs[k].info.modTime);
      assert obs[k] in obs;
    }
  }

  /** Every event names a path the cycle listed. */
  lemma {:induction false} ScanEventsListed(prev: State, ls: seq<Listing>, e: Event)
    requires e in Scan(prev, ls).events
    ensures Lists(ls, e.path)
    ensures e.op == Create <==> e.path !in prev
  {
    DetectSound(prev, Observations(ls), e);
  }

  /** Snapshot replacement: when the cycle observed anything, the new
      snapshot holds exactly the listed paths; stale entries do not survive
      and no listed path is missing. */
  lemma {:induction false} ScanReplaces(prev: State, ls: seq<Listing>, p: Path)
    requires |Observations(ls)| > 0
    ensures p in Scan(prev, ls).next <==> Lists(ls, p)
  {
    CollectEmpty(Observations(ls));
    CollectKeys(Observations(ls), p);
  }

  /** When the cycle observed anything, the new snapshot records each path
      with the metadata of its last listing in the cycle. */
  lemma {:induction false} ScanRecordsLatest(prev: State, ls: seq<Listing>, k: int)
    requires LastOf(Observations(ls), k)
    ensures Observations(ls)[k].path in Scan(prev, ls).next
    ensures Scan(prev, ls).next[Observations(ls)[k].path] == Observations(ls)[k].info
  {
    CollectEmpty(Observations(ls));
    CollectLatest(Observations(ls), k);
  }

  /** The empty-scan guard: a cycle in which no location listed any entry
      that resolved, whether the locations are empty or unreadable, emits
      nothing and keeps the previous snapshot unchanged. */
  lemma {:induction false} ScanKeepsOnEmpty(prev: State, ls: seq<Listing>)
    requires forall i, j, o :: !ListedAt(ls, i, j, o)
    ensures Scan(prev, ls).events == []
    ensures Scan(prev, ls).next == prev
  {
    var obs := Observations(ls);
    if |obs| > 0 {
      ObservationsSound(ls, obs[0]);
      assert false;
    }
    CollectEmpty(obs);
  }

  /** A cycle in which every location is unreadable observes nothing. */
  lemma {:induction false} AllUnreadableObservesNothing(ls: seq<Listing>)
    requires forall i :: 0 <= i < |ls| ==> ls[i] == Unreadable
    ensures |Observations(ls)| == 0
    decreases |ls|
  {
    if |ls| > 0 {
      AllUnreadableObservesNothing(ls[..|ls| - 1]);
    }
  }

  /** As written, the guard protects only a cycle that observed nothing at
      all: once any location lists something, a remembered path that no
      location listed, including one whose own location failed to list, is
      dropped from the snapshot and will be reported as CREATE when it is
      listed again. */
  lemma {:induction false} ScanForgetsUnlisted(prev: State, ls: seq<Listing>, p: Path)
    requires |Observations(ls)| > 0
    requires !Lists(ls, p)
    ensures p !in Scan(prev, ls).next
    ensures forall later :: Lists(later, p) ==>
              Event(p, Create) in Scan(Scan(prev, ls).next, later).events
  {
    ScanReplaces(prev, ls, p);
    forall later | Lists(later, p)
      ensures Event(p, Create) in Scan(Scan(prev, ls).next, later).events
    {
      ScanCreatesListed(Scan(prev, ls).next, later, p);
    }
  }

  /** Retry after eviction: once a path is evicted, the next cycle that
      lists it reports it as CREATE, once per listing. */
  lemma {:induction false} EvictThenScanCreates(s: State, p: Path, ls: seq<Listing>)
    requires Lists(ls, p)
    ensures Event(p, Create) in Scan(Evict(s, p), ls).events
    ensures multiset(Scan(Evict(s, p), ls).events)[Event(p, Create)] == CountPath(Observations(ls), p)
  {
    ScanCreates(Evict(s, p), ls, p);
    ScanCreatesListed(Evict(s, p), ls, p);
  }
}
