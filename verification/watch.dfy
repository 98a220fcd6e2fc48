/**
 The detector's endless loop. Each iteration services exactly one of two
 inputs: the timer, which runs a scan cycle over what the feed locations list
 at that moment, or a read-failure report from a processor, which evicts the
 failed path from the snapshot. Sending an event to the processors is
 modelled as appending it to the sequence of events sent so far.
 */
module Watch {
  import opened Snapshot
  import opened Listings
  import opened Detector

  /** One iteration of the loop: the timer fired while the feed locations
      listed `listings`, or a processor failed to read `path`. */
  datatype Step = Tick(listings: seq<Listing>) | ReadError(path: Path)

  /** The detector's state: its snapshot and every event it has sent. */
  datatype Watcher = Watcher(snapshot: State, sent: seq<Event>)

  /** The state at start-up: nothing remembered, nothing sent. */
  function Initial(): Watcher
  {
    Watcher(map[], [])
  }

  /** One iteration of the loop. Events already sent stay sent; a read
      failure forgets the failed path and sends nothing. */
  function Apply(w: Watcher, s: Step): (r: Watcher)
    ensures w.sent <= r.sent
    ensures s.ReadError? ==> s.path !in r.snapshot && r.sent == w.sent
  {
    match s
    case Tick(ls) =>
      var c := Scan(w.snapshot, ls);
      Watcher(c.next, w.sent + c.events)
    case ReadError(p) =>
      Watcher(Evict(w.snapshot, p), w.sent)
  }

  /** A run of iterations, in order. Events once sent are never withdrawn. */
  function Run(w: Watcher, steps: seq<Step>): (r: Watcher)
    ensures w.sent <= r.sent
    decreases |steps|
  {
    if |steps| == 0 then w
    else Apply(Run(w, steps[..|steps| - 1]), steps[|steps| - 1])
  }

  /** The step is a timer tick whose listings include a file resolving to `p`. */
  predicate Observes(s: Step, p: Path)
  {
    s.Tick? && Lists(s.listings, p)
  }

  /** No timer tick of `steps` lists `p`. */
  predicate NeverListed(steps: seq<Step>, p: Path)
  {
    forall k :: 0 <= k < |steps| ==> !Observes(steps[k], p)
  }

  /** Running two stretches of iterations is running the second from where
      the first left off; events already sent are never withdrawn. */
  lemma {:induction false} RunAppend(w: Watcher, a: seq<Step>, b: seq<Step>)
    ensures Run(w, a + b) == Run(Run(w, a), b)
    ensures Run(w, a).sent <= Run(w, a + b).sent
    decreases |b|
  {
    if |b| == 0 {
      assert a + b == a;
    } else {
      var b' := b[..|b| - 1];
      assert (a + b)[..|a + b| - 1] == a + b';
      assert (a + b)[|a + b| - 1] == b[|b| - 1];
      RunAppend(w, a, b');
    }
  }

  /** A run of one iteration is that iteration. */
  lemma {:induction false} RunOne(w: Watcher, s: Step)
    ensures Run(w, [s]) == Apply(w, s)
  {
    assert [s][..0] == [];
  }

  /** One iteration that does not list a forgotten path keeps it forgotten:
      a scan either adopts its candidate snapshot, which holds only listed
      paths, or keeps the old one; an eviction only removes. */
  lemma {:induction false} ApplyKeepsAbsent(w: Watcher, s: Step, p: Path)
    requires p !in w.snapshot
    requires !Observes(s, p)
    ensures p !in Apply(w, s).snapshot
  {
    if s.Tick? {
      var obs := Observations(s.listings);
      CollectKeys(obs, p);
    }
  }

  /** A forgotten path stays forgotten until a timer tick lists it again. */
  lemma {:induction false} AbsentPersists(w: Watcher, steps: seq<Step>, p: Path)
    requires p !in w.snapshot
    requires NeverListed(steps, p)
    ensures p !in Run(w, steps).snapshot
    decreases |steps|
  {
    if |steps| > 0 {
      var steps' := steps[..|steps| - 1];
      assert NeverListed(steps', p) by {
        forall k | 0 <= k < |steps'|
          ensures !Observes(steps'[k], p)
        {
          assert steps'[k] == steps[k];
        }
      }
      AbsentPersists(w, steps', p);
      ApplyKeepsAbsent(Run(w, steps'), steps[|steps| - 1], p);
    }
  }

  /** Retry on read failure: `after` is the state once a processor has
      reported `p` and `between` has run. The first later
      timer tick that lists `p` sends CREATE for it, however many other
      ticks and evictions come in between. */
  lemma {:induction false} RetryAfterReadError(w: Watcher, p: Path, between: seq<Step>, ls: seq<Listing>,
                                               after: Watcher)
    requires after == Run(w, [ReadError(p)] + between)
    requires NeverListed(between, p)
    requires Lists(ls, p)
    ensures p !in after.snapshot
    ensures Event(p, Create) in Scan(after.snapshot, ls).events
    ensures Event(p, Create) in Apply(after, Tick(ls)).sent
  {
    var first: seq<Step> := [ReadError(p)];
    var evicted := Run(w, first);
    RunOne(w, ReadError(p));
    RunAppend(w, first, between);
    AbsentPersists(evicted, between, p);
    ScanCreatesListed(after.snapshot, ls, p);
  }

  /** A CREATE is sent for a path only while the snapshot does not hold it,
      and only by a poll that lists it. */
  lemma {:induction false} CreateOnlyWhenAbsent(w: Watcher, ls: seq<Listing>, p: Path)
    requires Event(p, Create) in Scan(w.snapshot, ls).events
    ensures p !in w.snapshot
    ensures Lists(ls, p)
  {
    ScanEventsListed(w.snapshot, ls, Event(p, Create));
  }

  /** How a path leaves the snapshot: a remembered path is gone after one
      iteration exactly when that iteration was a read-error report for it,
      or a poll that observed something but did not list it. With
      `CreateOnlyWhenAbsent`, one of the two must come before a remembered
      path is reported new again. */
  lemma {:induction false} LeavesSnapshot(w: Watcher, s: Step, p: Path)
    requires p in w.snapshot
    ensures p !in Apply(w, s).snapshot <==>
              || s == ReadError(p)
              || (s.Tick? && |Observations(s.listings)| > 0 && !Lists(s.listings, p))
  {
    if s.Tick? {
      var obs := Observations(s.listings);
      CollectEmpty(obs);
      CollectKeys(obs, p);
    }
  }

  /** Snapshot provenance: from start-up, every path the snapshot holds was
      listed by some earlier timer tick. */
  lemma {:induction false} SnapshotProvenance(steps: seq<Step>, p: Path)
    requires p in Run(Initial(), steps).snapshot
    ensures exists k :: 0 <= k < |steps| && Observes(steps[k], p)
  {
    if NeverListed(steps, p) {
      AbsentPersists(Initial(), steps, p);
      assert false;
    }
  }

  /** A tick whose listings resolve to a single file records exactly that
      file and classifies it against the previous snapshot. */
  lemma {:induction false} SingleFileTick(w: Watcher, ls: seq<Listing>, o: Observation)
    requires Observations(ls) == [o]
    ensures Apply(w, Tick(ls)) == Watcher(map[o.path := o.info], w.sent + Classify(w.snapshot, o))
  {
    assert [o][..0] == [];
    assert Detect(w.snapshot, [o]) == Detect(w.snapshot, []) + Classify(w.snapshot, o);
    assert Collect([o]) == Collect([])[o.path := o.info];
    assert o.path in Collect([o]);
  }

  /** A worked run with one file: from start-up the file is reported new,
      then stays quiet while unchanged; a read failure makes the next tick
      report it new again; a later change of its modification time reports
      it modified. */
  lemma {:induction false} ScenarioRetryThenModify(dir: seq<Listing>, touched: seq<Listing>,
                                                   p: Path, info: FileInfo, info': FileInfo)
    requires Observations(dir) == [Observation(p, info)]
    requires Observations(touched) == [Observation(p, info')]
    requires info'.modTime != info.modTime
    ensures var w := Apply(Apply(Apply(Apply(Apply(Initial(),
                       Tick(dir)), Tick(dir)), ReadError(p)), Tick(dir)), Tick(touched));
            && w.sent == [Event(p, Create), Event(p, Create), Event(p, Modified)]
            && w.snapshot == map[p := info']
  {
    var o, o' := Observation(p, info), Observation(p, info');
    var w1 := Apply(Initial(), Tick(dir));
    assert w1 == Watcher(map[p := info], [Event(p, Create)]) by {
      SingleFileTick(Initial(), dir, o);
    }
    var w2 := Apply(w1, Tick(dir));
    assert w2 == w1 by {
      SingleFileTick(w1, dir, o);
    }
    var w3 := Apply(w2, ReadError(p));
    assert w3 == Watcher(map[], w1.sent);
    var w4 := Apply(w3, Tick(dir));
    assert w4 == Watcher(map[p := info], [Event(p, Create), Event(p, Create)]) by {
      SingleFileTick(w3, dir, o);
    }
    var w5 := Apply(w4, Tick(touched));
    assert w5 == Watcher(map[p := info'], w4.sent + [Event(p, Modified)]) by {
      SingleFileTick(w4, touched, o');
    }
  }

  /** A single location listing a single resolvable file is observed as
      that one file. */
  lemma {:induction false} OneFileObserved(p: Path, info: FileInfo)
    ensures Observations([Listed([Entry(info, Resolved(p))])]) == [Observation(p, info)]
  {
    var e := Entry(info, Resolved(p));
    var l := Listed([e]);
    assert [e][..0] == [];
    assert EntriesObservations([e]) == EntriesObservations([]) + EntryObservation(e);
    ObservationsSnoc([], l);
    assert [] + [l] == [l];
  }
}
