/**
 The detector's timer branch as an imperative loop over the feed locations
 and their entries, handing each event to the queue as soon as it is
 classified. It is proved to compute exactly the cycle that `Detector.Scan`
 defines, so every property proved of `Scan` holds of the loop.
 */
module ScanLoop {
  import opened Snapshot
  import opened Listings
  import opened Detector

  /** Appending one observation extends the events by its classification
      and the candidate snapshot by its record. */
  lemma StepOne(prev: State, obs: seq<Observation>, o: Observation)
    ensures Detect(prev, obs + [o]) == Detect(prev, obs) + Classify(prev, o)
    ensures Collect(obs + [o]) == Collect(obs)[o.path := o.info]
  {
    assert (obs + [o])[..|obs|] == obs;
  }

  /** One more entry of a location adds that entry's observation, if any. */
  lemma EntriesPrefixStep(es: seq<Entry>, j: int)
    requires 0 <= j < |es|
    ensures EntriesObservations(es[..j + 1]) == EntriesObservations(es[..j]) + EntryObservation(es[j])
  {
    assert es[..j + 1][..j] == es[..j];
  }

  /** Taking one more entry of a location extends the events by that entry's
      classification and the candidate snapshot by its record, or leaves both
      alone when the entry did not resolve. */
  lemma AdvanceEntry(prev: State, before: seq<Observation>, es: seq<Entry>, j: int)
    requires 0 <= j < |es|
    ensures var seen := before + EntriesObservations(es[..j]);
            var now := before + EntriesObservations(es[..j + 1]);
            match es[j].abs
            case Unresolvable =>
              now == seen
            case Resolved(p) =>
              && Detect(prev, now) == Detect(prev, seen) + Classify(prev, Observation(p, es[j].info))
              && Collect(now) == Collect(seen)[p := es[j].info]
  {
    EntriesPrefixStep(es, j);
    var prefix := EntriesObservations(es[..j]);
    var seen := before + prefix;
    match es[j].abs
    case Unresolvable =>
      assert prefix + [] == prefix;
    case Resolved(p) =>
      var o := Observation(p, es[j].info);
      assert before + (prefix + [o]) == seen + [o];
      StepOne(prev, seen, o);
  }

  /** The entries of one listed location, in listing order: each resolved
      entry is recorded in the candidate snapshot and, when it is new or its
      timestamp changed, sent to the queue. */
  method ScanLocation(prev: State, es: seq<Entry>, ghost before: seq<Observation>,
                      queue0: seq<Event>, current0: State)
    returns (queue: seq<Event>, current: State)
    requires queue0 == Detect(prev, before)
    requires current0 == Collect(before)
    ensures queue == Detect(prev, before + EntriesObservations(es))
    ensures current == Collect(before + EntriesObservations(es))
  {
    queue, current := queue0, current0;
    assert es[..0] == [];
    assert before + [] == before;
    for j := 0 to |es|
      invariant queue == Detect(prev, before + EntriesObservations(es[..j]))
      invariant current == Collect(before + EntriesObservations(es[..j]))
    {
      AdvanceEntry(prev, before, es, j);
      match es[j].abs
      case Unresolvable =>
        // the name did not resolve to an absolute path: skip the entry
      case Resolved(path) =>
        var known := path in prev;
        current := current[path := es[j].info];
        if !known {
          queue := queue + [Event(path, Create)];
        } else if prev[path].modTime != es[j].info.modTime {
          queue := queue + [Event(path, Modified)];
        }
    }
    assert es[..|es|] == es;
  }

  /** One scan cycle: `queue` receives the events in the order they are
      sent, `next` is the snapshot kept for the following cycle. */
  method ScanFeeds(prev: State, ls: seq<Listing>) returns (queue: seq<Event>, next: State)
    ensures queue == Scan(prev, ls).events
    ensures next == Scan(prev, ls).next
  {
    var current: State := map[];
    queue := [];
    for i := 0 to |ls|
      invariant queue == Detect(prev, Observations(ls[..i]))
      invariant current == Collect(Observations(ls[..i]))
    {
      assert ls[..i + 1][..i] == ls[..i];
      assert Observations(ls[..i + 1]) == Observations(ls[..i]) + ListingObservations(ls[i]);
      match ls[i]
      case Unreadable =>
        // the location could not be listed: skip it for this cycle
        assert Observations(ls[..i]) + [] == Observations(ls[..i]);
      case Listed(es) =>
        queue, current := ScanLocation(prev, es, Observations(ls[..i]), queue, current);
    }
    assert ls[..|ls|] == ls;
    next := prev;
    if |current| > 0 {
      next := current;
    }
  }
}
