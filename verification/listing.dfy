/**
 What one scan cycle observes. Each configured feed location yields either a
 listing failure or its directory entries in listing order; each entry carries
 the outcome of resolving "location + separator + name" to an absolute path,
 which is an operating-system matter and therefore an input here.
 */
module Listings {
  import opened Snapshot

  /** The result of resolving an entry's name to an absolute path. */
  datatype Resolution = Unresolvable | Resolved(path: Path)

  /** One directory entry: its metadata and where it resolved to. */
  datatype Entry = Entry(info: FileInfo, abs: Resolution)

  /** The outcome of listing one feed location. */
  datatype Listing = Unreadable | Listed(entries: seq<Entry>)

  /** A resolved entry as the change detector sees it. */
  datatype Observation = Observation(path: Path, info: FileInfo)

  /** The observations one entry contributes: none if its path did not resolve. */
  function EntryObservation(e: Entry): seq<Observation>
  {
    match e.abs
    case Unresolvable => []
    case Resolved(p) => [Observation(p, e.info)]
  }

  /** The observations of one directory's entries, in listing order: at most
      one per entry. */
  function EntriesObservations(es: seq<Entry>): (r: seq<Observation>)
    ensures |r| <= |es|
    decreases |es|
  {
    if |es| == 0 then []
    else EntriesObservations(es[..|es| - 1]) + EntryObservation(es[|es| - 1])
  }

  /** The observations one feed location contributes. */
  function ListingObservations(l: Listing): seq<Observation>
  {
    match l
    case Unreadable => []
    case Listed(es) => EntriesObservations(es)
  }

  /** How many entries a location lists: none when it cannot be listed. */
  function EntryCountOf(l: Listing): nat
  {
    if l.Listed? then |l.entries| else 0
  }

  /** How many entries the listed locations of a cycle hold. */
  function EntryCount(ls: seq<Listing>): nat
    decreases |ls|
  {
    if |ls| == 0 then 0
    else EntryCount(ls[..|ls| - 1]) + EntryCountOf(ls[|ls| - 1])
  }

  /** Everything a scan cycle observes: locations in configured order, and
      within a location, entries in listing order. */
  function Observations(ls: seq<Listing>): seq<Observation>
    decreases |ls|
  {
    if |ls| == 0 then []
    else Observations(ls[..|ls| - 1]) + ListingObservations(ls[|ls| - 1])
  }

  /** At most one observation per entry of a listed location: an
      unreadable location adds none, an unresolvable entry adds none. */
  lemma {:induction false} ObservationsBound(ls: seq<Listing>)
    ensures |Observations(ls)| <= EntryCount(ls)
    decreases |ls|
  {
    if |ls| > 0 {
      ObservationsBound(ls[..|ls| - 1]);
    }
  }

  /** Entry `j` of location `i` was listed and resolved to observation `o`. */
  predicate ListedAt(ls: seq<Listing>, i: int, j: int, o: Observation)
  {
    && 0 <= i < |ls|
    && ls[i].Listed?
    && 0 <= j < |ls[i].entries|
    && ls[i].entries[j] == Entry(o.info, Resolved(o.path))
  }

  /** Some location of the cycle listed a file that resolved to `p`. */
  predicate Lists(ls: seq<Listing>, p: Path)
  {
    exists k :: 0 <= k < |Observations(ls)| && Observations(ls)[k].path == p
  }

  lemma {:induction false} EntriesObservationsAppend(a: seq<Entry>, b: seq<Entry>)
    ensures EntriesObservations(a + b) == EntriesObservations(a) + EntriesObservations(b)
    decreases |b|
  {
    if |b| == 0 {
      assert a + b == a;
    } else {
      var b' := b[..|b| - 1];
      assert (a + b)[..|a + b| - 1] == a + b';
      assert (a + b)[|a + b| - 1] == b[|b| - 1];
      EntriesObservationsAppend(a, b');
    }
  }

  /** Adding one location at the end adds its observations at the end. */
  lemma ObservationsSnoc(ls: seq<Listing>, l: Listing)
    ensures Observations(ls + [l]) == Observations(ls) + ListingObservations(l)
  {
    assert (ls + [l])[..|ls|] == ls;
  }

  /** Listing order is kept across locations: the observations of two runs of
      locations are those of the first followed by those of the second. */
  lemma {:induction false} ObservationsAppend(a: seq<Listing>, b: seq<Listing>)
    ensures Observations(a + b) == Observations(a) + Observations(b)
    decreases |b|
  {
    if |b| == 0 {
      assert a + b == a;
    } else {
      var b', l := b[..|b| - 1], b[|b| - 1];
      assert b == b' + [l];
      assert a + b == (a + b') + [l];
      var lo := ListingObservations(l);
      calc {
        Observations(a + b);
        { ObservationsSnoc(a + b', l); }
        Observations(a + b') + lo;
        { ObservationsAppend(a, b'); }
        (Observations(a) + Observations(b')) + lo;
        Observations(a) + (Observations(b') + lo);
        { ObservationsSnoc(b', l); }
        Observations(a) + Observations(b);
      }
    }
  }

  /** An unreadable location contributes nothing and does not stop the cycle:
      the cycle observes exactly what it would without that location. */
  lemma {:induction false} UnreadableContributesNothing(a: seq<Listing>, b: seq<Listing>)
    ensures Observations(a + [Unreadable] + b) == Observations(a + b)
  {
    ObservationsSnoc(a, Unreadable);
    ObservationsAppend(a + [Unreadable], b);
    ObservationsAppend(a, b);
  }

  /** Every observation of a directory comes from one of its entries that
      resolved to that path with that metadata. */
  lemma {:induction false} EntriesObservationsSound(es: seq<Entry>, o: Observation)
    requires o in EntriesObservations(es)
    ensures exists j :: 0 <= j < |es| && es[j] == Entry(o.info, Resolved(o.path))
    decreases |es|
  {
    var es' := es[..|es| - 1];
    if o in EntriesObservations(es') {
      EntriesObservationsSound(es', o);
      var j :| 0 <= j < |es'| && es'[j] == Entry(o.info, Resolved(o.path));
      assert es[j] == es'[j];
    } else {
      assert o in EntryObservation(es[|es| - 1]);
    }
  }

  /** Every entry of a directory that resolved is observed. */
  lemma {:induction false} EntriesObservationsComplete(es: seq<Entry>, j: int, o: Observation)
    requires 0 <= j < |es| && es[j] == Entry(o.info, Resolved(o.path))
    ensures o in EntriesObservations(es)
  {
    assert es == es[..j] + [es[j]] + es[j + 1..];
    EntriesObservationsAppend(es[..j] + [es[j]], es[j + 1..]);
    EntriesObservationsAppend(es[..j], [es[j]]);
    assert [es[j]][..0] == [];
    assert EntriesObservations([es[j]]) == EntriesObservations([]) + EntryObservation(es[j]);
    assert EntriesObservations([es[j]]) == [o];
  }

  /** Nothing is invented: every observation of a cycle is a resolved entry
      of a location that could be listed. */
  lemma {:induction false} ObservationsSound(ls: seq<Listing>, o: Observation)
    requires o in Observations(ls)
    ensures exists i, j :: ListedAt(ls, i, j, o)
    decreases |ls|
  {
    var ls' := ls[..|ls| - 1];
    var last := ls[|ls| - 1];
    if o in Observations(ls') {
      ObservationsSound(ls', o);
      var i, j :| ListedAt(ls', i, j, o);
      assert ls[i] == ls'[i];
      assert ListedAt(ls, i, j, o);
    } else {
      assert o in ListingObservations(last);
      EntriesObservationsSound(last.entries, o);
      var j :| 0 <= j < |last.entries| && last.entries[j] == Entry(o.info, Resolved(o.path));
      assert ListedAt(ls, |ls| - 1, j, o);
    }
  }

  /** Nothing is lost: every resolved entry of a location that could be
      listed is observed by the cycle. */
  lemma {:induction false} ObservationsComplete(ls: seq<Listing>, i: int, j: int, o: Observation)
    requires ListedAt(ls, i, j, o)
    ensures o in Observations(ls)
  {
    assert ls == ls[..i] + [ls[i]] + ls[i + 1..];
    ObservationsAppend(ls[..i] + [ls[i]], ls[i + 1..]);
    ObservationsSnoc(ls[..i], ls[i]);
    EntriesObservationsComplete(ls[i].entries, j, o);
  }
}
