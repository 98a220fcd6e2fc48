# Change detection in the XML feed reader

The feed reader polls a configured list of feed directories. The loop waits
100 ms before each poll, and it starts that wait only after the previous poll's
events have all been handed over, or after a read-failure report has been
handled. Polls are therefore at least 100 ms apart, not strictly periodic.
Each poll lists every directory, compares each file's modification time with
a remembered snapshot, and sends a `CREATE` or `MODIFIED` event for each new
or changed file to a pool of worker goroutines. A worker that cannot read a
file reports the path back, and the detector evicts it from the snapshot, so
the file is offered again as `CREATE` on a later poll.

This project models that detector as a small state machine over the snapshot
and proves its behaviour.

- `Snapshot` (`snapshot.dfy`) defines the vocabulary.
  - Paths and file metadata (`FileInfo`: name, size, modification time).
  - The snapshot `State` is a map from absolute path to the last metadata seen.
  - `Event` pairs a path with an `Op` (`Create` or `Modified`).
  - `Message` is the `event` struct as sent: a path and an operation string,
    produced from an `Event` by `Render`.
  - `Evict` removes one path from the snapshot.
- `Listings` (`listing.dfy`) models what one poll observes. Each feed location
  is either `Unreadable` or `Listed` with its entries in listing order. Each
  entry carries the result of resolving its name to an absolute path.
  `Observations` flattens the resolved entries: locations in configured
  order, then entries in listing order.
- `Detector` (`detector.dfy`) is the reference definition of one poll.
  - `Classify` compares a single observation with the previous snapshot.
  - `Detect` gives the events of a run of observations.
  - `Collect` builds the candidate snapshot (`currentState` in the source).
  - `Scan` produces the events, the candidate snapshot, and the snapshot kept afterwards.
  - The lemmas state classification, ordering, snapshot replacement, the
    empty-poll guard, and retry after eviction.
- `ScanLoop` (`scan_loop.dfy`) gives the timer branch as the source writes it:
  a loop over locations with an inner loop over entries. Events are appended
  to a queue as they are classified. It is proved to compute exactly what
  `Detector.Scan` defines.
- `Watch` (`watch.dfy`) models the endless `select` loop as a sequence of
  steps. Each step is either a timer tick carrying that moment's listings or
  a read-error report. The module proves that a read error leads to a
  `CREATE` on the next poll that lists the file, and that every path in the
  snapshot was listed by some earlier poll.

A location that fails to list while other locations list at least one file
does not keep its snapshot entries. The code replaces the snapshot with the candidate
snapshot whenever that candidate is non-empty (app.go:66-67), and the
candidate holds only what this poll listed. So the failed location's files are
dropped, and they are reported as `CREATE` again once the location lists
again. `Detector.ScanForgetsUnlisted` states this. Only a poll that observes
nothing at all keeps the old snapshot (`Detector.ScanKeepsOnEmpty`).

## Model

| member | source | states |
|---|---|---|
| Snapshot.Tag | app.go:59-61 | an operation's tag is one of the two words CREATE and MODIFIED, and it is CREATE exactly for the `Create` operation (which `Detector.ScanEventsListed` ties to a path absent from the snapshot) |
| Snapshot.Render | app.go:18-21 | the message sent for an event carries the event's path, and its op string is CREATE exactly for a `Create` event and MODIFIED exactly for a `Modified` one |
| Snapshot.RenderInjective | app.go:18-21 | two events that are sent as the same message are the same event, so the op string loses nothing |
| Snapshot.Evict | app.go:69-70 | eviction removes exactly the reported path and keeps every other entry with its metadata; evicting an absent path changes nothing |
| Listings.Observations | app.go:49-55 | the definition of what a poll observes: resolved entries, locations in configured order, entries in listing order. `Listings.ObservationsSound` and `Listings.ObservationsComplete` characterise it against entry indices, and `Listings.ObservationsBound` bounds it |
| Listings.EntriesObservations | app.go:54-55 | one directory's entries give at most one observation each |
| Listings.ObservationsBound | app.go:49-55 | a poll observes at most one file per entry of a location that could be listed |
| Listings.EntriesObservationsAppend | app.go:54-55 | the entries of a directory are observed in listing order: observations of a concatenation are the concatenation of observations |
| Listings.ObservationsAppend | app.go:49-54 | locations are scanned in configured order: the observations of two runs of locations are those of the first followed by those of the second |
| Listings.UnreadableContributesNothing | app.go:49-53 | a location whose listing fails contributes no observation, and the locations after it are still scanned |
| Listings.EntriesObservationsSound | app.go:54-57 | every observation of a directory comes from one of its entries that resolved to that path with that metadata |
| Listings.EntriesObservationsComplete | app.go:54-57 | every entry of a directory whose path resolved is observed; only unresolvable entries are dropped |
| Listings.ObservationsSound | app.go:49-57 | nothing is invented: every observation of a poll is a resolved entry of a location that could be listed |
| Listings.ObservationsComplete | app.go:49-57 | nothing is lost: every resolved entry of every location that could be listed is observed by the poll |
| Detector.Classify | app.go:56-62 | the definition of classification. One observation gives at most one event, about the observed path, and none exactly when the path is remembered with the same modification time. `Detector.ClassifyCounts` gives the exact CREATE and MODIFIED counts |
| Detector.Detect | app.go:54-62 | the definition of a poll's events: at most one per observation. `Detector.DetectCreates`, `Detector.DetectModifies`, `Detector.DetectSound` and `Detector.DetectAppend` characterise it |
| Detector.Collect | app.go:47-57 | the definition of the candidate snapshot: at most one record per observation. `Detector.CollectKeys`, `Detector.CollectLatest` and `Detector.CollectEmpty` characterise it |
| Detector.Scan | app.go:47-68 | the definition of one poll: at most one event and one candidate record per observation, and the kept snapshot is either the candidate or the previous one. `Detector.ScanReplaces`, `Detector.ScanKeepsOnEmpty` and the other scan lemmas characterise it |
| Detector.ClassifyCounts | app.go:56-62 | one observation yields a CREATE exactly when its path is unknown to the snapshot, a MODIFIED exactly when the path is known with a different time, and otherwise nothing |
| Detector.DetectAppend | app.go:54-62 | classification consults only the previous snapshot, so the events of two runs of observations are those of the first followed by those of the second |
| Detector.DetectCreates | app.go:56-59 | a path missing from the previous snapshot gets one CREATE per observation of it; a known path gets none |
| Detector.DetectModifies | app.go:56-62 | a known path gets one MODIFIED per observation with a different modification time; an equal time or an unknown path gets none |
| Detector.DetectSound | app.go:56-62 | every event comes from an observation of its path; it is CREATE exactly when the path was unknown, and MODIFIED only with a different time |
| Detector.CollectKeys | app.go:47-57 | the candidate snapshot holds exactly the observed paths |
| Detector.CollectLatest | app.go:57 | the candidate snapshot records each path with the metadata of its last observation in the poll |
| Detector.CollectEmpty | app.go:57-66 | the candidate snapshot is empty exactly when the poll observed nothing |
| Detector.ScanEventsAppend | app.go:49-62 | a poll's events come in configured-location order, then listing order |
| Detector.ScanSkipsUnreadable | app.go:50-53 | an unreadable location leaves the whole poll (events, candidate and kept snapshot) as if that location were not configured |
| Detector.ScanCreates | app.go:56-59 | a path absent from the snapshot is reported CREATE once per listing of it, never MODIFIED, so a path listed twice in one poll is reported twice |
| Detector.ScanCreatesListed | app.go:56-59 | a poll that lists a path missing from the snapshot reports CREATE for it |
| Detector.ScanModifies | app.go:56-62 | a path in the snapshot is reported MODIFIED once per listing with a changed time and never CREATE |
| Detector.ScanQuietWhenUnchanged | app.go:60-62 | a known path whose listings all carry the remembered time produces no event |
| Detector.ScanEventsListed | app.go:54-62 | every event names a path the poll listed, and it is CREATE exactly when the snapshot did not hold that path |
| Detector.ScanReplaces | app.go:66-67 | a poll that observed anything leaves a snapshot holding exactly the listed paths, with no stale entry and none missing |
| Detector.ScanRecordsLatest | app.go:57-67 | a poll that observed anything leaves each listed path with the metadata of its last listing in that poll |
| Detector.ScanKeepsOnEmpty | app.go:66-68 | a poll in which no location listed a resolvable entry emits nothing and keeps the previous snapshot unchanged |
| Detector.AllUnreadableObservesNothing | app.go:49-53 | a poll in which every location fails to list observes nothing |
| Detector.ScanForgetsUnlisted | app.go:47-67 | once a poll observes anything, a remembered path it did not list is dropped, and any later listing of it reports CREATE |
| Detector.EvictThenScanCreates | app.go:56-70 | after evicting a path, a poll that lists it reports CREATE for it once per listing |
| ScanLoop.ScanLocation | app.go:54-64 | the inner loop over one directory's entries extends the queue and candidate snapshot exactly as the reference definition does |
| ScanLoop.ScanFeeds | app.go:47-68 | the timer branch's nested loop sends exactly the events and keeps exactly the snapshot that `Detector.Scan` defines |
| Watch.Apply | app.go:45-71 | the definition of one loop iteration: events already sent stay sent, and a read-failure report sends nothing and leaves the failed path out of the snapshot |
| Watch.Run | app.go:44-72 | the definition of a run of iterations: events once sent are never withdrawn. `Watch.RunAppend` composes runs |
| Watch.RunAppend | app.go:44-72 | loop iterations compose in order, and events once sent are never withdrawn |
| Watch.ApplyKeepsAbsent | app.go:45-71 | one iteration that does not list a forgotten path (a tick that misses it, or any eviction) keeps it forgotten |
| Watch.AbsentPersists | app.go:44-72 | a forgotten path stays out of the snapshot until a tick lists it again |
| Watch.RetryAfterReadError | app.go:56-70 | after a read error for a path, the path stays out of the snapshot through any ticks that do not list it and any evictions, and the first later tick that lists it emits CREATE for it among that tick's own events (and so among everything sent) |
| Watch.CreateOnlyWhenAbsent | app.go:56-59 | CREATE is sent for a path only while the snapshot does not hold it and only by a poll that lists it |
| Watch.LeavesSnapshot | app.go:45-71 | a remembered path leaves the snapshot in one iteration exactly when that iteration is a read-error report for it or a poll that observed something but did not list it; so a path is reported new again only after one of those |
| Watch.SnapshotProvenance | app.go:43-72 | starting from the empty snapshot, every path the snapshot holds was listed by some earlier tick |
| Watch.ScenarioRetryThenModify | app.go:43-72 | for locations that list a single file (`Watch.OneFileObserved` gives such a listing), five iterations from start-up: the file is reported CREATE, stays quiet while unchanged, is reported CREATE again after a read error, then MODIFIED when its time changes, and the snapshot ends with its latest metadata |
| Watch.SingleFileTick | app.go:47-68 | a tick whose listings resolve to exactly one file keeps just that file in the snapshot and sends that file's classification |
| Watch.OneFileObserved | app.go:49-57 | one location listing one resolvable file is observed as exactly that file |

## Left out

- Goroutines, channels, `select` and `time.After` (app.go:35-46, 69, 75-92) are not modelled as concurrency. The unbuffered send to the queue becomes appending to an event sequence. The `Watch` lemmas describe runs that proceed. The loop receives no read-error report while a poll is sending, so a poll that must send after all eight workers are blocked reporting read errors hangs the detector. That hang is not represented. The read-error receive becomes an explicit `ReadError` step. The 100 ms timer becomes a `Tick` step.
- The worker pool (app.go:38-41, 75-92) is left out because its behaviour depends on file and network I/O. This includes sending data to the server even after a read error.
- XML reading (`readFile`, app.go:95-104) is left out: it is file I/O and a third-party parser.
- `sendDataToServer` (app.go:107-121) is left out: it is JSON marshalling, an HTTP POST, and process exit on failure.
- Configuration and flag parsing (app.go:23-32, 123-136) are left out. The feed list enters the model only through the per-tick listings.
- `ioutil.ReadDir` and `filepath.Abs` (app.go:50, 55) depend on the operating system. Each poll's listings and each entry's resolved path are inputs. An entry whose path does not resolve is `Unresolvable` and is skipped.
- Modification times are integers compared with `!=`. Go's `time.Time` comparison with `!=` also looks at the location and monotonic reading. Those details are not modelled.
- The `os.FileInfo` kept in the snapshot is reduced to a name, a size and a modification time. Only the modification time takes part in classification.
