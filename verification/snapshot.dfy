/**
 The change detector's vocabulary: absolute paths, the file metadata a
 directory listing reports, the snapshot of what the last scan saw, and the
 events the detector hands to the processor pool.
 */
module Snapshot {

  /** An absolute file path, as produced by resolving a listed name. */
  type Path = string

  /** The metadata a directory listing reports for one file. Only `modTime`
      takes part in change detection; the rest is stored and carried along. */
  datatype FileInfo = FileInfo(name: string, size: int, modTime: int)

  /** What the detector remembers: absolute path to the metadata last seen. */
  type State = map<Path, FileInfo>

  /** The two classifications of a change. */
  datatype Op = Create | Modified

  /** The operation tag an event carries: two distinct words, CREATE for a
      new file and MODIFIED for a changed one. */
  function Tag(op: Op): (s: string)
    ensures s == "CREATE" || s == "MODIFIED"
    ensures s == "CREATE" <==> op == Create
  {
    match op
    case Create => "CREATE"
    case Modified => "MODIFIED"
  }

  /** A classified change notification: which file, and how it changed. */
  datatype Event = Event(path: Path, op: Op)

  /** An event as handed to the processors: the path and the operation tag
      as a string. */
  datatype Message = Message(path: string, op: string)

  /** The message a detector sends for an event. */
  function Render(e: Event): (m: Message)
    ensures m.path == e.path
    ensures m.op == "CREATE" <==> e.op == Create
    ensures m.op == "MODIFIED" <==> e.op == Modified
  {
    Message(e.path, Tag(e.op))
  }

  /** A message determines its event: no two events are sent alike. */
  lemma RenderInjective(a: Event, b: Event)
    requires Render(a) == Render(b)
    ensures a == b
  {
  }

  /** Forget one path, as done when a processor reports that reading it
      failed. The path is then unknown to the next scan. */
  function Evict(s: State, p: Path): (r: State)
    ensures p !in r
    ensures forall q :: q in r <==> q in s && q != p
    ensures forall q :: q in r ==> r[q] == s[q]
    ensures p !in s ==> r == s
    ensures p in s ==> |r| == |s| - 1
  {
    s - {p}
  }
}
