/**
 `FilesystemDetector.poll`: the events of a poll are a patch that turns the previous snapshot into
 the current one. How a snapshot is collected is a parameter, and so is the parent of a path.
 */
module FilesystemDetector {
  import opened Wrappers

  type Path = string

  datatype Stat = Stat(folder: bool, size: int, modified: int, inode: int, created: int)

  /** What an event says of a path: everything but the inode. */
  datatype Facts = Facts(folder: bool, size: int, modified: int, created: int)

  datatype Kind = Created | Renamed | Moved | SizeChanged | Modified | Deleted

  datatype Event = Event(kind: Kind, path: Path, facts: Facts, previous: Option<Path>)

  /** A dictionary: its entries, and its keys in insertion order. */
  datatype Snapshot = Snapshot(paths: seq<Path>, stats: map<Path, Stat>)

  type View = map<Path, Facts>

  const NO_FACTS := Facts(false, 0, 0, 0)
  const NO_FILES := Snapshot([], map[])

  ghost predicate WellFormed(s: Snapshot) {
    && (forall p :: p in s.paths <==> p in s.stats)
    && forall i, j | 0 <= i < j < |s.paths| :: s.paths[i] != s.paths[j]
  }

  function FactsOf(v: Stat): Facts {
    Facts(v.folder, v.size, v.modified, v.created)
  }

  function Project(s: Snapshot): View {
    map p | p in s.stats :: FactsOf(s.stats[p])
  }

  // ---- Rename correlation --------------------------------------------

  /** For each inode, the last removed path that had it; the inode 0 names nothing. */
  function RemovedByInode(previous: Snapshot, current: Snapshot, paths: seq<Path>): map<int, Path>
    requires forall p | p in paths :: p in previous.stats
  {
    if paths == [] then map[]
    else
      var rest := RemovedByInode(previous, current, paths[..|paths| - 1]);
      var p := paths[|paths| - 1];
      if p in current.stats || previous.stats[p].inode == 0 then rest else rest[previous.stats[p].inode := p]
  }

  function Moves(previous: Snapshot, current: Snapshot): map<Path, Path>
    requires WellFormed(previous)
  {
    var byInode := RemovedByInode(previous, current, previous.paths);
    map p | p in current.stats && p !in previous.stats && current.stats[p].inode in byInode ::
      byInode[current.stats[p].inode]
  }

  // ---- Events --------------------------------------------------------

  function Difference(was: Option<Stat>, value: Stat, path: Path, from: Option<Path>,
                      parent: Path -> Path): Option<Event>
  {
    if from.Some? then
      Some(Event(if parent(from.value) == parent(path) then Renamed else Moved, path, FactsOf(value), from))
    else if was.None? then Some(Event(Created, path, FactsOf(value), None))
    else if was.value != value then
      var kind := if was.value.size != value.size && !value.folder then SizeChanged else Modified;
      Some(Event(kind, path, FactsOf(value), None))
    else None
  }

  function Lookup<V>(m: map<Path, V>, p: Path): Option<V> {
    if p in m then Some(m[p]) else None
  }

  function CurrentEvents(previous: Snapshot, current: Snapshot, moves: map<Path, Path>, paths: seq<Path>,
                         parent: Path -> Path): seq<Event>
    requires forall p | p in paths :: p in current.stats
  {
    if paths == [] then []
    else
      var p := paths[0];
      var e := Difference(Lookup(previous.stats, p), current.stats[p], p, Lookup(moves, p), parent);
      (if e.Some? then [e.value] else []) + CurrentEvents(previous, current, moves, paths[1..], parent)
  }

  function DeletedEvents(previous: Snapshot, current: Snapshot, moves: map<Path, Path>, paths: seq<Path>): seq<Event>
    requires forall p | p in paths :: p in previous.stats
  {
    if paths == [] then []
    else
      var p := paths[0];
      (if p !in current.stats && p !in moves.Values
       then [Event(Deleted, p, NO_FACTS.(folder := previous.stats[p].folder), None)]
       else [])
      + DeletedEvents(previous, current, moves, paths[1..])
  }

  function PollEvents(previous: Snapshot, current: Snapshot, parent: Path -> Path): seq<Event>
    requires WellFormed(previous) && WellFormed(current)
  {
    var moves := Moves(previous, current);
    CurrentEvents(previous, current, moves, current.paths, parent)
    + DeletedEvents(previous, current, moves, previous.paths)
  }

  // ---- Replaying events ----------------------------------------------

  function ApplyEvent(view: View, e: Event): View {
    if e.kind == Deleted then view - {e.path}
    else if e.previous.Some? then (view - {e.previous.value})[e.path := e.facts]
    else view[e.path := e.facts]
  }

  function Replay(view: View, events: seq<Event>): View
    decreases |events|
  {
    if events == [] then view else Replay(ApplyEvent(view, events[0]), events[1..])
  }

  lemma {:induction false} ReplayConcat(view: View, a: seq<Event>, b: seq<Event>)
    ensures Replay(view, a + b) == Replay(Replay(view, a), b)
    decreases |a|
  {
    if a == [] {
      assert a + b == b;
    } else {
      ReplayConcat(ApplyEvent(view, a[0]), a[1..], b);
      assert (a + b)[1..] == a[1..] + b;
    }
  }

  // ---- A poll is a patch ---------------------------------------------

  lemma {:induction false} RemovedByInodeIsRemoved(previous: Snapshot, current: Snapshot, paths: seq<Path>)
    requires forall p | p in paths :: p in previous.stats
    ensures forall i | i in RemovedByInode(previous, current, paths) ::
              var p := RemovedByInode(previous, current, paths)[i];
              i != 0 && p in paths && p !in current.stats && previous.stats[p].inode == i
  {
    if paths != [] {
      RemovedByInodeIsRemoved(previous, current, paths[..|paths| - 1]);
    }
  }

  /** An inode is known exactly when a removed path had it, and then it names the last such path. */
  lemma {:induction false} LastRemovedWins(previous: Snapshot, current: Snapshot, paths: seq<Path>, k: nat)
    requires forall p | p in paths :: p in previous.stats
    requires k < |paths| && paths[k] !in current.stats && previous.stats[paths[k]].inode != 0
    requires forall j | k < j < |paths| ::
               paths[j] in current.stats || previous.stats[paths[j]].inode != previous.stats[paths[k]].inode
    ensures
      var byInode := RemovedByInode(previous, current, paths);
      previous.stats[paths[k]].inode in byInode && byInode[previous.stats[paths[k]].inode] == paths[k]
  {
    if k < |paths| - 1 {
      LastRemovedWins(previous, current, paths[..|paths| - 1], k);
    }
  }

  /** A move joins an added path to a removed one with the same non-zero inode. */
  lemma MovesJoinSameInode(previous: Snapshot, current: Snapshot)
    requires WellFormed(previous)
    ensures forall p | p in Moves(previous, current) ::
              var from := Moves(previous, current)[p];
              && p in current.stats && p !in previous.stats
              && from in previous.stats && from !in current.stats
              && previous.stats[from].inode == current.stats[p].inode != 0
  {
    RemovedByInodeIsRemoved(previous, current, previous.paths);
  }

  /** The view once the events of the paths in `done` have been replayed. */
  ghost predicate Midway(previous: Snapshot, current: Snapshot, moves: map<Path, Path>, done: set<Path>, view: View) {
    forall q ::
      && (q in view <==>
            if q in current.stats then q in done || q in previous.stats
            else q in previous.stats && forall d | d in done && d in moves :: moves[d] != q)
      && (q in view ==>
            view[q] == if q in current.stats && q in done then FactsOf(current.stats[q])
                       else if q in previous.stats then FactsOf(previous.stats[q]) else view[q])
  }

  lemma MidwayStep(previous: Snapshot, current: Snapshot, moves: map<Path, Path>, done: set<Path>, view: View, p: Path,
                   parent: Path -> Path)
    requires Midway(previous, current, moves, done, view) && p in current.stats && p !in done
    requires forall d | d in moves ::
               d in current.stats && d !in previous.stats && moves[d] in previous.stats && moves[d] !in current.stats
    ensures
      var e := Difference(Lookup(previous.stats, p), current.stats[p], p, Lookup(moves, p), parent);
      Midway(previous, current, moves, done + {p}, if e.Some? then ApplyEvent(view, e.value) else view)
  {
  }

  lemma {:induction false} CurrentEventsReplay(previous: Snapshot, current: Snapshot, moves: map<Path, Path>,
                                               done: set<Path>, view: View, paths: seq<Path>, parent: Path -> Path)
    requires Midway(previous, current, moves, done, view)
    requires forall d | d in moves ::
               d in current.stats && d !in previous.stats && moves[d] in previous.stats && moves[d] !in current.stats
    requires forall i | 0 <= i < |paths| :: paths[i] in current.stats && paths[i] !in done
    requires forall i, j | 0 <= i < j < |paths| :: paths[i] != paths[j]
    ensures Midway(previous, current, moves, done + (set p | p in paths),
                   Replay(view, CurrentEvents(previous, current, moves, paths, parent)))
    decreases |paths|
  {
    hide Midway;
    if paths == [] {
      assert done + (set p | p in paths) == done;
    } else {
      var p := paths[0];
      MidwayStep(previous, current, moves, done, view, p, parent);
      var e := Difference(Lookup(previous.stats, p), current.stats[p], p, Lookup(moves, p), parent);
      var view' := if e.Some? then ApplyEvent(view, e.value) else view;
      CurrentEventsReplay(previous, current, moves, done + {p}, view', paths[1..], parent);
      assert done + {p} + (set q | q in paths[1..]) == done + (set q | q in paths);
      var rest := CurrentEvents(previous, current, moves, paths[1..], parent);
      assert e.Some? ==> ([e.value] + rest)[0] == e.value && ([e.value] + rest)[1..] == rest;
      assert e.None? ==> [] + rest == rest;
    }
  }

  lemma {:induction false} DeletedEventsReplay(previous: Snapshot, current: Snapshot, moves: map<Path, Path>,
                                               view: View, paths: seq<Path>)
    requires forall p | p in paths :: p in previous.stats
    ensures Replay(view, DeletedEvents(previous, current, moves, paths))
         == view - (set p | p in paths && p !in current.stats && p !in moves.Values)
    decreases |paths|
  {
    if paths != [] {
      var p := paths[0];
      var gone := p !in current.stats && p !in moves.Values;
      var rest := DeletedEvents(previous, current, moves, paths[1..]);
      DeletedEventsReplay(previous, current, moves, if gone then view - {p} else view, paths[1..]);
      var all := DeletedEvents(previous, current, moves, paths);
      assert if gone then all[1..] == rest && ApplyEvent(view, all[0]) == view - {p} else all == rest;
      hide DeletedEvents, ApplyEvent;
      DropStep(current, moves, view, paths);
    }
  }

  lemma DropStep(current: Snapshot, moves: map<Path, Path>, view: View, paths: seq<Path>)
    requires paths != []
    ensures
      var p := paths[0];
      (if p !in current.stats && p !in moves.Values then view - {p} else view)
      - (set q | q in paths[1..] && q !in current.stats && q !in moves.Values)
      == view - (set q | q in paths && q !in current.stats && q !in moves.Values)
  {
    assert paths == [paths[0]] + paths[1..];
  }

  /**
   Replaying the created, moved, renamed, changed and deleted events of a poll over the previous
   view gives exactly the current one, also when several paths share an inode.
   */
  lemma PollIsPatch(previous: Snapshot, current: Snapshot, parent: Path -> Path)
    requires WellFormed(previous) && WellFormed(current)
    ensures Replay(Project(previous), PollEvents(previous, current, parent)) == Project(current)
  {
    var moves := Moves(previous, current);
    MovesJoinSameInode(previous, current);
    CurrentEventsReplay(previous, current, moves, {}, Project(previous), current.paths, parent);
    var mid := Replay(Project(previous), CurrentEvents(previous, current, moves, current.paths, parent));
    DeletedEventsReplay(previous, current, moves, mid, previous.paths);
    ReplayConcat(Project(previous), CurrentEvents(previous, current, moves, current.paths, parent),
                 DeletedEvents(previous, current, moves, previous.paths));
    MidwayEnds(previous, current, moves, mid);
  }

  lemma MidwayEnds(previous: Snapshot, current: Snapshot, moves: map<Path, Path>, mid: View)
    requires WellFormed(previous) && WellFormed(current)
    requires forall d | d in moves :: d in current.stats
    requires Midway(previous, current, moves, {} + (set p | p in current.paths), mid)
    ensures mid - (set p | p in previous.paths && p !in current.stats && p !in moves.Values) == Project(current)
  {
  }

  // ---- Every event is true -------------------------------------------

  /** What an event claims about the two snapshots. */
  ghost predicate IsTrue(previous: Snapshot, current: Snapshot, moves: map<Path, Path>, parent: Path -> Path,
                         e: Event)
  {
    var p := e.path;
    if e.kind == Deleted then
      p in previous.stats && p !in current.stats && p !in moves.Values && e.facts.folder == previous.stats[p].folder
    else
      && p in current.stats && e.facts == FactsOf(current.stats[p])
      && match e.kind
         case Created => p !in previous.stats && p !in moves
         case Renamed => p in moves && e.previous == Some(moves[p]) && parent(moves[p]) == parent(p)
         case Moved => p in moves && e.previous == Some(moves[p]) && parent(moves[p]) != parent(p)
         case SizeChanged =>
           && p in previous.stats && previous.stats[p].size != current.stats[p].size && !current.stats[p].folder
         case Modified =>
           && p in previous.stats && previous.stats[p] != current.stats[p]
           && (previous.stats[p].size == current.stats[p].size || current.stats[p].folder)
         case Deleted => false
  }

  lemma {:induction false} CurrentEventsAreTrue(previous: Snapshot, current: Snapshot, moves: map<Path, Path>,
                                                paths: seq<Path>, parent: Path -> Path, e: Event)
    requires forall p | p in paths :: p in current.stats
    requires e in CurrentEvents(previous, current, moves, paths, parent)
    ensures e.kind != Deleted && e.path in paths && IsTrue(previous, current, moves, parent, e)
  {
    if e in CurrentEvents(previous, current, moves, paths[1..], parent) {
      CurrentEventsAreTrue(previous, current, moves, paths[1..], parent, e);
    }
  }

  lemma {:induction false} DeletedEventsAreTrue(previous: Snapshot, current: Snapshot, moves: map<Path, Path>,
                                                paths: seq<Path>, parent: Path -> Path, e: Event)
    requires forall p | p in paths :: p in previous.stats
    requires e in DeletedEvents(previous, current, moves, paths)
    ensures e.kind == Deleted && IsTrue(previous, current, moves, parent, e)
  {
    if e in DeletedEvents(previous, current, moves, paths[1..]) {
      DeletedEventsAreTrue(previous, current, moves, paths[1..], parent, e);
    }
  }

  /** Every event of a poll says what happened to its path: its kind, its origin and its facts are right. */
  lemma EventsAreTrue(previous: Snapshot, current: Snapshot, parent: Path -> Path, e: Event)
    requires WellFormed(previous) && WellFormed(current) && e in PollEvents(previous, current, parent)
    ensures IsTrue(previous, current, Moves(previous, current), parent, e)
  {
    var moves := Moves(previous, current);
    if e in CurrentEvents(previous, current, moves, current.paths, parent) {
      CurrentEventsAreTrue(previous, current, moves, current.paths, parent, e);
    } else {
      DeletedEventsAreTrue(previous, current, moves, previous.paths, parent, e);
    }
  }

  // ---- When a poll is silent -----------------------------------------

  lemma {:induction false} CurrentSilence(previous: Snapshot, current: Snapshot, moves: map<Path, Path>,
                                          paths: seq<Path>, parent: Path -> Path)
    requires forall p | p in paths :: p in current.stats
    requires forall p | p in moves :: p !in previous.stats
    ensures CurrentEvents(previous, current, moves, paths, parent) == []
            <==> forall p | p in paths :: p in previous.stats && previous.stats[p] == current.stats[p]
  {
    if paths != [] {
      CurrentSilence(previous, current, moves, paths[1..], parent);
      assert forall p | p in paths :: p == paths[0] || p in paths[1..];
    }
  }

  lemma {:induction false} DeletedSilence(previous: Snapshot, current: Snapshot, moves: map<Path, Path>,
                                          paths: seq<Path>)
    requires forall p | p in paths :: p in previous.stats
    ensures DeletedEvents(previous, current, moves, paths) == []
            <==> forall p | p in paths :: p in current.stats || p in moves.Values
  {
    if paths != [] {
      DeletedSilence(previous, current, moves, paths[1..]);
      assert forall p | p in paths :: p == paths[0] || p in paths[1..];
    }
  }

  /** A poll emits nothing exactly when the two snapshots agree on every path, inodes included. */
  lemma SilentExactlyWhenUnchanged(previous: Snapshot, current: Snapshot, parent: Path -> Path)
    requires WellFormed(previous) && WellFormed(current)
    ensures PollEvents(previous, current, parent) == [] <==> previous.stats == current.stats
  {
    var moves := Moves(previous, current);
    MovesJoinSameInode(previous, current);
    CurrentSilence(previous, current, moves, current.paths, parent);
    DeletedSilence(previous, current, moves, previous.paths);
    if PollEvents(previous, current, parent) == [] {
      assert moves == map[];
      assert forall p | p in previous.paths :: p in current.stats;
      assert forall p | p in current.paths :: p in previous.stats && previous.stats[p] == current.stats[p];
    }
  }

  // ---- Any number of polls -------------------------------------------

  /** All the events of a detector that starts with no files and sees these snapshots. */
  function AllEvents(snapshots: seq<Snapshot>, parent: Path -> Path): seq<Event>
    requires forall s | s in snapshots :: WellFormed(s)
  {
    if snapshots == [] then []
    else
      var before := snapshots[..|snapshots| - 1];
      AllEvents(before, parent)
      + PollEvents(if before == [] then NO_FILES else before[|before| - 1], snapshots[|snapshots| - 1], parent)
  }

  /** From the events alone one can rebuild what the last poll saw, over any sequence of polls. */
  lemma {:induction false} PollsRebuildLastSnapshot(snapshots: seq<Snapshot>, parent: Path -> Path)
    requires forall s | s in snapshots :: WellFormed(s)
    ensures Replay(map[], AllEvents(snapshots, parent))
         == if snapshots == [] then map[] else Project(snapshots[|snapshots| - 1])
  {
    assert Project(NO_FILES) == map[];
    hide PollEvents, Project, ApplyEvent, WellFormed;
    if snapshots != [] {
      var before := snapshots[..|snapshots| - 1];
      var previous := if before == [] then NO_FILES else before[|before| - 1];
      PollsRebuildLastSnapshot(before, parent);
      PollIsPatch(previous, snapshots[|snapshots| - 1], parent);
      ReplayConcat(map[], AllEvents(before, parent), PollEvents(previous, snapshots[|snapshots| - 1], parent));
    }
  }

  // ---- One step of the loops -----------------------------------------

  lemma CurrentStep(done: seq<Event>, previous: Snapshot, current: Snapshot, moves: map<Path, Path>, paths: seq<Path>,
                    i: nat, parent: Path -> Path)
    requires i < |paths| && forall p | p in paths :: p in current.stats
    ensures
      var e := Difference(Lookup(previous.stats, paths[i]), current.stats[paths[i]], paths[i],
                          Lookup(moves, paths[i]), parent);
      done + CurrentEvents(previous, current, moves, paths[i..], parent)
      == (if e.Some? then done + [e.value] else done) + CurrentEvents(previous, current, moves, paths[i + 1..], parent)
  {
    hide Difference;
    assert paths[i..][1..] == paths[i + 1..];
  }

  lemma DeletedStep(done: seq<Event>, previous: Snapshot, current: Snapshot, moves: map<Path, Path>, paths: seq<Path>,
                    i: nat)
    requires i < |paths| && forall p | p in paths :: p in previous.stats
    ensures
      var p := paths[i];
      var e := Event(Deleted, p, NO_FACTS.(folder := previous.stats[p].folder), None);
      done + DeletedEvents(previous, current, moves, paths[i..])
      == (if p !in current.stats && p !in moves.Values then done + [e] else done)
      + DeletedEvents(previous, current, moves, paths[i + 1..])
  {
    assert paths[i..][1..] == paths[i + 1..];
  }

  lemma NothingLeft(previous: Snapshot, current: Snapshot, moves: map<Path, Path>, parent: Path -> Path)
    ensures CurrentEvents(previous, current, moves, [], parent) == []
            && DeletedEvents(previous, current, moves, []) == []
  {
  }

  // ---- The class -----------------------------------------------------

  class Detector {
    const parent: Path -> Path
    var previous: Snapshot

    constructor (parent: Path -> Path)
      ensures this.parent == parent && previous == NO_FILES
    {
      this.parent, previous := parent, NO_FILES;
    }

    method FindMoves(current: Snapshot) returns (moves: map<Path, Path>)
      requires WellFormed(previous)
      ensures moves == Moves(previous, current)
    {
      var byInode: map<int, Path> := map[];
      var i := 0;
      while i < |previous.paths|
        invariant i <= |previous.paths| && byInode == RemovedByInode(previous, current, previous.paths[..i])
      {
        var p := previous.paths[i];
        assert previous.paths[..i + 1][..i] == previous.paths[..i];
        if p !in current.stats && previous.stats[p].inode != 0 {
          byInode := byInode[previous.stats[p].inode := p];
        }
        i := i + 1;
      }
      assert previous.paths[..i] == previous.paths;
      moves := map p | p in current.stats && p !in previous.stats && current.stats[p].inode in byInode
                     :: byInode[current.stats[p].inode];
    }

    method Poll(current: Snapshot) returns (events: seq<Event>)
      requires WellFormed(previous) && WellFormed(current)
      modifies this
      ensures events == PollEvents(old(previous), current, parent)
      ensures previous == current
      ensures Replay(old(Project(previous)), events) == Project(previous)
      ensures events == [] <==> old(previous.stats) == current.stats
    {
      PollIsPatch(previous, current, parent);
      SilentExactlyWhenUnchanged(previous, current, parent);
      var moves := FindMoves(current);
      var changes := ListCurrent(current, moves);
      var deletions := ListDeleted(current, moves);
      events := changes + deletions;
      previous := current;
    }

    method ListCurrent(current: Snapshot, moves: map<Path, Path>) returns (events: seq<Event>)
      requires WellFormed(current)
      ensures events == CurrentEvents(previous, current, moves, current.paths, parent)
    {
      NothingLeft(previous, current, moves, parent);
      hide CurrentEvents, Difference;
      events := [];
      var i := 0;
      while i < |current.paths|
        invariant i <= |current.paths|
        invariant events + CurrentEvents(previous, current, moves, current.paths[i..], parent)
               == CurrentEvents(previous, current, moves, current.paths, parent)
      {
        var p := current.paths[i];
        CurrentStep(events, previous, current, moves, current.paths, i, parent);
        var e := Difference(Lookup(previous.stats, p), current.stats[p], p, Lookup(moves, p), parent);
        if e.Some? {
          events := events + [e.value];
        }
        i := i + 1;
      }
      assert current.paths[i..] == [];
    }

    method ListDeleted(current: Snapshot, moves: map<Path, Path>) returns (events: seq<Event>)
      requires WellFormed(previous)
      ensures events == DeletedEvents(previous, current, moves, previous.paths)
    {
      NothingLeft(previous, current, moves, parent);
      hide DeletedEvents;
      events := [];
      var i := 0;
      while i < |previous.paths|
        invariant i <= |previous.paths|
        invariant events + DeletedEvents(previous, current, moves, previous.paths[i..])
               == DeletedEvents(previous, current, moves, previous.paths)
      {
        var p := previous.paths[i];
        DeletedStep(events, previous, current, moves, previous.paths, i);
        if p !in current.stats && p !in moves.Values {
          events := events + [Event(Deleted, p, NO_FACTS.(folder := previous.stats[p].folder), None)];
        }
        i := i + 1;
      }
      assert previous.paths[i..] == [];
    }
  }
}
