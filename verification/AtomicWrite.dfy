/** Replacing a file through a temporary sibling, with a cleanup guard: any number
    of writers, every interleaving, every failure, and crashes. */
module AtomicWrite {
  import opened Options

  type Name = nat
  type Inode = nat
  type Bytes = seq<nat>
  type WriterId = nat

  /** One call: the temporary sibling it will use and what it has to write. */
  datatype Job = Job(temporary: Name, bytes: Bytes)

  /** The destination, the jobs, and the directory they start from. */
  datatype Config = Config(destination: Name, jobs: seq<Job>, names: map<Name, Inode>, contents: map<Inode, Bytes>)

  /** Where a call stands. The guard is armed from `Armed` to `Renamed`. */
  datatype Phase =
    | Idle
    | Armed
    | Writing(inode: Inode, written: nat)
    | Written(inode: Inode)
    | Synced(inode: Inode)
    | Renamed
    | Cleaning
    | Returned(ok: bool)
    | Crashed

  /** The file system, the calls, the order of successful renames, and the calls whose
      cleanup did not fail. `durable` holds the inodes whose contents have been flushed. */
  datatype State = State(
    names: map<Name, Inode>,
    contents: map<Inode, Bytes>,
    durable: set<Inode>,
    phases: seq<Phase>,
    renames: seq<WriterId>,
    cleaned: set<WriterId>)

  datatype Action =
    | Refuse
    | Arm
    | Create(fresh_: Inode)
    | Write(count: nat)
    | FinishWrite
    | Sync
    | Rename
    | Disarm
    | Fail
    | Clean(removed: bool)
    | Crash

  function To(s: State, w: WriterId, p: Phase): State
    requires w < |s.phases|
  {
    s.(phases := s.phases[w := p])
  }

  /** What one action of writer `w` does, if it can happen. */
  function Act(c: Config, s: State, w: WriterId, a: Action): Option<State>
    requires w < |s.phases| == |c.jobs|
  {
    var job := c.jobs[w];
    match (s.phases[w], a)
    // no file name, or a clock error: nothing has been armed yet
    case (Idle, Refuse) => Some(To(s, w, Returned(false)))
    case (Idle, Arm) => Some(To(s, w, Armed))
    // create_new succeeds only on a name that does not exist
    case (Armed, Create(i)) =>
      if job.temporary in s.names || i in s.contents then None
      else Some(To(s, w, Writing(i, 0)).(names := s.names[job.temporary := i], contents := s.contents[i := []]))
    case (Writing(i, n), Write(k)) =>
      if k == 0 || n + k > |job.bytes| || i !in s.contents then None
      else Some(To(s, w, Writing(i, n + k)).(contents := s.contents[i := s.contents[i] + job.bytes[n..n + k]],
                                             durable := s.durable - {i}))
    case (Writing(i, n), FinishWrite) => if n == |job.bytes| then Some(To(s, w, Written(i))) else None
    case (Written(i), Sync) => Some(To(s, w, Synced(i)).(durable := s.durable + {i}))
    // rename replaces the destination in one step; it needs the temporary name
    case (Synced(_), Rename) =>
      if job.temporary !in s.names then None
      else Some(To(s, w, Renamed).(names := (s.names - {job.temporary})[c.destination := s.names[job.temporary]],
                                   renames := s.renames + [w]))
    case (Renamed, Disarm) => Some(To(s, w, Returned(true)))
    // creating, writing, flushing and renaming may fail; the guard then cleans up
    case (Armed, Fail) => Some(To(s, w, Cleaning))
    case (Writing(_, _), Fail) => Some(To(s, w, Cleaning))
    case (Written(_), Fail) => Some(To(s, w, Cleaning))
    case (Synced(_), Fail) => Some(To(s, w, Cleaning))
    case (Cleaning, Clean(removed)) =>
      if removed then Some(To(s, w, Returned(false)).(names := s.names - {job.temporary}, cleaned := s.cleaned + {w}))
      else Some(To(s, w, Returned(false)))
    case (Returned(_), _) => None
    case (Crashed, _) => None
    case (_, Crash) => Some(To(s, w, Crashed))
    case _ => None
  }

  function Begin(c: Config): State {
    State(c.names, c.contents, c.contents.Keys, seq(|c.jobs|, _ => Idle), [], {})
  }

  /** The state after a schedule of actions; actions that cannot happen are skipped. */
  function After(c: Config, schedule: seq<(WriterId, Action)>): (s: State)
    ensures |s.phases| == |c.jobs|
  {
    if schedule == [] then Begin(c) else
    var n := |schedule| - 1;
    var s := After(c, schedule[..n]);
    var (w, a) := schedule[n];
    if w >= |c.jobs| then s else
    match Act(c, s, w, a)
    case None => s
    case Some(s') => s'
  }

  /** Temporary names are distinct, new to the directory, and not the destination. */
  ghost predicate FreshNames(c: Config) {
    && (forall i, j :: 0 <= i < j < |c.jobs| ==> c.jobs[i].temporary != c.jobs[j].temporary)
    && (forall i :: 0 <= i < |c.jobs| ==> c.jobs[i].temporary !in c.names && c.jobs[i].temporary != c.destination)
  }

  /** The directory of the start refers to existing inodes. */
  ghost predicate Sane(c: Config) {
    forall n :: n in c.names ==> c.names[n] in c.contents
  }

  // ----- The invariant -----

  ghost predicate WriterOk(c: Config, s: State, w: WriterId)
    requires w < |s.phases| == |c.jobs|
  {
    PhaseOk(c, s, w) && (w in s.cleaned ==> s.phases[w] == Returned(false))
  }

  /** What a writer's phase says about its temporary file. */
  ghost predicate PhaseOk(c: Config, s: State, w: WriterId)
    requires w < |s.phases| == |c.jobs|
  {
    var job := c.jobs[w];
    match s.phases[w]
    case Idle => w !in s.renames && job.temporary !in s.names
    case Armed => w !in s.renames && job.temporary !in s.names
    case Writing(i, n) => n <= |job.bytes| && Owns(c, s, w, i, job.bytes[..n])
    case Written(i) => Owns(c, s, w, i, job.bytes)
    case Synced(i) => Owns(c, s, w, i, job.bytes) && i in s.durable
    case Renamed => w in s.renames && job.temporary !in s.names
    case Cleaning => w !in s.renames && MayOwn(c, s, w)
    case Returned(ok) =>
      if ok then w in s.renames && job.temporary !in s.names
      else w !in s.renames && MayOwn(c, s, w) && (w in s.cleaned ==> job.temporary !in s.names)
    case Crashed => MayOwn(c, s, w)
  }

  /** The temporary name refers to the writer's own inode, which no other name uses. */
  ghost predicate Owns(c: Config, s: State, w: WriterId, i: Inode, bytes: Bytes)
    requires w < |c.jobs|
  {
    var t := c.jobs[w].temporary;
    && w !in s.renames && t in s.names && s.names[t] == i && Private(c, s, t, i)
    && i in s.contents && s.contents[i] == bytes
  }

  ghost predicate Private(c: Config, s: State, t: Name, i: Inode) {
    i !in c.contents && forall n :: n in s.names && n != t ==> s.names[n] != i
  }

  ghost predicate MayOwn(c: Config, s: State, w: WriterId)
    requires w < |c.jobs|
  {
    var t := c.jobs[w].temporary;
    t in s.names ==> Private(c, s, t, s.names[t])
  }

  /** The destination: as at the start, or the bytes of the writer that renamed last. */
  ghost predicate DestinationOk(c: Config, s: State) {
    if s.renames == [] then
      && (c.destination in s.names <==> c.destination in c.names)
      && (c.destination in c.names ==>
            s.names[c.destination] == c.names[c.destination] && c.names[c.destination] in s.contents && c.names[c.destination] in c.contents &&
            s.contents[c.names[c.destination]] == c.contents[c.names[c.destination]] && c.names[c.destination] in s.durable)
    else
      var w := s.renames[|s.renames| - 1];
      && w < |c.jobs| && c.destination in s.names && s.names[c.destination] in s.contents
      && s.contents[s.names[c.destination]] == c.jobs[w].bytes && s.names[c.destination] in s.durable
  }

  ghost predicate Inv(c: Config, s: State) {
    && |s.phases| == |c.jobs|
    && (forall w: WriterId {:trigger WriterOk(c, s, w)} :: w < |c.jobs| ==> WriterOk(c, s, w))
    && DestinationOk(c, s)
    && (forall n :: n in s.names ==> s.names[n] in s.contents)
    && (forall i :: i in c.contents ==> i in s.contents && s.contents[i] == c.contents[i])
    && (forall i, j :: 0 <= i < j < |s.renames| ==> s.renames[i] != s.renames[j])
  }

  lemma BeginInv(c: Config)
    requires FreshNames(c) && Sane(c)
    ensures Inv(c, Begin(c))
  {
  }

  /** What an action of writer `w` can change at most. */
  ghost predicate Frame(c: Config, s: State, w: WriterId, s': State)
    requires w < |c.jobs|
  {
    var t := c.jobs[w].temporary;
    && |s'.phases| == |s.phases|
    && (forall v: WriterId :: v < |s.phases| && v != w ==> s'.phases[v] == s.phases[v])
    && (forall v: WriterId :: v != w ==> (v in s'.renames <==> v in s.renames) && (v in s'.cleaned <==> v in s.cleaned))
    && (forall n :: n in s'.names && n != t && n != c.destination ==> n in s.names && s'.names[n] == s.names[n])
    && (forall n :: n in s.names && n != t ==> n in s'.names && (n != c.destination ==> s'.names[n] == s.names[n]))
    && (t in s'.names ==> (t in s.names && s'.names[t] == s.names[t]) || s'.names[t] !in s.contents)
    && (c.destination in s'.names ==>
          || (c.destination in s.names && s'.names[c.destination] == s.names[c.destination])
          || (t in s.names && s'.names[c.destination] == s.names[t]))
    && (forall i :: i in s.contents && (t in s.names ==> s.names[t] != i) ==>
          i in s'.contents && s'.contents[i] == s.contents[i] && (i in s.durable ==> i in s'.durable))
  }

  lemma ActFrame(c: Config, s: State, w: WriterId, a: Action)
    requires FreshNames(c) && Inv(c, s) && w < |c.jobs| && Act(c, s, w, a).Some?
    ensures Frame(c, s, w, Act(c, s, w, a).value)
  {
    hide DestinationOk;
    assert WriterOk(c, s, w);
  }

  /** The other writers do not notice. */
  lemma OtherWriter(c: Config, s: State, w: WriterId, a: Action, v: WriterId)
    requires FreshNames(c) && Inv(c, s) && w < |c.jobs| && v < |c.jobs| && v != w && Act(c, s, w, a).Some?
    ensures WriterOk(c, Act(c, s, w, a).value, v)
  {
    ActFrame(c, s, w, a);
    hide Act, DestinationOk;
    assert c.jobs[v].temporary != c.jobs[w].temporary;
    assert WriterOk(c, s, v) && WriterOk(c, s, w);
  }

  lemma SameWriter(c: Config, s: State, w: WriterId, a: Action)
    requires FreshNames(c) && Inv(c, s) && w < |c.jobs| && Act(c, s, w, a).Some?
    ensures WriterOk(c, Act(c, s, w, a).value, w)
  {
    var s' := Act(c, s, w, a).value;
    assert WriterOk(c, s, w);
    if s.phases[w].Writing? && a.Write? {
      var n, k, bytes := s.phases[w].written, a.count, c.jobs[w].bytes;
      assert bytes[..n] + bytes[n..n + k] == bytes[..n + k];
    } else if s.phases[w].Writing? && a.FinishWrite? {
      assert c.jobs[w].bytes[..|c.jobs[w].bytes|] == c.jobs[w].bytes;
    }
  }

  lemma DestinationKept(c: Config, s: State, w: WriterId, a: Action)
    requires FreshNames(c) && Inv(c, s) && w < |c.jobs| && Act(c, s, w, a).Some?
    ensures DestinationOk(c, Act(c, s, w, a).value)
  {
    assert WriterOk(c, s, w);
    if !a.Rename? {
      ActFrame(c, s, w, a);
      var s' := Act(c, s, w, a).value;
      assert s'.renames == s.renames;
      assert c.destination in s'.names ==> c.destination in s.names && s'.names[c.destination] == s.names[c.destination];
      hide Act, WriterOk;
    }
  }

  lemma RestKept(c: Config, s: State, w: WriterId, a: Action)
    requires FreshNames(c) && Inv(c, s) && w < |c.jobs| && Act(c, s, w, a).Some?
    ensures var s' := Act(c, s, w, a).value;
            && (forall n :: n in s'.names ==> s'.names[n] in s'.contents)
            && (forall i :: i in c.contents ==> i in s'.contents && s'.contents[i] == c.contents[i])
            && (forall i, j :: 0 <= i < j < |s'.renames| ==> s'.renames[i] != s'.renames[j])
  {
    assert WriterOk(c, s, w);
  }

  /** Every action of every writer keeps the invariant. */
  lemma ActInv(c: Config, s: State, w: WriterId, a: Action)
    requires FreshNames(c) && Inv(c, s) && w < |c.jobs| && Act(c, s, w, a).Some?
    ensures Inv(c, Act(c, s, w, a).value)
  {
    hide DestinationOk, WriterOk, FreshNames, Act;
    var s' := Act(c, s, w, a).value;
    assert |s'.phases| == |c.jobs| by { ActShape(c, s, w, a); }
    forall v: WriterId | v < |c.jobs| ensures WriterOk(c, s', v) {
      if v == w { SameWriter(c, s, w, a); } else { OtherWriter(c, s, w, a, v); }
    }
    DestinationKept(c, s, w, a);
    RestKept(c, s, w, a);
  }

  lemma ActShape(c: Config, s: State, w: WriterId, a: Action)
    requires w < |s.phases| == |c.jobs| && Act(c, s, w, a).Some?
    ensures |Act(c, s, w, a).value.phases| == |c.jobs|
  {
  }

  lemma {:induction false} RunInv(c: Config, schedule: seq<(WriterId, Action)>)
    requires FreshNames(c) && Sane(c)
    ensures Inv(c, After(c, schedule))
    decreases |schedule|
  {
    hide Inv, Act, FreshNames, Sane;
    if schedule == [] {
      BeginInv(c);
    } else {
      var n := |schedule| - 1;
      RunInv(c, schedule[..n]);
      var s := After(c, schedule[..n]);
      var (w, a) := schedule[n];
      if w < |c.jobs| && Act(c, s, w, a).Some? {
        ActInv(c, s, w, a);
      }
    }
  }

  // ----- What every run guarantees -----

  /** What a reader finds at the destination. */
  function Read(names: map<Name, Inode>, contents: map<Inode, Bytes>, n: Name): Option<Bytes> {
    if n in names && names[n] in contents then Some(contents[names[n]]) else None
  }

  /** At every moment the destination reads as at the start or as exactly one writer's
      full bytes, flushed; that writer's rename has taken place. */
  lemma OldOrComplete(c: Config, schedule: seq<(WriterId, Action)>)
    requires FreshNames(c) && Sane(c)
    ensures var s := After(c, schedule);
            && (s.renames == [] ==> Read(s.names, s.contents, c.destination) == Read(c.names, c.contents, c.destination))
            && (s.renames != [] ==>
                  && s.renames[|s.renames| - 1] < |c.jobs|
                  && Read(s.names, s.contents, c.destination) == Some(c.jobs[s.renames[|s.renames| - 1]].bytes))
            && (c.destination in s.names ==> s.names[c.destination] in s.durable)
  {
    RunInv(c, schedule);
  }

  /** `Ok` means the rename took place, once; `Err` means it did not, and if the cleanup
      worked the temporary name is gone. */
  lemma ResultMeaning(c: Config, schedule: seq<(WriterId, Action)>, w: WriterId)
    requires FreshNames(c) && Sane(c) && w < |c.jobs|
    ensures var s := After(c, schedule);
            && (s.phases[w] == Returned(true) ==> w in s.renames && c.jobs[w].temporary !in s.names)
            && (s.phases[w] == Returned(false) ==> w !in s.renames && (w in s.cleaned ==> c.jobs[w].temporary !in s.names))
            && (forall i, j :: 0 <= i < j < |s.renames| ==> s.renames[i] != s.renames[j])
  {
    RunInv(c, schedule);
    assert WriterOk(c, After(c, schedule), w);
  }

  lemma NameKept(c: Config, s: State, w: WriterId, a: Action, n: Name)
    requires w < |s.phases| == |c.jobs| && Act(c, s, w, a).Some?
    requires n != c.destination && c.jobs[w].temporary != n
    ensures n in Act(c, s, w, a).value.names <==> n in s.names
    ensures n in s.names ==> Act(c, s, w, a).value.names[n] == s.names[n]
  {
  }

  lemma {:induction false} NamesUntouched(c: Config, schedule: seq<(WriterId, Action)>, n: Name)
    requires n != c.destination && forall i :: 0 <= i < |c.jobs| ==> c.jobs[i].temporary != n
    ensures n in After(c, schedule).names <==> n in c.names
    ensures n in c.names ==> After(c, schedule).names[n] == c.names[n]
    decreases |schedule|
  {
    hide Act;
    if schedule != [] {
      var k := |schedule| - 1;
      NamesUntouched(c, schedule[..k], n);
      var s := After(c, schedule[..k]);
      var (w, a) := schedule[k];
      if w < |c.jobs| && Act(c, s, w, a).Some? {
        NameKept(c, s, w, a, n);
      }
    }
  }

  /** A name that is neither the destination nor a temporary keeps its file and its bytes. */
  lemma OthersUntouched(c: Config, schedule: seq<(WriterId, Action)>, n: Name)
    requires FreshNames(c) && Sane(c) && n != c.destination
    requires forall i :: 0 <= i < |c.jobs| ==> c.jobs[i].temporary != n
    ensures Read(After(c, schedule).names, After(c, schedule).contents, n) == Read(c.names, c.contents, n)
  {
    hide After, FreshNames;
    NamesUntouched(c, schedule, n);
    OriginalContents(c, schedule);
  }

  lemma OriginalContents(c: Config, schedule: seq<(WriterId, Action)>)
    requires FreshNames(c) && Sane(c)
    ensures forall i :: i in c.contents ==> i in After(c, schedule).contents && After(c, schedule).contents[i] == c.contents[i]
  {
    RunInv(c, schedule);
  }

  // ----- Exactly when calls leave each other alone -----

  /** In every run a flushed temporary file is still there for its writer to rename, and
      no file of the starting directory but the destination disappears. */
  ghost predicate Undisturbed(c: Config) {
    forall t: seq<(WriterId, Action)> :: LeftAlone(c, After(c, t))
  }

  ghost predicate LeftAlone(c: Config, s: State)
    requires |s.phases| == |c.jobs|
  {
    && (forall w: WriterId :: w < |c.jobs| && s.phases[w].Synced? ==> c.jobs[w].temporary in s.names)
    && (forall n :: n in c.names && n != c.destination ==> n in s.names)
  }

  /** The temporary names carry the destination's name inside a longer one. */
  ghost predicate NamesDiffer(c: Config) {
    forall i :: 0 <= i < |c.jobs| ==> c.jobs[i].temporary != c.destination
  }

  lemma FreshLeavesAlone(c: Config, t: seq<(WriterId, Action)>)
    requires FreshNames(c) && Sane(c)
    ensures LeftAlone(c, After(c, t))
  {
    hide After, Act;
    RunInv(c, t);
    var s := After(c, t);
    forall w: WriterId | w < |c.jobs| && s.phases[w].Synced? ensures c.jobs[w].temporary in s.names {
      assert WriterOk(c, s, w);
    }
    forall n | n in c.names && n != c.destination ensures n in s.names {
      NamesUntouched(c, t, n);
    }
  }

  lemma Snoc(c: Config, t: seq<(WriterId, Action)>, w: WriterId, a: Action)
    requires w < |c.jobs| && Act(c, After(c, t), w, a).Some?
    ensures After(c, t + [(w, a)]) == Act(c, After(c, t), w, a).value
  {
    var u := t + [(w, a)];
    assert u[..|u| - 1] == t && u[|u| - 1] == (w, a);
  }

  lemma {:induction false} UnusedInode(used: set<Inode>) returns (i: Inode)
    ensures forall u :: u in used ==> u < i
  {
    if used == {} {
      i := 0;
    } else {
      var u: Inode :| u in used;
      var j := UnusedInode(used - {u});
      i := if u < j then j else u + 1;
      forall x | x in used ensures x < i {
        assert x == u || x in used - {u};
      }
    }
  }

  /** A writer can arm its guard, fail to create its file, and clean up; the temporary
      name is then gone, whoever made it. */
  lemma ArmedCleanup(c: Config, t: seq<(WriterId, Action)>, w: WriterId) returns (u: seq<(WriterId, Action)>)
    requires w < |c.jobs| && After(c, t).phases[w] == Idle
    ensures After(c, u).names == After(c, t).names - {c.jobs[w].temporary}
    ensures forall v: WriterId :: v < |c.jobs| && v != w ==> After(c, u).phases[v] == After(c, t).phases[v]
  {
    hide After;
    Snoc(c, t, w, Arm);
    var t1 := t + [(w, Arm)];
    Snoc(c, t1, w, Fail);
    var t2 := t1 + [(w, Fail)];
    Snoc(c, t2, w, Clean(true));
    u := t2 + [(w, Clean(true))];
  }

  /** On a free name a writer can prepare its file in full. */
  lemma Prepare(c: Config, w: WriterId) returns (u: seq<(WriterId, Action)>)
    requires w < |c.jobs| && c.jobs[w].temporary !in c.names
    ensures After(c, u).phases[w].Synced?
    ensures forall v: WriterId :: v < |c.jobs| && v != w ==> After(c, u).phases[v] == Idle
  {
    var i := UnusedInode(c.contents.Keys);
    var size := |c.jobs[w].bytes|;
    Snoc(c, [], w, Arm);
    hide After;
    u := [] + [(w, Arm)];
    Snoc(c, u, w, Create(i));
    u := u + [(w, Create(i))];
    if size > 0 {
      Snoc(c, u, w, Write(size));
      u := u + [(w, Write(size))];
    }
    Snoc(c, u, w, FinishWrite);
    u := u + [(w, FinishWrite)];
    Snoc(c, u, w, Sync);
    u := u + [(w, Sync)];
  }

  /** Because the guard is armed before the file is created, calls leave each other and
      the directory alone exactly when their temporary names are distinct and new. */
  lemma UndisturbedIffFresh(c: Config)
    requires Sane(c) && NamesDiffer(c)
    ensures Undisturbed(c) <==> FreshNames(c)
  {
    hide After, Act, LeftAlone;
    if FreshNames(c) {
      forall t: seq<(WriterId, Action)> ensures LeftAlone(c, After(c, t)) { FreshLeavesAlone(c, t); }
    } else {
      var t := Disturbance(c);
      assert !LeftAlone(c, After(c, t));
    }
  }

  lemma Disturbance(c: Config) returns (t: seq<(WriterId, Action)>)
    requires Sane(c) && NamesDiffer(c) && !FreshNames(c)
    ensures !LeftAlone(c, After(c, t))
  {
    hide Act;
    if w: nat :| w < |c.jobs| && c.jobs[w].temporary in c.names {
      t := ArmedCleanup(c, [], w);
      hide After;
      assert c.jobs[w].temporary !in After(c, t).names;
    } else {
      var i: nat, j: nat :| i < j < |c.jobs| && c.jobs[i].temporary == c.jobs[j].temporary;
      hide After;
      var u := Prepare(c, i);
      t := ArmedCleanup(c, u, j);
      assert After(c, t).phases[i].Synced? && c.jobs[i].temporary !in After(c, t).names;
    }
  }

  // ----- The code of one call -----

  /** Which of the call's steps fail, after how many bytes writing does, and whether the
      cleanup fails. */
  datatype Faults = Faults(refuse: bool, create: bool, writeAfter: Option<nat>, sync: bool, rename: bool, cleanup: bool)

  /** The schedule goes on with actions of call `w` only. */
  ghost predicate Extends(before: seq<(WriterId, Action)>, schedule: seq<(WriterId, Action)>, w: WriterId) {
    before <= schedule && forall k :: |before| <= k < |schedule| ==> schedule[k].0 == w
  }

  class FileSystem {
    var names: map<Name, Inode>
    var contents: map<Inode, Bytes>
    var durable: set<Inode>
    var nextInode: Inode

    ghost predicate Valid()
      reads this
    {
      && (forall i :: i in contents ==> i < nextInode)
      && (forall n :: n in names ==> names[n] in contents)
    }

    /** The file system is the one the schedule leads to, with call `w` in phase `p`. */
    ghost predicate At(c: Config, schedule: seq<(WriterId, Action)>, w: WriterId, p: Phase)
      reads this
    {
      var s := After(c, schedule);
      && w < |c.jobs| && s.phases[w] == p
      && s.names == names && s.contents == contents && s.durable == durable
    }
  }

  /** The guard: dropping it removes the file it still names. */
  class PendingFile {
    var path: Option<Name>

    constructor (temporary: Name)
      ensures path == Some(temporary)
    {
      path := Some(temporary);
    }

    method Disarm()
      modifies this
      ensures path == None
    {
      path := None;
    }

    method Drop(fs: FileSystem, works: bool)
      modifies fs`names
      ensures fs.names == if path.Some? && works then old(fs.names) - {path.value} else old(fs.names)
    {
      if path.Some? && works {
        fs.names := fs.names - {path.value};
      }
    }
  }

  /** Leaving the call early drops the armed guard. */
  method Abandon(fs: FileSystem, c: Config, w: WriterId, pending: PendingFile, works: bool, ghost before: seq<(WriterId, Action)>, ghost p: Phase)
    returns (ghost schedule: seq<(WriterId, Action)>)
    requires w < |c.jobs| && fs.At(c, before, w, p) && pending.path == Some(c.jobs[w].temporary)
    requires p.Armed? || p.Writing? || p.Written? || p.Synced?
    modifies fs`names
    ensures Extends(before, schedule, w) && fs.At(c, schedule, w, Returned(false))
    ensures fs.names == if works then old(fs.names) - {c.jobs[w].temporary} else old(fs.names)
  {
    hide After;
    Snoc(c, before, w, Fail);
    ghost var failing := before + [(w, Fail)];
    Snoc(c, failing, w, Clean(works));
    schedule := failing + [(w, Clean(works))];
    pending.Drop(fs, works);
  }

  /** `write_all`: everything, or a prefix before the error. */
  method WriteAll(fs: FileSystem, c: Config, w: WriterId, i: Inode, limit: Option<nat>, ghost before: seq<(WriterId, Action)>)
    returns (ok: bool, ghost schedule: seq<(WriterId, Action)>)
    requires fs.Valid() && fs.At(c, before, w, Writing(i, 0)) && i in fs.contents
    modifies fs`contents, fs`durable
    ensures fs.Valid() && fs.contents.Keys == old(fs.contents.Keys)
    ensures ok <==> limit.None? || limit.value >= |c.jobs[w].bytes|
    ensures Extends(before, schedule, w)
    ensures if ok then fs.At(c, schedule, w, Written(i)) else exists n :: fs.At(c, schedule, w, Writing(i, n))
  {
    hide After;
    schedule := before;
    var bytes := c.jobs[w].bytes;
    var n := if limit.Some? && limit.value < |bytes| then limit.value else |bytes|;
    if n > 0 {
      Snoc(c, schedule, w, Write(n));
      schedule := schedule + [(w, Write(n))];
      fs.contents := fs.contents[i := fs.contents[i] + bytes[0..n]];
      fs.durable := fs.durable - {i};
    }
    ok := n == |bytes|;
    if ok {
      Snoc(c, schedule, w, FinishWrite);
      schedule := schedule + [(w, FinishWrite)];
    } else {
      assert fs.At(c, schedule, w, Writing(i, n));
    }
  }

  /** `create_new`, on a free name. */
  method CreateNew(fs: FileSystem, c: Config, w: WriterId, ghost before: seq<(WriterId, Action)>)
    returns (i: Inode, ghost schedule: seq<(WriterId, Action)>)
    requires fs.Valid() && fs.At(c, before, w, Armed) && c.jobs[w].temporary !in fs.names
    modifies fs
    ensures Extends(before, schedule, w)
    ensures fs.Valid() && fs.At(c, schedule, w, Writing(i, 0)) && i in fs.contents
    ensures fs.names == old(fs.names)[c.jobs[w].temporary := i]
  {
    hide After;
    i := fs.nextInode;
    Snoc(c, before, w, Create(i));
    schedule := before + [(w, Create(i))];
    fs.names := fs.names[c.jobs[w].temporary := i];
    fs.contents := fs.contents[i := []];
    fs.nextInode := i + 1;
  }

  /** Flushing, renaming and disarming. */
  method Publish(fs: FileSystem, c: Config, w: WriterId, i: Inode, pending: PendingFile, faults: Faults, ghost before: seq<(WriterId, Action)>)
    returns (ok: bool, ghost schedule: seq<(WriterId, Action)>)
    requires fs.At(c, before, w, Written(i)) && pending.path == Some(c.jobs[w].temporary) && c.jobs[w].temporary in fs.names
    modifies fs, pending
    ensures Extends(before, schedule, w) && fs.At(c, schedule, w, Returned(ok))
    ensures ok <==> !faults.sync && !faults.rename
  {
    hide After;
    var temporary := c.jobs[w].temporary;
    schedule := before;
    if faults.sync {
      schedule := Abandon(fs, c, w, pending, !faults.cleanup, schedule, Written(i));
      return false, schedule;
    }
    Snoc(c, schedule, w, Sync);
    schedule := schedule + [(w, Sync)];
    fs.durable := fs.durable + {i};
    if faults.rename {
      schedule := Abandon(fs, c, w, pending, !faults.cleanup, schedule, Synced(i));
      return false, schedule;
    }
    Snoc(c, schedule, w, Rename);
    schedule := schedule + [(w, Rename)];
    fs.names := (fs.names - {temporary})[c.destination := fs.names[temporary]];
    assert fs.At(c, schedule, w, Renamed);
    pending.Disarm();
    Snoc(c, schedule, w, Disarm);
    schedule := schedule + [(w, Disarm)];
    pending.Drop(fs, !faults.cleanup);
    ok := true;
  }

  /** One call, from its start to its return: whatever fails, it takes the steps of a
      schedule of its own, and it reports success exactly when nothing failed and the
      temporary name was free. */
  method Replace(fs: FileSystem, c: Config, w: WriterId, faults: Faults, ghost before: seq<(WriterId, Action)>)
    returns (ok: bool, ghost schedule: seq<(WriterId, Action)>)
    requires fs.Valid() && fs.At(c, before, w, Idle)
    modifies fs
    ensures Extends(before, schedule, w) && fs.At(c, schedule, w, Returned(ok))
    ensures ok <==> !faults.refuse && !faults.create && !faults.sync && !faults.rename && c.jobs[w].temporary !in old(fs.names) &&
                    (faults.writeAfter.None? || faults.writeAfter.value >= |c.jobs[w].bytes|)
  {
    hide After;
    schedule := before;
    if faults.refuse {
      Snoc(c, schedule, w, Refuse);
      return false, schedule + [(w, Refuse)];
    }
    var temporary := c.jobs[w].temporary;
    var pending := new PendingFile(temporary);
    Snoc(c, schedule, w, Arm);
    schedule := schedule + [(w, Arm)];
    assert fs.At(c, schedule, w, Armed);
    hide Act;
    if faults.create || temporary in fs.names {
      schedule := Abandon(fs, c, w, pending, !faults.cleanup, schedule, Armed);
      return false, schedule;
    }
    var i;
    i, schedule := CreateNew(fs, c, w, schedule);
    var written;
    written, schedule := WriteAll(fs, c, w, i, faults.writeAfter, schedule);
    if !written {
      ghost var n :| fs.At(c, schedule, w, Writing(i, n));
      schedule := Abandon(fs, c, w, pending, !faults.cleanup, schedule, Writing(i, n));
      return false, schedule;
    }
    ok, schedule := Publish(fs, c, w, i, pending, faults, schedule);
  }
}
