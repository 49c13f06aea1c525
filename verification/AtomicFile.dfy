/** The crash-atomic file write (internal/fsutil/atomic.go) over a disk whose
    directory operations become durable in order, and only when flushed.

    A state keeps the whole history of the target directory: dirs[k] is the directory
    after k operations, the last one is what readers see, and a power cut may keep any
    dirs[n] with flushed <= n. File data survives a cut only once it was fsynced. */
module AtomicFile {
  import opened Text

  type Bytes = string
  type Writer = nat

  datatype Name = Target | Temp(w: Writer)
  datatype Inode = Original | Of(w: Writer)
  datatype File = File(data: Bytes, synced: bool)

  /** Failed carries whether the deferred removal of the temp file failed too. */
  datatype Outcome = Ok | Durability | Failed(tempLeft: bool)

  datatype Phase = Idle | Created | Chmodded | Written | Synced | Closed | Aborting | Renamed | Done(outcome: Outcome)

  type Dir = map<Name, Inode>

  /** renamed[w] is the position in dirs of the directory that writer w's rename made. */
  datatype State = State(dirs: seq<Dir>, flushed: nat, files: map<Inode, File>, phase: map<Writer, Phase>,
                         renamed: map<Writer, nat>)
  {
    predicate Shaped() {
      flushed < |dirs|
    }

    function Now(): Dir {
      if dirs == [] then map[] else dirs[|dirs| - 1]
    }

    function At(w: Writer): Phase {
      if w in phase then phase[w] else Idle
    }

    function Enter(w: Writer, p: Phase): State {
      this.(phase := phase[w := p])
    }

    function Publish(d: Dir): State {
      this.(dirs := dirs + [d])
    }

    function Put(w: Writer, f: File): State {
      this.(files := files[Of(w) := f])
    }

    function FlushAll(): State {
      if dirs == [] then this else this.(flushed := |dirs| - 1)
    }
  }

  function Start(initial: Option<Bytes>): State {
    match initial
    case None => State([map[]], 0, map[], map[], map[])
    case Some(content) => State([map[Target := Original]], 0, map[Original := File(content, true)], map[], map[])
  }

  // ---- The system calls, as steps of one writer -----------------------------

  /** How a call went. A failing write may leave any bytes in the temp file; a
      directory sync that reports failure may still have reached the disk. */
  datatype Result = Success | Failure(written: Bytes, flushed: bool)

  /** The next call of writer w, which wants to publish content. */
  function Exec(content: Bytes, s: State, w: Writer, r: Result): State {
    match s.At(w)
    case Idle =>
      if r.Failure? then s.Enter(w, Done(Failed(false)))
      else s.Publish(s.Now()[Temp(w) := Of(w)]).Put(w, File("", false)).Enter(w, Created)
    case Created => s.Enter(w, if r.Failure? then Aborting else Chmodded)
    case Chmodded =>
      if r.Failure? then s.Put(w, File(r.written, false)).Enter(w, Aborting)
      else s.Put(w, File(content, false)).Enter(w, Written)
    case Written =>
      if r.Failure? || Of(w) !in s.files then s.Enter(w, Aborting)
      else s.Put(w, s.files[Of(w)].(synced := true)).Enter(w, Synced)
    case Synced => s.Enter(w, if r.Failure? then Aborting else Closed)
    case Closed =>
      if r.Failure? then s.Enter(w, Aborting)
      else s.Publish((s.Now() - {Temp(w)})[Target := Of(w)]).(renamed := s.renamed[w := |s.dirs|]).Enter(w, Renamed)
    case Aborting =>
      if r.Failure? then s.Enter(w, Done(Failed(true)))
      else s.Publish(s.Now() - {Temp(w)}).Enter(w, Done(Failed(false)))
    case Renamed =>
      if r.Success? then s.FlushAll().Enter(w, Done(Ok))
      else (if r.flushed then s.FlushAll() else s).Enter(w, Done(Durability))
    case Done(_) => s
  }

  ghost predicate WriterStep(data: seq<Bytes>, s: State, t: State, w: Writer, r: Result) {
    w < |data| && t == Exec(data[w], s, w, r)
  }

  /** The kernel may flush directory operations at any time. */
  ghost predicate FlushStep(s: State, t: State) {
    s.flushed <= t.flushed < |s.dirs| && t == s.(flushed := t.flushed)
  }

  ghost predicate Next(data: seq<Bytes>, s: State, t: State) {
    FlushStep(s, t) || exists w, r :: WriterStep(data, s, t, w, r)
  }

  ghost predicate Run(data: seq<Bytes>, initial: Option<Bytes>, run: seq<State>) {
    && run != [] && run[0] == Start(initial)
    && forall i :: 0 <= i < |run| - 1 ==> Next(data, run[i], run[i + 1])
  }

  // ---- What readers and crashes see ----------------------------------------

  function Owner(d: Dir): Option<Inode> {
    if Target in d then Some(d[Target]) else None
  }

  /** What a reader sees in directory d; unsynced data is anything after a crash. */
  ghost predicate Holds(s: State, d: Dir, content: Option<Bytes>) {
    match Owner(d)
    case None => content == None
    case Some(ino) => content.Some? && ino in s.files && (s.files[ino].synced ==> content.value == s.files[ino].data)
  }

  /** A content of the target that a power cut in state s can leave. */
  ghost predicate CrashLeaves(s: State, content: Option<Bytes>) {
    exists n :: s.flushed <= n < |s.dirs| && Holds(s, s.dirs[n], content)
  }

  predicate Published(p: Phase) {
    p == Renamed || p == Done(Ok) || p == Done(Durability)
  }

  predicate DataSafe(p: Phase) {
    p == Synced || p == Closed || Published(p)
  }

  /** w made the last rename among the first k directory operations. */
  ghost predicate Latest(renamed: map<Writer, nat>, w: Writer, k: int) {
    && w in renamed && renamed[w] <= k
    && forall v :: v in renamed && v != w && renamed[v] <= k ==> renamed[v] < renamed[w]
  }

  ghost predicate OwnerInv(initial: Option<Bytes>, s: State, k: int)
    requires 0 <= k < |s.dirs|
  {
    match Owner(s.dirs[k])
    case Some(Of(w)) => Latest(s.renamed, w, k)
    case o => (o == if initial.Some? then Some(Original) else None) && forall v :: v in s.renamed ==> s.renamed[v] > k
  }

  ghost predicate FilesInv(data: seq<Bytes>, initial: Option<Bytes>, s: State) {
    && (initial.Some? ==> Original in s.files && s.files[Original] == File(initial.value, true))
    && forall w: Writer :: w < |data| ==> FileInv(data, s, w)
  }

  ghost predicate WriterInv(s: State, w: Writer) {
    && (Published(s.At(w)) <==> w in s.renamed)
    && (s.At(w) == Done(Ok) ==> w in s.renamed && s.renamed[w] <= s.flushed)
    && (Temp(w) in s.Now() ==> s.At(w) != Idle && !Published(s.At(w)) && s.At(w) != Done(Failed(false)))
  }

  ghost predicate PhaseInv(data: seq<Bytes>, s: State) {
    && (forall w :: w in s.renamed ==> w < |data| && s.renamed[w] < |s.dirs|)
    && forall w: Writer :: WriterInv(s, w)
  }

  ghost predicate Inv(data: seq<Bytes>, initial: Option<Bytes>, s: State) {
    && s.Shaped() && FilesInv(data, initial, s) && PhaseInv(data, s)
    && forall k :: 0 <= k < |s.dirs| ==> OwnerInv(initial, s, k)
  }

  // ---- The invariant over every interleaving --------------------------------

  /** A step of w leaves every other writer's phase and file alone. */
  lemma OtherPhase(data: seq<Bytes>, s: State, t: State, w: Writer, r: Result, v: Writer)
    requires WriterStep(data, s, t, w, r) && v != w
    ensures t.At(v) == s.At(v)
  {
    match s.At(w)
    case Done(_) =>
    case _ => assert t.phase == s.phase[w := t.At(w)];
  }

  lemma OtherFile(data: seq<Bytes>, s: State, t: State, w: Writer, r: Result, ino: Inode)
    requires WriterStep(data, s, t, w, r) && ino != Of(w)
    ensures ino in t.files <==> ino in s.files
    ensures ino in s.files ==> t.files[ino] == s.files[ino]
  {
  }

  ghost predicate FileInv(data: seq<Bytes>, s: State, w: Writer)
    requires w < |data|
  {
    && (s.At(w) == Written ==> Of(w) in s.files && s.files[Of(w)].data == data[w])
    && (DataSafe(s.At(w)) ==> Of(w) in s.files && s.files[Of(w)] == File(data[w], true))
  }

  lemma OwnFileKept(data: seq<Bytes>, s: State, t: State, w: Writer, r: Result)
    requires WriterStep(data, s, t, w, r) && FileInv(data, s, w)
    ensures FileInv(data, t, w)
  {
  }

  lemma FilesKept(data: seq<Bytes>, initial: Option<Bytes>, s: State, t: State, w: Writer, r: Result)
    requires FilesInv(data, initial, s) && WriterStep(data, s, t, w, r)
    ensures FilesInv(data, initial, t)
  {
    OtherFile(data, s, t, w, r, Original);
    forall v: Writer | v < |data| ensures FileInv(data, t, v) {
      assert FileInv(data, s, v);
      if v == w {
        OwnFileKept(data, s, t, w, r);
      } else {
        OtherFile(data, s, t, w, r, Of(v));
        OtherPhase(data, s, t, w, r, v);
      }
    }
  }

  /** The directory history grows by at most one directory; only a rename moves the owner. */
  lemma StepDirs(data: seq<Bytes>, s: State, t: State, w: Writer, r: Result)
    requires WriterStep(data, s, t, w, r) && s.Shaped()
    ensures t.Shaped() && s.flushed <= t.flushed
    ensures t.renamed == if s.At(w) == Closed && t.At(w) == Renamed then s.renamed[w := |s.dirs|] else s.renamed
    ensures t.dirs == s.dirs || t.dirs == s.dirs + [t.Now()]
    ensures if s.At(w) == Closed && t.At(w) == Renamed
            then t.dirs != s.dirs && Owner(t.Now()) == Some(Of(w))
            else Owner(t.Now()) == Owner(s.Now())
  {
  }

  lemma OwnPhaseKept(data: seq<Bytes>, s: State, t: State, w: Writer, r: Result)
    requires WriterStep(data, s, t, w, r) && s.Shaped() && WriterInv(s, w)
    requires w in s.renamed ==> s.renamed[w] < |s.dirs|
    ensures WriterInv(t, w)
  {
  }

  lemma OtherPhaseKept(data: seq<Bytes>, s: State, t: State, w: Writer, r: Result, v: Writer)
    requires WriterStep(data, s, t, w, r) && s.Shaped() && WriterInv(s, v) && v != w
    ensures WriterInv(t, v)
  {
    OtherPhase(data, s, t, w, r, v);
    StepDirs(data, s, t, w, r);
    assert Temp(v) in t.Now() <==> Temp(v) in s.Now();
  }

  lemma PhaseKept(data: seq<Bytes>, s: State, t: State, w: Writer, r: Result)
    requires s.Shaped() && PhaseInv(data, s) && WriterStep(data, s, t, w, r)
    ensures PhaseInv(data, t)
  {
    StepDirs(data, s, t, w, r);
    forall v ensures WriterInv(t, v) {
      if v == w {
        OwnPhaseKept(data, s, t, w, r);
      } else {
        OtherPhaseKept(data, s, t, w, r, v);
      }
    }
  }

  lemma OwnersKept(data: seq<Bytes>, initial: Option<Bytes>, s: State, t: State, w: Writer, r: Result)
    requires s.Shaped() && PhaseInv(data, s) && WriterStep(data, s, t, w, r)
    requires forall k :: 0 <= k < |s.dirs| ==> OwnerInv(initial, s, k)
    ensures forall k :: 0 <= k < |t.dirs| ==> OwnerInv(initial, t, k)
  {
    StepDirs(data, s, t, w, r);
    assert WriterInv(s, w);
    forall k | 0 <= k < |t.dirs| ensures OwnerInv(initial, t, k) {
      assert OwnerInv(initial, s, if k < |s.dirs| then k else |s.dirs| - 1);
    }
  }

  lemma InvNext(data: seq<Bytes>, initial: Option<Bytes>, s: State, t: State)
    requires Inv(data, initial, s) && Next(data, s, t)
    ensures Inv(data, initial, t)
  {
    if FlushStep(s, t) {
      assert forall v :: WriterInv(s, v) ==> WriterInv(t, v);
      assert forall v: Writer :: v < |data| && FileInv(data, s, v) ==> FileInv(data, t, v);
      assert forall k :: 0 <= k < |s.dirs| ==> OwnerInv(initial, s, k) == OwnerInv(initial, t, k);
    } else {
      var w, r :| WriterStep(data, s, t, w, r);
      FilesKept(data, initial, s, t, w, r);
      PhaseKept(data, s, t, w, r);
      StepDirs(data, s, t, w, r);
      OwnersKept(data, initial, s, t, w, r);
    }
  }

  lemma {:induction false} RunInv(data: seq<Bytes>, initial: Option<Bytes>, run: seq<State>)
    requires Run(data, initial, run)
    ensures Inv(data, initial, run[|run| - 1])
    decreases |run|
  {
    if |run| <= 1 {
    } else {
      var shorter := run[..|run| - 1];
      RunInv(data, initial, shorter);
      InvNext(data, initial, run[|run| - 2], run[|run| - 1]);
    }
  }

  // ---- The promises --------------------------------------------------------

  /** A complete content: the first one, or everything one publishing writer asked for. */
  ghost predicate Complete(data: seq<Bytes>, initial: Option<Bytes>, s: State, content: Option<Bytes>) {
    content == initial || exists w: Writer :: w < |data| && w in s.renamed && content == Some(data[w])
  }

  ghost predicate Visible(s: State, content: Option<Bytes>) {
    Holds(s, s.Now(), content)
  }

  lemma HoldsComplete(data: seq<Bytes>, initial: Option<Bytes>, s: State, k: nat, content: Option<Bytes>)
    requires Inv(data, initial, s) && k < |s.dirs| && Holds(s, s.dirs[k], content)
    ensures Complete(data, initial, s, content)
  {
    assert OwnerInv(initial, s, k);
    match Owner(s.dirs[k]) {
      case Some(Of(w)) => assert WriterInv(s, w) && FileInv(data, s, w);
      case _ =>
    }
  }

  /** At every point of every interleaving of any number of writers, with any call
      failing, both a reader and a machine restarted after a power cut find one
      complete content. */
  lemma NeverTorn(data: seq<Bytes>, initial: Option<Bytes>, run: seq<State>, content: Option<Bytes>)
    requires Run(data, initial, run)
    requires CrashLeaves(run[|run| - 1], content) || Visible(run[|run| - 1], content)
    ensures Complete(data, initial, run[|run| - 1], content)
  {
    RunInv(data, initial, run);
    var s := run[|run| - 1];
    assert Visible(s, content) ==> Holds(s, s.dirs[|s.dirs| - 1], content);
    var n :| 0 <= n < |s.dirs| && Holds(s, s.dirs[n], content);
    HoldsComplete(data, initial, s, n, content);
  }

  /** A nil return is durable: a power cut any time later leaves that writer's
      content, or that of a writer whose rename came after. */
  lemma NilSurvives(data: seq<Bytes>, initial: Option<Bytes>, run: seq<State>, w: Writer, content: Option<Bytes>)
    requires Run(data, initial, run)
    requires w < |data| && run[|run| - 1].At(w) == Done(Ok) && CrashLeaves(run[|run| - 1], content)
    ensures var renamed := run[|run| - 1].renamed;
            && w in renamed
            && exists v: Writer :: v < |data| && v in renamed && content == Some(data[v])
                                   && (v == w || renamed[w] < renamed[v])
  {
    RunInv(data, initial, run);
    var s := run[|run| - 1];
    var n :| s.flushed <= n < |s.dirs| && Holds(s, s.dirs[n], content);
    assert OwnerInv(initial, s, n) && WriterInv(s, w) && s.renamed[w] <= n;
    var v := Owner(s.dirs[n]).value.w;
    assert WriterInv(s, v) && FileInv(data, s, v);
  }

  /** The three results tell the caller what is on disk: nil and a DurabilityError
      mean this writer published its whole content, any other error means it never
      owned the target, and its temp name is gone unless the removal failed too. */
  lemma ResultMeaning(data: seq<Bytes>, initial: Option<Bytes>, run: seq<State>, w: Writer)
    requires Run(data, initial, run)
    requires w < |data| && run[|run| - 1].At(w).Done?
    ensures var s := run[|run| - 1]; var outcome := s.At(w).outcome;
            && (!outcome.Failed? <==> exists k :: 0 <= k < |s.dirs| && Owner(s.dirs[k]) == Some(Of(w)))
            && (!outcome.Failed? ==> Of(w) in s.files && s.files[Of(w)] == File(data[w], true))
            && (outcome != Failed(true) ==> Temp(w) !in s.Now())
  {
    RunInv(data, initial, run);
    var s := run[|run| - 1];
    assert WriterInv(s, w) && FileInv(data, s, w);
    if !s.At(w).outcome.Failed? {
      LatestOwner(data, initial, s, w);
    } else {
      forall k | 0 <= k < |s.dirs| ensures Owner(s.dirs[k]) != Some(Of(w)) {
        assert OwnerInv(initial, s, k);
      }
    }
  }

  lemma LatestOwner(data: seq<Bytes>, initial: Option<Bytes>, s: State, w: Writer)
    requires Inv(data, initial, s) && w in s.renamed
    ensures Owner(s.dirs[s.renamed[w]]) == Some(Of(w))
  {
    assert OwnerInv(initial, s, s.renamed[w]);
  }

  // ---- WriteFile itself ----------------------------------------------------

  /** The state after a writer's calls went as listed. */
  function Calls(content: Bytes, s: State, w: Writer, results: seq<Result>): State
    decreases |results|
  {
    if results == [] then s
    else Exec(content, Calls(content, s, w, results[..|results| - 1]), w, results[|results| - 1])
  }

  lemma CallsAppend(content: Bytes, s: State, w: Writer, results: seq<Result>, r: Result)
    ensures Calls(content, s, w, results + [r]) == Exec(content, Calls(content, s, w, results), w, r)
  {
    assert (results + [r])[..|results|] == results;
  }

  lemma ExtendRun(data: seq<Bytes>, initial: Option<Bytes>, run: seq<State>, t: State)
    requires Run(data, initial, run) && Next(data, run[|run| - 1], t)
    ensures Run(data, initial, run + [t])
  {
  }

  /** A writer's calls are steps of a run, so every promise about runs holds at each
      of them, whatever other writers did before. */
  lemma {:induction false} CallsRun(data: seq<Bytes>, initial: Option<Bytes>, run: seq<State>, w: Writer,
                                    results: seq<Result>)
      returns (longer: seq<State>)
    requires Run(data, initial, run) && w < |data|
    ensures Run(data, initial, longer) && run <= longer
    ensures longer[|longer| - 1] == Calls(data[w], run[|run| - 1], w, results)
    decreases |results|
  {
    longer := run;
    if results == [] {
    } else {
      var most, r := results[..|results| - 1], results[|results| - 1];
      assert results == most + [r];
      var before := CallsRun(data, initial, run, w, most);
      CallsAppend(data[w], run[|run| - 1], w, most, r);
      var next := Calls(data[w], run[|run| - 1], w, results);
      assert WriterStep(data, before[|before| - 1], next, w, r);
      ExtendRun(data, initial, before, next);
      longer := before + [next];
    }
  }

  /** n calls, all of which went well. */
  ghost predicate Went(results: seq<Result>, n: nat) {
    |results| == n && forall i :: 0 <= i < n ==> results[i].Success?
  }

  /** At most n calls, of which the last one failed. */
  ghost predicate Broke(results: seq<Result>, n: nat) {
    && 1 <= |results| <= n && results[|results| - 1].Failure?
    && forall i :: 0 <= i < |results| - 1 ==> results[i].Success?
  }

  /** What the caller is told of the calls: all seven went well, only the last one did
      not, or an earlier one failed and the temp file, if there was one, went or stayed. */
  ghost predicate Tells(results: seq<Result>, outcome: Outcome) {
    match outcome
    case Ok => Went(results, 7)
    case Durability => |results| == 7 && Broke(results, 7)
    case Failed(left) =>
      || (Broke(results, 1) && !left)
      || (|results| > 2 && Broke(results[..|results| - 1], 6) && left == results[|results| - 1].Failure?)
  }

  /** A disk on which any system call may fail. done lists how one writer's calls went. */
  class Disk {
    var s: State

    /** os.CreateTemp: a name and an inode no one else uses. */
    method CreateTemp(w: Writer, content: Bytes) returns (r: Result)
      requires s.At(w) == Idle
      modifies this
      ensures s == Exec(content, old(s), w, r)
    {
      r := Oracle();
      if r.Success? {
        s := s.(dirs := s.dirs + [s.Now()[Temp(w) := Of(w)]], files := s.files[Of(w) := File("", false)]);
      }
      s := s.Enter(w, if r.Success? then Created else Done(Failed(false)));
    }

    method Chmod(w: Writer, content: Bytes) returns (r: Result)
      requires s.At(w) == Created
      modifies this
      ensures s == Exec(content, old(s), w, r)
    {
      r := Oracle();
      s := s.Enter(w, if r.Success? then Chmodded else Aborting);
    }

    method Write(w: Writer, content: Bytes) returns (r: Result)
      requires s.At(w) == Chmodded
      modifies this
      ensures s == Exec(content, old(s), w, r)
    {
      r := Oracle();
      s := s.(files := s.files[Of(w) := File(if r.Success? then content else r.written, false)]);
      s := s.Enter(w, if r.Success? then Written else Aborting);
    }

    method Fsync(w: Writer, content: Bytes) returns (r: Result)
      requires s.At(w) == Written && Of(w) in s.files
      modifies this
      ensures s == Exec(content, old(s), w, r)
    {
      r := Oracle();
      if r.Success? {
        s := s.(files := s.files[Of(w) := File(s.files[Of(w)].data, true)]);
      }
      s := s.Enter(w, if r.Success? then Synced else Aborting);
    }

    method Close(w: Writer, content: Bytes) returns (r: Result)
      requires s.At(w) == Synced
      modifies this
      ensures s == Exec(content, old(s), w, r)
    {
      r := Oracle();
      s := s.Enter(w, if r.Success? then Closed else Aborting);
    }

    method Rename(w: Writer, content: Bytes) returns (r: Result)
      requires s.At(w) == Closed
      modifies this
      ensures s == Exec(content, old(s), w, r)
    {
      r := Oracle();
      if r.Success? {
        var d := s.Now() - {Temp(w)};
        s := s.(dirs := s.dirs + [d[Target := Of(w)]], renamed := s.renamed[w := |s.dirs|]);
      }
      s := s.Enter(w, if r.Success? then Renamed else Aborting);
    }

    method SyncDir(w: Writer, content: Bytes) returns (r: Result)
      requires s.At(w) == Renamed
      modifies this
      ensures s == Exec(content, old(s), w, r) && s.files == old(s).files && Owner(s.Now()) == Owner(old(s).Now())
      ensures s.At(w) == Done(if r.Success? then Ok else Durability)
    {
      r := Oracle();
      if r.Success? || r.flushed {
        s := s.FlushAll();
      }
      s := s.Enter(w, Done(if r.Success? then Ok else Durability));
    }

    method Remove(w: Writer, content: Bytes) returns (r: Result)
      requires s.At(w) == Aborting
      modifies this
      ensures s == Exec(content, old(s), w, r) && s.files == old(s).files && Owner(s.Now()) == Owner(old(s).Now())
      ensures s.At(w) == Done(Failed(r.Failure?))
    {
      r := Oracle();
      if r.Success? {
        s := s.(dirs := s.dirs + [s.Now() - {Temp(w)}]);
      }
      s := s.Enter(w, Done(Failed(r.Failure?)));
    }

    method Oracle() returns (r: Result)
    {
      var failing: bool, written: Bytes, flushed: bool := *, *, *;
      return if failing then Failure(written, flushed) else Success;
    }

    /** Writes content to the target: create, chmod, write, fsync, close, rename,
        fsync the directory; any failure before the rename removes the temp file. */
    method WriteFile(w: Writer, content: Bytes) returns (outcome: Outcome, ghost done: seq<Result>)
      requires s.At(w) == Idle
      modifies this
      ensures s == Calls(content, old(s), w, done) && s.At(w) == Done(outcome) && Tells(done, outcome)
      ensures if outcome.Failed? then Owner(s.Now()) == Owner(old(s).Now())
              else Owner(s.Now()) == Some(Of(w)) && Of(w) in s.files && s.files[Of(w)] == File(content, true)
    {
      var r := CreateTemp(w, content);
      CallsAppend(content, old(s), w, [], r);
      done := [] + [r];
      if r.Failure? {
        return Failed(false), done;
      }
      var renamed: bool;
      renamed, done := Fill(w, content, old(s), done);
      outcome, done := Settle(w, content, renamed, old(s), done);
    }

    /** Past the rename the directory is flushed; before it the temp file is removed. */
    method Settle(w: Writer, content: Bytes, renamed: bool, ghost start: State, ghost before: seq<Result>)
        returns (outcome: Outcome, ghost done: seq<Result>)
      requires s.At(w) == (if renamed then Renamed else Aborting) && s == Calls(content, start, w, before)
      requires if renamed then Went(before, 6) else Broke(before, 6) && |before| > 1
      modifies this
      ensures s == Calls(content, start, w, done) && s.At(w) == Done(outcome) && Tells(done, outcome)
      ensures s.files == old(s).files
      ensures outcome.Failed? == !renamed && Owner(s.Now()) == Owner(old(s).Now())
    {
      if renamed {
        var r := SyncDir(w, content);
        CallsAppend(content, start, w, before, r);
        return if r.Success? then Ok else Durability, before + [r];
      }
      var r := Remove(w, content);
      CallsAppend(content, start, w, before, r);
      done := before + [r];
      assert done[..|done| - 1] == before;
      return Failed(r.Failure?), done;
    }

    /** The calls between creating the temp file and the rename; false leaves the
        temp file for the deferred removal. */
    method Fill(w: Writer, content: Bytes, ghost start: State, ghost before: seq<Result>)
        returns (ok: bool, ghost done: seq<Result>)
      requires s.At(w) == Created && s == Calls(content, start, w, before) && Went(before, 1)
      modifies this
      ensures s == Calls(content, start, w, done)
      ensures if ok then Went(done, 6) else Broke(done, 6) && |done| > 1
      ensures if ok then s.At(w) == Renamed && Owner(s.Now()) == Some(Of(w)) && Of(w) in s.files
              && s.files[Of(w)] == File(content, true)
              else s.At(w) == Aborting && Owner(s.Now()) == Owner(old(s).Now())
    {
      ok, done := WriteData(w, content, start, before);
      if !ok {
        return;
      }
      var r := Fsync(w, content);
      CallsAppend(content, start, w, done, r);
      done := done + [r];
      if r.Failure? {
        return false, done;
      }
      ok, done := Move(w, content, start, done);
    }

    method WriteData(w: Writer, content: Bytes, ghost start: State, ghost before: seq<Result>)
        returns (ok: bool, ghost done: seq<Result>)
      requires s.At(w) == Created && s == Calls(content, start, w, before) && Went(before, 1)
      modifies this
      ensures if ok then Went(done, 3) else Broke(done, 3) && |done| > 1
      ensures s == Calls(content, start, w, done) && Owner(s.Now()) == Owner(old(s).Now())
      ensures if ok then s.At(w) == Written && Of(w) in s.files && s.files[Of(w)].data == content
              else s.At(w) == Aborting
    {
      var r := Chmod(w, content);
      CallsAppend(content, start, w, before, r);
      done := before + [r];
      if r.Failure? {
        return false, done;
      }
      r := Write(w, content);
      CallsAppend(content, start, w, done, r);
      done := done + [r];
      return r.Success?, done;
    }

    method Move(w: Writer, content: Bytes, ghost start: State, ghost before: seq<Result>)
        returns (ok: bool, ghost done: seq<Result>)
      requires s.At(w) == Synced && s == Calls(content, start, w, before) && Went(before, 4)
      modifies this
      ensures if ok then Went(done, 6) else Broke(done, 6) && |done| > 1
      ensures s == Calls(content, start, w, done) && s.files == old(s).files
      ensures if ok then s.At(w) == Renamed && Owner(s.Now()) == Some(Of(w))
              else s.At(w) == Aborting && Owner(s.Now()) == Owner(old(s).Now())
    {
      var r := Close(w, content);
      CallsAppend(content, start, w, before, r);
      done := before + [r];
      if r.Failure? {
        return false, done;
      }
      r := Rename(w, content);
      CallsAppend(content, start, w, done, r);
      done := done + [r];
      return r.Success?, done;
    }
  }
}
