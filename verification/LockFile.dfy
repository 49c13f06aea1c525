/** The config lock as a file. A process opens the path once and then polls the lock of
    the file it got (internal/commands/lock.go); the path lies in the config directory,
    which the rollback of a failed upgrade removes and copies back while the upgrade
    holds the lock (internal/commands/install.go). */
module LockFile {
  import opened Text

  /** A process that has the lock file open, polling or holding its lock. Processes
      without an entry have not opened it yet or have closed it. */
  datatype Proc = Polling(file: nat) | Holding(file: nat)

  /** name is the file the path leads to, if any; files from next on do not exist yet. */
  datatype System = System(name: Option<nat>, next: nat, procs: map<nat, Proc>)

  datatype Step =
    | Open(pid: nat)
    | Poll(pid: nat)
    | Close(pid: nat)
    | RemoveConfig(pid: nat)
    | CopyBack(pid: nat)

  predicate Holds(s: System, pid: nat) {
    pid in s.procs && s.procs[pid].Holding?
  }

  ghost predicate Taken(s: System, file: nat) {
    exists p :: Holds(s, p) && s.procs[p].file == file
  }

  /** The path leads to a new file unless it leads to one already. */
  function Created(s: System): System {
    if s.name.Some? then s else s.(name := Some(s.next), next := s.next + 1)
  }

  /** A step that is not possible leaves the system as it is. Closing releases, and so
      does a kill; the copy writes into a file that is there. */
  ghost function Exec(s: System, step: Step): System {
    match step
    case Open(pid) =>
      if pid in s.procs then s
      else var t := Created(s); t.(procs := t.procs[pid := Polling(t.name.value)])
    case Poll(pid) =>
      if pid in s.procs && !Taken(s, s.procs[pid].file) then s.(procs := s.procs[pid := Holding(s.procs[pid].file)])
      else s
    case Close(pid) => s.(procs := s.procs - {pid})
    case RemoveConfig(pid) => if Holds(s, pid) then s.(name := None) else s
    case CopyBack(pid) => if Holds(s, pid) then Created(s) else s
  }

  ghost function Run(s: System, steps: seq<Step>): System {
    if steps == [] then s else Exec(Run(s, steps[..|steps| - 1]), steps[|steps| - 1])
  }

  /** What the kernel keeps: open files exist, and each has one holder at most. */
  ghost predicate Valid(s: System) {
    && (s.name.Some? ==> s.name.value < s.next)
    && (forall p :: p in s.procs ==> s.procs[p].file < s.next)
    && forall p, q :: Holds(s, p) && Holds(s, q) && s.procs[p].file == s.procs[q].file ==> p == q
  }

  /** One process at most is in its critical section. */
  ghost predicate Exclusive(s: System) {
    forall p, q :: Holds(s, p) && Holds(s, q) ==> p == q
  }

  /** Whoever has the lock file open has the one the path leads to. */
  ghost predicate Current(s: System) {
    forall p :: p in s.procs ==> s.name == Some(s.procs[p].file)
  }

  predicate NoRemoval(steps: seq<Step>) {
    forall i :: 0 <= i < |steps| ==> !steps[i].RemoveConfig?
  }

  /** Exclusion holds whatever happens next, short of another removal. */
  ghost predicate Guarded(s: System) {
    forall steps :: NoRemoval(steps) ==> Exclusive(Run(s, steps))
  }

  lemma StepValid(s: System, step: Step)
    requires Valid(s)
    ensures Valid(Exec(s, step))
    ensures Current(s) && !step.RemoveConfig? ==> Current(Exec(s, step))
  {
  }

  lemma {:induction false} RunCurrent(s: System, steps: seq<Step>)
    requires Valid(s) && Current(s) && NoRemoval(steps)
    ensures Valid(Run(s, steps)) && Current(Run(s, steps))
  {
    if steps == [] {
    } else {
      var before := steps[..|steps| - 1];
      assert forall i :: 0 <= i < |before| ==> before[i] == steps[i];
      RunCurrent(s, before);
      StepValid(Run(s, before), steps[|steps| - 1]);
    }
  }

  lemma RunOne(s: System, a: Step)
    ensures Run(s, [a]) == Exec(s, a)
  {
    assert [a][..0] == [];
  }

  lemma RunTwo(s: System, a: Step, b: Step)
    ensures Run(s, [a, b]) == Exec(Exec(s, a), b)
  {
    assert [a, b][..1] == [a];
    RunOne(s, a);
  }

  lemma {:induction false} RunConcat(s: System, a: seq<Step>, b: seq<Step>)
    ensures Run(s, a + b) == Run(Run(s, a), b)
    decreases |b|
  {
    if b == [] {
      assert a + b == a;
    } else {
      assert (a + b)[..|a + b| - 1] == a + b[..|b| - 1];
      RunConcat(s, a, b[..|b| - 1]);
    }
  }

  lemma {:induction false} Newcomer(pids: set<nat>) returns (q: nat)
    ensures forall p :: p in pids ==> p < q
  {
    if pids == {} {
      q := 0;
    } else {
      var p :| p in pids;
      var r := Newcomer(pids - {p});
      q := if p < r then r else p + 1;
      assert forall x :: x in pids ==> x == p || x in pids - {p};
    }
  }

  /** A holder of a file the path does not lead to: the next process to come gets in. */
  lemma StaleHolderBreaks(s: System, h: nat) returns (steps: seq<Step>)
    requires Valid(s) && Holds(s, h) && s.name != Some(s.procs[h].file)
    ensures NoRemoval(steps) && !Exclusive(Run(s, steps))
  {
    if s.name.Some? && Taken(s, s.name.value) {
      steps := [];
    } else {
      var q := Newcomer(s.procs.Keys);
      steps := [Open(q), Poll(q)];
      RunTwo(s, Open(q), Poll(q));
      var t := Exec(s, Open(q));
      assert !Taken(t, t.procs[q].file);
      assert Holds(Exec(t, Poll(q)), q) && Holds(Exec(t, Poll(q)), h);
    }
  }

  /** So does a process that polls such a file: it gets that lock first, or its holder
      has it already. */
  lemma StaleBreaks(s: System, p: nat) returns (steps: seq<Step>)
    requires Valid(s) && p in s.procs && s.name != Some(s.procs[p].file)
    ensures NoRemoval(steps) && !Exclusive(Run(s, steps))
  {
    var file := s.procs[p].file;
    if Taken(s, file) {
      var h :| Holds(s, h) && s.procs[h].file == file;
      steps := StaleHolderBreaks(s, h);
    } else {
      RunOne(s, Poll(p));
      StepValid(s, Poll(p));
      var more := StaleHolderBreaks(Exec(s, Poll(p)), p);
      steps := [Poll(p)] + more;
      RunConcat(s, [Poll(p)], more);
    }
  }

  /** Exclusion is guarded exactly while everybody who has the lock file open has the one
      the path leads to. */
  lemma GuardedWhenCurrent(s: System)
    requires Valid(s)
    ensures Guarded(s) <==> Current(s)
  {
    if Current(s) {
      forall steps | NoRemoval(steps) ensures Exclusive(Run(s, steps)) {
        RunCurrent(s, steps);
      }
    } else {
      var p :| p in s.procs && s.name != Some(s.procs[p].file);
      var steps := StaleBreaks(s, p);
    }
  }

  /** Without a rollback the lock excludes, from the start and for ever. */
  lemma NoRollbackExcludes(s: System, steps: seq<Step>)
    requires Valid(s) && s.procs == map[] && NoRemoval(steps)
    ensures Exclusive(Run(s, steps))
  {
    GuardedWhenCurrent(s);
  }

  /** What other processes do meanwhile. */
  predicate ByOthers(steps: seq<Step>, u: nat) {
    forall i :: 0 <= i < |steps| ==> steps[i].pid != u && (steps[i].Open? || steps[i].Poll? || steps[i].Close?)
  }

  /** The rollback of an upgrade that holds the lock, with others at work between its two
      steps, and later before the release. */
  ghost function Rollback(s: System, u: nat, during: seq<Step>, copies: bool, later: seq<Step>): System {
    var removed := Run(Exec(s, RemoveConfig(u)), during);
    var copied := if copies then Exec(removed, CopyBack(u)) else removed;
    Exec(Run(copied, later), Close(u))
  }

  /** While a rollback is under way: the upgrade holds the removed file, and everybody
      else has that one open or the one the path leads to now. */
  ghost predicate Renewed(s: System, u: nat, file: nat) {
    && Valid(s) && Holds(s, u) && s.procs[u].file == file && s.name != Some(file)
    && forall p :: p in s.procs ==> s.procs[p].file == file || s.name == Some(s.procs[p].file)
  }

  lemma {:induction false} OthersRenew(s: System, u: nat, file: nat, steps: seq<Step>)
    requires Renewed(s, u, file) && ByOthers(steps, u)
    ensures Renewed(Run(s, steps), u, file)
  {
    if steps == [] {
    } else {
      var before := steps[..|steps| - 1];
      assert forall i :: 0 <= i < |before| ==> before[i] == steps[i];
      OthersRenew(s, u, file, before);
      StepValid(Run(s, before), steps[|steps| - 1]);
    }
  }

  /** Until the upgrade releases the lock of the file it removed, the next process gets
      in beside it. Afterwards exclusion is guarded again exactly when nobody has the
      removed file open any more, whether or not it was copied back. */
  lemma RollbackGuards(s: System, u: nat, during: seq<Step>, copies: bool, later: seq<Step>)
    requires Valid(s) && Current(s) && Holds(s, u) && ByOthers(during, u) && ByOthers(later, u)
    ensures !Guarded(Exec(s, RemoveConfig(u)))
    ensures var after := Rollback(s, u, during, copies, later);
            Guarded(after) <==> forall p :: p in after.procs ==> after.procs[p].file != s.procs[u].file
  {
    var file := s.procs[u].file;
    var removed := Exec(s, RemoveConfig(u));
    StepValid(s, RemoveConfig(u));
    GuardedWhenCurrent(removed);
    assert u in removed.procs && removed.name.None?;
    OthersRenew(removed, u, file, during);
    var gap := Run(removed, during);
    StepValid(gap, CopyBack(u));
    var copied := if copies then Exec(gap, CopyBack(u)) else gap;
    OthersRenew(copied, u, file, later);
    var last := Run(copied, later);
    StepValid(last, Close(u));
    GuardedWhenCurrent(Exec(last, Close(u)));
    assert Exec(last, Close(u)).name != Some(file);
  }

  /** With nobody else at work meanwhile: exactly when nobody else had the file open. */
  lemma QuietRollbackGuards(s: System, u: nat, copies: bool)
    requires Valid(s) && Current(s) && Holds(s, u)
    ensures Guarded(Rollback(s, u, [], copies, [])) <==> s.procs.Keys == {u}
  {
    RollbackGuards(s, u, [], copies, []);
    var after := Rollback(s, u, [], copies, []);
    assert after.procs == s.procs - {u};
    assert (forall p :: p in s.procs ==> p == u) ==> s.procs.Keys == {u};
    forall p | p in s.procs && p != u ensures p in after.procs && after.procs[p].file == s.procs[u].file {
      assert s.name == Some(s.procs[p].file);
    }
  }

  /** A process waits for the lock, the upgrade rolls back and releases, another process
      arrives: both hold the lock. */
  lemma TwoHolders(s: System, u: nat, waiting: nat, late: nat)
    requires Valid(s) && Current(s) && Holds(s, u) && s.procs.Keys == {u, waiting} && waiting != u
    requires late !in s.procs
    ensures var t := Run(Rollback(s, u, [], true, []), [Poll(waiting), Open(late), Poll(late)]);
            Holds(t, waiting) && Holds(t, late)
  {
    var after := Rollback(s, u, [], true, []);
    var first := Exec(after, Poll(waiting));
    RunConcat(after, [Poll(waiting)], [Open(late), Poll(late)]);
    assert [Poll(waiting)] + [Open(late), Poll(late)] == [Poll(waiting), Open(late), Poll(late)];
    RunOne(after, Poll(waiting));
    RunTwo(first, Open(late), Poll(late));
    assert after.procs.Keys == {waiting};
    assert forall p :: p in after.procs ==> p == waiting;
    assert !Holds(after, waiting);
    assert !Taken(after, after.procs[waiting].file);
    var joined := Exec(first, Open(late));
    assert joined.procs[late].file == after.name.value != after.procs[waiting].file;
    assert !Taken(joined, joined.procs[late].file);
  }
}
