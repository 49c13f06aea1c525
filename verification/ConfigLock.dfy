/** The config lock (internal/commands/lock.go) and every interleaving of the programs
    that edit the user stores under it.

    Any number of processes wait for the lock, read the two files, and make the writes
    their operation's plan lists; a process can be killed at any point, and the system
    then drops its lock. The lock is the kernel's: one holder, released on exit. */
module ConfigLock {
  import opened Text
  import Hysteria
  import opened UserStores

  // ---- Taking the lock -----------------------------------------------------

  const POLL_MS := 100
  const DEFAULT_WAIT_MS := 20000
  const MAX_POLLS := 202

  datatype Flock = Got | WouldBlock | Broken
  datatype Acquired = Acquired | Busy | Failed

  /** The caller's deadline, capped at the default wait. */
  function Deadline(now: int, ctx: Option<int>): (d: int)
    ensures d <= now + DEFAULT_WAIT_MS && (ctx.Some? ==> d <= ctx.value)
    ensures d == now + DEFAULT_WAIT_MS || Some(d) == ctx
  {
    if ctx.None? || ctx.value - now > DEFAULT_WAIT_MS then now + DEFAULT_WAIT_MS else ctx.value
  }

  /** The polling loop. The answers at each poll are free; only the sleep between polls
      is known. It ends within MAX_POLLS polls, and the first poll that does not
      wait decides. */
  method AcquireConfigLock(now: int, ctx: Option<int>, flock: nat -> Flock, clock: nat -> int, cancelled: nat -> bool)
    returns (r: Acquired, polls: nat)
    requires now <= clock(0)
    requires forall k: nat :: clock(k) + POLL_MS <= clock(k + 1)
    ensures 1 <= polls <= MAX_POLLS
    ensures forall k :: 0 <= k < polls - 1 ==>
              && flock(k) == WouldBlock && !cancelled(k)
              && clock(k) <= now + DEFAULT_WAIT_MS && (ctx.Some? ==> clock(k) <= ctx.value)
    ensures var k := polls - 1;
            || flock(k) != WouldBlock || cancelled(k)
            || clock(k) > now + DEFAULT_WAIT_MS || (ctx.Some? && clock(k) > ctx.value)
    ensures r == (match flock(polls - 1) case Got => Acquired case Broken => Failed case WouldBlock => Busy)
  {
    var deadline := Deadline(now, ctx);
    polls := 0;
    while true
      invariant polls <= MAX_POLLS - 1
      invariant now + POLL_MS * polls <= clock(polls)
      invariant forall k :: 0 <= k < polls ==> flock(k) == WouldBlock && !cancelled(k) && clock(k) <= deadline
      decreases MAX_POLLS - polls
    {
      polls := polls + 1;
      match flock(polls - 1) {
        case Got => return Acquired, polls;
        case Broken => return Failed, polls;
        case WouldBlock =>
      }
      if clock(polls - 1) > deadline || cancelled(polls - 1) {
        return Busy, polls;
      }
    }
  }

  // ---- Processes around one lock -------------------------------------------

  /** A process: what it has read of the two files and how many of its plan's writes it
      has made. */
  datatype Proc =
    | Waiting
    | Holding(xray: Option<seq<Client>>, hy2: Option<Option<seq<Hysteria.User>>>, done: nat)
    | Gone

  /** One finished or killed operation, in the order the lock was given up. */
  datatype Commit = Commit(pid: nat, done: nat, whole: bool)

  datatype System = System(store: Store, holder: Option<nat>, procs: map<nat, Proc>, history: seq<Commit>)

  datatype Step =
    | Poll(pid: nat)
    | GiveUp(pid: nat)
    | ReadXray(pid: nat)
    | ReadHy2(pid: nat)
    | Write(pid: nat)
    | Finish(pid: nat)
    | Crash(pid: nat)

  /** What each process was asked to do, and what its outside calls answer. */
  datatype Jobs = Jobs(op: nat -> Op, answers: nat -> Answers)

  /** The writes a process can tell it has to make from what it has read. A removal
      publishes xray before it looks at hysteria. */
  function Known(jobs: Jobs, pid: nat, p: Proc): seq<Write> {
    if !p.Holding? || p.xray.None? then []
    else if p.hy2.Some? then Plan(jobs.op(pid), Store(p.xray.value, p.hy2.value), jobs.answers(pid))
    else if jobs.op(pid).CliRemove? then Plan(jobs.op(pid), Store(p.xray.value, None), jobs.answers(pid))
    else []
  }

  function Release(sys: System, pid: nat, whole: bool): System
    requires pid in sys.procs && sys.procs[pid].Holding?
  {
    System(sys.store, None, sys.procs[pid := Gone], sys.history + [Commit(pid, sys.procs[pid].done, whole)])
  }

  function Update(sys: System, pid: nat, p: Proc): System {
    sys.(procs := sys.procs[pid := p])
  }

  /** A step that is not possible leaves the system as it is. */
  function Exec(jobs: Jobs, sys: System, step: Step): System {
    if step.pid !in sys.procs then sys
    else
      var p := sys.procs[step.pid];
      match step
      case Poll(pid) =>
        if p.Waiting? && sys.holder.None? then Update(sys, pid, Holding(None, None, 0)).(holder := Some(pid)) else sys
      case GiveUp(pid) =>
        if p.Waiting? then Update(sys, pid, Gone) else sys
      case ReadXray(pid) =>
        if p.Holding? && p.xray.None? then Update(sys, pid, p.(xray := Some(sys.store.xray))) else sys
      case ReadHy2(pid) =>
        if p.Holding? && p.hy2.None? then Update(sys, pid, p.(hy2 := Some(sys.store.hy2))) else sys
      case Write(pid) =>
        if p.Holding? && p.done < |Known(jobs, pid, p)|
        then Update(sys, pid, p.(done := p.done + 1)).(store := Do(sys.store, Known(jobs, pid, p)[p.done])) else sys
      case Finish(pid) =>
        if p.Holding? && p.xray.Some? && p.hy2.Some? && p.done == |Known(jobs, pid, p)|
        then Release(sys, pid, true) else sys
      case Crash(pid) =>
        if p.Holding? then Release(sys, pid, false) else Update(sys, pid, Gone)
  }

  function Run(jobs: Jobs, sys: System, steps: seq<Step>): System {
    if steps == [] then sys else Exec(jobs, Run(jobs, sys, steps[..|steps| - 1]), steps[|steps| - 1])
  }

  // ---- The serial meaning --------------------------------------------------

  function PlanOf(jobs: Jobs, pid: nat, s: Store): seq<Write> {
    Plan(jobs.op(pid), s, jobs.answers(pid))
  }

  /** Each commit did a prefix of its plan for the store the earlier ones left, and all
      of it when it finished. */
  ghost predicate Genuine(jobs: Jobs, init: Store, history: seq<Commit>) {
    if history == [] then true
    else
      var before, last := history[..|history| - 1], history[|history| - 1];
      && Genuine(jobs, init, before)
      && var plan := PlanOf(jobs, last.pid, Serial(jobs, init, before));
         last.done <= |plan| && (last.whole ==> last.done == |plan|)
  }

  /** The commits performed one at a time, in order. */
  function Serial(jobs: Jobs, init: Store, history: seq<Commit>): Store {
    if history == [] then init
    else
      var before, last := history[..|history| - 1], history[|history| - 1];
      var s := Serial(jobs, init, before);
      var plan := PlanOf(jobs, last.pid, s);
      if last.done <= |plan| then After(s, plan[..last.done]) else s
  }

  ghost predicate Exclusive(sys: System) {
    && (forall pid :: pid in sys.procs && sys.procs[pid].Holding? ==> sys.holder == Some(pid))
    && (sys.holder.Some? ==> sys.holder.value in sys.procs && sys.procs[sys.holder.value].Holding?)
  }

  /** What the holder has read is the store it found, and the store now is that one
      after the writes it has made. */
  ghost predicate Faithful(jobs: Jobs, pid: nat, p: Proc, found: Store, now: Store)
    requires p.Holding?
  {
    var plan := PlanOf(jobs, pid, found);
    && (p.xray.Some? ==> p.xray.value == found.xray)
    && (p.hy2.Some? ==> p.hy2.value == found.hy2)
    && p.done <= |plan| && now == After(found, plan[..p.done])
    && (p.xray.None? ==> p.done == 0)
    && (p.hy2.None? ==> p.done == 0 || jobs.op(pid).CliRemove?)
    && (p.hy2.None? ==> now.hy2 == found.hy2)
  }

  ghost predicate Serialized(jobs: Jobs, init: Store, sys: System) {
    && Exclusive(sys)
    && Genuine(jobs, init, sys.history)
    && var found := Serial(jobs, init, sys.history);
       match sys.holder
       case None => sys.store == found
       case Some(pid) => Faithful(jobs, pid, sys.procs[pid], found, sys.store)
  }

  /** A removal's writes before it looks at hysteria are the same whatever is there. */
  lemma RemovalStart(jobs: Jobs, pid: nat, s: Store)
    requires jobs.op(pid).CliRemove?
    ensures var early := PlanOf(jobs, pid, Store(s.xray, None));
            && early <= PlanOf(jobs, pid, s)
            && forall w :: w in early ==> w.SetXray?
  {
  }

  lemma KnownIsPlan(jobs: Jobs, pid: nat, p: Proc, found: Store, now: Store)
    requires p.Holding? && Faithful(jobs, pid, p, found, now)
    ensures Known(jobs, pid, p) <= PlanOf(jobs, pid, found)
    ensures p.hy2.None? ==> forall w :: w in Known(jobs, pid, p) ==> w.SetXray?
    ensures p.xray.Some? && p.hy2.Some? ==> Known(jobs, pid, p) == PlanOf(jobs, pid, found)
  {
    if p.xray.Some? && p.hy2.None? && jobs.op(pid).CliRemove? {
      RemovalStart(jobs, pid, found);
    }
  }

  lemma ReleaseSerialized(jobs: Jobs, init: Store, sys: System, pid: nat, whole: bool)
    requires Serialized(jobs, init, sys) && sys.holder == Some(pid)
    requires whole ==> sys.procs[pid].done == |PlanOf(jobs, pid, Serial(jobs, init, sys.history))|
    ensures Serialized(jobs, init, Release(sys, pid, whole))
  {
    var c := Commit(pid, sys.procs[pid].done, whole);
    var next := Release(sys, pid, whole);
    ReleaseExclusive(sys, pid, whole);
    ReleasedStore(jobs, init, sys.history, c, sys.procs[pid], sys.store);
    assert next.history == sys.history + [c] && next.store == sys.store;
  }

  lemma ReleaseExclusive(sys: System, pid: nat, whole: bool)
    requires Exclusive(sys) && sys.holder == Some(pid)
    ensures Exclusive(Release(sys, pid, whole))
  {
  }

  lemma ReleasedStore(jobs: Jobs, init: Store, history: seq<Commit>, c: Commit, p: Proc, now: Store)
    requires Genuine(jobs, init, history) && p.Holding? && c.done == p.done
    requires Faithful(jobs, c.pid, p, Serial(jobs, init, history), now)
    requires c.whole ==> p.done == |PlanOf(jobs, c.pid, Serial(jobs, init, history))|
    ensures Genuine(jobs, init, history + [c]) && Serial(jobs, init, history + [c]) == now
  {
    SerialAppend(jobs, init, history, c);
  }

  /** One more commit: a prefix of its plan on top of what the others left. */
  lemma SerialAppend(jobs: Jobs, init: Store, history: seq<Commit>, c: Commit)
    requires Genuine(jobs, init, history)
    requires var plan := PlanOf(jobs, c.pid, Serial(jobs, init, history));
             c.done <= |plan| && (c.whole ==> c.done == |plan|)
    ensures Genuine(jobs, init, history + [c])
    ensures var s := Serial(jobs, init, history);
            Serial(jobs, init, history + [c]) == After(s, PlanOf(jobs, c.pid, s)[..c.done])
  {
    var more := history + [c];
    assert more[..|more| - 1] == history && more[|more| - 1] == c;
  }

  lemma WriteFaithful(jobs: Jobs, pid: nat, p: Proc, found: Store, now: Store)
    requires p.Holding? && Faithful(jobs, pid, p, found, now) && p.done < |Known(jobs, pid, p)|
    ensures Faithful(jobs, pid, p.(done := p.done + 1), found, Do(now, Known(jobs, pid, p)[p.done]))
  {
    KnownIsPlan(jobs, pid, p, found, now);
    var plan := PlanOf(jobs, pid, found);
    assert plan[..p.done + 1][..p.done] == plan[..p.done];
    assert Known(jobs, pid, p)[p.done] in Known(jobs, pid, p);
  }

  lemma StepSerialized(jobs: Jobs, init: Store, sys: System, step: Step)
    requires Serialized(jobs, init, sys)
    ensures Serialized(jobs, init, Exec(jobs, sys, step))
  {
    if step.pid in sys.procs {
      var p := sys.procs[step.pid];
      var found := Serial(jobs, init, sys.history);
      if p.Holding? {
        KnownIsPlan(jobs, step.pid, p, found, sys.store);
        match step
        case Write(pid) =>
          if p.done < |Known(jobs, pid, p)| {
            WriteFaithful(jobs, pid, p, found, sys.store);
          }
        case Finish(pid) =>
          if p.xray.Some? && p.hy2.Some? && p.done == |Known(jobs, pid, p)| {
            ReleaseSerialized(jobs, init, sys, pid, true);
          }
        case Crash(pid) =>
          ReleaseSerialized(jobs, init, sys, pid, false);
        case _ =>
      } else {
        assert PlanOf(jobs, step.pid, found)[..0] == [];
      }
    }
  }

  ghost predicate Fresh(sys: System) {
    sys.holder.None? && sys.history == [] && forall pid :: pid in sys.procs ==> sys.procs[pid].Waiting?
  }

  /** Every interleaving of any number of programs, with kills anywhere, is the operations
      done one by one in the order they held the lock: no update is lost. */
  lemma {:induction false} Serializable(jobs: Jobs, start: System, steps: seq<Step>)
    requires Fresh(start)
    ensures Serialized(jobs, start.store, Run(jobs, start, steps))
  {
    if steps == [] {
    } else {
      Serializable(jobs, start, steps[..|steps| - 1]);
      StepSerialized(jobs, start.store, Run(jobs, start, steps[..|steps| - 1]), steps[|steps| - 1]);
    }
  }

  lemma {:induction false} SerialBounded(jobs: Jobs, init: Store, history: seq<Commit>, limit: nat)
    requires |init.xray| <= limit && MAX_USERS <= limit
    ensures Bounded(Serial(jobs, init, history), limit)
  {
    if history == [] {
    } else {
      var before, last := history[..|history| - 1], history[|history| - 1];
      SerialBounded(jobs, init, before, limit);
      var s := Serial(jobs, init, before);
      if last.done <= |PlanOf(jobs, last.pid, s)| {
        PlanBounded(jobs.op(last.pid), s, jobs.answers(last.pid), PlanOf(jobs, last.pid, s), limit, last.done);
      }
    }
  }

  /** No interleaving takes the node past the user limit, not even between two writes. */
  lemma NeverOverLimit(jobs: Jobs, start: System, steps: seq<Step>, limit: nat)
    requires Fresh(start) && |start.store.xray| <= limit && MAX_USERS <= limit
    ensures Bounded(Run(jobs, start, steps).store, limit)
  {
    Serializable(jobs, start, steps);
    var sys := Run(jobs, start, steps);
    SerialBounded(jobs, start.store, sys.history, limit);
    if sys.holder.Some? {
      var pid := sys.holder.value;
      var s := Serial(jobs, start.store, sys.history);
      PlanBounded(jobs.op(pid), s, jobs.answers(pid), PlanOf(jobs, pid, s), limit, sys.procs[pid].done);
    }
  }

  predicate CliOnly(op: Op) {
    op.CliAdd? || op.CliRemove?
  }

  lemma {:induction false} SerialContained(jobs: Jobs, init: Store, history: seq<Commit>)
    requires Contained(init) && forall pid: nat :: CliOnly(jobs.op(pid))
    ensures Contained(Serial(jobs, init, history))
  {
    if history == [] {
    } else {
      var before, last := history[..|history| - 1], history[|history| - 1];
      SerialContained(jobs, init, before);
      var s := Serial(jobs, init, before);
      if last.done <= |PlanOf(jobs, last.pid, s)| {
        assert CliOnly(jobs.op(last.pid));
        CliKeepsContained(jobs.op(last.pid), s, jobs.answers(last.pid), last.done);
      }
    }
  }

  /** Any number of CLI adds and removes at once, killed anywhere, never leave an xray
      user without a hysteria entry. */
  lemma CliRunsContained(jobs: Jobs, start: System, steps: seq<Step>)
    requires Fresh(start) && Contained(start.store) && forall pid: nat :: CliOnly(jobs.op(pid))
    ensures Contained(Run(jobs, start, steps).store)
  {
    Serializable(jobs, start, steps);
    var sys := Run(jobs, start, steps);
    SerialContained(jobs, start.store, sys.history);
    if sys.holder.Some? {
      var pid := sys.holder.value;
      assert CliOnly(jobs.op(pid));
      CliKeepsContained(jobs.op(pid), Serial(jobs, start.store, sys.history), jobs.answers(pid), sys.procs[pid].done);
    }
  }
}
