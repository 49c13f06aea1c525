/** The Worker's health sweep (panel/worker/src/routes/nodes.ts, sweepNodesHealth):
    what one sweep does to every node, what any run of sweeps leaves, and what
    overlapping sweeps still keep. */
module HealthSweep {
  import opened Text

  const UNREACHABLE_AFTER_FAILURES := 2

  datatype Status = Active | Unreachable | Disabled
  datatype Outcome = Ok | Transport | Config
  datatype Event = Failed | Recovered

  /** None is the NULL of rows older than the columns. */
  datatype Row = Row(status: Status, fails: Option<nat>, outcome: Option<Outcome>)

  function Count(fails: Option<nat>): nat {
    match fails case None => 0 case Some(n) => n
  }

  function Last(outcome: Option<Outcome>): Outcome {
    match outcome case None => Ok case Some(o) => o
  }

  // ---- One node ------------------------------------------------------------

  datatype Update = MarkOk | MarkFailed(outcome: Outcome, flip: bool)
  datatype Decision = Decision(update: Update, event: Option<Event>)

  /** What a sweep decides from the row it selected and the node's answer. */
  function Decide(snap: Row, answer: Outcome): Decision {
    var failures, previous := Count(snap.fails) + 1, Last(snap.outcome);
    match answer
    case Ok =>
      var announced := previous == Config || (previous != Ok && snap.status == Unreachable);
      Decision(MarkOk, if announced then Some(Recovered) else None)
    case Config =>
      Decision(MarkFailed(Config, false), if previous != Config then Some(Failed) else None)
    case Transport =>
      var flip := failures >= UNREACHABLE_AFTER_FAILURES && snap.status != Unreachable;
      Decision(MarkFailed(Transport, flip), if flip then Some(Failed) else None)
  }

  /** The UPDATE statements: a disabled row is left alone, and a failure counts on the
      stored value, not on the selected one. */
  function Apply(row: Row, update: Update): Row {
    if row.status == Disabled then row
    else match update
      case MarkOk => Row(Active, Some(0), Some(Ok))
      case MarkFailed(outcome, flip) =>
        Row(if flip then Unreachable else row.status, Some(Count(row.fails) + 1), Some(outcome))
  }

  datatype Node = Node(row: Row, events: seq<Event>)

  function Logged(event: Option<Event>): seq<Event> {
    match event case None => [] case Some(e) => [e]
  }

  /** The batch of a decision taken on snap, committed now. */
  function Land(n: Node, snap: Row, answer: Outcome): Node {
    var d := Decide(snap, answer);
    Node(Apply(n.row, d.update), n.events + Logged(d.event))
  }

  /** A sweep nothing else overlaps. */
  function Step(n: Node, answer: Outcome): Node {
    Land(n, n.row, answer)
  }

  function Sweeps(n: Node, answers: seq<Outcome>): Node {
    if answers == [] then n else Step(Sweeps(n, answers[..|answers| - 1]), answers[|answers| - 1])
  }

  // ---- The fleet -----------------------------------------------------------

  datatype Stmt = UpdateRow(id: string, update: Update) | InsertEvent(id: string, event: Event)

  datatype Fleet = Fleet(rows: map<string, Row>, events: seq<(string, Event)>)

  function EventsOf(events: seq<(string, Event)>, id: string): seq<Event> {
    if events == [] then []
    else EventsOf(events[..|events| - 1], id) + if events[|events| - 1].0 == id then [events[|events| - 1].1] else []
  }

  function View(f: Fleet, id: string): Node
    requires id in f.rows
  {
    Node(f.rows[id], EventsOf(f.events, id))
  }

  function Exec(f: Fleet, stmt: Stmt): Fleet {
    match stmt
    case UpdateRow(id, update) => if id in f.rows then f.(rows := f.rows[id := Apply(f.rows[id], update)]) else f
    case InsertEvent(id, event) => f.(events := f.events + [(id, event)])
  }

  function Batch(f: Fleet, stmts: seq<Stmt>): Fleet {
    if stmts == [] then f else Exec(Batch(f, stmts[..|stmts| - 1]), stmts[|stmts| - 1])
  }

  function Statements(id: string, d: Decision): seq<Stmt> {
    [UpdateRow(id, d.update)] + match d.event case None => [] case Some(e) => [InsertEvent(id, e)]
  }

  lemma EventsAppend(events: seq<(string, Event)>, e: (string, Event), id: string)
    ensures EventsOf(events + [e], id) == EventsOf(events, id) + if e.0 == id then [e.1] else []
  {
    assert (events + [e])[..|events|] == events;
  }

  lemma BatchOne(f: Fleet, stmt: Stmt)
    ensures Batch(f, [stmt]) == Exec(f, stmt)
  {
    assert [stmt][..0] == [];
  }

  lemma BatchTwo(f: Fleet, stmt: Stmt, next: Stmt)
    ensures Batch(f, [stmt, next]) == Exec(Exec(f, stmt), next)
  {
    assert [stmt, next][..1] == [stmt];
    BatchOne(f, stmt);
  }

  /** The statements of one node change that node only, and change it as Land says. */
  lemma StatementsLand(f: Fleet, id: string, snap: Row, answer: Outcome, other: string)
    requires id in f.rows && other in f.rows
    ensures var g := Batch(f, Statements(id, Decide(snap, answer)));
            && g.rows.Keys == f.rows.Keys
            && View(g, other) == if other == id then Land(View(f, id), snap, answer) else View(f, other)
  {
    var d := Decide(snap, answer);
    match d.event
    case None =>
      assert Statements(id, d) == [UpdateRow(id, d.update)];
      BatchOne(f, UpdateRow(id, d.update));
    case Some(e) =>
      assert Statements(id, d) == [UpdateRow(id, d.update), InsertEvent(id, e)];
      BatchTwo(f, UpdateRow(id, d.update), InsertEvent(id, e));
      EventsAppend(f.events, (id, e), other);
  }

  lemma {:induction false} BatchConcat(f: Fleet, a: seq<Stmt>, b: seq<Stmt>)
    ensures Batch(f, a + b) == Batch(Batch(f, a), b)
    decreases |b|
  {
    if b == [] {
      assert a + b == a;
    } else {
      assert (a + b)[..|a + b| - 1] == a + b[..|b| - 1];
      BatchConcat(f, a, b[..|b| - 1]);
    }
  }

  class Database {
    var fleet: Fleet

    constructor (f: Fleet)
      ensures fleet == f
    {
      fleet := f;
    }

    /** sweepNodesHealth: order is the SELECT's result, answers what the agents replied,
        commits whether the one transaction goes through. Every listed node takes exactly
        its own step, all of them or none. */
    method SweepNodesHealth(order: seq<string>, answers: map<string, Outcome>, commits: bool)
      requires Distinct(order)
      requires forall id :: id in order <==> id in fleet.rows && fleet.rows[id].status != Disabled
      requires forall id :: id in order ==> id in answers
      modifies this
      ensures fleet.rows.Keys == old(fleet.rows.Keys)
      ensures forall id :: id in fleet.rows ==>
                View(fleet, id) == if commits && id in order then Step(View(old(fleet), id), answers[id])
                                   else View(old(fleet), id)
    {
      var writes: seq<Stmt> := [];
      ghost var f := fleet;
      for i := 0 to |order|
        invariant fleet == f
        invariant Batch(f, writes).rows.Keys == f.rows.Keys
        invariant forall id :: id in f.rows ==>
                    View(Batch(f, writes), id)
                    == if id in order[..i] then Step(View(f, id), answers[id]) else View(f, id)
      {
        var row := fleet.rows[order[i]];
        SweepOne(f, writes, order, i, answers);
        writes := writes + Statements(order[i], Decide(row, answers[order[i]]));
      }
      assert order[..|order|] == order;
      if writes != [] && commits {
        fleet := Batch(fleet, writes);
      }
    }
  }

  lemma SweepOne(f: Fleet, writes: seq<Stmt>, order: seq<string>, i: nat, answers: map<string, Outcome>)
    requires Distinct(order) && i < |order| && forall id :: id in order ==> id in answers && id in f.rows
    requires Batch(f, writes).rows.Keys == f.rows.Keys
    requires forall id :: id in f.rows ==>
               View(Batch(f, writes), id) == if id in order[..i] then Step(View(f, id), answers[id]) else View(f, id)
    ensures var g := Batch(f, writes + Statements(order[i], Decide(f.rows[order[i]], answers[order[i]])));
            && g.rows.Keys == f.rows.Keys
            && forall id :: id in f.rows ==>
                 View(g, id) == if id in order[..i + 1] then Step(View(f, id), answers[id]) else View(f, id)
  {
    var id, before := order[i], Batch(f, writes);
    var stmts := Statements(id, Decide(f.rows[id], answers[id]));
    BatchConcat(f, writes, stmts);
    assert order[..i + 1] == order[..i] + [id] && id !in order[..i];
    StatementsLand(before, id, f.rows[id], answers[id], id);
    forall other | other in f.rows
      ensures View(Batch(before, stmts), other)
              == if other in order[..i + 1] then Step(View(f, other), answers[other]) else View(f, other)
    {
      StatementsLand(before, id, f.rows[id], answers[id], other);
    }
  }

  // ---- Any run of sweeps ---------------------------------------------------

  /** Number of failing answers since the last ok. */
  function TrailingBad(answers: seq<Outcome>): (n: nat)
    ensures n <= |answers|
  {
    if answers == [] || answers[|answers| - 1] == Ok then 0 else 1 + TrailingBad(answers[..|answers| - 1])
  }

  /** Since the last ok there was a transport failure that was not the first failure. */
  ghost predicate MissedTwice(answers: seq<Outcome>) {
    exists i :: |answers| - TrailingBad(answers) < i < |answers| && answers[i] == Transport
  }

  predicate Outstanding(events: seq<Event>) {
    events != [] && events[|events| - 1] == Failed
  }

  /** Every recovery closes an error reported just before it. */
  predicate WellPaired(events: seq<Event>) {
    forall i :: 0 <= i < |events| && events[i] == Recovered ==> i > 0 && events[i - 1] == Failed
  }

  /** The next ok would report a recovery. */
  predicate Announced(row: Row) {
    Decide(row, Ok).event == Some(Recovered)
  }

  /** Recoveries close errors, and an error is outstanding when its recovery is due. */
  predicate Paired(n: Node) {
    WellPaired(n.events) && (Outstanding(n.events) <==> Announced(n.row))
  }

  predicate Fresh(n: Node) {
    n.row.status == Active && Count(n.row.fails) == 0 && Last(n.row.outcome) == Ok && n.events == []
  }

  lemma MissedTwiceGrows(answers: seq<Outcome>, a: Outcome)
    ensures MissedTwice(answers + [a])
            <==> a != Ok && (MissedTwice(answers) || (a == Transport && TrailingBad(answers) >= 1))
  {
    var more := answers + [a];
    assert more[..|answers|] == answers;
    if a != Ok {
      assert TrailingBad(more) == 1 + TrailingBad(answers);
      if MissedTwice(answers) {
        var i :| |answers| - TrailingBad(answers) < i < |answers| && answers[i] == Transport;
        assert more[i] == Transport;
      }
      if a == Transport && TrailingBad(answers) >= 1 {
        assert more[|answers|] == Transport;
      }
    }
  }

  /** After any run of sweeps from a fresh row: the counter is the length of the failing
      streak, the node is unreachable exactly after a transport failure that followed
      another failure, and an error is outstanding exactly when the next ok would report
      a recovery. Errors and recoveries pair up. */
  lemma {:induction false} SweepRuns(n: Node, answers: seq<Outcome>)
    requires Fresh(n)
    ensures var m := Sweeps(n, answers);
            && Count(m.row.fails) == TrailingBad(answers)
            && Last(m.row.outcome) == (if answers == [] then Ok else answers[|answers| - 1])
            && m.row.status == (if MissedTwice(answers) then Unreachable else Active)
            && (Outstanding(m.events) <==> m.row.status == Unreachable || Last(m.row.outcome) == Config)
            && Paired(m)
  {
    if answers == [] {
    } else {
      var before, a := answers[..|answers| - 1], answers[|answers| - 1];
      SweepRuns(n, before);
      MissedTwiceGrows(before, a);
      assert before + [a] == answers;
      StepPaired(Sweeps(n, before), a);
    }
  }

  lemma StepPaired(m: Node, a: Outcome)
    requires Paired(m)
    ensures WellPaired(Step(m, a).events)
    ensures a == Ok ==> !Outstanding(Step(m, a).events)
    ensures a != Ok ==> (Outstanding(Step(m, a).events)
                         <==> Outstanding(m.events) || Decide(m.row, a).event == Some(Failed))
  {
  }

  /** At least two consecutive failing sweeps stand behind every unreachable node. */
  lemma UnreachableMeansTwo(n: Node, answers: seq<Outcome>)
    requires Fresh(n) && Sweeps(n, answers).row.status == Unreachable
    ensures TrailingBad(answers) >= UNREACHABLE_AFTER_FAILURES
  {
    SweepRuns(n, answers);
  }

  /** nodeHealthcheck, the manual check, when the agent answers. */
  function ManualOk(n: Node): Node {
    var update := Apply(n.row, MarkOk);
    Node(update, n.events + if n.row.status == Unreachable then [Recovered] else [])
  }

  /** A successful manual check keeps the pairing exactly when an error is outstanding on
      an unreachable node and none on a reachable one: a configuration error it closes
      without a recovery event. */
  lemma ManualCheckPairs(n: Node)
    requires n.row.status != Disabled && Paired(n)
    ensures Paired(ManualOk(n)) <==> (Outstanding(n.events) <==> n.row.status == Unreachable)
  {
    if n.row.status == Unreachable {
      PairedAppend(n.events, Recovered);
    } else {
      assert ManualOk(n).events == n.events;
    }
  }

  // ---- Overlapping sweeps --------------------------------------------------

  /** A sweep under way: the row it selected, and whether an ok has landed since. */
  datatype Flight = Flight(snap: Row, okSince: bool)

  /** landed lists the answers whose batch changed the row, in commit order. */
  datatype World = World(node: Node, flights: map<nat, Flight>, landed: seq<Outcome>)

  /** Sweeps begin and end; a manual check answers or fails; another panel route marks the node
      active or unreachable; an operator parks it and takes it back. */
  datatype Action =
    | Begin(k: nat)
    | End(k: nat, answer: Outcome, commits: bool)
    | Check
    | CheckFails
    | Mark(active: bool)
    | Park
    | Unpark

  function Noted(flights: map<nat, Flight>, answer: Outcome): (r: map<nat, Flight>)
    ensures r.Keys == flights.Keys
  {
    map k | k in flights :: if answer == Ok then Flight(flights[k].snap, true) else flights[k]
  }

  function Marked(row: Row, active: bool): Row {
    if row.status == Disabled then row else row.(status := if active then Active else Unreachable)
  }

  function Act(w: World, a: Action): World {
    match a
    case Begin(k) =>
      if w.node.row.status == Disabled then w else w.(flights := w.flights[k := Flight(w.node.row, false)])
    case End(k, answer, commits) =>
      if k !in w.flights then w
      else if !commits then w.(flights := w.flights - {k})
      else
        var node := Land(w.node, w.flights[k].snap, answer);
        if w.node.row.status == Disabled then World(node, w.flights - {k}, w.landed)
        else World(node, Noted(w.flights - {k}, answer), w.landed + [answer])
    case Check =>
      if w.node.row.status == Disabled then w
      else World(ManualOk(w.node), Noted(w.flights, Ok), w.landed + [Ok])
    case CheckFails => w.(node := w.node.(events := w.node.events + [Failed]))
    case Mark(active) => w.(node := w.node.(row := Marked(w.node.row, active)))
    case Park => w.(node := w.node.(row := w.node.row.(status := Disabled)))
    case Unpark => w.(node := w.node.(row := w.node.row.(status := Active)))
  }

  function Acts(w: World, actions: seq<Action>): World {
    if actions == [] then w else Act(Acts(w, actions[..|actions| - 1]), actions[|actions| - 1])
  }

  /** In every interleaving of overlapping sweeps, failed commits, manual checks and
      parking, the counter is the number of failing batches that landed since the last ok,
      and a sweep no ok overtook never saw more failures than are stored. */
  lemma {:induction false} OverlapCounts(w: World, actions: seq<Action>)
    requires Count(w.node.row.fails) == TrailingBad(w.landed) && w.flights == map[]
    ensures var v := Acts(w, actions);
            && Count(v.node.row.fails) == TrailingBad(v.landed)
            && forall k :: k in v.flights && !v.flights[k].okSince ==>
                 Count(v.flights[k].snap.fails) <= Count(v.node.row.fails)
  {
    if actions == [] {
    } else {
      var before := Acts(w, actions[..|actions| - 1]);
      OverlapCounts(w, actions[..|actions| - 1]);
      match actions[|actions| - 1]
      case End(k, answer, commits) =>
        if k in before.flights && commits && before.node.row.status != Disabled {
          assert (before.landed + [answer])[..|before.landed|] == before.landed;
        }
      case Check => assert (before.landed + [Ok])[..|before.landed|] == before.landed;
      case _ =>
    }
  }

  /** The threshold under overlap: a batch that flips a node has at least two landed
      failures behind it exactly when the row already counts one as it commits, which an
      ok landing after the select can prevent and nothing else. */
  lemma FlipNeedsTwo(w: World, actions: seq<Action>, k: nat, answer: Outcome)
    requires Count(w.node.row.fails) == TrailingBad(w.landed) && w.flights == map[]
    requires var v := Acts(w, actions);
             && k in v.flights && v.node.row.status == Active
             && Act(v, End(k, answer, true)).node.row.status == Unreachable
    ensures var v := Acts(w, actions);
            var bad := TrailingBad(Act(v, End(k, answer, true)).landed);
            && (bad >= UNREACHABLE_AFTER_FAILURES <==> Count(v.node.row.fails) >= 1)
            && (!v.flights[k].okSince ==> bad >= UNREACHABLE_AFTER_FAILURES)
  {
    OverlapCounts(w, actions);
    var v := Acts(w, actions);
    assert (v.landed + [answer])[..|v.landed|] == v.landed;
  }

  // ---- Pairing under overlap -----------------------------------------------

  /** What a batch decided on snap must find in the row it lands on. */
  predicate Fits(row: Row, snap: Row, answer: Outcome) {
    if row.status == Disabled then
      match Decide(snap, answer).event case None => true case Some(e) => e == Failed && Announced(row)
    else
      match answer
      case Ok => Announced(snap) <==> Announced(row)
      case Config => Last(snap.outcome) != Config || Announced(row)
      case Transport => Decide(snap, answer).update.flip || (Announced(row) <==> row.status == Unreachable)
  }

  lemma PairedAppend(events: seq<Event>, e: Event)
    ensures WellPaired(events + [e]) <==> WellPaired(events) && (e == Recovered ==> Outstanding(events))
    ensures Outstanding(events + [e]) <==> e == Failed
  {
    var more := events + [e];
    assert more[|events|] == e && forall i :: 0 <= i < |events| ==> more[i] == events[i];
  }

  /** Exactly when a landing keeps the pairing. */
  lemma LandPairs(n: Node, snap: Row, answer: Outcome)
    requires Paired(n)
    ensures Paired(Land(n, snap, answer)) <==> Fits(n.row, snap, answer)
  {
    match Decide(snap, answer).event
    case None => assert Land(n, snap, answer).events == n.events;
    case Some(e) => PairedAppend(n.events, e);
  }

  /** What every action must find, the parking of a node included. */
  predicate Keeps(w: World, a: Action) {
    match a
    case Begin(_) => true
    case End(k, answer, commits) => k in w.flights && commits ==> Fits(w.node.row, w.flights[k].snap, answer)
    case Check => w.node.row.status != Disabled ==> (Announced(w.node.row) <==> w.node.row.status == Unreachable)
    case CheckFails => Announced(w.node.row)
    case Mark(active) =>
      || w.node.row.status == Disabled
      || (Announced(w.node.row.(status := if active then Active else Unreachable)) <==> Announced(w.node.row))
    case Park => !Announced(w.node.row) || Last(w.node.row.outcome) == Config
    case Unpark => Announced(w.node.row) <==> Last(w.node.row.outcome) == Config
  }

  lemma ActPairs(w: World, a: Action)
    requires Paired(w.node)
    ensures Paired(Act(w, a).node) <==> Keeps(w, a)
  {
    if a.End? && a.k in w.flights {
      LandPairs(w.node, w.flights[a.k].snap, a.answer);
    } else if a.Check? && w.node.row.status != Disabled {
      ManualCheckPairs(w.node);
    } else if a.CheckFails? {
      PairedAppend(w.node.events, Failed);
    }
  }

  /** The pairing holds after every action of the run. */
  ghost predicate AlwaysPaired(w: World, actions: seq<Action>) {
    Paired(Acts(w, actions).node) && (actions != [] ==> AlwaysPaired(w, actions[..|actions| - 1]))
  }

  ghost predicate AllKeep(w: World, actions: seq<Action>) {
    if actions == [] then true
    else
      var before := actions[..|actions| - 1];
      AllKeep(w, before) && Keeps(Acts(w, before), actions[|actions| - 1])
  }

  /** Errors and recoveries pair up after every action of a run exactly when every
      action finds what it must. */
  lemma {:induction false} RunPairs(w: World, actions: seq<Action>)
    requires Paired(w.node)
    ensures AlwaysPaired(w, actions) <==> AllKeep(w, actions)
  {
    if actions == [] {
    } else {
      var before := actions[..|actions| - 1];
      RunPairs(w, before);
      if AlwaysPaired(w, before) {
        ActPairs(Acts(w, before), actions[|actions| - 1]);
      }
    }
  }

  /** Rows as sweeps write them: a failure is counted, and only a failing node is down. */
  predicate Sound(row: Row) {
    (Last(row.outcome) != Ok ==> Count(row.fails) >= 1) && (row.status == Unreachable ==> Last(row.outcome) != Ok)
  }

  /** A batch that lands on the row it was decided on always fits. */
  lemma UnchangedFits(row: Row, answer: Outcome)
    requires Sound(row) && row.status != Disabled
    ensures Fits(row, row, answer) && Sound(Apply(row, Decide(row, answer).update))
  {
  }

  /** A sweep whose select and commit nothing separates is a serial step. */
  lemma AloneIsSerial(w: World, k: nat, answer: Outcome)
    requires w.node.row.status != Disabled
    ensures Act(Act(w, Begin(k)), End(k, answer, true)).node == Step(w.node, answer)
  {
  }

  /** No sweep, whenever it selected, and no other route changes a disabled row. */
  lemma DisabledStays(w: World, a: Action)
    requires w.node.row.status == Disabled && !a.Unpark?
    ensures Act(w, a).node.row == w.node.row && Act(w, a).landed == w.landed
  {
  }

  /** With an ok landing in between, one failure is enough to flip the node. */
  lemma OvertakenFlipsEarly(n: Node)
    requires n.row == Row(Active, Some(1), Some(Transport))
    ensures var v := Acts(World(n, map[], [Transport]),
                          [Begin(0), Begin(1), End(1, Ok, true), End(0, Transport, true)]);
            v.node.row == Row(Unreachable, Some(1), Some(Transport)) && TrailingBad(v.landed) == 1
  {
    var w := World(n, map[], [Transport]);
    var w1 := Act(Act(w, Begin(0)), Begin(1));
    var w2 := Act(w1, End(1, Ok, true));
    ActsFour(w, Begin(0), Begin(1), End(1, Ok, true), End(0, Transport, true));
    assert w2.landed == [Transport, Ok];
    assert [Transport, Ok, Transport][..2] == [Transport, Ok];
  }

  /** Two sweeps that both selected an announced row both report its recovery: the second
      lands on a row that is not announced any more. */
  lemma OverlapRecoversTwice(n: Node)
    requires n.row.status == Unreachable && Last(n.row.outcome) == Transport
    ensures Acts(World(n, map[], []), [Begin(0), Begin(1), End(0, Ok, true), End(1, Ok, true)]).node.events
            == n.events + [Recovered, Recovered]
  {
    ActsFour(World(n, map[], []), Begin(0), Begin(1), End(0, Ok, true), End(1, Ok, true));
  }

  lemma ActsFour(w: World, a: Action, b: Action, c: Action, d: Action)
    ensures Acts(w, [a, b, c, d]) == Act(Act(Act(Act(w, a), b), c), d)
  {
    assert [a][..0] == [];
    assert [a, b][..1] == [a];
    assert [a, b, c][..2] == [a, b];
    assert [a, b, c, d][..3] == [a, b, c];
    assert Acts(w, [a]) == Act(w, a);
    assert Acts(w, [a, b]) == Act(Acts(w, [a]), b);
    assert Acts(w, [a, b, c]) == Act(Acts(w, [a, b]), c);
  }
}
