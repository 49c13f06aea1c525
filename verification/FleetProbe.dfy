/** The fleet prober's alert state (scripts/fleet-probe.py): folding a run's results,
    threading the state through fetch failures and crashes, and what any history of
    runs makes of a route and of the subscription. */
module FleetProbe {
  import opened Text

  datatype Entry = Entry(fails: nat, alerted: bool)

  datatype Alert =
    | Down(name: string, fails: nat)
    | Up(name: string, ms: nat)
    | DownSubscription(fails: nat)
    | UpSubscription
    | CrashNotice

  /** A route and its latency, or None for a failed probe. */
  type Results = seq<(string, Option<nat>)>

  type State = map<string, Entry>

  const FETCH_KEY := "__fetch__"

  function EntryOf(prev: State, name: string): Entry {
    if name in prev then prev[name] else Entry(0, false)
  }

  predicate DistinctNames(results: Results) {
    forall i, j :: 0 <= i < j < |results| ==> results[i].0 != results[j].0
  }

  // ---- One run -------------------------------------------------------------

  function NextEntry(p: Entry, ms: Option<nat>, threshold: int): Entry {
    match ms
    case None => Entry(p.fails + 1, p.alerted || p.fails + 1 >= threshold)
    case Some(_) => Entry(0, false)
  }

  function Raised(name: string, p: Entry, ms: Option<nat>, threshold: int): seq<Alert> {
    match ms
    case None => if p.fails + 1 >= threshold && !p.alerted then [Down(name, p.fails + 1)] else []
    case Some(n) => if p.alerted then [Up(name, n)] else []
  }

  function NextEntries(prev: State, results: Results, threshold: int): State {
    if results == [] then map[]
    else
      var last := results[|results| - 1];
      var before := NextEntries(prev, results[..|results| - 1], threshold);
      before[last.0 := NextEntry(EntryOf(prev, last.0), last.1, threshold)]
  }

  function NextAlerts(prev: State, results: Results, threshold: int): seq<Alert> {
    if results == [] then []
    else
      var last := results[|results| - 1];
      NextAlerts(prev, results[..|results| - 1], threshold) + Raised(last.0, EntryOf(prev, last.0), last.1, threshold)
  }

  /** next_state. */
  method NextState(prev: State, results: Results, threshold: int) returns (state: State, alerts: seq<Alert>)
    ensures state == NextEntries(prev, results, threshold)
    ensures alerts == NextAlerts(prev, results, threshold)
  {
    state, alerts := map[], [];
    for i := 0 to |results|
      invariant state == NextEntries(prev, results[..i], threshold)
      invariant alerts == NextAlerts(prev, results[..i], threshold)
    {
      assert results[..i + 1][..i] == results[..i];
      var (name, ms) := results[i];
      var p := EntryOf(prev, name);
      match ms {
        case None =>
          var fails, alerted := p.fails + 1, p.alerted;
          if fails >= threshold && !alerted {
            alerts := alerts + [Down(name, fails)];
            alerted := true;
          }
          state := state[name := Entry(fails, alerted)];
        case Some(n) =>
          if p.alerted {
            alerts := alerts + [Up(name, n)];
          }
          state := state[name := Entry(0, false)];
      }
    }
    assert results[..|results|] == results;
  }

  function FetchAlerts(p: Entry, ok: bool, threshold: int): seq<Alert> {
    if ok then if p.alerted then [UpSubscription] else []
    else if p.fails + 1 >= threshold && !p.alerted then [DownSubscription(p.fails + 1)] else []
  }

  function FetchResult(ok: bool): Option<nat> {
    if ok then Some(0) else None
  }

  /** fold_fetch: the subscription as a route of its own, its alerts reworded. */
  method FoldFetch(prev: State, ok: bool, threshold: int) returns (entry: Entry, alerts: seq<Alert>)
    ensures entry == NextEntry(EntryOf(prev, FETCH_KEY), FetchResult(ok), threshold)
    ensures alerts == FetchAlerts(EntryOf(prev, FETCH_KEY), ok, threshold)
  {
    var sub := map[FETCH_KEY := EntryOf(prev, FETCH_KEY)];
    var result := [(FETCH_KEY, FetchResult(ok))];
    var state, raw := NextState(sub, result, threshold);
    assert result[..0] == [];
    entry, alerts := state[FETCH_KEY], [];
    if raw != [] {
      alerts := if raw[0].Down? then [DownSubscription(entry.fails)] else [UpSubscription];
    }
  }

  // ---- The program ---------------------------------------------------------

  /** How one cron run ends: no usable subscription, a crash while probing, or results. */
  datatype Run = FetchFailed | Crashed | Probed(results: Results)

  /** The state file after a run. */
  function Saved(prev: State, run: Run, threshold: int): State {
    match run
    case FetchFailed => prev[FETCH_KEY := NextEntry(EntryOf(prev, FETCH_KEY), None, threshold)]
    case Crashed => prev
    case Probed(results) =>
      NextEntries(prev, results, threshold)[FETCH_KEY := NextEntry(EntryOf(prev, FETCH_KEY), Some(0), threshold)]
  }

  /** The alerts a run sends. */
  function Sent(prev: State, run: Run, threshold: int): seq<Alert> {
    match run
    case FetchFailed => FetchAlerts(EntryOf(prev, FETCH_KEY), false, threshold)
    case Crashed => [CrashNotice]
    case Probed(results) =>
      FetchAlerts(EntryOf(prev, FETCH_KEY), true, threshold) + NextAlerts(prev, results, threshold)
  }

  class Prober {
    var file: State

    constructor ()
      ensures file == map[]
    {
      file := map[];
    }

    /** The main program, from the loaded state to the saved one. */
    method RunOnce(run: Run, threshold: int) returns (sent: seq<Alert>)
      modifies this
      ensures file == Saved(old(file), run, threshold)
      ensures sent == Sent(old(file), run, threshold)
    {
      var prev := file;
      if run.FetchFailed? {
        var entry, alerts := FoldFetch(prev, false, threshold);
        file := prev[FETCH_KEY := entry];
        return alerts;
      }
      var fetchEntry, fetchAlerts := FoldFetch(prev, true, threshold);
      if run.Crashed? {
        return [CrashNotice];
      }
      var state, alerts := NextState(prev, run.results, threshold);
      file := state[FETCH_KEY := fetchEntry];
      return fetchAlerts + alerts;
    }
  }

  // ---- Any history of runs -------------------------------------------------

  function StateAfter(history: seq<Run>, threshold: int): State {
    if history == [] then map[]
    else Saved(StateAfter(history[..|history| - 1], threshold), history[|history| - 1], threshold)
  }

  function SentBy(history: seq<Run>, threshold: int): seq<Alert>
    requires history != []
  {
    Sent(StateAfter(history[..|history| - 1], threshold), history[|history| - 1], threshold)
  }

  function Find(results: Results, name: string): Option<Option<nat>> {
    if results == [] then None
    else if results[|results| - 1].0 == name then Some(results[|results| - 1].1)
    else Find(results[..|results| - 1], name)
  }

  /** A route's trailing failures: runs that did not probe do not count, a run that does
      not list the route forgets it. */
  function Failing(history: seq<Run>, name: string): nat {
    if history == [] then 0
    else
      var before := history[..|history| - 1];
      match history[|history| - 1]
      case FetchFailed => Failing(before, name)
      case Crashed => Failing(before, name)
      case Probed(results) => if Find(results, name) == Some(None) then 1 + Failing(before, name) else 0
  }

  /** The subscription's trailing failures: a crashed run does not save its good fetch. */
  function FailingFetch(history: seq<Run>): nat {
    if history == [] then 0
    else
      var before := history[..|history| - 1];
      match history[|history| - 1]
      case FetchFailed => 1 + FailingFetch(before)
      case Crashed => FailingFetch(before)
      case Probed(_) => 0
  }

  /** The failure that alerts: the threshold-th, and the first for a threshold below 1. */
  function Limit(threshold: int): nat {
    if threshold < 1 then 1 else threshold
  }

  predicate Names(a: Alert, name: string) {
    (a.Down? || a.Up?) && a.name == name
  }

  function AlertsFor(alerts: seq<Alert>, name: string): seq<Alert> {
    if alerts == [] then []
    else AlertsFor(alerts[..|alerts| - 1], name)
         + if Names(alerts[|alerts| - 1], name) then [alerts[|alerts| - 1]] else []
  }

  predicate AboutFetch(a: Alert) {
    a.DownSubscription? || a.UpSubscription?
  }

  function FetchOnly(alerts: seq<Alert>): seq<Alert> {
    if alerts == [] then []
    else FetchOnly(alerts[..|alerts| - 1]) + if AboutFetch(alerts[|alerts| - 1]) then [alerts[|alerts| - 1]] else []
  }

  lemma {:induction false} EntriesAt(prev: State, results: Results, threshold: int, name: string)
    ensures var state := NextEntries(prev, results, threshold);
            match Find(results, name)
            case None => name !in state
            case Some(ms) => name in state && state[name] == NextEntry(EntryOf(prev, name), ms, threshold)
  {
    if results == [] {
    } else {
      EntriesAt(prev, results[..|results| - 1], threshold, name);
    }
  }

  lemma {:induction false} AlertsConcat(a: seq<Alert>, b: seq<Alert>, name: string)
    ensures AlertsFor(a + b, name) == AlertsFor(a, name) + AlertsFor(b, name)
    ensures FetchOnly(a + b) == FetchOnly(a) + FetchOnly(b)
    decreases |b|
  {
    if b == [] {
      assert a + b == a;
    } else {
      assert (a + b)[..|a + b| - 1] == a + b[..|b| - 1];
      AlertsConcat(a, b[..|b| - 1], name);
    }
  }

  lemma ShortAlerts(alerts: seq<Alert>, name: string)
    requires |alerts| <= 1
    ensures AlertsFor(alerts, name) == if alerts != [] && Names(alerts[0], name) then alerts else []
    ensures FetchOnly(alerts) == if alerts != [] && AboutFetch(alerts[0]) then alerts else []
  {
    if alerts != [] {
      assert alerts[..0] == [] && alerts == [alerts[0]];
    }
  }

  lemma {:induction false} FindAbsent(results: Results, name: string)
    requires forall i :: 0 <= i < |results| ==> results[i].0 != name
    ensures Find(results, name) == None
  {
    if results == [] {
    } else {
      FindAbsent(results[..|results| - 1], name);
    }
  }

  lemma RaisedFor(other: string, p: Entry, ms: Option<nat>, threshold: int, name: string)
    ensures AlertsFor(Raised(other, p, ms, threshold), name)
            == if other == name then Raised(name, p, ms, threshold) else []
    ensures FetchOnly(Raised(other, p, ms, threshold)) == []
  {
    ShortAlerts(Raised(other, p, ms, threshold), name);
  }

  lemma {:induction false} AlertsAt(prev: State, results: Results, threshold: int, name: string)
    requires DistinctNames(results)
    ensures AlertsFor(NextAlerts(prev, results, threshold), name)
            == (match Find(results, name)
                case None => []
                case Some(ms) => Raised(name, EntryOf(prev, name), ms, threshold))
    ensures FetchOnly(NextAlerts(prev, results, threshold)) == []
  {
    if results == [] {
    } else {
      var before, last := results[..|results| - 1], results[|results| - 1];
      AlertsAt(prev, before, threshold, name);
      var p := EntryOf(prev, last.0);
      AlertsConcat(NextAlerts(prev, before, threshold), Raised(last.0, p, last.1, threshold), name);
      RaisedFor(last.0, p, last.1, threshold, name);
      if last.0 == name {
        FindAbsent(before, name);
      }
    }
  }

  /** For every history and every route: the saved count is its trailing failure streak
      over probed runs, and alerted says the streak reached the threshold. */
  lemma {:induction false} RouteState(history: seq<Run>, threshold: int, name: string)
    requires name != FETCH_KEY
    ensures EntryOf(StateAfter(history, threshold), name)
            == Entry(Failing(history, name), Failing(history, name) >= Limit(threshold))
  {
    if history == [] {
    } else {
      var before, run := history[..|history| - 1], history[|history| - 1];
      RouteState(before, threshold, name);
      if run.Probed? {
        EntriesAt(StateAfter(before, threshold), run.results, threshold, name);
      }
    }
  }

  lemma {:induction false} FetchState(history: seq<Run>, threshold: int)
    ensures EntryOf(StateAfter(history, threshold), FETCH_KEY)
            == Entry(FailingFetch(history), FailingFetch(history) >= Limit(threshold))
  {
    if history == [] {
    } else {
      FetchState(history[..|history| - 1], threshold);
    }
  }

  predicate ResultsDistinct(history: seq<Run>) {
    forall i :: 0 <= i < |history| && history[i].Probed? ==> DistinctNames(history[i].results)
  }

  /** The alert a history's last run owes a route: DOWN in exactly the run of its
      threshold-th failure in a row, UP in exactly the first success after that. */
  function Due(history: seq<Run>, threshold: int, name: string): seq<Alert>
    requires history != []
  {
    var before := history[..|history| - 1];
    match history[|history| - 1]
    case FetchFailed => []
    case Crashed => []
    case Probed(results) =>
      match Find(results, name)
      case None => []
      case Some(None) => if Failing(history, name) == Limit(threshold) then [Down(name, Limit(threshold))] else []
      case Some(Some(ms)) => if Failing(before, name) >= Limit(threshold) then [Up(name, ms)] else []
  }

  lemma ProbedAlerts(prev: State, results: Results, threshold: int, name: string)
    requires DistinctNames(results)
    ensures AlertsFor(Sent(prev, Probed(results), threshold), name)
            == (match Find(results, name)
                case None => []
                case Some(ms) => Raised(name, EntryOf(prev, name), ms, threshold))
    ensures FetchOnly(Sent(prev, Probed(results), threshold)) == FetchAlerts(EntryOf(prev, FETCH_KEY), true, threshold)
  {
    var fetch := FetchAlerts(EntryOf(prev, FETCH_KEY), true, threshold);
    AlertsAt(prev, results, threshold, name);
    AlertsConcat(fetch, NextAlerts(prev, results, threshold), name);
    ShortAlerts(fetch, name);
  }

  lemma DueRaised(history: seq<Run>, threshold: int, name: string, p: Entry)
    requires history != [] && history[|history| - 1].Probed?
    requires var f := Failing(history[..|history| - 1], name); p == Entry(f, f >= Limit(threshold))
    ensures Due(history, threshold, name)
            == (match Find(history[|history| - 1].results, name)
                case None => []
                case Some(ms) => Raised(name, p, ms, threshold))
  {
  }

  /** Each run sends a route exactly the alert it is due. */
  lemma RouteAlerts(history: seq<Run>, threshold: int, name: string)
    requires history != [] && ResultsDistinct(history) && name != FETCH_KEY
    ensures AlertsFor(SentBy(history, threshold), name) == Due(history, threshold, name)
  {
    var prev, run := StateAfter(history[..|history| - 1], threshold), history[|history| - 1];
    if run.Probed? {
      assert DistinctNames(run.results);
      ProbedAlerts(prev, run.results, threshold, name);
      RouteState(history[..|history| - 1], threshold, name);
      DueRaised(history, threshold, name, EntryOf(prev, name));
    } else {
      ShortAlerts(Sent(prev, run, threshold), name);
    }
  }

  /** The alert a history's last run owes the subscription; a crashed run, whose fetch
      went well, owes none. */
  function FetchDue(history: seq<Run>, threshold: int): seq<Alert>
    requires history != []
  {
    match history[|history| - 1]
    case FetchFailed => if FailingFetch(history) == Limit(threshold) then [DownSubscription(Limit(threshold))] else []
    case Crashed => []
    case Probed(_) => if FailingFetch(history[..|history| - 1]) >= Limit(threshold) then [UpSubscription] else []
  }

  lemma FetchAlertsSent(history: seq<Run>, threshold: int)
    requires history != [] && ResultsDistinct(history)
    ensures FetchOnly(SentBy(history, threshold)) == FetchDue(history, threshold)
  {
    var prev, run := StateAfter(history[..|history| - 1], threshold), history[|history| - 1];
    FetchState(history[..|history| - 1], threshold);
    if run.Probed? {
      assert DistinctNames(run.results);
      ProbedAlerts(prev, run.results, threshold, FETCH_KEY);
    } else {
      ShortAlerts(Sent(prev, run, threshold), FETCH_KEY);
    }
  }

  // ---- Alternation ---------------------------------------------------------

  function AllSent(history: seq<Run>, threshold: int): seq<Alert> {
    if history == [] then [] else AllSent(history[..|history| - 1], threshold) + SentBy(history, threshold)
  }

  ghost predicate Listed(history: seq<Run>, name: string) {
    forall i :: 0 <= i < |history| && history[i].Probed? ==> Find(history[i].results, name).Some?
  }

  /** DOWN first, then UP and DOWN in turn. */
  predicate Alternates(alerts: seq<Alert>) {
    forall i :: 0 <= i < |alerts| ==> if i % 2 == 0 then alerts[i].Down? else alerts[i].Up?
  }

  /** The last run probed, did not list the route, and so forgot that it was down. */
  predicate Drops(history: seq<Run>, threshold: int, name: string)
    requires history != []
  {
    var run := history[|history| - 1];
    run.Probed? && Find(run.results, name).None? && Failing(history[..|history| - 1], name) >= Limit(threshold)
  }

  /** Some run forgot that the route was down. */
  predicate Forgotten(history: seq<Run>, threshold: int, name: string) {
    history != [] && (Drops(history, threshold, name) || Forgotten(history[..|history| - 1], threshold, name))
  }

  /** Some run that owes the route an alert comes after one that forgot it was down. */
  predicate ReportedAgain(history: seq<Run>, threshold: int, name: string) {
    && history != []
    && var before := history[..|history| - 1];
       || ReportedAgain(before, threshold, name)
       || (Forgotten(before, threshold, name) && Due(history, threshold, name) != [])
  }

  /** DOWN takes a streak to the limit, and UP or being forgotten takes it away. */
  lemma DueMoves(history: seq<Run>, threshold: int, name: string)
    requires history != []
    ensures var before := Failing(history[..|history| - 1], name) >= Limit(threshold);
            var after, due := Failing(history, name) >= Limit(threshold), Due(history, threshold, name);
            if Drops(history, threshold, name) then before && !after && due == []
            else if before == after then due == []
            else |due| == 1 && if after then due[0].Down? else due[0].Up?
  {
  }

  /** Where the alerts of a route stand: in turn until one comes after a forgotten DOWN. */
  ghost predicate Stands(history: seq<Run>, threshold: int, name: string, alerts: seq<Alert>) {
    && (Alternates(alerts) <==> !ReportedAgain(history, threshold, name))
    && (Alternates(alerts) ==>
          var down := Failing(history, name) >= Limit(threshold);
          if Forgotten(history, threshold, name) then |alerts| % 2 == 1 && !down else |alerts| % 2 == 1 <==> down)
  }

  lemma StandsNext(history: seq<Run>, threshold: int, name: string, alerts: seq<Alert>)
    requires history != [] && Stands(history[..|history| - 1], threshold, name, alerts)
    ensures Stands(history, threshold, name, alerts + Due(history, threshold, name))
  {
    var due := Due(history, threshold, name);
    DueMoves(history, threshold, name);
    if due == [] {
      assert alerts + due == alerts;
    } else {
      AlternatesAppend(alerts, due[0]);
      assert alerts + due == alerts + [due[0]];
    }
  }

  lemma {:induction false} AlertsStand(history: seq<Run>, threshold: int, name: string)
    requires ResultsDistinct(history) && name != FETCH_KEY
    ensures Stands(history, threshold, name, AlertsFor(AllSent(history, threshold), name))
  {
    if history == [] {
    } else {
      var before := history[..|history| - 1];
      AlertsStand(before, threshold, name);
      RouteAlerts(history, threshold, name);
      AlertsConcat(AllSent(before, threshold), SentBy(history, threshold), name);
      StandsNext(history, threshold, name, AlertsFor(AllSent(before, threshold), name));
    }
  }

  /** For every history, the alerts of a route are DOWN and UP in turn exactly when no
      alert is due after a run that left the route out while it was down. */
  lemma RouteAlternation(history: seq<Run>, threshold: int, name: string)
    requires ResultsDistinct(history) && name != FETCH_KEY
    ensures Alternates(AlertsFor(AllSent(history, threshold), name)) <==> !ReportedAgain(history, threshold, name)
  {
    AlertsStand(history, threshold, name);
  }

  lemma {:induction false} ListedRemembered(history: seq<Run>, threshold: int, name: string)
    requires Listed(history, name)
    ensures !Forgotten(history, threshold, name) && !ReportedAgain(history, threshold, name)
  {
    if history == [] {
    } else {
      ListedRemembered(history[..|history| - 1], threshold, name);
      assert history[|history| - 1].Probed? ==> Find(history[|history| - 1].results, name).Some?;
    }
  }

  /** A route listed in every probed run: its alerts over the whole history alternate,
      and the last one is DOWN exactly while its streak is at the threshold or past it. */
  lemma RouteAlternates(history: seq<Run>, threshold: int, name: string)
    requires ResultsDistinct(history) && Listed(history, name) && name != FETCH_KEY
    ensures var alerts := AlertsFor(AllSent(history, threshold), name);
            Alternates(alerts) && (|alerts| % 2 == 1 <==> Failing(history, name) >= Limit(threshold))
  {
    AlertsStand(history, threshold, name);
    ListedRemembered(history, threshold, name);
  }

  /** One more alert in a list. */
  lemma AlternatesAppend(alerts: seq<Alert>, a: Alert)
    ensures Alternates(alerts + [a])
            <==> Alternates(alerts) && if |alerts| % 2 == 0 then a.Down? else a.Up?
  {
    var more := alerts + [a];
    assert more[|alerts|] == a && forall i :: 0 <= i < |alerts| ==> more[i] == alerts[i];
  }

  lemma FetchAlternatesAppend(alerts: seq<Alert>, due: seq<Alert>, before: bool, after: bool)
    requires FetchAlternates(alerts) && (|alerts| % 2 == 1 <==> before)
    requires if before == after then due == []
             else |due| == 1 && if after then due[0].DownSubscription? else due[0].UpSubscription?
    ensures FetchAlternates(alerts + due) && (|alerts + due| % 2 == 1 <==> after)
  {
  }

  predicate FetchAlternates(alerts: seq<Alert>) {
    forall i :: 0 <= i < |alerts| ==> if i % 2 == 0 then alerts[i].DownSubscription? else alerts[i].UpSubscription?
  }

  lemma FetchDueMoves(history: seq<Run>, threshold: int)
    requires history != []
    ensures var before := FailingFetch(history[..|history| - 1]) >= Limit(threshold);
            var after, due := FailingFetch(history) >= Limit(threshold), FetchDue(history, threshold);
            if before == after then due == []
            else |due| == 1 && if after then due[0].DownSubscription? else due[0].UpSubscription?
  {
  }

  lemma {:induction false} SubscriptionAlternates(history: seq<Run>, threshold: int)
    requires ResultsDistinct(history)
    ensures var alerts := FetchOnly(AllSent(history, threshold));
            FetchAlternates(alerts) && (|alerts| % 2 == 1 <==> FailingFetch(history) >= Limit(threshold))
  {
    if history == [] {
    } else {
      var before := history[..|history| - 1];
      SubscriptionAlternates(before, threshold);
      FetchAlertsSent(history, threshold);
      FetchDueMoves(history, threshold);
      AlertsConcat(AllSent(before, threshold), SentBy(history, threshold), FETCH_KEY);
      FetchAlternatesAppend(FetchOnly(AllSent(before, threshold)), FetchDue(history, threshold),
                            FailingFetch(before) >= Limit(threshold), FailingFetch(history) >= Limit(threshold));
    }
  }

  /** A route that was reported down and then left the list is reported down again with
      no recovery in between: its alerts over the three runs are DOWN, nothing, DOWN. */
  lemma UnlistedRepeatsDown(name: string)
    requires name != FETCH_KEY
    ensures var bad := Probed([(name, None)]);
            && AlertsFor(SentBy([bad], 1), name) == [Down(name, 1)]
            && AlertsFor(SentBy([bad, Probed([])], 1), name) == []
            && AlertsFor(SentBy([bad, Probed([]), bad], 1), name) == [Down(name, 1)]
  {
    var bad := Probed([(name, None)]);
    var h1, h2, h3 := [bad], [bad, Probed([])], [bad, Probed([]), bad];
    assert h1[..0] == [] && h2[..1] == h1 && h3[..2] == h2;
    FindOnly(name);
    RouteAlerts(h1, 1, name);
    RouteAlerts(h2, 1, name);
    RouteAlerts(h3, 1, name);
  }

  lemma FindOnly(name: string)
    ensures Find([(name, None)], name) == Some(None)
  {
  }
}
