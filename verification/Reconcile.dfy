/** The re-render as the program runs it: the xray and cloudflared configs, then the
    systemd units (internal/commands/install.go, internal/commands/reconcile.go). */
module Reconcile {
  import opened Text
  import opened XrayConfig
  import opened Rerender

  datatype Call = DaemonReload | EnableNow(unit: string) | Restart(unit: string) | DisableNow(unit: string)

  const HYSTERIA_UNIT := "cfvpn-hysteria.service"

  predicate LongRunning(name: string) {
    name in {"cfvpn-xray.service", "cfvpn-cloudflared.service", "cfvpn-agent.service", HYSTERIA_UNIT}
  }

  type Units = map<string, string>

  // ---- What a reconcile does -----------------------------------------------

  predicate Drifted(units: Units, canonical: Units, name: string) {
    name in canonical && (name !in units || units[name] != canonical[name])
  }

  predicate Retires(units: Units, canonical: Units) {
    HYSTERIA_UNIT !in canonical && HYSTERIA_UNIT in units
  }

  function Reconciled(units: Units, canonical: Units): Units {
    (units + canonical) - if HYSTERIA_UNIT in canonical then {} else {HYSTERIA_UNIT}
  }

  /** The drifted units in sorted order. */
  ghost predicate IsChanged(changed: seq<string>, units: Units, canonical: Units) {
    StrictlySorted(changed) && forall n :: n in changed <==> Drifted(units, canonical, n)
  }

  /** The units a reconcile writes for the first time. */
  function Created(units: Units, canonical: Units): set<string> {
    set n | n in canonical && n !in units
  }

  predicate InSync(units: Units, canonical: Units) {
    !Retires(units, canonical) && forall n :: n in canonical ==> !Drifted(units, canonical, n)
  }

  /** How a changed unit is picked up: timers and new daemons are enabled, old daemons
      restarted, one-shot jobs left to their timers. */
  function UnitCall(name: string, created: set<string>): seq<Call> {
    if HasSuffix(name, ".timer") || (LongRunning(name) && name in created) then [EnableNow(name)]
    else if LongRunning(name) then [Restart(name)]
    else []
  }

  function UnitCalls(changed: seq<string>, created: set<string>): seq<Call> {
    if changed == [] then []
    else UnitCalls(changed[..|changed| - 1], created) + UnitCall(changed[|changed| - 1], created)
  }

  /** The calls for these changes; none at all when nothing changed. */
  function Calls(changed: seq<string>, created: set<string>, retires: bool): seq<Call> {
    (if retires then [DisableNow(HYSTERIA_UNIT)] else [])
    + if changed == [] && !retires then [] else [DaemonReload] + UnitCalls(changed, created)
  }

  /** What a unit call is about. */
  function UnitOf(c: Call): string {
    match c
    case DaemonReload => ""
    case EnableNow(unit) => unit
    case Restart(unit) => unit
    case DisableNow(unit) => unit
  }

  lemma {:induction false} UnitCallsIn(changed: seq<string>, created: set<string>, c: Call)
    ensures c in UnitCalls(changed, created) <==> UnitOf(c) in changed && c in UnitCall(UnitOf(c), created)
  {
    if changed == [] {
    } else {
      UnitCallsIn(changed[..|changed| - 1], created, c);
      assert changed == changed[..|changed| - 1] + [changed[|changed| - 1]];
    }
  }

  lemma {:induction false} UnitCallsSorted(changed: seq<string>, created: set<string>)
    requires StrictlySorted(changed)
    ensures StrictlySorted(Subjects(UnitCalls(changed, created)))
  {
    if changed == [] {
    } else {
      var most, last := changed[..|changed| - 1], changed[|changed| - 1];
      var before := UnitCalls(most, created);
      UnitCallsSorted(most, created);
      forall i | 0 <= i < |before| ensures Hysteria.Less(Subjects(before)[i], last) {
        UnitCallsIn(most, created, before[i]);
        var k :| 0 <= k < |most| && most[k] == UnitOf(before[i]);
        assert changed[k] == most[k];
      }
      SubjectsConcat(before, UnitCall(last, created));
      SortedNext(Subjects(before), UnitCall(last, created), last);
    }
  }

  lemma SortedNext(before: seq<string>, calls: seq<Call>, last: string)
    requires StrictlySorted(before) && forall i :: 0 <= i < |before| ==> Hysteria.Less(before[i], last)
    requires |calls| <= 1 && forall c :: c in calls ==> UnitOf(c) == last
    ensures StrictlySorted(before + Subjects(calls))
  {
  }

  function Subjects(calls: seq<Call>): (subjects: seq<string>)
    ensures |subjects| == |calls| && forall i :: 0 <= i < |calls| ==> subjects[i] == UnitOf(calls[i])
  {
    if calls == [] then [] else [UnitOf(calls[0])] + Subjects(calls[1..])
  }

  lemma SubjectsConcat(a: seq<Call>, b: seq<Call>)
    ensures Subjects(a + b) == Subjects(a) + Subjects(b)
  {
  }

  /** The calls made when only the first fine ones work: the failing one is the last. */
  function Attempted(calls: seq<Call>, fine: nat): seq<Call> {
    if |calls| <= fine then calls else calls[..fine + 1]
  }

  /** The systemctl calls of a reconcile that nothing stops, by what is on disk and what
      should be: the retired unit goes first, then the reload, then one call each for the
      changed units that need one, in the order of their names. */
  lemma CallsMade(units: Units, canonical: Units, changed: seq<string>)
    requires IsChanged(changed, units, canonical)
    ensures var retires := "cfvpn-hysteria.service" in units && "cfvpn-hysteria.service" !in canonical;
            var n := if retires then 1 else 0;
            var calls := Calls(changed, Created(units, canonical), retires);
            && (retires ==> calls != [] && calls[0] == DisableNow("cfvpn-hysteria.service"))
            && (|calls| > n <==> retires || exists u :: u in canonical && (u !in units || units[u] != canonical[u]))
            && (|calls| > n ==>
                  && calls[n] == DaemonReload && StrictlySorted(Subjects(calls[n + 1..]))
                  && forall c :: c in calls[n + 1..] <==> Needed(units, canonical, c))
  {
    var created := Created(units, canonical);
    CallsShape(changed, created, Retires(units, canonical));
    NeededExactly(units, canonical, changed);
    UnitCallsSorted(changed, created);
    ChangedAny(changed, units, canonical);
  }

  lemma CallsShape(changed: seq<string>, created: set<string>, retires: bool)
    ensures var calls, n := Calls(changed, created, retires), if retires then 1 else 0;
            && (retires ==> calls != [] && calls[0] == DisableNow(HYSTERIA_UNIT))
            && (|calls| > n <==> retires || changed != [])
            && (|calls| > n ==> calls[n] == DaemonReload && calls[n + 1..] == UnitCalls(changed, created))
  {
    var calls := UnitCalls(changed, created);
    assert ([DisableNow(HYSTERIA_UNIT)] + ([DaemonReload] + calls))[2..] == calls;
    assert ([DaemonReload] + calls)[1..] == calls;
  }

  lemma ChangedAny(changed: seq<string>, units: Units, canonical: Units)
    requires IsChanged(changed, units, canonical)
    ensures changed != [] <==> exists u :: u in canonical && (u !in units || units[u] != canonical[u])
  {
    if changed != [] {
      assert changed[0] in changed && Drifted(units, canonical, changed[0]);
    }
    if u :| u in canonical && (u !in units || units[u] != canonical[u]) {
      assert Drifted(units, canonical, u) && u in changed;
    }
  }

  lemma NeededExactly(units: Units, canonical: Units, changed: seq<string>)
    requires IsChanged(changed, units, canonical)
    ensures forall c :: c in UnitCalls(changed, Created(units, canonical)) <==> Needed(units, canonical, c)
  {
    forall c ensures c in UnitCalls(changed, Created(units, canonical)) <==> Needed(units, canonical, c) {
      UnitCallsIn(changed, Created(units, canonical), c);
      DaemonIs(UnitOf(c));
    }
  }

  predicate Daemon(unit: string) {
    || unit == "cfvpn-xray.service" || unit == "cfvpn-cloudflared.service"
    || unit == "cfvpn-agent.service" || unit == "cfvpn-hysteria.service"
  }

  lemma DaemonIs(unit: string)
    ensures LongRunning(unit) <==> Daemon(unit)
  {
  }

  /** A timer is enabled whenever it changed, a daemon when it is new; one that changed is
      restarted. */
  predicate Needed(units: Units, canonical: Units, c: Call) {
    match c
    case EnableNow(u) =>
      && u in canonical && (u !in units || units[u] != canonical[u])
      && (HasSuffix(u, ".timer") || (Daemon(u) && u !in units))
    case Restart(u) =>
      && u in canonical && u in units && units[u] != canonical[u]
      && Daemon(u) && !HasSuffix(u, ".timer")
    case _ => false
  }

  /** A reconciled node is in sync. */
  lemma ReconciledInSync(units: Units, canonical: Units)
    ensures InSync(Reconciled(units, canonical), canonical)
  {
  }

  // ---- The node ------------------------------------------------------------

  /** An xray config: the clients of its vless inbounds, and the text around them. */
  datatype XrayFile = XrayFile(clients: seq<Client>, rest: string)

  /** What the env file renders to; a legacy direct node has no Reality parameters and
      nothing to render. */
  datatype Env = Env(legacy: bool, flow: string, rest: string, cloudflared: string, units: Units)

  /** unitWrites are the unit files that can be written; of the reconcile's systemctl
      calls the first fine ones work. */
  datatype Answers = Answers(
    valid: bool, writeXray: bool, writeCloudflared: bool, restartXray: bool,
    unitWrites: set<string>, fine: nat, removeUnit: bool)

  class Node {
    var xray: XrayFile
    var cloudflared: string
    var units: Units
    ghost var written: seq<string>
    ghost var calls: seq<Call>

    constructor (xray: XrayFile, cloudflared: string, units: Units)
      ensures this.xray == xray && this.cloudflared == cloudflared && this.units == units
      ensures written == [] && calls == []
    {
      this.xray, this.cloudflared, this.units, written, calls := xray, cloudflared, units, [], [];
    }

    method WriteUnit(name: string, content: string)
      modifies this`units, this`written
      ensures units == old(units)[name := content] && written == old(written) + [name]
    {
      units, written := units[name := content], written + [name];
    }

    /** reconcileUnitsTracked: any iteration order of the canonical map. */
    method ReconcileUnits(canonical: Units, writable: set<string>)
      returns (changed: seq<string>, created: set<string>, ok: bool)
      modifies this`units, this`written
      ensures ok ==> units == old(units) + canonical && IsChanged(changed, old(units), canonical)
      ensures ok ==> created == Created(old(units), canonical)
      ensures !ok ==> PartlyWritten(old(units), units, canonical)
      ensures (forall n :: n in canonical ==> !Drifted(old(units), canonical, n))
              ==> ok && changed == [] && units == old(units) && written == old(written)
    {
      changed, created, ok := [], {}, true;
      ghost var before := units;
      var rest := canonical.Keys;
      while rest != {}
        invariant rest <= canonical.Keys && Seen(before, canonical, rest, units, changed, created)
        invariant changed == [] ==> written == old(written)
        decreases |rest|
      {
        var name :| name in rest;
        SeenNext(before, canonical, rest, name, units, changed, created);
        if Drifted(units, canonical, name) {
          if name !in writable {
            ok := false;
            PartlyIsWritten(before, canonical, rest);
            return;
          }
          created := if name in units then created else created + {name};
          WriteUnit(name, canonical[name]);
          changed := InsertKey(name, changed);
        }
        rest := rest - {name};
      }
      SeenAll(before, canonical, units, changed, created);
    }

    /** runReconcileUnitsLocked. It goes through exactly when the units could be written,
        the retired one removed and every call worked; then the units are the canonical
        ones. The calls are those of the retired and the changed units in sorted order,
        up to the first that fails. */
    method RunReconcile(canonical: Units, a: Answers) returns (ok: bool, wrote: bool, ghost changed: seq<string>)
      modifies this`units, this`written, this`calls
      ensures !wrote ==> !ok && PartlyWritten(old(units), units, canonical) && calls == old(calls)
      ensures wrote ==>
                var retires := Retires(old(units), canonical);
                var all := Calls(changed, Created(old(units), canonical), retires);
                && IsChanged(changed, old(units), canonical)
                && ok == (|all| <= a.fine && (retires ==> a.removeUnit))
                && calls == old(calls) + (if retires && !a.removeUnit then Attempted(all[..1], a.fine)
                                          else Attempted(all, a.fine))
                && units == if retires && (a.fine == 0 || !a.removeUnit) then old(units) + canonical
                            else Reconciled(old(units), canonical)
      ensures InSync(old(units), canonical)
              ==> ok && units == old(units) && calls == old(calls) && written == old(written)
    {
      var names, created;
      names, created, wrote := ReconcileUnits(canonical, a.unitWrites);
      changed := names;
      if !wrote {
        return false, wrote, changed;
      }
      var retired := HYSTERIA_UNIT !in canonical && HYSTERIA_UNIT in units;
      ok := Apply(names, created, retired, a.fine, a.removeUnit);
    }

    /** retireHysteriaUnit, then the reload and the changed units. */
    method Apply(changed: seq<string>, created: set<string>, retired: bool, fine: nat, removes: bool) returns (ok: bool)
      modifies this`units, this`calls
      ensures ok == (|Calls(changed, created, retired)| <= fine && (retired ==> removes))
      ensures calls == old(calls) + if retired && !removes then Attempted([DisableNow(HYSTERIA_UNIT)], fine)
                                    else Attempted(Calls(changed, created, retired), fine)
      ensures units == old(units) - if retired && fine > 0 && removes then {HYSTERIA_UNIT} else {}
    {
      if !retired {
        assert units == units - {};
        if changed == [] {
          assert calls == calls + [];
          return true;
        }
        assert Calls(changed, created, retired) == [DaemonReload] + UnitCalls(changed, created);
        ok := PickUp(changed, created, fine);
        return;
      }
      calls := calls + [DisableNow(HYSTERIA_UNIT)];
      if fine == 0 || !removes {
        assert units == units - {};
        return false;
      }
      units := units - {HYSTERIA_UNIT};
      ok := PickUp(changed, created, fine - 1);
      AttemptedAfter(DisableNow(HYSTERIA_UNIT), [DaemonReload] + UnitCalls(changed, created), fine);
      Regroup(old(calls), [DisableNow(HYSTERIA_UNIT)],
              Attempted([DaemonReload] + UnitCalls(changed, created), fine - 1));
    }

    /** The reload, then one call for each changed unit that needs one; the first failure
        ends it. */
    method PickUp(changed: seq<string>, created: set<string>, fine: nat) returns (ok: bool)
      modifies this`calls
      ensures var all := [DaemonReload] + UnitCalls(changed, created);
              ok == (|all| <= fine) && calls == old(calls) + Attempted(all, fine)
    {
      ghost var all, before := [DaemonReload] + UnitCalls(changed, created), calls;
      calls := calls + [DaemonReload];
      if fine == 0 {
        return false;
      }
      var left := fine - 1;
      for i := 0 to |changed|
        invariant calls == before + CallsUpTo(changed, created, i)
        invariant 0 <= left == fine - |CallsUpTo(changed, created, i)|
      {
        var call := UnitCall(changed[i], created);
        CallsNext(changed, created, i);
        if call != [] {
          ghost var done := CallsUpTo(changed, created, i);
          calls := calls + call;
          Regroup(before, done, call);
          if left == 0 {
            AttemptedCut(all, done, call, fine);
            return false;
          }
          left := left - 1;
        }
      }
      assert changed[..|changed|] == changed;
      return true;
    }

    /** The two configs, written and picked up when they changed; a cloudflared that does not
        restart only warns. */
    method WriteChanged(candidate: XrayFile, config: string, a: Answers) returns (ok: bool)
      modifies this`xray, this`cloudflared, this`written, this`calls
      ensures var xrayChanged, cfChanged := old(xray) != candidate, old(cloudflared) != config;
              && ok == ((xrayChanged ==> a.valid && a.writeXray && a.restartXray) && (cfChanged ==> a.writeCloudflared))
              && xray == (if a.valid && a.writeXray then candidate else old(xray))
              && (ok ==> cloudflared == config
                         && calls == old(calls) + (if xrayChanged then [Restart("cfvpn-xray.service")] else [])
                                     + (if cfChanged then [Restart("cfvpn-cloudflared.service")] else []))
              && (!xrayChanged && !cfChanged ==> written == old(written) && calls == old(calls))
    {
      var xrayChanged, cfChanged := xray != candidate, cloudflared != config;
      if xrayChanged {
        if !a.valid || !a.writeXray {
          return false;
        }
        xray, written := candidate, written + ["xray"];
      }
      if cfChanged {
        if !a.writeCloudflared {
          return false;
        }
        cloudflared, written := config, written + ["cloudflared"];
      }
      if xrayChanged {
        calls := calls + [Restart("cfvpn-xray.service")];
        if !a.restartXray {
          return false;
        }
      }
      if cfChanged {
        calls := calls + [Restart("cfvpn-cloudflared.service")];
      }
      return true;
    }

    /** reRenderInPlace; synced says the reconcile, whose failure only warns, also worked.
        A legacy direct node is left alone. */
    method ReRenderInPlace(env: Env, a: Answers) returns (ok: bool, synced: bool)
      modifies this
      ensures env.legacy ==> unchanged(this) && ok == UsersOf(old(xray.clients)).Some? && !synced
      ensures ok && !env.legacy ==>
                && UsersOf(old(xray.clients)).Some? && cloudflared == env.cloudflared
                && xray == XrayFile(Rendered(UsersOf(old(xray.clients)).value, env.flow), env.rest)
      ensures ok && synced ==> units == Reconciled(old(units), env.units)
      ensures !env.legacy && UsersOf(old(xray.clients)).Some? ==>
                var candidate := XrayFile(Rendered(UsersOf(old(xray.clients)).value, env.flow), env.rest);
                var xrayChanged, cfChanged := old(xray) != candidate, old(cloudflared) != env.cloudflared;
                && ok == ((xrayChanged ==> a.valid && a.writeXray && a.restartXray)
                          && (cfChanged ==> a.writeCloudflared))
                && (ok ==> old(calls) + (if xrayChanged then [Restart("cfvpn-xray.service")] else [])
                           + (if cfChanged then [Restart("cfvpn-cloudflared.service")] else []) <= calls)
                && (!ok ==> units == old(units)
                            && xray == (if xrayChanged && a.valid && a.writeXray then candidate else old(xray)))
      ensures UsersOf(old(xray.clients)).Some?
              && old(xray) == XrayFile(Rendered(UsersOf(old(xray.clients)).value, env.flow), env.rest)
              && old(cloudflared) == env.cloudflared && InSync(old(units), env.units)
              ==> ok && synced == !env.legacy && unchanged(this)
    {
      ok, synced := false, false;
      var users := UsersOf(xray.clients);
      if users.None? {
        return;
      }
      if env.legacy {
        return true, false;
      }
      ok := WriteChanged(XrayFile(Rendered(users.value, env.flow), env.rest), env.cloudflared, a);
      if !ok {
        return;
      }
      var wrote;
      ghost var changed;
      synced, wrote, changed := RunReconcile(env.units, a);
    }
  }

  /** Every unit is as it was or as it should be. */
  ghost predicate PartlyWritten(before: Units, units: Units, canonical: Units) {
    forall n :: (n in before && n !in canonical ==> n in units)
                && (n in units
                    ==> (n in before && units[n] == before[n]) || (n in canonical && units[n] == canonical[n]))
  }

  lemma AttemptedAfter(first: Call, rest: seq<Call>, fine: nat)
    requires fine > 0
    ensures Attempted([first] + rest, fine) == [first] + Attempted(rest, fine - 1)
  {
    if |rest| >= fine {
      assert ([first] + rest)[..fine + 1] == [first] + rest[..fine];
    }
  }

  lemma AttemptedCut(all: seq<Call>, done: seq<Call>, call: seq<Call>, fine: nat)
    requires done + call <= all && |call| == 1 && |done| == fine
    ensures Attempted(all, fine) == done + call && |all| > fine
  {
  }

  /** The calls a reconcile has made once the first i changed units are picked up. */
  function CallsUpTo(changed: seq<string>, created: set<string>, i: nat): seq<Call>
    requires i <= |changed|
  {
    [DaemonReload] + UnitCalls(changed[..i], created)
  }

  lemma CallsNext(changed: seq<string>, created: set<string>, i: nat)
    requires i < |changed|
    ensures CallsUpTo(changed, created, i + 1) == CallsUpTo(changed, created, i) + UnitCall(changed[i], created)
    ensures CallsUpTo(changed, created, i + 1) <= [DaemonReload] + UnitCalls(changed, created)
    ensures |UnitCall(changed[i], created)| <= 1
  {
    assert changed[..i + 1][..i] == changed[..i];
    CallsPrefix(changed, created, i + 1);
  }

  /** The calls of the first units are a prefix of the calls of all. */
  lemma {:induction false} CallsPrefix(changed: seq<string>, created: set<string>, i: nat)
    requires i <= |changed|
    ensures UnitCalls(changed[..i], created) <= UnitCalls(changed, created)
    decreases |changed|
  {
    if i == |changed| {
      assert changed[..i] == changed;
    } else {
      var most := changed[..|changed| - 1];
      CallsPrefix(most, created, i);
      assert most[..i] == changed[..i];
    }
  }

  /** The list of changed units is determined by the two maps, so the calls do not
      depend on the order the canonical map was iterated in. */
  lemma ChangedUnique(a: seq<string>, b: seq<string>, units: Units, canonical: Units)
    requires IsChanged(a, units, canonical) && IsChanged(b, units, canonical)
    ensures a == b
  {
    SortedUnique(a, b);
  }

  /** The units once all canonical ones but the rest have been looked at. */
  function Partly(before: Units, canonical: Units, rest: set<string>): Units {
    before + (canonical - rest)
  }

  lemma PartlyIsWritten(before: Units, canonical: Units, rest: set<string>)
    ensures PartlyWritten(before, Partly(before, canonical, rest), canonical)
  {
  }

  lemma PartlyNext(before: Units, canonical: Units, rest: set<string>, name: string)
    requires name in rest && name in canonical
    ensures var units := Partly(before, canonical, rest);
            && (Drifted(units, canonical, name) <==> Drifted(before, canonical, name))
            && (name in units <==> name in before)
            && (Partly(before, canonical, rest - {name})
                == if Drifted(units, canonical, name) then units[name := canonical[name]] else units)
  {
    var units := Partly(before, canonical, rest);
    assert Partly(before, canonical, rest - {name}) == units[name := canonical[name]];
    if !Drifted(units, canonical, name) {
      assert units[name := canonical[name]] == units;
    }
  }

  /** The loop state of a reconcile: what has been written, collected and created. */
  ghost predicate Seen(before: Units, canonical: Units, rest: set<string>, units: Units, changed: seq<string>,
                       created: set<string>)
  {
    && units == Partly(before, canonical, rest)
    && StrictlySorted(changed) && (forall n :: n in changed <==> n !in rest && Drifted(before, canonical, n))
    && created == Created(before, canonical) - rest
  }

  lemma SeenNext(before: Units, canonical: Units, rest: set<string>, name: string,
                 units: Units, changed: seq<string>, created: set<string>)
    requires name in rest && rest <= canonical.Keys && Seen(before, canonical, rest, units, changed, created)
    ensures Drifted(units, canonical, name) ==> Drifted(before, canonical, name)
    ensures if Drifted(units, canonical, name)
            then Seen(before, canonical, rest - {name}, units[name := canonical[name]], InsertKey(name, changed),
                      if name in units then created else created + {name}) && InsertKey(name, changed) != []
            else Seen(before, canonical, rest - {name}, units, changed, created)
  {
    PartlyNext(before, canonical, rest, name);
    if Drifted(units, canonical, name) {
      InsertKeySorted(name, changed);
    }
  }

  lemma SeenAll(before: Units, canonical: Units, units: Units, changed: seq<string>, created: set<string>)
    requires Seen(before, canonical, {}, units, changed, created)
    ensures units == before + canonical && IsChanged(changed, before, canonical)
            && created == Created(before, canonical)
    ensures (forall n :: n in canonical ==> !Drifted(before, canonical, n)) ==> changed == [] && units == before
  {
    PartlyDone(before, canonical);
    assert changed != [] ==> changed[0] in changed;
  }

  lemma PartlyDone(before: Units, canonical: Units)
    ensures Partly(before, canonical, {}) == before + canonical
  {
    assert canonical - {} == canonical;
  }

  /** The state a successful re-render leaves is one a second re-render with the same env
      leaves alone, exactly when the xray file it would write is the same again. */
  lemma SecondRenderSame(clients: seq<Client>, env: Env)
    requires UsersOf(clients).Some?
    ensures var again := Rendered(UsersOf(clients).value, env.flow);
            && UsersOf(again).Some?
            && (Rendered(UsersOf(again).value, env.flow) == again <==> Settled(clients))
  {
    RenderFixpoint(clients, env.flow);
    var users := UsersOf(clients).value;
    var again := Rendered(users, env.flow);
    var more := UsersOf(again).value;
    ResolveNames(clients, EmailNames(clients));
    ResolveNames(again, EmailNames(again));
    if Rendered(more, env.flow) == again {
      forall i | 0 <= i < |users| ensures more[i] == users[i] {
        assert Rendered(more, env.flow)[i] == again[i];
      }
      assert more == users;
    }
  }

  /** After a re-render that went through, a second one with the same env writes no file
      and makes no systemctl call, whatever it would have been answered, when every
      user's lookup is settled. */
  method ReRenderTwice(node: Node, env: Env, first: Answers, second: Answers)
    returns (done: bool, ghost written: seq<string>, ghost calls: seq<Call>)
    modifies node
    ensures done && Settled(old(node.xray.clients)) ==> node.written == written && node.calls == calls
  {
    ghost var clients := node.xray.clients;
    ghost var units := node.units;
    var ok, synced := node.ReRenderInPlace(env, first);
    written, calls := node.written, node.calls;
    done := ok && (synced || env.legacy);
    if done && env.legacy {
      ok, synced := node.ReRenderInPlace(env, second);
    } else if done {
      SecondRenderSame(clients, env);
      ReconciledInSync(units, env.units);
      ok, synced := node.ReRenderInPlace(env, second);
    }
  }
}
