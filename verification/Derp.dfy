/** Editing the tailnet policy's derpMap (internal/tailscale/policy.go) by read, change
    and conditional write (internal/commands/derp.go, internal/tailscale/api.go).
    A policy is the JSON document: the derpMap member and everything else. */
module Derp {
  import opened Text

  datatype Region = Region(id: int, code: string, name: string, host: string, derpPort: int, stunPort: int)

  /** A JSON member that should hold an object. */
  datatype Member<T> = Absent | Null | Object(value: T)

  datatype DerpMap = DerpMap(omit: Option<bool>, regions: Member<map<string, Region>>, extra: map<string, string>)

  datatype Policy = Policy(derp: Member<DerpMap>, rest: map<string, string>)

  /** What a mutation returns: an error, nothing to change, or the new policy. */
  datatype Edit = Refused | Unchanged | NewPolicy(policy: Policy)

  // ---- Reading the policy --------------------------------------------------

  function Regions(p: Policy): map<string, Region> {
    if p.derp.Object? && p.derp.value.regions.Object? then p.derp.value.regions.value else map[]
  }

  predicate Omits(p: Policy) {
    p.derp.Object? && p.derp.value.omit == Some(true)
  }

  /** Devices always keep a relay: the public ones, or a custom one. */
  predicate Safe(p: Policy) {
    Omits(p) ==> Regions(p) != map[]
  }

  predicate ById(rs: seq<Region>) {
    forall i, j :: 0 <= i < j < |rs| ==> rs[i].id <= rs[j].id
  }

  function InsertById(r: Region, rs: seq<Region>): seq<Region> {
    if rs == [] || r.id < rs[0].id then [r] + rs else [rs[0]] + InsertById(r, rs[1..])
  }

  lemma {:induction false} InsertByIdKeeps(r: Region, rs: seq<Region>)
    requires ById(rs)
    ensures ById(InsertById(r, rs)) && |InsertById(r, rs)| == |rs| + 1
    ensures forall q :: q in InsertById(r, rs) <==> q == r || q in rs
  {
    if rs == [] || r.id < rs[0].id {
    } else {
      InsertByIdKeeps(r, rs[1..]);
      assert rs == [rs[0]] + rs[1..];
      var rest := InsertById(r, rs[1..]);
      forall j | 0 <= j < |rest| ensures rs[0].id <= rest[j].id {
        assert rest[j] in rest;
      }
    }
  }

  /** Summarize: the regions listed by id, whatever order the map yields them in. */
  method Summarize(p: Policy) returns (omit: bool, rs: seq<Region>)
    ensures omit == Omits(p)
    ensures ById(rs) && |rs| == |Regions(p)|
    ensures forall q :: q in rs <==> exists k :: k in Regions(p) && Regions(p)[k] == q
  {
    omit, rs := Omits(p), [];
    var m := Regions(p);
    var keys := m.Keys;
    while keys != {}
      invariant keys <= m.Keys && |rs| == |m.Keys - keys| && ById(rs)
      invariant forall q :: q in rs <==> exists k :: k in m && k !in keys && m[k] == q
      decreases |keys|
    {
      var k :| k in keys;
      InsertByIdKeeps(m[k], rs);
      assert m.Keys - (keys - {k}) == (m.Keys - keys) + {k};
      rs := InsertById(m[k], rs);
      keys := keys - {k};
    }
    assert m.Keys - {} == m.Keys;
  }

  // ---- The mutations -------------------------------------------------------

  function SetOmitDefaultRegions(p: Policy, omit: bool): Edit {
    match p.derp
    case Absent => Refused
    case Null => Refused
    case Object(d) =>
      if omit && Regions(p) == map[] then Refused
      else NewPolicy(p.(derp := Object(d.(omit := Some(omit)))))
  }

  function ChinaMode(p: Policy, on: bool): Edit {
    if Omits(p) == on then Unchanged else SetOmitDefaultRegions(p, on)
  }

  predicate Complete(r: Region) {
    r.id >= 900 && r.code != "" && r.name != "" && r.host != "" && r.derpPort > 0 && r.stunPort > 0
  }

  /** A patch below a null fails, so only an absent member is created on the way. */
  function AddRegion(p: Policy, r: Region): Edit {
    if !Complete(r) then Refused
    else
      var d := match p.derp
        case Absent => Some(DerpMap(Some(false), Object(map[]), map[]))
        case Null => None
        case Object(d) => Some(d);
      if d.None? || d.value.regions.Null? then Refused
      else
        var regions := if d.value.regions.Object? then d.value.regions.value else map[];
        NewPolicy(p.(derp := Object(d.value.(regions := Object(regions[Itoa(r.id) := r])))))
  }

  /** A region is found by its RegionID member and removed by its key. */
  function RemoveRegion(p: Policy, id: int): Edit {
    var regions := Regions(p);
    if !(exists k :: k in regions && regions[k].id == id) then Refused
    else if Omits(p) && |regions| == 1 then Refused
    else if Itoa(id) !in regions then Refused
    else NewPolicy(p.(derp := Object(p.derp.value.(regions := Object(regions - {Itoa(id)})))))
  }

  datatype Command = China(on: bool) | Add(region: Region) | Remove(id: int)

  function Mutate(c: Command, p: Policy): Edit {
    match c
    case China(on) => ChinaMode(p, on)
    case Add(r) => AddRegion(p, r)
    case Remove(id) => RemoveRegion(p, id)
  }

  lemma SmallerMap(m: map<string, Region>, k: string)
    requires k in m
    ensures |m - {k}| == |m| - 1
  {
    assert (m - {k}).Keys == m.Keys - {k};
  }

  /** Whatever policy a command starts from, what it writes is safe; and it changes
      nothing but the omit flag or the one region it names. */
  lemma MutateSafe(c: Command, p: Policy)
    requires Mutate(c, p).NewPolicy?
    ensures var q := Mutate(c, p).policy;
            && Safe(q) && q.rest == p.rest
            && q.derp.Object? && q.derp.value.extra == (if p.derp.Object? then p.derp.value.extra else map[])
            && (q.derp.value.omit
                == if c.China? then Some(c.on) else if p.derp.Object? then p.derp.value.omit else Some(false))
            && (c.China? ==> Regions(q) == Regions(p) && Omits(q) == c.on)
            && (c.Add? ==> Regions(q) == Regions(p)[Itoa(c.region.id) := c.region] && Omits(q) == Omits(p))
            && (c.Remove? ==> Regions(q) == Regions(p) - {Itoa(c.id)} && Omits(q) == Omits(p))
  {
    var q := Mutate(c, p).policy;
    match c
    case China(on) =>
    case Add(r) =>
      assert Itoa(r.id) in Regions(q);
    case Remove(id) =>
      SmallerMap(Regions(p), Itoa(id));
      assert Omits(p) ==> |Regions(p)| != 1;
  }

  /** When a command is refused and when it has nothing to do, by what the document holds. */
  lemma MutateWhen(c: Command, p: Policy)
    ensures var m, edit := p.derp, Mutate(c, p);
            match c
            case China(on) =>
              var flag := m.Object? && m.value.omit == Some(true);
              && (edit == Unchanged <==> flag == on)
              && (edit == Refused
                  <==> flag != on
                       && (!m.Object? || (on && (!m.value.regions.Object? || m.value.regions.value == map[]))))
            case Add(r) =>
              && edit != Unchanged
              && (edit == Refused
                  <==> || r.id < 900 || r.code == "" || r.name == "" || r.host == ""
                       || r.derpPort <= 0 || r.stunPort <= 0
                       || m.Null? || (m.Object? && m.value.regions.Null?))
            case Remove(id) =>
              && edit != Unchanged
              && (edit == Refused
                  <==> || !m.Object? || !m.value.regions.Object?
                       || (forall k :: k in m.value.regions.value ==> m.value.regions.value[k].id != id)
                       || (m.value.omit == Some(true) && |m.value.regions.value| == 1)
                       || Itoa(id) !in m.value.regions.value)
  {
    if c.Remove? && p.derp.Object? && p.derp.value.regions.Object? {
      var regions := p.derp.value.regions.value;
      assert Regions(p) == regions;
      assert (exists k :: k in regions && regions[k].id == c.id)
          <==> !(forall k :: k in regions ==> regions[k].id != c.id);
    }
  }

  /** Removing a region just added restores the policy exactly when its map of regions
      was already there, its key was free, and the policy was safe. */
  lemma AddThenRemove(p: Policy, r: Region)
    requires AddRegion(p, r).NewPolicy?
    ensures RemoveRegion(AddRegion(p, r).policy, r.id) == NewPolicy(p)
            <==> p.derp.Object? && p.derp.value.regions.Object? && Itoa(r.id) !in Regions(p) && Safe(p)
  {
    var q, key := AddRegion(p, r).policy, Itoa(r.id);
    assert Regions(q)[key] == r && (exists k :: k in Regions(q) && Regions(q)[k].id == r.id);
    SmallerMap(Regions(q), key);
    if key !in Regions(p) {
      assert Regions(q) - {key} == Regions(p);
      assert |Regions(q)| == 1 <==> Regions(p) == map[];
    }
  }

  /** China mode switched on and off again restores a policy that had the flag written
      off, and only such a policy. */
  lemma ChinaOnOff(p: Policy)
    requires ChinaMode(p, true).NewPolicy?
    ensures ChinaMode(ChinaMode(p, true).policy, false) == NewPolicy(p) <==> p.derp.value.omit == Some(false)
  {
  }

  // ---- One edit, with others writing meanwhile -----------------------------

  /** Outside answers of one edit. tagged says the read came with an ETag header, replied
      that the answer to a write that reached the server came back. */
  datatype Answers = Answers(get: bool, tagged: bool, snapshot: bool, valid: bool, reachable: bool, replied: bool)

  /** Stored says the server answered that it wrote the policy, whether or not the backup
      of the new one then was. */
  datatype Outcome = Failed | NothingToDo | Stored

  class Tailnet {
    var policy: Policy
    /** Each write gets the next version; the ETag names the version. */
    var version: nat
    var backups: seq<Policy>

    constructor (p: Policy)
      ensures policy == p && version == 0 && backups == []
    {
      policy, version, backups := p, 0, [];
    }

    /** Writes by others between the read and the write. */
    method Meanwhile(others: seq<Policy>)
      modifies this`policy, this`version
      ensures policy == (if others == [] then old(policy) else others[|others| - 1])
      ensures version == old(version) + |others|
    {
      for i := 0 to |others|
        invariant version == old(version) + i
        invariant policy == if i == 0 then old(policy) else others[i - 1]
      {
        policy, version := others[i], version + 1;
      }
    }

    /** A request that reaches the server is written or refused there; ok says that the
        answer came back and was good. */
    method SetPolicy(p: Policy, ifMatch: Option<nat>, reachable: bool, replied: bool) returns (ok: bool)
      modifies this`policy, this`version
      ensures var written := reachable && (ifMatch.None? || ifMatch.value == old(version));
              && ok == (written && replied)
              && policy == (if written then p else old(policy))
              && version == if written then old(version) + 1 else old(version)
    {
      var written := reachable && (ifMatch.None? || ifMatch.value == version);
      if written {
        policy, version := p, version + 1;
      }
      ok := written && replied;
    }

    /** editPolicy. The server writes exactly when the edit gets to it and nobody wrote
        since the read if an ETag says so, and then the command applied to the policy read;
        the edit reports it stored exactly when the answer came back too, so an edit that
        failed may have been written. The policy read is in the backups before anything is
        written. An edit that writes nothing leaves the last policy others wrote while it
        was under way. */
    method EditPolicy(c: Command, a: Answers, others: seq<Policy>) returns (r: Outcome)
      modifies this
      ensures r == NothingToDo <==> a.get && a.snapshot && Mutate(c, old(policy)) == Unchanged
      ensures backups == if a.get && a.snapshot then old(backups) + [old(policy)] else old(backups)
      ensures var edit := Mutate(c, old(policy));
              var sends := a.get && a.snapshot && edit.NewPolicy?;
              var writes := sends && a.valid && a.reachable && (a.tagged ==> others == []);
              && (r == Stored <==> writes && a.replied)
              && policy == (if writes then edit.policy
                            else if sends && others != [] then others[|others| - 1] else old(policy))
              && version == old(version) + (if sends then |others| else 0) + if writes then 1 else 0
    {
      if !a.get {
        return Failed;
      }
      var before, etag := policy, if a.tagged then Some(version) else None;
      if !a.snapshot {
        return Failed;
      }
      backups := backups + [before];
      var after := Mutate(c, before);
      match after
      case Refused => return Failed;
      case Unchanged => return NothingToDo;
      case NewPolicy(p) =>
        Meanwhile(others);
        if !a.valid {
          return Failed;
        }
        var ok := SetPolicy(p, etag, a.reachable, a.replied);
        r := if ok then Stored else Failed;
    }
  }

  // ---- Any number of concurrent editors ------------------------------------

  /** A policy an editor has read, with the version its ETag named, if any. */
  datatype Reading = Reading(policy: Policy, tag: Option<nat>)

  datatype Server = Server(policy: Policy, version: nat)

  /** stored lists the commands the server wrote, in order, whether or not their editors
      heard of it. */
  datatype System = System(server: Server, readings: map<nat, Reading>, stored: seq<Command>)

  datatype Step =
    | Get(k: nat, tagged: bool)
    | Put(k: nat, command: Command, valid: bool)

  function Exec(s: System, step: Step): System {
    match step
    case Get(k, tagged) =>
      s.(readings := s.readings[k := Reading(s.server.policy, if tagged then Some(s.server.version) else None)])
    case Put(k, command, valid) =>
      if k !in s.readings then s
      else
        var reading, quiet := s.readings[k], s.(readings := s.readings - {k});
        var edit := Mutate(command, reading.policy);
        if !valid || !edit.NewPolicy? || (reading.tag.Some? && reading.tag.value != s.server.version) then quiet
        else quiet.(server := Server(edit.policy, s.server.version + 1), stored := s.stored + [command])
  }

  function Run(s: System, steps: seq<Step>): System {
    if steps == [] then s else Exec(Run(s, steps[..|steps| - 1]), steps[|steps| - 1])
  }

  /** The commands applied one after the other, each to what the one before left. */
  function Serial(p: Policy, commands: seq<Command>): Policy {
    if commands == [] then p
    else
      var before := Serial(p, commands[..|commands| - 1]);
      match Mutate(commands[|commands| - 1], before)
      case NewPolicy(q) => q
      case _ => before
  }

  /** An ETag still current means nothing was written since. */
  ghost predicate TagsHonest(s: System) {
    forall k :: k in s.readings && s.readings[k].tag.Some? ==>
      && s.readings[k].tag.value <= s.server.version
      && (s.readings[k].tag.value == s.server.version ==> s.readings[k].policy == s.server.policy)
  }

  predicate AllTagged(steps: seq<Step>) {
    forall i :: 0 <= i < |steps| && steps[i].Get? ==> steps[i].tagged
  }

  ghost predicate Tagged(s: System) {
    forall k :: k in s.readings ==> s.readings[k].tag.Some?
  }

  lemma StepHonest(s: System, step: Step)
    requires TagsHonest(s)
    ensures TagsHonest(Exec(s, step))
  {
  }

  lemma StepSerial(s: System, start: Policy, step: Step)
    requires TagsHonest(s) && Tagged(s) && s.server.policy == Serial(start, s.stored)
    ensures var t := Exec(s, step); t.server.policy == Serial(start, t.stored)
  {
    match step
    case Get(_, _) =>
    case Put(k, command, valid) =>
      assert (s.stored + [command])[..|s.stored|] == s.stored;
  }

  /** When every read carries an ETag, any interleaving of any editors stores what the
      stored commands give one after the other: no edit is lost. */
  lemma {:induction false} NoLostEdit(s: System, steps: seq<Step>)
    requires s.readings == map[] && s.stored == [] && AllTagged(steps)
    ensures var t := Run(s, steps);
            TagsHonest(t) && Tagged(t) && t.server.policy == Serial(s.server.policy, t.stored)
  {
    if steps == [] {
    } else {
      var before := steps[..|steps| - 1];
      NoLostEdit(s, before);
      StepHonest(Run(s, before), steps[|steps| - 1]);
      StepSerial(Run(s, before), s.server.policy, steps[|steps| - 1]);
    }
  }

  /** Every policy any editor stores is safe, with or without ETags. */
  lemma {:induction false} AlwaysSafe(s: System, steps: seq<Step>)
    requires s.readings == map[] && Safe(s.server.policy)
    ensures Safe(Run(s, steps).server.policy)
  {
    if steps == [] {
    } else {
      var before, step := Run(s, steps[..|steps| - 1]), steps[|steps| - 1];
      AlwaysSafe(s, steps[..|steps| - 1]);
      if step.Put? && step.k in before.readings && Mutate(step.command, before.readings[step.k].policy).NewPolicy? {
        MutateSafe(step.command, before.readings[step.k].policy);
      }
    }
  }

  /** Without an ETag the second of two overlapping additions removes the first. */
  lemma UntaggedLosesEdit(p: Policy, a: Region, b: Region)
    requires AddRegion(p, a).NewPolicy? && AddRegion(p, b).NewPolicy? && Itoa(a.id) != Itoa(b.id)
    requires Itoa(a.id) !in Regions(p)
    ensures var t := Run(System(Server(p, 0), map[], []),
                         [Get(0, false), Get(1, false), Put(0, Add(a), true), Put(1, Add(b), true)]);
            t.stored == [Add(a), Add(b)] && Itoa(a.id) !in Regions(t.server.policy)
  {
    RunFour(System(Server(p, 0), map[], []), Get(0, false), Get(1, false), Put(0, Add(a), true), Put(1, Add(b), true));
    MutateSafe(Add(b), p);
  }

  lemma RunFour(s: System, a: Step, b: Step, c: Step, d: Step)
    ensures Run(s, [a, b, c, d]) == Exec(Exec(Exec(Exec(s, a), b), c), d)
  {
    assert [a][..0] == [];
    assert [a, b][..1] == [a];
    assert [a, b, c][..2] == [a, b];
    assert [a, b, c, d][..3] == [a, b, c];
    assert Run(s, [a]) == Exec(s, a);
    assert Run(s, [a, b]) == Exec(Run(s, [a]), b);
    assert Run(s, [a, b, c]) == Exec(Run(s, [a, b]), c);
  }
}
