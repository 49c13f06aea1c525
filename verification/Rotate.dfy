/** Host rotation as a saga over DNS, files and services (internal/commands/rotate.go).

    Every outside call is answered by an Oracle, so one run is one sequence of
    successes and failures, and the contracts hold for every Oracle. domainKept and
    hy2Kept stay true as long as every state the node went through, including the ones
    a crash would stop in, had a DNS record for the persisted DOMAIN and HY2_HOST. */
module Rotate {
  import opened Storage
  import opened Text

  datatype RecordKind = A | CNAME
  datatype RecordKey = Record(kind: RecordKind, zone: string, host: string)
  type Dns = map<RecordKey, string>
  type Env = map<string, string>

  datatype World = World(dns: Dns, env: Env, xray: Option<string>, cloudflared: Option<string>,
                         hysteria: Option<string>, cert: Option<string>, key: Option<string>)

  datatype Inputs = Inputs(newHost: string, newZone: string, newZoneID: string, oldHost: string, oldZoneID: string,
                           newHy2Host: string, newHy2ZoneID: string, oldHy2Host: string, oldHy2ZoneID: string)

  /** The answers of everything outside; true is success, None a failed rendering. */
  datatype Oracle = Oracle(
    loadEnv: bool, ip: Option<string>,
    issued: bool, certAfter: Option<string>, keyAfter: Option<string>,
    users: bool, xray: Option<string>, cloudflared: Option<string>, readOld: bool,
    upsertVpn: bool, upsertHy2: bool,
    validXray: bool, writeXray: WriteResult, restartXray: bool, restoreXray: WriteResult, removeXray: bool,
    writeCfd: WriteResult, restartCfd: bool, restoreCfd: WriteResult, removeCfd: bool,
    hy2Users: bool, hysteria: Option<string>, readHy2: bool,
    writeHy2: WriteResult, reloadHy2: bool, restoreHy2: WriteResult, removeHy2: bool,
    saveEnv: WriteResult, subscriptions: bool,
    restoreCert: WriteResult, restoreKey: WriteResult, undoVpn: bool, undoHy2: bool,
    deleteOldVpn: bool, deleteOldHy2: bool)

  /** A record the rotation created, and whether deleting it again will work. */
  datatype Created = Created(key: RecordKey, value: string, undo: bool)

  datatype Outcome = Rejected | NotIssued | RolledBack | Partial | Rotated

  function Get(env: Env, k: string): string {
    if k in env then env[k] else ""
  }

  function Trimmed(i: Inputs): Inputs {
    i.(newHost := TrimSpace(i.newHost), newZone := TrimSpace(i.newZone), newZoneID := TrimSpace(i.newZoneID),
       newHy2Host := TrimSpace(i.newHy2Host), newHy2ZoneID := TrimSpace(i.newHy2ZoneID))
  }

  function After(before: Option<string>, content: string, r: WriteResult): Option<string> {
    if r == NotWritten then before else Some(content)
  }

  function PutBack(before: Option<string>, now: Option<string>, restored: WriteResult, removed: bool): Option<string> {
    match before
    case Some(content) => After(now, content, restored)
    case None => if removed then None else now
  }

  ghost predicate HasRecord(dns: Dns, host: string) {
    exists k :: k in dns && k.host == host
  }

  lemma RecordsGrow(dns: Dns, key: RecordKey, value: string)
    ensures forall host :: HasRecord(dns, host) ==> HasRecord(dns[key := value], host)
    ensures HasRecord(dns[key := value], key.host)
  {
    assert key in dns[key := value];
    forall host | HasRecord(dns, host) ensures HasRecord(dns[key := value], host) {
      var k :| k in dns && k.host == host;
      assert k in dns[key := value];
    }
  }

  lemma RecordsShrink(dns: Dns, keys: set<RecordKey>)
    ensures forall host :: HasRecord(dns - keys, host) ==> HasRecord(dns, host)
  {
    forall host | HasRecord(dns - keys, host) ensures HasRecord(dns, host) {
      var k :| k in dns - keys && k.host == host;
      assert k in dns;
    }
  }

  ghost predicate DomainServed(w: World) {
    HasRecord(w.dns, Get(w.env, "DOMAIN"))
  }

  ghost predicate Hy2Served(w: World) {
    Get(w.env, "HY2_HOST") == "" || HasRecord(w.dns, Get(w.env, "HY2_HOST"))
  }

  // ---- Creating and undoing DNS records ------------------------------------

  function CreateAll(dns: Dns, created: seq<Created>): Dns
    decreases |created|
  {
    if created == [] then dns
    else var c := created[|created| - 1]; CreateAll(dns, created[..|created| - 1])[c.key := c.value]
  }

  /** Newest first. */
  function UndoAll(dns: Dns, created: seq<Created>): Dns {
    if created == [] then dns
    else
      var rest := UndoAll(dns, created[1..]);
      if created[0].undo then rest - {created[0].key} else rest
  }

  /** Upserts of one record always carry the same value. */
  ghost predicate Consistent(created: seq<Created>) {
    forall c, d :: c in created && d in created && c.key == d.key ==> c.value == d.value
  }

  predicate Deleted(created: seq<Created>, k: RecordKey) {
    exists c :: c in created && c.key == k && c.undo
  }

  /** Undoing put the zone back: a deleted record was new, one that stayed was there. */
  predicate DnsBack(dns: Dns, created: seq<Created>) {
    forall c :: c in created ==>
      if Deleted(created, c.key) then c.key !in dns else c.key in dns && dns[c.key] == c.value
  }

  lemma {:induction false} UndoAllAt(dns: Dns, created: seq<Created>, k: RecordKey)
    ensures k in UndoAll(dns, created) <==> k in dns && !Deleted(created, k)
    ensures k in UndoAll(dns, created) ==> UndoAll(dns, created)[k] == dns[k]
  {
    if created == [] {
    } else {
      UndoAllAt(dns, created[1..], k);
      assert Deleted(created, k) <==> (created[0].key == k && created[0].undo) || Deleted(created[1..], k);
    }
  }

  lemma {:induction false} CreateAllAt(dns: Dns, created: seq<Created>, k: RecordKey)
    requires Consistent(created)
    ensures (forall c :: c in created ==> c.key != k)
            ==> (k in CreateAll(dns, created) <==> k in dns) && (k in dns ==> CreateAll(dns, created)[k] == dns[k])
    ensures forall c :: c in created && c.key == k ==>
              k in CreateAll(dns, created) && CreateAll(dns, created)[k] == c.value
    decreases |created|
  {
    if created == [] {
    } else {
      var most := created[..|created| - 1];
      assert created == most + [created[|created| - 1]];
      CreateAllAt(dns, most, k);
    }
  }

  lemma CreateOne(dns: Dns, created: seq<Created>, c: Created)
    requires Consistent(created)
    requires forall d :: d in created && d.key == c.key ==> d.value == c.value
    ensures Consistent(created + [c])
    ensures CreateAll(dns, created + [c]) == CreateAll(dns, created)[c.key := c.value]
  {
    assert (created + [c])[..|created|] == created;
  }

  /** Exactly when creating the records and undoing them leaves DNS as it was. */
  lemma DnsRestored(dns: Dns, created: seq<Created>)
    requires Consistent(created)
    ensures UndoAll(CreateAll(dns, created), created) == dns <==> DnsBack(dns, created)
  {
    var made := CreateAll(dns, created);
    var back := UndoAll(made, created);
    forall c | c in created
      ensures back == dns ==> if Deleted(created, c.key) then c.key !in dns else c.key in dns && dns[c.key] == c.value
    {
      UndoAllAt(made, created, c.key);
      CreateAllAt(dns, created, c.key);
    }
    if DnsBack(dns, created) {
      forall k ensures (k in back <==> k in dns) && (k in dns ==> back[k] == dns[k]) {
        UndoAllAt(made, created, k);
        CreateAllAt(dns, created, k);
        if c :| c in created && c.key == k {
          assert Deleted(created, k) || (k in dns && dns[k] == c.value);
        }
      }
    }
  }

  // ---- How far a run gets ----------------------------------------------------

  /** What a rotation points the new host at, and the address of a new HY2 host. */
  datatype Target = Target(kind: RecordKind, value: string, hy2IP: string)

  predicate WantsHy2(i: Inputs) {
    i.newHy2Host != "" && i.newHy2ZoneID != ""
  }

  predicate Issued(i: Inputs, o: Oracle) {
    i.newHy2Host == "" || o.issued
  }

  /** The cert, the users and the rendered configs are there. */
  predicate Prepared(i: Inputs, o: Oracle, t: Target) {
    Issued(i, o) && o.users && o.xray.Some? && (t.kind.A? || o.cloudflared.Some?) && o.readOld
  }

  /** The records a rotation creates when no upsert fails. */
  function Records(i: Inputs, o: Oracle, t: Target): seq<Created> {
    [Created(Record(t.kind, i.newZoneID, i.newHost), t.value, o.undoVpn)]
    + if WantsHy2(i) then [Created(Record(A, i.newHy2ZoneID, i.newHy2Host), t.hy2IP, o.undoHy2)] else []
  }

  predicate AllMade(i: Inputs, o: Oracle, t: Target) {
    Prepared(i, o, t) && o.upsertVpn && (WantsHy2(i) ==> t.hy2IP != "" && o.upsertHy2)
  }

  /** The records a run creates before it gives up or commits. */
  function Made(i: Inputs, o: Oracle, t: Target): seq<Created> {
    if AllMade(i, o, t) then Records(i, o, t)
    else if Prepared(i, o, t) && o.upsertVpn then Records(i, o, t)[..1]
    else []
  }

  predicate XrayReplaced(i: Inputs, o: Oracle, t: Target) {
    AllMade(i, o, t) && o.validXray && o.writeXray != NotWritten
  }

  predicate CfdReplaced(i: Inputs, o: Oracle, t: Target) {
    XrayReplaced(i, o, t) && o.restartXray && t.kind.CNAME? && o.writeCfd != NotWritten
  }

  /** The new config is live: from here on nothing is undone. */
  predicate Committed(i: Inputs, o: Oracle, t: Target) {
    XrayReplaced(i, o, t) && o.restartXray && (t.kind.CNAME? ==> o.writeCfd == Written && o.restartCfd)
  }

  predicate Hy2Rewritten(env: Env, o: Oracle) {
    && o.hy2Users && Get(env, "HY2_PORT") != "" && Get(env, "HY2_OBFS_PW") != ""
    && o.hysteria.Some? && o.readHy2 && o.writeHy2 == Written && o.reloadHy2
  }

  predicate Finishes(env: Env, i: Inputs, o: Oracle) {
    (i.newHy2Host != "" ==> Hy2Rewritten(env, o)) && o.saveEnv == Written && o.subscriptions
  }

  /** How a run that passed the checks of its inputs ends. */
  function Ending(env: Env, i: Inputs, o: Oracle, t: Target): Outcome {
    if !Issued(i, o) then NotIssued
    else if !Committed(i, o, t) then RolledBack
    else if Finishes(env, i, o) then Rotated
    else Partial
  }

  // ---- When a run that gives up has changed nothing ------------------------

  predicate FileBack(before: Option<string>, written: Option<string>, restored: WriteResult, removed: bool) {
    before == written || if before.Some? then restored != NotWritten else removed
  }

  predicate CertBack(before: Option<string>, pair: bool, after: Option<string>, restored: WriteResult) {
    (pair && restored != NotWritten) || after == before
  }

  predicate PairBack(w: World, o: Oracle) {
    var pair := w.cert.Some? && w.key.Some?;
    CertBack(w.cert, pair, o.certAfter, o.restoreCert) && CertBack(w.key, pair, o.keyAfter, o.restoreKey)
  }

  predicate XrayBack(w: World, o: Oracle) {
    FileBack(w.xray, o.xray, o.restoreXray, o.removeXray)
  }

  predicate CfdBack(w: World, o: Oracle) {
    if o.writeCfd == NotDurable then w.cloudflared == o.cloudflared
    else FileBack(w.cloudflared, o.cloudflared, o.restoreCfd, o.removeCfd)
  }

  /** The two configs once a run has given up. */
  function EndXray(w: World, i: Inputs, o: Oracle, t: Target): Option<string> {
    if XrayReplaced(i, o, t) then PutBack(w.xray, o.xray, o.restoreXray, o.removeXray) else w.xray
  }

  function EndCloudflared(w: World, i: Inputs, o: Oracle, t: Target): Option<string> {
    if !CfdReplaced(i, o, t) then w.cloudflared
    else if o.writeCfd == NotDurable then o.cloudflared
    else PutBack(w.cloudflared, o.cloudflared, o.restoreCfd, o.removeCfd)
  }

  /** Exactly when a rotation that gives up leaves the node as it was, from the state
      before it, its inputs and the answers it gets. */
  predicate Restores(w: World, i: Inputs, o: Oracle, t: Target) {
    && DnsBack(w.dns, Made(i, o, t))
    && (i.newHy2Host != "" ==> PairBack(w, o))
    && (XrayReplaced(i, o, t) ==> XrayBack(w, o))
    && (CfdReplaced(i, o, t) ==> CfdBack(w, o))
  }

  /** The new names are fresh, and the records and the xray config can be undone. */
  predicate UndoWorks(w: World, i: Inputs, o: Oracle, t: Target) {
    && (forall c :: c in Records(i, o, t) ==> c.key !in w.dns)
    && o.undoVpn && o.undoHy2 && o.restoreXray != NotWritten && o.removeXray
  }

  /** And both old cert files exist and can be restored, and cloudflared as well. */
  predicate Clean(w: World, i: Inputs, o: Oracle, t: Target) {
    && UndoWorks(w, i, o, t)
    && w.cert.Some? && w.key.Some? && o.restoreCert != NotWritten && o.restoreKey != NotWritten
    && o.writeCfd != NotDurable && o.restoreCfd != NotWritten && o.removeCfd
  }

  lemma MadeUndone(w: World, i: Inputs, o: Oracle, t: Target)
    requires UndoWorks(w, i, o, t)
    ensures DnsBack(w.dns, Made(i, o, t))
  {
    var made := Made(i, o, t);
    forall c | c in made ensures Deleted(made, c.key) && c.key !in w.dns {
      assert c in Records(i, o, t) && c.undo;
    }
  }

  lemma CleanRestores(w: World, i: Inputs, o: Oracle, t: Target)
    requires Clean(w, i, o, t)
    ensures Restores(w, i, o, t)
  {
    MadeUndone(w, i, o, t);
  }

  /** With working undo steps DNS and the xray config are what they were. */
  lemma UndoneAgain(w: World, i: Inputs, o: Oracle, t: Target)
    requires UndoWorks(w, i, o, t) && (t.kind.A? ==> t.value == t.hy2IP)
    ensures EndDns(w.dns, i, o, t, RolledBack) == w.dns && EndXray(w, i, o, t) == w.xray
  {
    MadeUndone(w, i, o, t);
    assert Consistent(Records(i, o, t));
    assert forall c :: c in Made(i, o, t) ==> c in Records(i, o, t);
    DnsRestored(w.dns, Made(i, o, t));
  }

  // ---- Which hosts end with a record ---------------------------------------

  predicate Blank(host: string, zone: string) {
    TrimSpace(host) == "" || TrimSpace(zone) == ""
  }

  /** The env with the new HY2 host, when one was given. */
  function WithHy2(env: Env, i: Inputs): Env {
    if i.newHy2Host == "" then env else env["HY2_HOST" := i.newHy2Host]
  }

  /** The env a run leaves once it is committed; env is the one with the new host. */
  function EndEnv(before: Env, env: Env, i: Inputs, o: Oracle): Env {
    if o.saveEnv == NotWritten then before
    else if i.newHy2Host != "" && !Hy2Rewritten(before, o) then env
    else WithHy2(env, i)
  }

  function NewKeys(i: Inputs, kind: RecordKind): set<RecordKey> {
    {Record(kind, i.newZoneID, i.newHost)} + if WantsHy2(i) then {Record(A, i.newHy2ZoneID, i.newHy2Host)} else {}
  }

  /** What a finished rotation deletes. */
  function OldKeys(i: Inputs, o: Oracle, kind: RecordKind): set<RecordKey> {
    (if Blank(i.oldHost, i.oldZoneID) || !o.deleteOldVpn then {} else {Record(kind, i.oldZoneID, i.oldHost)})
    + if Blank(i.oldHy2Host, i.oldHy2ZoneID) || !o.deleteOldHy2 then {} else {Record(A, i.oldHy2ZoneID, i.oldHy2Host)}
  }

  /** Some record of host was there or is made, and is not among the deleted ones. */
  ghost predicate ServedAfter(dns: Dns, host: string, i: Inputs, o: Oracle, kind: RecordKind) {
    exists k :: k in dns.Keys + NewKeys(i, kind) && k !in OldKeys(i, o, kind) && k.host == host
  }

  function KeysOf(created: seq<Created>): set<RecordKey> {
    set c | c in created :: c.key
  }

  lemma {:induction false} CreateAllKeys(dns: Dns, created: seq<Created>)
    ensures CreateAll(dns, created).Keys == dns.Keys + KeysOf(created)
    decreases |created|
  {
    if created == [] {
    } else {
      var most, c := created[..|created| - 1], created[|created| - 1];
      assert created == most + [c];
      assert KeysOf(created) == KeysOf(most) + {c.key};
      CreateAllKeys(dns, most);
    }
  }

  lemma RecordKeys(i: Inputs, o: Oracle, t: Target)
    ensures KeysOf(Records(i, o, t)) == NewKeys(i, t.kind)
  {
    var all := Records(i, o, t);
    assert all[0] in all;
    if WantsHy2(i) {
      assert all[1] in all;
    }
  }

  /** DNS after a run that ended this way. */
  function EndDns(dns: Dns, i: Inputs, o: Oracle, t: Target, r: Outcome): Dns {
    match r
    case Rejected => dns
    case Rotated => CreateAll(dns, Records(i, o, t)) - OldKeys(i, o, t.kind)
    case Partial => CreateAll(dns, Records(i, o, t))
    case _ => UndoAll(CreateAll(dns, Made(i, o, t)), Made(i, o, t))
  }

  lemma RotatedServes(dns: Dns, i: Inputs, o: Oracle, t: Target, host: string)
    ensures HasRecord(EndDns(dns, i, o, t, Rotated), host) <==> ServedAfter(dns, host, i, o, t.kind)
  {
    CreateAllKeys(dns, Records(i, o, t));
    RecordKeys(i, o, t);
    var end := EndDns(dns, i, o, t, Rotated);
    assert end.Keys == dns.Keys + NewKeys(i, t.kind) - OldKeys(i, o, t.kind);
    if ServedAfter(dns, host, i, o, t.kind) {
      var k :| k in dns.Keys + NewKeys(i, t.kind) && k !in OldKeys(i, o, t.kind) && k.host == host;
      assert k in end.Keys;
    }
    if HasRecord(end, host) {
      var k :| k in end && k.host == host;
      assert k in end.Keys;
    }
  }

  lemma SomeRecord(dns: Dns, k: RecordKey)
    requires k in dns.Keys
    ensures HasRecord(dns, k.host)
  {
    assert k in dns;
  }

  lemma UndoneKeeps(dns: Dns, i: Inputs, o: Oracle, t: Target, k: RecordKey)
    requires k in dns && k.host !in {i.newHost, i.newHy2Host}
    ensures k in EndDns(dns, i, o, t, RolledBack).Keys
  {
    var made := Made(i, o, t);
    CreateAllKeys(dns, made);
    UndoAllAt(CreateAll(dns, made), made, k);
    assert forall c :: c in made ==> c in Records(i, o, t);
  }

  /** A host the rotation neither creates nor retires keeps its records. */
  lemma OtherHostServed(dns: Dns, i: Inputs, o: Oracle, t: Target, r: Outcome, host: string)
    requires HasRecord(dns, host)
    requires r.Rotated? ==> forall k :: k in OldKeys(i, o, t.kind) ==> k.host != host
    requires r.NotIssued? || r.RolledBack? ==> host !in {i.newHost, i.newHy2Host}
    ensures HasRecord(EndDns(dns, i, o, t, r), host)
  {
    var k :| k in dns && k.host == host;
    if r.Rotated? {
      assert k in dns.Keys + NewKeys(i, t.kind);
      RotatedServes(dns, i, o, t, host);
    } else if r.Partial? {
      CreateAllKeys(dns, Records(i, o, t));
      SomeRecord(EndDns(dns, i, o, t, r), k);
    } else if !r.Rejected? {
      UndoneKeeps(dns, i, o, t, k);
      SomeRecord(EndDns(dns, i, o, t, RolledBack), k);
    }
  }

  /** A new name has a record once the run is committed, unless the run retires it. */
  lemma NewHostServed(dns: Dns, i: Inputs, o: Oracle, t: Target, r: Outcome, key: RecordKey)
    requires key in NewKeys(i, t.kind) && (r.Partial? || r.Rotated?)
    requires r.Rotated? ==> key !in OldKeys(i, o, t.kind)
    ensures HasRecord(EndDns(dns, i, o, t, r), key.host)
  {
    CreateAllKeys(dns, Records(i, o, t));
    RecordKeys(i, o, t);
    if r.Rotated? {
      assert key in dns.Keys + NewKeys(i, t.kind);
      RotatedServes(dns, i, o, t, key.host);
    } else {
      assert key in CreateAll(dns, Records(i, o, t)).Keys;
    }
  }

  // ---- What a committed rotation leaves, read off its inputs -----------------

  /** The record is among the old ones handed in, and its deletion works. */
  ghost predicate Retires(raw: Inputs, o: Oracle, kind: RecordKind, k: RecordKey) {
    || (k == Record(kind, raw.oldZoneID, raw.oldHost)
        && o.deleteOldVpn && TrimSpace(raw.oldHost) != "" && TrimSpace(raw.oldZoneID) != "")
    || (k == Record(A, raw.oldHy2ZoneID, raw.oldHy2Host)
        && o.deleteOldHy2 && TrimSpace(raw.oldHy2Host) != "" && TrimSpace(raw.oldHy2ZoneID) != "")
  }

  /** Record by record: the new host's holds value, the new HY2 host's hy2Value when both
      host and zone are given, any other what it held; a finished run has retired the
      old ones. */
  ghost predicate DnsAfter(before: Dns, after: Dns, raw: Inputs, o: Oracle, r: Outcome,
                           kind: RecordKind, value: string, hy2Value: string)
  {
    var vpn := Record(kind, TrimSpace(raw.newZoneID), TrimSpace(raw.newHost));
    var hy2 := Record(A, TrimSpace(raw.newHy2ZoneID), TrimSpace(raw.newHy2Host));
    var wantsHy2 := TrimSpace(raw.newHy2Host) != "" && TrimSpace(raw.newHy2ZoneID) != "";
    && (forall k :: k in after <==>
          (k in before || k == vpn || (wantsHy2 && k == hy2)) && !(r == Rotated && Retires(raw, o, kind, k)))
    && forall k :: k in after ==>
         after[k] == if wantsHy2 && k == hy2 then hy2Value else if k == vpn then value else before[k]
  }

  /** Key by key: the changed settings, and all others as before. */
  ghost predicate EnvAfter(before: Env, after: Env, changes: Env) {
    forall k :: Get(after, k) == if k in changes then changes[k] else Get(before, k)
  }

  /** The env keeps, or a finished or half-done rotation changes, these settings. */
  ghost predicate EnvLeft(before: Env, after: Env, changes: Env, raw: Inputs, o: Oracle, r: Outcome) {
    var hy2 := TrimSpace(raw.newHy2Host);
    var all := if hy2 == "" then changes else changes["HY2_HOST" := hy2];
    if o.saveEnv == NotWritten then after == before
    else EnvAfter(before, after, all) || (r == Partial && EnvAfter(before, after, changes))
  }

  ghost predicate DirectRefuses(env: Env, raw: Inputs, o: Oracle) {
    || TrimSpace(raw.newHost) == "" || TrimSpace(raw.newZone) == "" || TrimSpace(raw.newZoneID) == ""
    || !o.loadEnv || o.ip.None? || o.ip.value == ""
    || Unset(env, "REALITY_PRIVATE_KEY") || Unset(env, "REALITY_SHORT_ID")
  }

  ghost predicate Unset(env: Env, k: string) {
    k !in env || env[k] == ""
  }

  ghost predicate Empty(env: Env, k: string) {
    k !in env || TrimSpace(env[k]) == ""
  }

  /** Both records hold the detected address. */
  ghost predicate DirectLeaves(w0: World, w: World, raw: Inputs, o: Oracle, r: Outcome) {
    && o.ip.Some? && DnsAfter(w0.dns, w.dns, raw, o, r, A, o.ip.value, o.ip.value)
    && EnvLeft(w0.env, w.env, map["DOMAIN" := TrimSpace(raw.newHost), "PUBLIC_IP" := o.ip.value, "MODE" := "direct"],
               raw, o, r)
  }

  ghost predicate CloudflareRefuses(env: Env, raw: Inputs, o: Oracle) {
    || TrimSpace(raw.newHost) == "" || TrimSpace(raw.newZoneID) == "" || !o.loadEnv
    || (Empty(env, "ADMIN_TUNNEL_UUID") && Empty(env, "TUNNEL_UUID"))
    || Empty(env, "ADMIN_HOST")
  }

  /** The new host is an alias of the tunnel, the HY2 host has the public address. */
  ghost predicate CloudflareLeaves(w0: World, w: World, raw: Inputs, o: Oracle, r: Outcome) {
    var admin := TrimSpace(Get(w0.env, "ADMIN_TUNNEL_UUID"));
    var tunnel := if admin == "" then TrimSpace(Get(w0.env, "TUNNEL_UUID")) else admin;
    && DnsAfter(w0.dns, w.dns, raw, o, r, CNAME, tunnel + ".cfargotunnel.com", TrimSpace(Get(w0.env, "PUBLIC_IP")))
    && EnvLeft(w0.env, w.env, map["DOMAIN" := TrimSpace(raw.newHost), "MODE" := "cloudflare"], raw, o, r)
  }

  lemma CloudflareChecks(env: Env, raw: Inputs, o: Oracle)
    ensures CloudflareRefuses(env, raw, o) <==> !CloudflareAccepts(env, Trimmed(raw), o)
  {
  }

  lemma EnvIs(before: Env, env: Env, changes: Env, raw: Inputs, o: Oracle, r: Outcome)
    requires EnvAfter(before, env, changes) && "HY2_HOST" !in changes
    requires r == Rotated ==> Finishes(before, Trimmed(raw), o)
    ensures EnvLeft(before, EndEnv(before, env, Trimmed(raw), o), changes, raw, o, r) || r !in {Partial, Rotated}
  {
    var hy2 := TrimSpace(raw.newHy2Host);
    var both := WithHy2(env, Trimmed(raw));
    forall k ensures Get(both, k) == if hy2 != "" && k == "HY2_HOST" then hy2 else Get(env, k) {
    }
  }

  lemma DirectSettings(env: Env, i: Inputs, ip: string)
    ensures EnvAfter(env, DirectEnv(env, i, ip), map["DOMAIN" := i.newHost, "PUBLIC_IP" := ip, "MODE" := "direct"])
  {
  }

  lemma CloudflareSettings(env: Env, i: Inputs)
    ensures EnvAfter(env, CloudflareEnv(env, i), map["DOMAIN" := i.newHost, "MODE" := "cloudflare"])
  {
  }

  lemma DirectLeft(w0: World, w: World, raw: Inputs, o: Oracle, r: Outcome)
    requires DirectAccepts(w0.env, Trimmed(raw), o)
    requires EndsAt(w0, w, DirectEnv(w0.env, Trimmed(raw), o.ip.value), Trimmed(raw), o, DirectTarget(o), r)
    ensures r in {Partial, Rotated} ==> DirectLeaves(w0, w, raw, o, r)
  {
    if r in {Partial, Rotated} {
      DnsIs(w0.dns, raw, o, DirectTarget(o), r);
      DirectSettings(w0.env, Trimmed(raw), o.ip.value);
      EnvIs(w0.env, DirectEnv(w0.env, Trimmed(raw), o.ip.value),
            map["DOMAIN" := TrimSpace(raw.newHost), "PUBLIC_IP" := o.ip.value, "MODE" := "direct"], raw, o, r);
    }
  }

  lemma CloudflareLeft(w0: World, w: World, raw: Inputs, o: Oracle, r: Outcome)
    requires CloudflareAccepts(w0.env, Trimmed(raw), o)
    requires EndsAt(w0, w, CloudflareEnv(w0.env, Trimmed(raw)), Trimmed(raw), o, CloudflareTarget(w0.env), r)
    ensures r in {Partial, Rotated} ==> CloudflareLeaves(w0, w, raw, o, r)
  {
    if r in {Partial, Rotated} {
      DnsIs(w0.dns, raw, o, CloudflareTarget(w0.env), r);
      CloudflareSettings(w0.env, Trimmed(raw));
      EnvIs(w0.env, CloudflareEnv(w0.env, Trimmed(raw)),
            map["DOMAIN" := TrimSpace(raw.newHost), "MODE" := "cloudflare"], raw, o, r);
    }
  }

  lemma DnsIs(dns: Dns, raw: Inputs, o: Oracle, t: Target, r: Outcome)
    requires r in {Partial, Rotated}
    ensures DnsAfter(dns, EndDns(dns, Trimmed(raw), o, t, r), raw, o, r, t.kind, t.value, t.hy2IP)
  {
    var i := Trimmed(raw);
    var all := Records(i, o, t);
    var vpn := Record(t.kind, i.newZoneID, i.newHost);
    assert all[..1] == [all[0]] && all[..0] == [];
    assert CreateAll(dns, [all[0]]) == dns[vpn := t.value] by {
      assert [all[0]][..0] == [];
    }
    assert !WantsHy2(i) ==> all == [all[0]];
  }

  /** How a run ends, answer by answer. */
  lemma EndingMeans(env: Env, i: Inputs, o: Oracle, t: Target)
    ensures Ending(env, i, o, t) == NotIssued <==> i.newHy2Host != "" && !o.issued
    ensures Ending(env, i, o, t) in {Partial, Rotated} <==>
            && (i.newHy2Host != "" ==> o.issued) && o.users && o.xray.Some? && o.readOld && o.upsertVpn
            && (i.newHy2Host != "" && i.newHy2ZoneID != "" ==> t.hy2IP != "" && o.upsertHy2)
            && o.validXray && o.writeXray != NotWritten && o.restartXray
            && (t.kind == CNAME ==> o.cloudflared.Some? && o.writeCfd == Written && o.restartCfd)
    ensures Ending(env, i, o, t) == Rotated ==> o.saveEnv == Written && o.subscriptions
    ensures Ending(env, i, o, t) == Partial ==>
              || o.saveEnv != Written || !o.subscriptions
              || (i.newHy2Host != ""
                  && (|| !o.hy2Users || o.hysteria.None? || !o.readHy2 || o.writeHy2 != Written || !o.reloadHy2
                      || Unset(env, "HY2_PORT") || Unset(env, "HY2_OBFS_PW")))
    ensures Ending(env, i, o, t) == Rotated && i.newHy2Host != "" ==>
              && o.hy2Users && o.hysteria.Some? && o.readHy2 && o.writeHy2 == Written && o.reloadHy2
              && !Unset(env, "HY2_PORT") && !Unset(env, "HY2_OBFS_PW")
  {
  }

  /** The hosts a caller must keep apart so that the persisted DOMAIN never loses its record. */
  predicate DomainApart(w: World, i: Inputs) {
    && Get(w.env, "DOMAIN") !in {i.newHost, i.newHy2Host}
    && i.newHost !in {i.oldHost, i.oldHy2Host}
  }

  /** The same for HY2_HOST: a new HY2 host needs its zone, and without a new one the
      old one must not be handed in for deletion. */
  predicate Hy2Apart(w: World, i: Inputs) {
    var hy2 := Get(w.env, "HY2_HOST");
    && hy2 !in {i.newHost, i.newHy2Host}
    && if i.newHy2Host != "" then i.newHy2ZoneID != "" && i.newHy2Host !in {i.oldHost, i.oldHy2Host}
       else hy2 != i.oldHost && (hy2 != i.oldHy2Host || Blank(i.oldHy2Host, i.oldHy2ZoneID))
  }

  /** Where a run that ended this way leaves DNS and the env. */
  ghost predicate EndsAt(w0: World, w: World, env: Env, i: Inputs, o: Oracle, t: Target, r: Outcome) {
    && w.dns == EndDns(w0.dns, i, o, t, r)
    && w.env == (if r.Partial? || r.Rotated? then EndEnv(w0.env, env, i, o) else w0.env)
    && (r.Rotated? ==> Finishes(w0.env, i, o))
    && Get(env, "DOMAIN") == i.newHost && Get(env, "HY2_HOST") == Get(w0.env, "HY2_HOST")
  }

  lemma DomainStaysServed(w0: World, w: World, env: Env, i: Inputs, o: Oracle, t: Target, r: Outcome)
    requires EndsAt(w0, w, env, i, o, t, r) && DomainServed(w0) && DomainApart(w0, i)
    ensures DomainServed(w)
  {
    if r.Partial? || r.Rotated? {
      NewHostServed(w0.dns, i, o, t, r, Record(t.kind, i.newZoneID, i.newHost));
      if w.env == w0.env && r.Partial? {
        OtherHostServed(w0.dns, i, o, t, r, Get(w0.env, "DOMAIN"));
      }
    } else {
      OtherHostServed(w0.dns, i, o, t, r, Get(w0.env, "DOMAIN"));
    }
  }

  lemma Hy2StaysServed(w0: World, w: World, env: Env, i: Inputs, o: Oracle, t: Target, r: Outcome)
    requires EndsAt(w0, w, env, i, o, t, r) && Hy2Served(w0) && Hy2Apart(w0, i)
    ensures Hy2Served(w)
  {
    var hy2 := Get(w0.env, "HY2_HOST");
    if Get(w.env, "HY2_HOST") != "" && Get(w.env, "HY2_HOST") != hy2 {
      NewHostServed(w0.dns, i, o, t, r, Record(A, i.newHy2ZoneID, i.newHy2Host));
    } else if hy2 != "" {
      OtherHostServed(w0.dns, i, o, t, r, hy2);
    }
  }

  /** Without a new HY2 host, handing in the only record of the persisted one for
      deletion leaves HY2_HOST without any. */
  lemma Hy2Orphaned(dns: Dns, env: Env, i: Inputs, o: Oracle, kind: RecordKind)
    requires i.newHy2Host == "" && Get(env, "HY2_HOST") == i.oldHy2Host != i.newHost
    requires !Blank(i.oldHy2Host, i.oldHy2ZoneID) && o.deleteOldHy2
    requires forall k :: k in dns && k.host == i.oldHy2Host ==> k == Record(A, i.oldHy2ZoneID, i.oldHy2Host)
    ensures !ServedAfter(dns, Get(WithHy2(env, i), "HY2_HOST"), i, o, kind)
  {
    forall k | k in dns.Keys + NewKeys(i, kind) && k.host == i.oldHy2Host ensures k in OldKeys(i, o, kind) {
      assert k in dns;
    }
  }

  /** A new HY2 host without its zone is persisted although no record was made for it. */
  lemma Hy2Unzoned(dns: Dns, env: Env, i: Inputs, o: Oracle, kind: RecordKind)
    requires i.newHy2Host != "" && i.newHy2ZoneID == "" && i.newHy2Host != i.newHost
    requires !HasRecord(dns, i.newHy2Host)
    ensures !ServedAfter(dns, Get(WithHy2(env, i), "HY2_HOST"), i, o, kind)
  {
    forall k | k in dns.Keys + NewKeys(i, kind) ensures k.host != i.newHy2Host {
      assert k in dns || k.host == i.newHost;
    }
  }

  // ---- The rotation --------------------------------------------------------

  class Rotation {
    const o: Oracle
    var w: World
    ghost var domainKept: bool
    ghost var hy2Kept: bool
    ghost var xrayTouched: bool
    ghost var cfdTouched: bool

    // rotateRollback
    var prevCert: Option<string>
    var prevKey: Option<string>
    var certTouched: bool
    var created: seq<Created>

    constructor (w: World, o: Oracle)
      ensures this.w == w && this.o == o && Fresh(w)
    {
      this.o, this.w := o, w;
      prevCert, prevKey, certTouched, created := w.cert, w.key, false, [];
      domainKept, hy2Kept := DomainServed(w), Hy2Served(w);
      xrayTouched, cfdTouched := false, false;
    }

    /** A rollback record that has nothing to undo yet. */
    ghost predicate Fresh(w0: World)
      reads this
    {
      && w == w0 && prevCert == w0.cert && prevKey == w0.key && !certTouched && created == []
      && !xrayTouched && !cfdTouched
      && (domainKept <==> DomainServed(w0)) && (hy2Kept <==> Hy2Served(w0))
    }

    /** What has been done so far, before the commit point. */
    ghost predicate Progress(w0: World)
      reads this
    {
      && w.hysteria == w0.hysteria && prevCert == w0.cert && prevKey == w0.key
      && w.dns == CreateAll(w0.dns, created) && Consistent(created)
      && (if certTouched then w.cert == o.certAfter && w.key == o.keyAfter else w.cert == w0.cert && w.key == w0.key)
      && (!xrayTouched ==> w.xray == w0.xray) && (!cfdTouched ==> w.cloudflared == w0.cloudflared)
    }

    /** The flags never claim more than the present state. */
    ghost predicate Honest()
      reads this
    {
      (domainKept ==> DomainServed(w)) && (hy2Kept ==> Hy2Served(w))
    }

    /** So far records were only added and the env is the old one, so a host that was
        served at the start still is. */
    ghost predicate Growing(w0: World)
      reads this
    {
      w.env == w0.env && Honest() && (domainKept <==> DomainServed(w0)) && (hy2Kept <==> Hy2Served(w0))
    }

    /** An outage of any step so far still shows in the present state. */
    ghost predicate Traced(w0: World)
      reads this
    {
      && (domainKept <==> DomainServed(w0) && DomainServed(w))
      && (hy2Kept <==> Hy2Served(w0) && Hy2Served(w))
    }

    /** Restores, read off what the run has done. */
    ghost predicate Undone(w0: World)
      reads this
    {
      && DnsBack(w0.dns, created) && (certTouched ==> PairBack(w0, o))
      && (xrayTouched ==> XrayBack(w0, o)) && (cfdTouched ==> CfdBack(w0, o))
    }

    /** One atomic change of the node. */
    method Step(next: World)
      modifies `w, `domainKept, `hy2Kept
      ensures w == next
      ensures domainKept == (old(domainKept) && DomainServed(next))
      ensures hy2Kept == (old(hy2Kept) && Hy2Served(next))
    {
      w := next;
      domainKept, hy2Kept := domainKept && DomainServed(next), hy2Kept && Hy2Served(next);
    }

    /** A change that touches neither DNS nor the env. */
    method FileStep(next: World)
      requires next.dns == w.dns && next.env == w.env && Honest()
      modifies `w, `domainKept, `hy2Kept
      ensures w == next && Honest() && domainKept == old(domainKept) && hy2Kept == old(hy2Kept)
    {
      Step(next);
    }

    method RestoreHy2Cert()
      requires Honest()
      modifies `w, `domainKept, `hy2Kept
      ensures Honest() && domainKept == old(domainKept) && hy2Kept == old(hy2Kept)
      ensures var pair := certTouched && prevCert.Some? && prevKey.Some?;
              w == if pair then old(w).(cert := After(old(w).cert, prevCert.value, o.restoreCert),
                                        key := After(old(w).key, prevKey.value, o.restoreKey))
                   else old(w)
    {
      if !certTouched || prevCert.None? || prevKey.None? {
        return;
      }
      FileStep(w.(cert := After(w.cert, prevCert.value, o.restoreCert)));
      FileStep(w.(key := After(w.key, prevKey.value, o.restoreKey)));
    }

    method IssueHy2Cert(newHy2Host: string) returns (ok: bool)
      requires Fresh(w)
      modifies this
      ensures Growing(old(w)) && created == [] && !xrayTouched && !cfdTouched
      ensures ok == (newHy2Host == "" || o.issued) && certTouched == (newHy2Host != "")
      ensures ok ==> Progress(old(w))
      ensures !ok ==> PairPutBack(old(w)) && (w == old(w) <==> PairBack(old(w), o))
      ensures w == old(w).(cert := w.cert, key := w.key)
    {
      if newHy2Host == "" {
        return true;
      }
      certTouched := true;
      FileStep(w.(cert := o.certAfter, key := o.keyAfter));
      if !o.issued {
        RestoreHy2Cert();
        return false;
      }
      return true;
    }

    /** An upsert that succeeded, with its undo registered. */
    method CreatedDNS(key: RecordKey, value: string, undo: bool, ghost w0: World)
      requires Growing(w0) && Progress(w0)
      requires forall c :: c in created && c.key == key ==> c.value == value
      modifies `w, `created, `domainKept, `hy2Kept
      ensures Growing(w0) && Progress(w0)
      ensures created == old(created) + [Created(key, value, undo)] && w == old(w).(dns := w.dns)
    {
      RecordsGrow(w.dns, key, value);
      Step(w.(dns := w.dns[key := value]));
      CreateOne(w0.dns, created, Created(key, value, undo));
      created := created + [Created(key, value, undo)];
    }

    /** fail: restores the cert pair and deletes the created records, newest first. */
    method Fail(ghost w0: World)
      requires Growing(w0)
      modifies `w, `domainKept, `hy2Kept
      ensures Traced(w0)
      ensures var pair := certTouched && prevCert.Some? && prevKey.Some?;
              w == old(w).(dns := UndoAll(old(w).dns, created),
                           cert := if pair then After(old(w).cert, prevCert.value, o.restoreCert) else old(w).cert,
                           key := if pair then After(old(w).key, prevKey.value, o.restoreKey) else old(w).key)
    {
      RestoreHy2Cert();
      ghost var restored := w;
      var i := |created|;
      while i > 0
        invariant 0 <= i <= |created|
        invariant Traced(w0)
        invariant w == restored.(dns := UndoAll(restored.dns, created[i..]))
      {
        i := i - 1;
        assert created[i..][1..] == created[i + 1..];
        if created[i].undo {
          RecordsShrink(w.dns, {created[i].key});
          Step(w.(dns := w.dns - {created[i].key}));
        }
      }
      assert created[0..] == created;
    }

    /** Where xray and cloudflared stand when the rotation gives up. */
    ghost predicate FilesPutBack(w0: World)
      reads this
    {
      && (xrayTouched ==> o.xray.Some? && w.xray == PutBack(w0.xray, o.xray, o.restoreXray, o.removeXray))
      && (cfdTouched ==> o.cloudflared.Some?)
      && (cfdTouched ==> w.cloudflared == if o.writeCfd == NotDurable then o.cloudflared
                                          else PutBack(w0.cloudflared, o.cloudflared, o.restoreCfd, o.removeCfd))
    }

    /** And the cert pair. */
    ghost predicate PairPutBack(w0: World)
      reads this
    {
      var pair := w0.cert.Some? && w0.key.Some?;
      if !certTouched then w.cert == w0.cert && w.key == w0.key
      else if pair then w.cert == After(o.certAfter, w0.cert.value, o.restoreCert)
                        && w.key == After(o.keyAfter, w0.key.value, o.restoreKey)
      else w.cert == o.certAfter && w.key == o.keyAfter
    }

    method GiveUp(ghost w0: World)
      requires Growing(w0) && Progress(w0) && FilesPutBack(w0)
      modifies `w, `domainKept, `hy2Kept
      ensures Traced(w0) && (w == w0 <==> Undone(w0))
      ensures w.env == w0.env && w.hysteria == w0.hysteria && w.dns == UndoAll(CreateAll(w0.dns, created), created)
      ensures PairPutBack(w0) && FilesPutBack(w0)
      ensures (!xrayTouched ==> w.xray == w0.xray) && (!cfdTouched ==> w.cloudflared == w0.cloudflared)
    {
      Fail(w0);
      DnsRestored(w0.dns, created);
      assert w.dns == w0.dns <==> DnsBack(w0.dns, created);
      assert w.xray == w0.xray <==> (xrayTouched ==> XrayBack(w0, o));
      assert w.cloudflared == w0.cloudflared <==> (cfdTouched ==> CfdBack(w0, o));
    }

    /** Validate, replace and restart xray; on a failed restart the previous file goes back. */
    method PublishXray() returns (ok: bool)
      requires Honest() && !xrayTouched && o.xray.Some?
      modifies `w, `xrayTouched, `domainKept, `hy2Kept
      ensures Honest() && domainKept == old(domainKept) && hy2Kept == old(hy2Kept)
      ensures xrayTouched == (o.validXray && o.writeXray != NotWritten) && ok == (xrayTouched && o.restartXray)
      ensures w == old(w).(xray := w.xray)
      ensures w.xray == if ok then o.xray
                        else if xrayTouched then PutBack(old(w).xray, o.xray, o.restoreXray, o.removeXray)
                        else old(w).xray
    {
      if !o.validXray || o.writeXray == NotWritten {
        return false;
      }
      var before := w.xray;
      xrayTouched := true;
      FileStep(w.(xray := After(w.xray, o.xray.value, o.writeXray)));
      if !o.restartXray {
        RestoreXray(before);
        return false;
      }
      return true;
    }

    method RestoreXray(before: Option<string>)
      requires Honest()
      modifies `w, `domainKept, `hy2Kept
      ensures Honest() && domainKept == old(domainKept) && hy2Kept == old(hy2Kept)
      ensures w == old(w).(xray := PutBack(before, old(w).xray, o.restoreXray, o.removeXray))
    {
      FileStep(w.(xray := PutBack(before, w.xray, o.restoreXray, o.removeXray)));
    }

    /** Replace and restart cloudflared. A write that ends in an error, published or
        not, only puts xray back; a failed restart puts both back. */
    method PublishCloudflared(beforeXray: Option<string>) returns (ok: bool)
      requires Honest() && o.cloudflared.Some? && !cfdTouched
      modifies `w, `cfdTouched, `domainKept, `hy2Kept
      ensures Honest() && domainKept == old(domainKept) && hy2Kept == old(hy2Kept)
      ensures cfdTouched == (o.writeCfd != NotWritten) && ok == (o.writeCfd == Written && o.restartCfd)
      ensures ok ==> w == old(w).(cloudflared := o.cloudflared)
      ensures !ok ==>
                w == old(w).(xray := PutBack(beforeXray, old(w).xray, o.restoreXray, o.removeXray),
                             cloudflared := match o.writeCfd
                                            case NotWritten => old(w).cloudflared
                                            case NotDurable => o.cloudflared
                                            case Written =>
                                              PutBack(old(w).cloudflared, o.cloudflared, o.restoreCfd, o.removeCfd))
    {
      var before := w.cloudflared;
      cfdTouched := o.writeCfd != NotWritten;
      FileStep(w.(cloudflared := After(w.cloudflared, o.cloudflared.value, o.writeCfd)));
      if o.writeCfd != Written {
        RestoreXray(beforeXray);
        return false;
      }
      if !o.restartCfd {
        FileStep(w.(cloudflared := PutBack(before, w.cloudflared, o.restoreCfd, o.removeCfd)));
        RestoreXray(beforeXray);
        return false;
      }
      return true;
    }

    // ---- Past the commit point ---------------------------------------------

    method RotateHy2Config(env: Env) returns (ok: bool)
      requires Honest()
      modifies `w, `domainKept, `hy2Kept
      ensures Honest() && domainKept == old(domainKept) && hy2Kept == old(hy2Kept)
      ensures w == old(w).(hysteria := w.hysteria)
      ensures ok == Hy2Rewritten(env, o)
      ensures ok ==> w.hysteria == o.hysteria
      ensures !ok ==> || w == old(w)
                      || (o.writeHy2 == NotDurable && w.hysteria == o.hysteria)
                      || (o.writeHy2 == Written
                          && w.hysteria == PutBack(old(w).hysteria, o.hysteria, o.restoreHy2, o.removeHy2))
    {
      if !o.hy2Users || Get(env, "HY2_PORT") == "" || Get(env, "HY2_OBFS_PW") == "" || o.hysteria.None? || !o.readHy2 {
        return false;
      }
      var before := w.hysteria;
      FileStep(w.(hysteria := After(w.hysteria, o.hysteria.value, o.writeHy2)));
      if o.writeHy2 != Written {
        return false;
      }
      if !o.reloadHy2 {
        FileStep(w.(hysteria := PutBack(before, w.hysteria, o.restoreHy2, o.removeHy2)));
        return false;
      }
      return true;
    }

    /** state.SaveAtomic. */
    method SaveEnv(env: Env, ghost w0: World)
      requires Growing(w0)
      modifies `w, `domainKept, `hy2Kept
      ensures Traced(w0) && w == old(w).(env := if o.saveEnv == NotWritten then old(w).env else env)
    {
      Step(w.(env := if o.saveEnv == NotWritten then w.env else env));
    }

    /** deleteOldRecord: a failed deletion only warns. */
    method DeleteOldRecord(kind: RecordKind, host: string, zone: string, works: bool, ghost w0: World)
      requires Traced(w0)
      modifies `w, `domainKept, `hy2Kept
      ensures Traced(w0)
      ensures w == old(w).(dns := old(w).dns - if Blank(host, zone) || !works then {} else {Record(kind, zone, host)})
    {
      if Blank(host, zone) || !works {
        assert w.dns - {} == w.dns;
        return;
      }
      RecordsShrink(w.dns, {Record(kind, zone, host)});
      Step(w.(dns := w.dns - {Record(kind, zone, host)}));
    }

    /** The common tail: hysteria, env, subscriptions, then the old records. env already
        names the new host. */
    method Commit(env: Env, i: Inputs, kind: RecordKind, ghost w0: World) returns (r: Outcome)
      requires Growing(w0)
      requires forall k :: k in {"HY2_PORT", "HY2_OBFS_PW"} ==> Get(env, k) == Get(w0.env, k)
      modifies `w, `domainKept, `hy2Kept
      ensures Traced(w0)
      ensures r == if Finishes(w0.env, i, o) then Rotated else Partial
      ensures w == old(w).(env := EndEnv(w0.env, env, i, o), hysteria := w.hysteria,
                           dns := if r == Rotated then old(w).dns - OldKeys(i, o, kind) else old(w).dns)
      ensures i.newHy2Host == "" ==> w.hysteria == old(w).hysteria
      ensures r == Rotated && i.newHy2Host != "" ==> w.hysteria == o.hysteria
    {
      var next := env;
      if i.newHy2Host != "" {
        var ok := RotateHy2Config(env);
        if !ok {
          SaveEnv(env, w0);
          return Partial;
        }
        next := env["HY2_HOST" := i.newHy2Host];
      }
      SaveEnv(next, w0);
      if o.saveEnv != Written {
        return Partial;
      }
      if !o.subscriptions {
        return Partial;
      }
      DeleteOldRecords(i, kind, w0);
      return Rotated;
    }

    /** The vpn record, then the HY2 one. */
    method DeleteOldRecords(i: Inputs, kind: RecordKind, ghost w0: World)
      requires Traced(w0)
      modifies `w, `domainKept, `hy2Kept
      ensures Traced(w0) && w == old(w).(dns := old(w).dns - OldKeys(i, o, kind))
    {
      DeleteOldRecord(kind, i.oldHost, i.oldZoneID, o.deleteOldVpn, w0);
      DeleteOldRecord(A, i.oldHy2Host, i.oldHy2ZoneID, o.deleteOldHy2, w0);
      assert w.dns == old(w).dns - OldKeys(i, o, kind);
    }

    // ---- The two rotations -------------------------------------------------

    /** The DNS records of the new hosts. */
    method CreateRecords(i: Inputs, t: Target, ghost w0: World) returns (ok: bool)
      requires Growing(w0) && Progress(w0) && created == [] && Prepared(i, o, t) && (t.kind.A? ==> t.value == t.hy2IP)
      modifies `w, `created, `domainKept, `hy2Kept
      ensures Growing(w0) && Progress(w0) && w == old(w).(dns := w.dns)
      ensures ok == AllMade(i, o, t) && created == Made(i, o, t)
    {
      if !o.upsertVpn {
        return false;
      }
      CreatedDNS(Record(t.kind, i.newZoneID, i.newHost), t.value, o.undoVpn, w0);
      if WantsHy2(i) {
        if t.hy2IP == "" || !o.upsertHy2 {
          return false;
        }
        CreatedDNS(Record(A, i.newHy2ZoneID, i.newHy2Host), t.hy2IP, o.undoHy2, w0);
      }
      return true;
    }

    /** xray, and on a cloudflare node cloudflared after it. */
    method Publish(t: Target, ghost w0: World) returns (ok: bool)
      requires Growing(w0) && Progress(w0) && !xrayTouched && !cfdTouched
      requires o.xray.Some? && (t.kind.A? || o.cloudflared.Some?)
      modifies `w, `xrayTouched, `cfdTouched, `domainKept, `hy2Kept
      ensures Growing(w0) && Progress(w0) && w == old(w).(xray := w.xray, cloudflared := w.cloudflared)
      ensures xrayTouched == (o.validXray && o.writeXray != NotWritten)
      ensures cfdTouched == (xrayTouched && o.restartXray && t.kind.CNAME? && o.writeCfd != NotWritten)
      ensures ok == (xrayTouched && o.restartXray && (t.kind.CNAME? ==> o.writeCfd == Written && o.restartCfd))
      ensures if ok then w.xray == o.xray && w.cloudflared == (if t.kind.A? then w0.cloudflared else o.cloudflared)
              else FilesPutBack(w0)
    {
      var beforeXray := w.xray;
      ok := PublishXray();
      if ok && t.kind.CNAME? {
        ok := PublishCloudflared(beforeXray);
      }
    }

    /** Everything before the commit point: None when the new config is live. */
    method Reach(i: Inputs, t: Target, ghost w0: World) returns (r: Option<Outcome>)
      requires Fresh(w0) && (t.kind.A? ==> t.value == t.hy2IP)
      modifies this
      ensures created == Made(i, o, t) && certTouched == (i.newHy2Host != "")
      ensures xrayTouched == XrayReplaced(i, o, t) && cfdTouched == CfdReplaced(i, o, t)
      ensures r == if !Issued(i, o) then Some(NotIssued) else if !Committed(i, o, t) then Some(RolledBack) else None
      ensures r.Some? ==> GaveUp(w0, i, t)
      ensures r.None? ==> Growing(w0) && Live(w0, i, t)
    {
      var ok := IssueHy2Cert(i.newHy2Host);
      if !ok {
        return Some(NotIssued);
      }
      ok := GoLive(i, t, w0);
      if ok {
        return None;
      }
      GiveUp(w0);
      return Some(RolledBack);
    }

    /** Records and configs, once the cert is there. */
    method GoLive(i: Inputs, t: Target, ghost w0: World) returns (ok: bool)
      requires Growing(w0) && Progress(w0) && created == [] && !xrayTouched && !cfdTouched
      requires Issued(i, o) && certTouched == (i.newHy2Host != "") && (t.kind.A? ==> t.value == t.hy2IP)
      modifies `w, `created, `xrayTouched, `cfdTouched, `domainKept, `hy2Kept
      ensures Growing(w0) && Progress(w0) && w.hysteria == w0.hysteria && created == Made(i, o, t)
      ensures xrayTouched == XrayReplaced(i, o, t) && cfdTouched == CfdReplaced(i, o, t)
      ensures ok == Committed(i, o, t)
      ensures if ok then NewFiles(w0, i, t) else FilesPutBack(w0)
    {
      if !Prepared(i, o, t) {
        return false;
      }
      ok := CreateRecords(i, t, w0);
      if ok {
        ok := Publish(t, w0);
      }
    }

    /** A run that gave up: DNS with the undone records, the env and hysteria as they
        were, the files and the cert pair as far as they were put back, and everything as
        it was exactly when Restores holds. */
    ghost predicate GaveUp(w0: World, i: Inputs, t: Target)
      reads this
    {
      && Traced(w0) && w.env == w0.env && w.hysteria == w0.hysteria && w.dns == EndDns(w0.dns, i, o, t, RolledBack)
      && w.xray == EndXray(w0, i, o, t) && w.cloudflared == EndCloudflared(w0, i, o, t)
      && certTouched == (i.newHy2Host != "") && PairPutBack(w0)
      && (t.kind.A? ==> w.cloudflared == w0.cloudflared)
      && (w == w0 <==> Restores(w0, i, o, t))
    }

    /** The files of a run past its commit point. */
    ghost predicate NewFiles(w0: World, i: Inputs, t: Target)
      reads this
    {
      && o.xray.Some? && w.xray == o.xray
      && (t.kind.CNAME? ==> o.cloudflared.Some?)
      && w.cloudflared == (if t.kind.A? then w0.cloudflared else o.cloudflared)
      && (if i.newHy2Host == "" then w.cert == w0.cert && w.key == w0.key
          else w.cert == o.certAfter && w.key == o.keyAfter)
    }

    /** The files of a run that went through: the rendered configs, and the issued pair when
        there is a new HY2 host. */
    lemma FilesNew(w0: World, env: Env, i: Inputs, t: Target, r: Outcome)
      requires Outcomes(w0, env, i, t, r) && r in {Partial, Rotated}
      ensures o.xray.Some? && w.xray == o.xray
      ensures match t.kind case A => w.cloudflared == w0.cloudflared
                           case CNAME => o.cloudflared.Some? && w.cloudflared == o.cloudflared
      ensures if i.newHy2Host == "" then w.cert == w0.cert && w.key == w0.key && w.hysteria == w0.hysteria
              else w.cert == o.certAfter && w.key == o.keyAfter && (r == Rotated ==> w.hysteria == o.hysteria)
    {
    }

    /** Which files a run that gave up can leave changed, and why. */
    lemma FilesLeft(w0: World, i: Inputs, t: Target)
      requires GaveUp(w0, i, t)
      ensures w.xray != w0.xray ==>
                && w.xray == o.xray && o.validXray && o.writeXray != NotWritten
                && if w0.xray.Some? then o.restoreXray == NotWritten else !o.removeXray
      ensures w.cloudflared != w0.cloudflared ==>
                && t.kind.CNAME? && w.cloudflared == o.cloudflared && o.restartXray && o.writeCfd != NotWritten
                && (o.writeCfd == Written ==> if w0.cloudflared.Some? then o.restoreCfd == NotWritten else !o.removeCfd)
      ensures w.cert != w0.cert || w.key != w0.key ==>
                && i.newHy2Host != "" && (w.cert != w0.cert ==> w.cert == o.certAfter)
                && (w.key != w0.key ==> w.key == o.keyAfter)
                && (w0.cert.None? || w0.key.None? || o.restoreCert == NotWritten || o.restoreKey == NotWritten)
    {
    }

    ghost predicate Live(w0: World, i: Inputs, t: Target)
      reads this
    {
      NewFiles(w0, i, t) && w.hysteria == w0.hysteria && w.dns == CreateAll(w0.dns, Records(i, o, t))
    }

    /** The whole run: what it returns and leaves, for every oracle. env is the one with
        the new host.
        - A run that gives up has changed nothing exactly when Restores holds, and so
          whenever the names were fresh and the undo steps work.
        - The persisted hosts had a record at every step exactly when they have one at
          the end, which hosts kept apart always do; a finished run has one for HY2_HOST
          exactly when it is blank or ServedAfter. */
    ghost predicate Outcomes(w0: World, env: Env, i: Inputs, t: Target, r: Outcome)
      reads this
    {
      && r == Ending(w0.env, i, o, t)
      && EndsAt(w0, w, env, i, o, t, r) && Traced(w0)
      && (r.NotIssued? || r.RolledBack? ==> GaveUp(w0, i, t) && (Clean(w0, i, o, t) ==> w == w0))
      && (r.Partial? || r.Rotated? ==> NewFiles(w0, i, t) && (i.newHy2Host == "" ==> w.hysteria == w0.hysteria))
      && (r.Rotated? && i.newHy2Host != "" ==> w.hysteria == o.hysteria)
      && (DomainServed(w0) && DomainApart(w0, i) ==> domainKept)
      && (Hy2Served(w0) && Hy2Apart(w0, i) ==> hy2Kept)
      && (r.Rotated? ==>
            && (DomainServed(w) <==> ServedAfter(w0.dns, i.newHost, i, o, t.kind))
            && var hy2 := Get(WithHy2(w0.env, i), "HY2_HOST");
               Hy2Served(w) <==> hy2 == "" || ServedAfter(w0.dns, hy2, i, o, t.kind))
    }

    /** Both halves of a rotation, and what follows for the hosts. */
    method ReachAndCommit(env: Env, i: Inputs, t: Target) returns (r: Outcome)
      requires Fresh(w) && (t.kind.A? ==> t.value == t.hy2IP)
      requires Get(env, "DOMAIN") == i.newHost
      requires forall k :: k in {"HY2_HOST", "HY2_PORT", "HY2_OBFS_PW"} ==> Get(env, k) == Get(w.env, k)
      modifies this
      ensures Outcomes(old(w), env, i, t, r)
    {
      ghost var w0 := w;
      var early := Reach(i, t, w0);
      if early.Some? {
        r := early.value;
      } else {
        r := Commit(env, i, t.kind, w0);
      }
      EndFacts(w0, w, env, i, t, r);
    }

    lemma EndFacts(w0: World, w: World, env: Env, i: Inputs, t: Target, r: Outcome)
      requires EndsAt(w0, w, env, i, o, t, r)
      ensures Clean(w0, i, o, t) ==> Restores(w0, i, o, t)
      ensures DomainServed(w0) && DomainApart(w0, i) ==> DomainServed(w)
      ensures Hy2Served(w0) && Hy2Apart(w0, i) ==> Hy2Served(w)
      ensures r.Rotated? ==>
                && (DomainServed(w) <==> ServedAfter(w0.dns, i.newHost, i, o, t.kind))
                && var hy2 := Get(WithHy2(w0.env, i), "HY2_HOST");
                   Hy2Served(w) <==> hy2 == "" || ServedAfter(w0.dns, hy2, i, o, t.kind)
    {
      if Clean(w0, i, o, t) {
        CleanRestores(w0, i, o, t);
      }
      if DomainServed(w0) && DomainApart(w0, i) {
        DomainStaysServed(w0, w, env, i, o, t, r);
      }
      if Hy2Served(w0) && Hy2Apart(w0, i) {
        Hy2StaysServed(w0, w, env, i, o, t, r);
      }
      if r.Rotated? {
        RotatedServes(w0.dns, i, o, t, i.newHost);
        RotatedServes(w0.dns, i, o, t, Get(w.env, "HY2_HOST"));
      }
    }

    /** RunRotateDirect: a run that gives up is no run exactly when Restores holds. */
    method RunRotateDirect(raw: Inputs) returns (r: Outcome)
      requires Fresh(w)
      modifies this
      ensures var i := Trimmed(raw);
              if DirectAccepts(old(w).env, i, o)
              then Outcomes(old(w), DirectEnv(old(w).env, i, o.ip.value), i, DirectTarget(o), r)
              else r == Rejected && w == old(w)
      ensures r in {NotIssued, RolledBack}
              ==> (w == old(w) <==> Restores(old(w), Trimmed(raw), o, DirectTarget(o)))
      ensures r in {NotIssued, RolledBack} && Clean(old(w), Trimmed(raw), o, DirectTarget(o))
              ==> w == old(w)
      ensures r == Rejected <==> DirectRefuses(old(w).env, raw, o)
      ensures r in {Partial, Rotated} ==> DirectLeaves(old(w), w, raw, o, r)
    {
      ghost var w0 := w;
      var i := Trimmed(raw);
      if i.newHost == "" || i.newZone == "" || i.newZoneID == "" || !o.loadEnv {
        return Rejected;
      }
      var env := w.env;
      if Get(env, "REALITY_PRIVATE_KEY") == "" || Get(env, "REALITY_SHORT_ID") == "" || o.ip.None? || o.ip.value == "" {
        return Rejected;
      }
      r := ReachAndCommit(DirectEnv(env, i, o.ip.value), i, DirectTarget(o));
      DirectLeft(w0, w, raw, o, r);
    }

    /** RunRotateCloudflare: the same promises, with the cloudflared config to put back too. */
    method RunRotateCloudflare(raw: Inputs) returns (r: Outcome)
      requires Fresh(w)
      modifies this
      ensures var i := Trimmed(raw);
              if CloudflareAccepts(old(w).env, i, o)
              then Outcomes(old(w), CloudflareEnv(old(w).env, i), i, CloudflareTarget(old(w).env), r)
              else r == Rejected && w == old(w)
      ensures r in {NotIssued, RolledBack}
              ==> (w == old(w) <==> Restores(old(w), Trimmed(raw), o, CloudflareTarget(old(w).env)))
      ensures r in {NotIssued, RolledBack} && Clean(old(w), Trimmed(raw), o, CloudflareTarget(old(w).env))
              ==> w == old(w)
      ensures r == Rejected <==> CloudflareRefuses(old(w).env, raw, o)
      ensures r in {Partial, Rotated} ==> CloudflareLeaves(old(w), w, raw, o, r)
    {
      ghost var w0 := w;
      var i := Trimmed(raw);
      CloudflareChecks(w.env, raw, o);
      if i.newHost == "" || i.newZoneID == "" || !o.loadEnv {
        return Rejected;
      }
      var env := w.env;
      if TunnelUUID(env) == "" || TrimSpace(Get(env, "ADMIN_HOST")) == "" {
        return Rejected;
      }
      r := ReachAndCommit(CloudflareEnv(env, i), i, CloudflareTarget(env));
      CloudflareLeft(w0, w, raw, o, r);
    }
  }

  predicate DirectAccepts(env: Env, i: Inputs, o: Oracle) {
    && i.newHost != "" && i.newZone != "" && i.newZoneID != "" && o.loadEnv
    && Get(env, "REALITY_PRIVATE_KEY") != "" && Get(env, "REALITY_SHORT_ID") != ""
    && o.ip.Some? && o.ip.value != ""
  }

  function DirectEnv(env: Env, i: Inputs, ip: string): Env {
    env["DOMAIN" := i.newHost]["PUBLIC_IP" := ip]["MODE" := "direct"]
  }

  function DirectTarget(o: Oracle): Target {
    var ip := match o.ip case None => "" case Some(ip) => ip;
    Target(A, ip, ip)
  }

  predicate CloudflareAccepts(env: Env, i: Inputs, o: Oracle) {
    && i.newHost != "" && i.newZoneID != "" && o.loadEnv
    && TunnelUUID(env) != "" && TrimSpace(Get(env, "ADMIN_HOST")) != ""
  }

  function CloudflareEnv(env: Env, i: Inputs): Env {
    env["DOMAIN" := i.newHost]["MODE" := "cloudflare"]
  }

  function TunnelUUID(env: Env): string {
    var admin := TrimSpace(Get(env, "ADMIN_TUNNEL_UUID"));
    if admin != "" then admin else TrimSpace(Get(env, "TUNNEL_UUID"))
  }

  function CloudflareTarget(env: Env): Target {
    Target(CNAME, TunnelUUID(env) + ".cfargotunnel.com", TrimSpace(Get(env, "PUBLIC_IP")))
  }

  // ---- Two runs that end without a HY2 record ------------------------------

  const SERVING := World(
    map[Record(A, "z", "old.io") := "192.0.2.1", Record(A, "z", "hy.io") := "192.0.2.1"],
    map["DOMAIN" := "old.io", "HY2_HOST" := "hy.io", "HY2_PORT" := "443", "HY2_OBFS_PW" := "pw",
        "REALITY_PRIVATE_KEY" := "k", "REALITY_SHORT_ID" := "s"],
    Some("xray"), None, Some("hysteria"), Some("cert"), Some("key"))

  const WELL := Oracle(
    true, Some("192.0.2.1"), true, Some("cert2"), Some("key2"),
    true, Some("xray2"), None, true, true, true,
    true, Written, true, Written, true, Written, true, Written, true,
    true, Some("hysteria2"), true, Written, true, Written, true,
    Written, true, Written, Written, true, true, true, true)

  const ORPHANING := Inputs("new.io", "io", "z", "old.io", "z", "", "", "hy.io", "z")
  const UNZONED := Inputs("new.io", "io", "z", "old.io", "z", "hy2.io", "", "hy.io", "z")

  /** A direct rotation that goes through. */
  ghost predicate Rotates(w: World, i: Inputs, o: Oracle) {
    Trimmed(i) == i && DirectAccepts(w.env, i, o) && Ending(w.env, i, o, DirectTarget(o)) == Rotated
  }

  /** And then serves the HY2_HOST it served before, or its new one, no more. */
  ghost predicate Loses(w: World, i: Inputs, o: Oracle) {
    var hy2 := Get(WithHy2(w.env, i), "HY2_HOST");
    Rotates(w, i, o) && Hy2Served(w) && hy2 != "" && !ServedAfter(w.dns, hy2, i, o, A)
  }

  lemma Visible()
    ensures forall s :: s in {"new.io", "io", "z", "hy.io", "hy2.io", ""} ==> TrimSpace(s) == s
  {
    forall s | s in {"new.io", "io", "z", "hy.io", "hy2.io", ""} ensures TrimSpace(s) == s {
      TrimVisible(s);
    }
  }

  lemma Serving()
    ensures Get(SERVING.env, "HY2_HOST") == "hy.io" && Hy2Served(SERVING)
    ensures Get(SERVING.env, "REALITY_PRIVATE_KEY") == "k" && Get(SERVING.env, "REALITY_SHORT_ID") == "s"
    ensures Hy2Rewritten(SERVING.env, WELL)
  {
    assert Record(A, "z", "hy.io") in SERVING.dns;
  }

  lemma TheyRotate(i: Inputs)
    requires i in {ORPHANING, UNZONED}
    ensures Rotates(SERVING, i, WELL)
  {
    Visible();
    Serving();
  }

  lemma OrphaningLoses()
    ensures Loses(SERVING, ORPHANING, WELL)
  {
    TheyRotate(ORPHANING);
    Visible();
    Serving();
    Hy2Orphaned(SERVING.dns, SERVING.env, ORPHANING, WELL, A);
  }

  lemma UnzonedLoses()
    ensures Loses(SERVING, UNZONED, WELL)
  {
    TheyRotate(UNZONED);
    Serving();
    Hy2Unzoned(SERVING.dns, SERVING.env, UNZONED, WELL, A);
  }

  /** Nothing fails in these two runs, and HY2_HOST ends without a record: the persisted
      one was handed in for deletion, or the new one came without its zone. */
  method LosingRun(run: Rotation, i: Inputs) returns (r: Outcome)
    requires run.Fresh(SERVING) && run.o == WELL && i in {ORPHANING, UNZONED}
    modifies run
    ensures r == Rotated && Hy2Served(old(run.w)) && !Hy2Served(run.w)
  {
    if i == ORPHANING {
      OrphaningLoses();
    } else {
      UnzonedLoses();
    }
    r := RotateLosing(run, i);
  }

  method RotateLosing(run: Rotation, i: Inputs) returns (r: Outcome)
    requires run.Fresh(run.w) && Loses(run.w, i, run.o)
    modifies run
    ensures r == Rotated && Hy2Served(old(run.w)) && !Hy2Served(run.w)
  {
    r := run.RunRotateDirect(i);
  }

  // ---- Two runs that give up and leave a file changed ----------------------

  /** A direct rotation with a new HY2 host that gives up on a node with only one, or
      none, of the two cert files, everything else being undone. */
  ghost predicate LoneCert(w: World, i: Inputs, o: Oracle) {
    && Trimmed(i) == i && DirectAccepts(w.env, i, o) && i.newHy2Host != "" && !(w.cert.Some? && w.key.Some?)
    && Ending(w.env, i, o, DirectTarget(o)) in {NotIssued, RolledBack} && UndoWorks(w, i, o, DirectTarget(o))
  }

  /** It leaves the new pair and nothing else. */
  method LoneCertRun(run: Rotation, i: Inputs) returns (r: Outcome)
    requires run.Fresh(run.w) && LoneCert(run.w, i, run.o)
    modifies run
    ensures r in {NotIssued, RolledBack} && run.w == old(run.w).(cert := run.o.certAfter, key := run.o.keyAfter)
  {
    UndoneAgain(run.w, i, run.o, DirectTarget(run.o));
    r := run.RunRotateDirect(i);
  }

  /** A cloudflare rotation whose cloudflared write is live but not durable, everything
      else being undone. */
  ghost predicate Undurable(w: World, i: Inputs, o: Oracle) {
    var t := CloudflareTarget(w.env);
    && Trimmed(i) == i && CloudflareAccepts(w.env, i, o) && CfdReplaced(i, o, t) && o.writeCfd == NotDurable
    && UndoWorks(w, i, o, t)
    && (i.newHy2Host != "" ==>
          w.cert.Some? && w.key.Some? && o.restoreCert != NotWritten && o.restoreKey != NotWritten)
  }

  /** It gives up and leaves the new cloudflared config and nothing else. */
  method UndurableRun(run: Rotation, i: Inputs) returns (r: Outcome)
    requires run.Fresh(run.w) && Undurable(run.w, i, run.o)
    modifies run
    ensures r == RolledBack && run.w == old(run.w).(cloudflared := run.o.cloudflared)
  {
    UndoneAgain(run.w, i, run.o, CloudflareTarget(run.w.env));
    r := run.RunRotateCloudflare(i);
  }

  const WITH_HY2 := Inputs("new.io", "io", "z", "", "", "hy2.io", "z", "", "")
  const TUNNELLED := SERVING.(env := map["ADMIN_TUNNEL_UUID" := "u", "ADMIN_HOST" := "a"], cloudflared := Some("cfd"))
  const CFD_UNDURABLE := WELL.(cloudflared := Some("cfd2"), writeCfd := NotDurable)

  /** A node without the key file, when xray does not restart. */
  lemma LoneCertAt()
    ensures LoneCert(SERVING.(key := None), WITH_HY2, WELL.(restartXray := false))
    ensures SERVING.cert != WELL.certAfter
  {
    Visible();
    Serving();
  }

  lemma UndurableAt()
    ensures Undurable(TUNNELLED, WITH_HY2.(newHy2Host := "", newHy2ZoneID := ""), CFD_UNDURABLE)
    ensures TUNNELLED.cloudflared != CFD_UNDURABLE.cloudflared
  {
    Visible();
    Tunnelled();
  }

  lemma Tunnelled()
    ensures TunnelUUID(TUNNELLED.env) == "u" && TrimSpace(Get(TUNNELLED.env, "ADMIN_HOST")) == "a"
  {
    TrimVisible("u");
    TrimVisible("a");
  }
}
