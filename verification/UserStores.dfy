/** The two user stores of a node, the xray config and the hysteria config, and the
    operations that edit them: the CLI's add and remove (internal/commands/users.go)
    and the agent's sync, add and delete (cmd/cfvpn-agent/main.go).

    Plan lists the file writes an operation performs, in order, for every combination
    of outside answers. The methods below perform them; the lemmas speak about every
    prefix of a plan, which is every state an error return or a crash can leave. */
module UserStores {
  import opened Storage
  import opened Text
  import Hysteria
  import XrayConfig

  const MAX_USERS := 5

  datatype Client = Client(name: string, uuid: string)
  datatype SyncUser = SyncUser(name: string, uuid: string, password: string)

  /** hy2 is None on a node without a hysteria config. */
  datatype Store = Store(xray: seq<Client>, hy2: Option<seq<Hysteria.User>>)

  datatype Write = SetXray(clients: seq<Client>) | SetHy2(users: seq<Hysteria.User>)

  datatype Op =
    | CliAdd(name: string, domain: string)
    | CliRemove(name: string)
    | Sync(users: seq<SyncUser>, confirmEmpty: bool)
    | AgentAdd(name: string)
    | AgentDelete(name: string)

  /** What everything outside answers; true is success. minted gives the password
      generated for a user hysteria does not know, order the iteration order of the map
      of current users. */
  datatype Answers = Answers(
    loadXray: bool, loadHy2: bool, render: bool,
    valid: bool, writeXray: WriteResult, restart: bool, restore: WriteResult,
    subscription: bool, writeHy2: WriteResult, reload: bool,
    uuid: Option<string>, password: Option<string>, minted: map<string, string>, order: seq<string>)

  // ---- Shared pieces -------------------------------------------------------

  ghost function ClientNames(clients: seq<Client>): set<string> {
    set c | c in clients :: c.name
  }

  ghost function HyNames(users: seq<Hysteria.User>): set<string> {
    set u | u in users :: u.name
  }

  ghost function SyncNames(users: seq<SyncUser>): set<string> {
    set u | u in users :: u.name
  }

  predicate HasClient(clients: seq<Client>, name: string) {
    exists c :: c in clients && c.name == name
  }

  predicate HasUser(users: seq<Hysteria.User>, name: string) {
    exists u :: u in users && u.name == name
  }

  function DropClient(clients: seq<Client>, name: string): (r: seq<Client>)
    ensures |r| <= |clients|
    ensures forall c :: c in r <==> c in clients && c.name != name
  {
    if clients == [] then []
    else if clients[0].name == name then DropClient(clients[1..], name)
    else [clients[0]] + DropClient(clients[1..], name)
  }

  function DropUser(users: seq<Hysteria.User>, name: string): (r: seq<Hysteria.User>)
    ensures |r| <= |users|
  {
    if users == [] then []
    else if users[0].name == name then DropUser(users[1..], name)
    else [users[0]] + DropUser(users[1..], name)
  }

  lemma {:induction false} DropUserNames(users: seq<Hysteria.User>, name: string)
    ensures HyNames(DropUser(users, name)) == HyNames(users) - {name}
  {
    if users == [] {
    } else {
      DropUserNames(users[1..], name);
      assert HyNames(users) == {users[0].name} + HyNames(users[1..]);
      assert HyNames([users[0]] + DropUser(users[1..], name)) == {users[0].name} + HyNames(DropUser(users[1..], name));
    }
  }

  function DropSync(users: seq<SyncUser>, name: string): (r: seq<SyncUser>)
    ensures |r| <= |users|
    ensures forall u :: u in r ==> u in users && u.name != name
    ensures DistinctNames(users) ==> DistinctNames(r)
  {
    if users == [] then []
    else if users[0].name == name then DropSync(users[1..], name)
    else [users[0]] + DropSync(users[1..], name)
  }

  lemma {:induction false} DropSyncNames(users: seq<SyncUser>, name: string)
    ensures SyncNames(DropSync(users, name)) == SyncNames(users) - {name}
    ensures |DropSync(users, name)| < |users| <==> name in SyncNames(users)
  {
    if users == [] {
    } else {
      DropSyncNames(users[1..], name);
      assert SyncNames(users) == {users[0].name} + SyncNames(users[1..]);
      assert SyncNames([users[0]] + DropSync(users[1..], name))
             == {users[0].name} + SyncNames(DropSync(users[1..], name));
    }
  }

  function Clients(users: seq<SyncUser>): (r: seq<Client>)
    ensures |r| == |users| && forall i :: 0 <= i < |r| ==> r[i] == Client(users[i].name, users[i].uuid)
  {
    if users == [] then [] else [Client(users[0].name, users[0].uuid)] + Clients(users[1..])
  }

  function HyUsers(users: seq<SyncUser>): (r: seq<Hysteria.User>)
    ensures |r| == |users| && forall i :: 0 <= i < |r| ==> r[i] == Hysteria.User(users[i].name, users[i].password)
  {
    if users == [] then [] else [Hysteria.User(users[0].name, users[0].password)] + HyUsers(users[1..])
  }

  /** Hysteria password by name: the last entry of a name wins, as in the map. */
  function PasswordOf(users: seq<Hysteria.User>, name: string): string {
    if users == [] then ""
    else if users[|users| - 1].name == name then users[|users| - 1].password
    else PasswordOf(users[..|users| - 1], name)
  }

  // ---- Plans ---------------------------------------------------------------

  /** Validate, replace, restart, and on a failed restart put the old clients back. */
  function PublishXray(before: seq<Client>, clients: seq<Client>, a: Answers): seq<Write> {
    if !a.valid || a.writeXray == NotWritten then []
    else [SetXray(clients)] + if a.restart || a.restore == NotWritten then [] else [SetXray(before)]
  }

  predicate Published(a: Answers) {
    a.valid && a.writeXray != NotWritten && a.restart
  }

  function WriteHy2(users: seq<Hysteria.User>, a: Answers): seq<Write> {
    if a.writeHy2 == NotWritten then [] else [SetHy2(Hysteria.SortByName(users))]
  }

  /** GetVLESSClient: the uuid of the first client the normalized name finds. */
  function UuidOf(clients: seq<Client>, name: string): Option<string> {
    if clients == [] then None
    else if clients[0].name == XrayConfig.NormalizeEmail(name) then Some(clients[0].uuid)
    else UuidOf(clients[1..], name)
  }

  /** The record of a client: the looked-up uuid, and the hysteria password kept for the
      name or the freshly minted one. */
  function Credential(c: Client, s: Store, minted: map<string, string>): SyncUser
    requires s.hy2.Some?
  {
    var known, uuid := PasswordOf(s.hy2.value, c.name), UuidOf(s.xray, c.name);
    SyncUser(c.name, if uuid.Some? then uuid.value else "",
             if known != "" then known else if c.name in minted then minted[c.name] else "")
  }

  /** The lookup finds a uuid, and there is a password or one could be generated. */
  predicate HasCredential(c: Client, s: Store, minted: map<string, string>)
    requires s.hy2.Some?
  {
    UuidOf(s.xray, c.name).Some? && (PasswordOf(s.hy2.value, c.name) != "" || c.name in minted)
  }

  predicate DistinctNames(users: seq<SyncUser>) {
    forall i, j :: 0 <= i < j < |users| ==> users[i].name != users[j].name
  }

  lemma RecordAhead(u: SyncUser, rest: seq<SyncUser>)
    ensures SyncNames([u] + rest) == {u.name} + SyncNames(rest)
    ensures DistinctNames(rest) && u.name !in SyncNames(rest) ==> DistinctNames([u] + rest)
  {
    assert forall v :: v in rest ==> v.name in SyncNames(rest);
  }

  /** currentSyncUsers: one record per name not yet seen. */
  function Records(clients: seq<Client>, seen: set<string>, s: Store, minted: map<string, string>): (r: seq<SyncUser>)
    requires s.hy2.Some?
    ensures |r| <= |clients|
    ensures SyncNames(r) == ClientNames(clients) - seen
    ensures DistinctNames(r)
  {
    if clients == [] then []
    else
      var c := clients[0];
      assert ClientNames(clients) == {c.name} + ClientNames(clients[1..]);
      if c.name in seen then Records(clients[1..], seen, s, minted)
      else
        var rest := Records(clients[1..], seen + {c.name}, s, minted);
        RecordAhead(Credential(c, s, minted), rest);
        [Credential(c, s, minted)] + rest
  }

  function Pick(records: seq<SyncUser>, name: string): (r: seq<SyncUser>)
    ensures |r| + |DropSync(records, name)| <= |records| && |r| <= 1
    ensures SyncNames(r) == SyncNames(records) * {name}
    ensures forall u :: u in r ==> u.name == name
  {
    if records == [] then []
    else if records[0].name == name then [records[0]]
    else
      assert SyncNames(records) == {records[0].name} + SyncNames(records[1..]);
      Pick(records[1..], name)
  }

  /** The records in the order a map iteration happens to produce. */
  function Arrange(records: seq<SyncUser>, order: seq<string>): (r: seq<SyncUser>)
    decreases |order|
    ensures |r| <= |records|
    ensures SyncNames(r) == SyncNames(records)
    ensures DistinctNames(records) ==> DistinctNames(r)
  {
    if order == [] then records
    else
      DropSyncNames(records, order[0]);
      var first, rest := Pick(records, order[0]), Arrange(DropSync(records, order[0]), order[1..]);
      assert SyncNames(first + rest) == SyncNames(first) + SyncNames(rest);
      assert forall u :: u in rest ==> u.name in SyncNames(rest);
      first + rest
  }

  function CurrentUsers(s: Store, a: Answers): (r: seq<SyncUser>)
    requires s.hy2.Some?
    ensures |r| <= |s.xray|
    ensures SyncNames(r) == ClientNames(s.xray) && DistinctNames(r)
  {
    Arrange(Records(s.xray, {}, s, a.minted), a.order)
  }

  predicate Complete(users: seq<SyncUser>) {
    forall u :: u in users ==> XrayConfig.ValidName(u.name) && TrimSpace(u.uuid) != "" && TrimSpace(u.password) != ""
  }

  /** applyUsers: xray first, then hysteria. */
  function ApplyPlan(users: seq<SyncUser>, s: Store, a: Answers): seq<Write> {
    if !Complete(users) || !a.render then []
    else
      PublishXray(s.xray, Clients(users), a)
      + if Published(a) && s.hy2.Some? then WriteHy2(HyUsers(users), a) else []
  }

  /** addHysteriaUser: a name already present keeps its entry. */
  function JoinPlan(name: string, s: Store, a: Answers): seq<Write> {
    if s.hy2.None? || !a.loadHy2 || HasUser(s.hy2.value, name) || a.password.None? then []
    else WriteHy2(s.hy2.value + [Hysteria.User(name, a.password.value)], a)
  }

  predicate Joined(name: string, s: Store, a: Answers) {
    || s.hy2.None?
    || (a.loadHy2 && (HasUser(s.hy2.value, name) || (a.password.Some? && a.writeHy2 == Written && a.reload)))
  }

  predicate ApplySucceeds(users: seq<SyncUser>, s: Store, a: Answers) {
    && Complete(users) && a.render && Published(a)
    && s.hy2.Some? && a.writeHy2 == Written && a.reload && a.subscription
  }

  function Plan(op: Op, s: Store, a: Answers): seq<Write> {
    match op
    case CliAdd(name, domain) =>
      if !XrayConfig.ValidName(name) || domain == "" || !a.loadXray then []
      else if |s.xray| >= MAX_USERS || HasClient(s.xray, name) || a.uuid.None? then []
      else
        JoinPlan(name, s, a)
        + if Joined(name, s, a) then PublishXray(s.xray, s.xray + [Client(name, a.uuid.value)], a) else []
    case CliRemove(name) =>
      if !XrayConfig.ValidName(name) || !a.loadXray || !HasClient(s.xray, name) then []
      else
        PublishXray(s.xray, DropClient(s.xray, name), a)
        + if Published(a) && a.subscription && s.hy2.Some? && a.loadHy2 && |DropUser(s.hy2.value, name)| < |s.hy2.value|
          then WriteHy2(DropUser(s.hy2.value, name), a) else []
    case Sync(users, confirmEmpty) =>
      if |users| > MAX_USERS then []
      else if RefusesEmpty(users, confirmEmpty, s, a) then []
      else ApplyPlan(users, s, a)
    case AgentAdd(name) =>
      if !XrayConfig.ValidName(name) || !Loads(s, a) then []
      else
        var records := CurrentUsers(s, a);
        if HasClient(s.xray, name) then ApplyPlan(records, s, a)
        else if |records| + 1 > MAX_USERS || a.uuid.None? || a.password.None? then []
        else ApplyPlan(records + [SyncUser(name, a.uuid.value, a.password.value)], s, a)
    case AgentDelete(name) =>
      if !XrayConfig.ValidName(name) || !Loads(s, a) || !HasClient(s.xray, name) then []
      else ApplyPlan(DropSync(CurrentUsers(s, a), name), s, a)
  }

  /** emptySyncRefusal: an empty list needs confirming while hysteria has users. */
  predicate RefusesEmpty(users: seq<SyncUser>, confirmEmpty: bool, s: Store, a: Answers) {
    s.hy2.Some? && a.loadHy2 && users == [] && !confirmEmpty && s.hy2.value != []
  }

  /** currentSyncUsers goes through. */
  predicate Loads(s: Store, a: Answers) {
    && a.loadXray && s.hy2.Some? && a.loadHy2
    && forall c :: c in s.xray ==> HasCredential(c, s, a.minted)
  }

  /** The operation reports success. */
  predicate Succeeds(op: Op, s: Store, a: Answers) {
    match op
    case CliAdd(name, domain) =>
      && XrayConfig.ValidName(name) && domain != "" && a.loadXray && |s.xray| < MAX_USERS && !HasClient(s.xray, name)
      && a.uuid.Some? && Joined(name, s, a) && Published(a) && a.subscription
    case CliRemove(name) =>
      && XrayConfig.ValidName(name) && a.loadXray && HasClient(s.xray, name) && Published(a) && a.subscription
      && (s.hy2.Some?
          ==> a.loadHy2 && (|DropUser(s.hy2.value, name)| < |s.hy2.value| ==> a.writeHy2 == Written && a.reload))
    case Sync(users, confirmEmpty) =>
      |users| <= MAX_USERS && !RefusesEmpty(users, confirmEmpty, s, a) && ApplySucceeds(users, s, a)
    case AgentAdd(name) =>
      && XrayConfig.ValidName(name) && Loads(s, a)
      && if HasClient(s.xray, name) then ApplySucceeds(CurrentUsers(s, a), s, a)
         else && |CurrentUsers(s, a)| + 1 <= MAX_USERS && a.uuid.Some? && a.password.Some?
              && ApplySucceeds(CurrentUsers(s, a) + [SyncUser(name, a.uuid.value, a.password.value)], s, a)
    case AgentDelete(name) =>
      && XrayConfig.ValidName(name) && Loads(s, a) && HasClient(s.xray, name)
      && ApplySucceeds(DropSync(CurrentUsers(s, a), name), s, a)
  }

  function Do(s: Store, w: Write): Store {
    match w
    case SetXray(clients) => s.(xray := clients)
    case SetHy2(users) => s.(hy2 := Some(users))
  }

  /** The store after the first writes of a plan. */
  function After(s: Store, writes: seq<Write>): Store
    decreases |writes|
  {
    if writes == [] then s else Do(After(s, writes[..|writes| - 1]), writes[|writes| - 1])
  }

  // ---- What every prefix of every plan keeps --------------------------------

  /** Every xray user also has a hysteria entry, on a node that has hysteria. */
  ghost predicate Contained(s: Store) {
    s.hy2.Some? ==> ClientNames(s.xray) <= HyNames(s.hy2.value)
  }

  lemma SortedNames(users: seq<Hysteria.User>)
    ensures HyNames(Hysteria.SortByName(users)) == HyNames(users)
  {
    var sorted := Hysteria.SortByName(users);
    Hysteria.SortByNameCorrect(users);
    forall u ensures u in sorted <==> u in users {
      assert u in multiset(sorted) <==> u in multiset(users);
    }
  }

  lemma After1(s: Store, w: Write)
    ensures After(s, [w]) == Do(s, w)
  {
    assert [w][..0] == [];
  }

  lemma After2(s: Store, v: Write, w: Write)
    ensures After(s, [v, w]) == Do(Do(s, v), w)
  {
    assert [v, w][..1] == [v];
    After1(s, v);
  }

  lemma {:induction false} AfterConcat(s: Store, v: seq<Write>, w: seq<Write>)
    ensures After(s, v + w) == After(After(s, v), w)
    decreases |w|
  {
    if w == [] {
      assert v + w == v;
    } else {
      assert (v + w)[..|v + w| - 1] == v + w[..|w| - 1];
      AfterConcat(s, v, w[..|w| - 1]);
    }
  }

  /** The xray users after publishing: the new ones, or the previous ones put back. */
  lemma AfterPublish(s: Store, clients: seq<Client>, a: Answers, k: nat)
    requires k <= |PublishXray(s.xray, clients, a)|
    ensures var t := After(s, PublishXray(s.xray, clients, a)[..k]);
            && t.hy2 == s.hy2 && t.xray in {s.xray, clients}
            && (Published(a) && k > 0 ==> t.xray == clients)
            && (k == |PublishXray(s.xray, clients, a)| && !Published(a) && a.restore != NotWritten ==> t.xray == s.xray)
  {
    var writes := PublishXray(s.xray, clients, a);
    After1(s, SetXray(clients));
    After2(s, SetXray(clients), SetXray(s.xray));
    assert k == 0 ==> writes[..k] == [];
    assert k == 1 ==> writes[..k] == [SetXray(clients)];
    assert k == 2 ==> writes[..k] == [SetXray(clients), SetXray(s.xray)];
  }

  lemma AfterHy2(s: Store, users: seq<Hysteria.User>, a: Answers, k: nat)
    requires k <= |WriteHy2(users, a)|
    ensures var t := After(s, WriteHy2(users, a)[..k]);
            && t.xray == s.xray
            && t.hy2 == if k == 0 then s.hy2 else Some(Hysteria.SortByName(users))
  {
    var writes := WriteHy2(users, a);
    After1(s, SetHy2(Hysteria.SortByName(users)));
    assert k == 0 ==> writes[..k] == [];
    assert k == 1 ==> writes[..k] == [SetHy2(Hysteria.SortByName(users))];
  }

  /** A prefix of two plans in a row. */
  lemma AfterPrefix(s: Store, v: seq<Write>, w: seq<Write>, k: nat)
    requires k <= |v + w|
    ensures After(s, (v + w)[..k]) == if k <= |v| then After(s, v[..k]) else After(After(s, v), w[..k - |v|])
  {
    if k <= |v| {
      assert (v + w)[..k] == v[..k];
    } else {
      assert (v + w)[..k] == v + w[..k - |v|];
      AfterConcat(s, v, w[..k - |v|]);
    }
  }

  /** The CLI never leaves an xray user without a hysteria entry: at every intermediate
      state, whatever fails, including the restore after a failed restart. */
  lemma CliKeepsContained(op: Op, s: Store, a: Answers, k: nat)
    requires (op.CliAdd? || op.CliRemove?) && Contained(s)
    requires k <= |Plan(op, s, a)|
    ensures Contained(After(s, Plan(op, s, a)[..k]))
  {
    match op
    case CliAdd(name, domain) =>
      AddKeepsContained(name, domain, s, a, k);
    case CliRemove(name) =>
      RemoveKeepsContained(name, s, a, k);
    case _ =>
  }

  /** What joining hysteria leaves: the same xray users, and an entry for the name
      once it succeeds or writes. */
  lemma AfterJoin(name: string, s: Store, a: Answers, k: nat)
    requires k <= |JoinPlan(name, s, a)|
    ensures var t := After(s, JoinPlan(name, s, a)[..k]);
            && t.xray == s.xray && t.hy2.Some? == s.hy2.Some?
            && (s.hy2.Some? ==> HyNames(s.hy2.value) <= HyNames(t.hy2.value) <= HyNames(s.hy2.value) + {name})
            && (k == |JoinPlan(name, s, a)| && Joined(name, s, a) && s.hy2.Some? ==> name in HyNames(t.hy2.value))
  {
    var plan := JoinPlan(name, s, a);
    if plan == [] {
      assert plan[..k] == [];
    } else {
      var u := Hysteria.User(name, a.password.value);
      AfterHy2(s, s.hy2.value + [u], a, k);
      SortedNames(s.hy2.value + [u]);
      MoreUsers(s.hy2.value, u);
    }
  }

  lemma AddKeepsContained(name: string, domain: string, s: Store, a: Answers, k: nat)
    requires Contained(s) && k <= |Plan(CliAdd(name, domain), s, a)|
    ensures Contained(After(s, Plan(CliAdd(name, domain), s, a)[..k]))
  {
    var plan := Plan(CliAdd(name, domain), s, a);
    if plan == [] {
      assert plan[..k] == [];
    } else {
      var join := JoinPlan(name, s, a);
      var clients := s.xray + [Client(name, a.uuid.value)];
      var rest := plan[|join|..];
      assert plan == join + rest;
      AfterPrefix(s, join, rest, k);
      AfterJoin(name, s, a, if k <= |join| then k else |join|);
      if k > |join| {
        assert join[..|join|] == join;
        AfterPublish(After(s, join), clients, a, k - |join|);
        assert ClientNames(clients) <= ClientNames(s.xray) + {name};
      }
    }
  }

  lemma MoreUsers(users: seq<Hysteria.User>, u: Hysteria.User)
    ensures HyNames(users + [u]) == HyNames(users) + {u.name}
  {
    var more := users + [u];
    assert more[|users|] == u && u in more;
    forall v | v in users ensures v in more {
    }
  }

  lemma RemoveKeepsContained(name: string, s: Store, a: Answers, k: nat)
    requires Contained(s) && k <= |Plan(CliRemove(name), s, a)|
    ensures Contained(After(s, Plan(CliRemove(name), s, a)[..k]))
  {
    var plan := Plan(CliRemove(name), s, a);
    if plan == [] {
      assert plan[..k] == [];
    } else {
      var clients := DropClient(s.xray, name);
      var xray := PublishXray(s.xray, clients, a);
      var hy2 := plan[|xray|..];
      assert plan == xray + hy2;
      AfterPrefix(s, xray, hy2, k);
      AfterPublish(s, clients, a, if k <= |xray| then k else |xray|);
      assert xray[..|xray|] == xray;
      if k > |xray| {
        var users := DropUser(s.hy2.value, name);
        SortedNames(users);
        DropUserNames(s.hy2.value, name);
        AfterHy2(After(s, xray), users, a, k - |xray|);
        assert ClientNames(clients) == ClientNames(s.xray) - {name};
      }
    }
  }

  lemma ApplyWrites(users: seq<SyncUser>, s: Store, a: Answers)
    requires ApplySucceeds(users, s, a)
    ensures After(s, ApplyPlan(users, s, a)) == Store(Clients(users), Some(Hysteria.SortByName(HyUsers(users))))
  {
    var sorted := Hysteria.SortByName(HyUsers(users));
    assert ApplyPlan(users, s, a) == [SetXray(Clients(users)), SetHy2(sorted)];
    After2(s, SetXray(Clients(users)), SetHy2(sorted));
  }

  /** A successful applyUsers leaves both stores with exactly the requested users,
      from any drifted state. */
  lemma ApplyRestoresEquality(users: seq<SyncUser>, s: Store, a: Answers)
    requires ApplySucceeds(users, s, a)
    ensures var t := After(s, ApplyPlan(users, s, a));
            && t == Store(Clients(users), Some(Hysteria.SortByName(HyUsers(users))))
            && ClientNames(t.xray) == HyNames(t.hy2.value) == SyncNames(users)
  {
    ApplyWrites(users, s, a);
    SortedNames(HyUsers(users));
    ClientsNames(users);
    HyUsersNames(users);
  }

  lemma HyUsersNames(users: seq<SyncUser>)
    ensures HyNames(HyUsers(users)) == SyncNames(users)
  {
    forall n ensures n in SyncNames(users) <==> n in HyNames(HyUsers(users)) {
      if n in SyncNames(users) {
        var i :| 0 <= i < |users| && users[i].name == n;
        assert HyUsers(users)[i] in HyUsers(users);
      }
    }
  }

  /** Between its two writes applyUsers keeps containment exactly when every requested
      user already had a hysteria entry; adding a new user there does not. */
  lemma ApplyGap(users: seq<SyncUser>, s: Store, a: Answers)
    requires Complete(users) && a.render && Published(a) && s.hy2.Some?
    ensures var t := After(s, ApplyPlan(users, s, a)[..1]);
            Contained(t) <==> SyncNames(users) <= HyNames(s.hy2.value)
  {
    var plan := ApplyPlan(users, s, a);
    assert plan[..1] == [SetXray(Clients(users))];
    After1(s, SetXray(Clients(users)));
    ClientsNames(users);
  }

  lemma ClientsNames(users: seq<SyncUser>)
    ensures ClientNames(Clients(users)) == SyncNames(users)
  {
    forall n ensures n in SyncNames(users) <==> n in ClientNames(Clients(users)) {
      if n in SyncNames(users) {
        var i :| 0 <= i < |users| && users[i].name == n;
        assert Clients(users)[i] in Clients(users);
      }
    }
  }

  // ---- What success means --------------------------------------------------

  /** The plan of an add that gets past its checks. */
  lemma AddPlan(name: string, domain: string, s: Store, a: Answers)
    requires XrayConfig.ValidName(name) && domain != "" && a.loadXray && |s.xray| < MAX_USERS
             && !HasClient(s.xray, name)
    requires a.uuid.Some?
    ensures Plan(CliAdd(name, domain), s, a)
            == JoinPlan(name, s, a)
               + if Joined(name, s, a) then PublishXray(s.xray, s.xray + [Client(name, a.uuid.value)], a) else []
    ensures Succeeds(CliAdd(name, domain), s, a) <==> Joined(name, s, a) && Published(a) && a.subscription
  {
  }

  /** A successful CLI add: the client appended to xray, the name in hysteria. */
  lemma AddSucceeds(name: string, domain: string, s: Store, a: Answers)
    requires Succeeds(CliAdd(name, domain), s, a)
    ensures var t := After(s, Plan(CliAdd(name, domain), s, a));
            && t.xray == s.xray + [Client(name, a.uuid.value)] && t.hy2.Some? == s.hy2.Some?
            && (s.hy2.Some? ==> HyNames(t.hy2.value) == HyNames(s.hy2.value) + {name})
  {
    var join, clients := JoinPlan(name, s, a), s.xray + [Client(name, a.uuid.value)];
    AfterJoin(name, s, a, |join|);
    assert join[..|join|] == join;
    var joined := After(s, join);
    var publish := PublishXray(s.xray, clients, a);
    AddPlan(name, domain, s, a);
    AfterConcat(s, join, publish);
    AfterPublish(joined, clients, a, |publish|);
    assert publish[..|publish|] == publish;
  }

  /** A successful CLI removal: the name in neither store, every other client kept. */
  lemma RemoveSucceeds(name: string, s: Store, a: Answers)
    requires Succeeds(CliRemove(name), s, a)
    ensures var t := After(s, Plan(CliRemove(name), s, a));
            && t.xray == DropClient(s.xray, name) && t.hy2.Some? == s.hy2.Some?
            && (s.hy2.Some? ==> HyNames(t.hy2.value) == HyNames(s.hy2.value) - {name})
  {
    var clients := DropClient(s.xray, name);
    var publish := PublishXray(s.xray, clients, a);
    AfterPublish(s, clients, a, |publish|);
    assert publish[..|publish|] == publish;
    var t := After(s, publish);
    assert Plan(CliRemove(name), s, a) == publish + Plan(CliRemove(name), s, a)[|publish|..];
    AfterConcat(s, publish, Plan(CliRemove(name), s, a)[|publish|..]);
    if s.hy2.Some? {
      DropUserNames(s.hy2.value, name);
      var users := DropUser(s.hy2.value, name);
      if |users| < |s.hy2.value| {
        var write := WriteHy2(users, a);
        AfterHy2(t, users, a, |write|);
        assert write[..|write|] == write;
        SortedNames(users);
      } else {
        DropUserAll(s.hy2.value, name);
      }
    }
  }

  lemma {:induction false} DropUserAll(users: seq<Hysteria.User>, name: string)
    requires |DropUser(users, name)| == |users|
    ensures name !in HyNames(users)
  {
    if users == [] {
    } else {
      DropUserAll(users[1..], name);
      assert HyNames(users) == {users[0].name} + HyNames(users[1..]);
    }
  }

  lemma {:induction false} DropAdded(clients: seq<Client>, c: Client)
    requires !HasClient(clients, c.name)
    ensures DropClient(clients + [c], c.name) == clients
  {
    if clients == [] {
      assert clients + [c] == [c];
    } else {
      assert (clients + [c])[1..] == clients[1..] + [c];
      assert clients[0] in clients;
      DropAdded(clients[1..], c);
    }
  }

  /** Adding a user and removing it again puts the xray users back, and the hysteria
      names exactly when the name had no leftover entry there. */
  lemma RemoveUndoesAdd(name: string, domain: string, s: Store, a: Answers, b: Answers)
    requires Succeeds(CliAdd(name, domain), s, a)
    requires Succeeds(CliRemove(name), After(s, Plan(CliAdd(name, domain), s, a)), b)
    ensures var t := After(s, Plan(CliAdd(name, domain), s, a));
            var u := After(t, Plan(CliRemove(name), t, b));
            && u.xray == s.xray && u.hy2.Some? == s.hy2.Some?
            && (s.hy2.Some? ==> (HyNames(u.hy2.value) == HyNames(s.hy2.value) <==> name !in HyNames(s.hy2.value)))
  {
    AddSucceeds(name, domain, s, a);
    RemoveSucceeds(name, After(s, Plan(CliAdd(name, domain), s, a)), b);
    DropAdded(s.xray, Client(name, a.uuid.value));
  }

  lemma RecordsPlus(records: seq<SyncUser>, u: SyncUser)
    ensures SyncNames(records + [u]) == SyncNames(records) + {u.name}
  {
    assert (records + [u])[|records|] == u;
    forall v | v in records ensures v in records + [u] {
    }
  }

  /** A successful agent addition leaves the same names in both stores: the current ones
      and the new one. */
  lemma AgentAddSucceeds(name: string, s: Store, a: Answers)
    requires Succeeds(AgentAdd(name), s, a)
    ensures var t := After(s, Plan(AgentAdd(name), s, a));
            t.hy2.Some? && ClientNames(t.xray) == HyNames(t.hy2.value) == ClientNames(s.xray) + {name}
  {
    if HasClient(s.xray, name) {
      AgentAddKnown(name, s, a);
    } else {
      AgentAddNew(name, s, a);
    }
  }

  lemma AgentAddKnown(name: string, s: Store, a: Answers)
    requires Succeeds(AgentAdd(name), s, a) && HasClient(s.xray, name)
    ensures var t := After(s, Plan(AgentAdd(name), s, a));
            t.hy2.Some? && ClientNames(t.xray) == HyNames(t.hy2.value) == ClientNames(s.xray) + {name}
  {
    KnownName(s.xray, name);
    ApplyRestoresEquality(CurrentUsers(s, a), s, a);
  }

  lemma KnownName(clients: seq<Client>, name: string)
    requires HasClient(clients, name)
    ensures ClientNames(clients) + {name} == ClientNames(clients)
  {
    assert name in ClientNames(clients);
  }

  lemma AgentAddNew(name: string, s: Store, a: Answers)
    requires Succeeds(AgentAdd(name), s, a) && !HasClient(s.xray, name)
    ensures var t := After(s, Plan(AgentAdd(name), s, a));
            t.hy2.Some? && ClientNames(t.xray) == HyNames(t.hy2.value) == ClientNames(s.xray) + {name}
  {
    var records, u := CurrentUsers(s, a), SyncUser(name, a.uuid.value, a.password.value);
    RecordsPlus(records, u);
    AgentAddPlan(name, s, a, records + [u]);
    ApplyRestoresEquality(records + [u], s, a);
  }

  lemma AgentAddPlan(name: string, s: Store, a: Answers, users: seq<SyncUser>)
    requires Succeeds(AgentAdd(name), s, a) && !HasClient(s.xray, name)
    requires users == CurrentUsers(s, a) + [SyncUser(name, a.uuid.value, a.password.value)]
    ensures Plan(AgentAdd(name), s, a) == ApplyPlan(users, s, a) && ApplySucceeds(users, s, a)
  {
  }

  /** A successful agent deletion: the current ones without it. */
  lemma AgentDeleteSucceeds(name: string, s: Store, a: Answers)
    requires Succeeds(AgentDelete(name), s, a)
    ensures var t := After(s, Plan(AgentDelete(name), s, a));
            t.hy2.Some? && ClientNames(t.xray) == HyNames(t.hy2.value) == ClientNames(s.xray) - {name}
  {
    var records := CurrentUsers(s, a);
    DropSyncNames(records, name);
    ApplyRestoresEquality(DropSync(records, name), s, a);
  }

  // ---- The user limit ------------------------------------------------------

  ghost predicate Bounded(s: Store, limit: nat) {
    |s.xray| <= limit
  }

  /** The clients an operation wants xray to have, when it gets as far as writing. */
  function Proposed(op: Op, s: Store, a: Answers): seq<Client> {
    match op
    case CliAdd(name, _) => s.xray + [Client(name, if a.uuid.Some? then a.uuid.value else "")]
    case CliRemove(name) => DropClient(s.xray, name)
    case Sync(users, _) => Clients(users)
    case AgentAdd(name) =>
      var records := if s.hy2.Some? then CurrentUsers(s, a) else [];
      if HasClient(s.xray, name) || a.uuid.None? || a.password.None? then Clients(records)
      else Clients(records + [SyncUser(name, a.uuid.value, a.password.value)])
    case AgentDelete(name) =>
      Clients(DropSync(if s.hy2.Some? then CurrentUsers(s, a) else [], name))
  }

  predicate WritesOnly(plan: seq<Write>, before: seq<Client>, clients: seq<Client>) {
    forall w :: w in plan && w.SetXray? ==> w.clients == before || w.clients == clients
  }

  lemma PublishWritesOnly(before: seq<Client>, clients: seq<Client>, a: Answers)
    ensures WritesOnly(PublishXray(before, clients, a), before, clients)
  {
  }

  lemma WritesOnlyConcat(v: seq<Write>, w: seq<Write>, before: seq<Client>, clients: seq<Client>)
    requires WritesOnly(v, before, clients) && forall x :: x in w ==> x.SetHy2?
    ensures WritesOnly(v + w, before, clients) && WritesOnly(w + v, before, clients)
  {
  }

  lemma ApplyWritesOnly(users: seq<SyncUser>, s: Store, a: Answers)
    ensures WritesOnly(ApplyPlan(users, s, a), s.xray, Clients(users))
  {
    var hy2 := if Published(a) && s.hy2.Some? then WriteHy2(HyUsers(users), a) else [];
    PublishWritesOnly(s.xray, Clients(users), a);
    WritesOnlyConcat(PublishXray(s.xray, Clients(users), a), hy2, s.xray, Clients(users));
  }

  lemma AddWritesOnly(name: string, domain: string, s: Store, a: Answers)
    ensures WritesOnly(Plan(CliAdd(name, domain), s, a), s.xray, Proposed(CliAdd(name, domain), s, a))
  {
    var clients := Proposed(CliAdd(name, domain), s, a);
    PublishWritesOnly(s.xray, clients, a);
    var xray := if Joined(name, s, a) then PublishXray(s.xray, clients, a) else [];
    WritesOnlyConcat(xray, JoinPlan(name, s, a), s.xray, clients);
  }

  lemma RemoveWritesOnly(name: string, s: Store, a: Answers)
    ensures WritesOnly(Plan(CliRemove(name), s, a), s.xray, DropClient(s.xray, name))
  {
    var clients := DropClient(s.xray, name);
    PublishWritesOnly(s.xray, clients, a);
    if s.hy2.Some? {
      WritesOnlyConcat(PublishXray(s.xray, clients, a), WriteHy2(DropUser(s.hy2.value, name), a), s.xray, clients);
    }
    WritesOnlyConcat(PublishXray(s.xray, clients, a), [], s.xray, clients);
  }

  lemma PlanWritesOnly(op: Op, s: Store, a: Answers)
    ensures WritesOnly(Plan(op, s, a), s.xray, Proposed(op, s, a))
  {
    match op
    case CliAdd(name, domain) => AddWritesOnly(name, domain, s, a);
    case CliRemove(name) => RemoveWritesOnly(name, s, a);
    case Sync(users, _) => ApplyWritesOnly(users, s, a);
    case AgentAdd(name) =>
      if s.hy2.Some? && a.uuid.Some? && a.password.Some? {
        var records := CurrentUsers(s, a);
        ApplyWritesOnly(records, s, a);
        ApplyWritesOnly(records + [SyncUser(name, a.uuid.value, a.password.value)], s, a);
      } else if s.hy2.Some? {
        ApplyWritesOnly(CurrentUsers(s, a), s, a);
      }
    case AgentDelete(name) =>
      if s.hy2.Some? {
        ApplyWritesOnly(DropSync(CurrentUsers(s, a), name), s, a);
      }
  }

  lemma ProposedBounded(op: Op, s: Store, a: Answers, limit: nat)
    requires |s.xray| <= limit && MAX_USERS <= limit && Plan(op, s, a) != []
    ensures |Proposed(op, s, a)| <= limit
  {
  }

  lemma PrefixBounded(plan: seq<Write>, k: nat, s: Store, clients: seq<Client>, limit: nat)
    requires k <= |plan| && WritesOnly(plan, s.xray, clients)
    requires |s.xray| <= limit && (plan != [] ==> |clients| <= limit)
    ensures Bounded(After(s, plan[..k]), limit)
  {
    if plan == [] {
      assert plan[..k] == [];
    } else {
      OnlyThese(plan, k, s, {s.xray, clients});
    }
  }

  /** No operation, complete or cut short, takes the xray user count past MAX_USERS,
      and on a node already past it none makes it worse. */
  lemma PlanBounded(op: Op, s: Store, a: Answers, plan: seq<Write>, limit: nat, k: nat)
    requires plan == Plan(op, s, a) && |s.xray| <= limit && MAX_USERS <= limit && k <= |plan|
    ensures Bounded(After(s, plan[..k]), limit)
  {
    var clients := Proposed(op, s, a);
    PlanWritesOnly(op, s, a);
    if plan != [] {
      ProposedBounded(op, s, a, limit);
    }
    PrefixBounded(plan, k, s, clients, limit);
  }

  /** A plan that only ever writes these xray lists leaves one of them. */
  lemma {:induction false} OnlyThese(plan: seq<Write>, k: nat, s: Store, lists: set<seq<Client>>)
    requires k <= |plan| && s.xray in lists
    requires forall w :: w in plan && w.SetXray? ==> w.clients in lists
    ensures After(s, plan[..k]).xray in lists
    decreases k
  {
    if k == 0 {
    } else {
      assert plan[..k][..k - 1] == plan[..k - 1];
      OnlyThese(plan, k - 1, s, lists);
      assert plan[..k][k - 1] in plan;
    }
  }
}