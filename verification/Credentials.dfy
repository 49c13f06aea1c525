/** Whose credentials the user operations leave in the two stores: entry by entry, where
    UserStores speaks of names, and which requests they refuse. */
module Credentials {
  import opened Storage
  import opened Text
  import Hysteria
  import opened UserStores
  import XrayConfig

  // ---- What the stores say of a name -----------------------------------------

  /** Every xray client named n has the uuid u, and there is one. */
  ghost predicate UuidIs(s: Store, n: string, u: string) {
    Client(n, u) in s.xray && forall c :: c in s.xray && c.name == n ==> c.uuid == u
  }

  /** Every hysteria entry named n has the password p, and there is one. */
  ghost predicate PasswordIs(s: Store, n: string, p: string) {
    s.hy2.Some? && Hysteria.User(n, p) in s.hy2.value && forall e :: e in s.hy2.value && e.name == n ==> e.password == p
  }

  ghost predicate NoPassword(s: Store, n: string) {
    s.hy2.Some? && forall e :: e in s.hy2.value && e.name == n ==> e.password == ""
  }

  /** Both stores hold exactly the requested users with their own credentials. */
  ghost predicate HoldsExactly(t: Store, users: seq<SyncUser>) {
    && |t.xray| == |users| && (forall i :: 0 <= i < |users| ==> t.xray[i] == Client(users[i].name, users[i].uuid))
    && t.hy2.Some? && |t.hy2.value| == |users|
    && forall e :: e in t.hy2.value <==> exists u :: u in users && e == Hysteria.User(u.name, u.password)
  }

  lemma SortedSame(users: seq<Hysteria.User>)
    ensures var sorted := Hysteria.SortByName(users);
            |sorted| == |users| && forall e :: e in sorted <==> e in users
  {
    var sorted := Hysteria.SortByName(users);
    Hysteria.SortByNameCorrect(users);
    assert |multiset(sorted)| == |sorted| && |multiset(users)| == |users|;
    forall e ensures e in sorted <==> e in users {
      assert e in multiset(sorted) <==> e in multiset(users);
    }
  }

  lemma ApplyHolds(users: seq<SyncUser>, s: Store, a: Answers)
    requires ApplySucceeds(users, s, a)
    ensures HoldsExactly(After(s, ApplyPlan(users, s, a)), users)
  {
    ApplyWrites(users, s, a);
    var hy2 := HyUsers(users);
    SortedSame(hy2);
    forall e ensures e in hy2 <==> exists u :: u in users && e == Hysteria.User(u.name, u.password) {
      if e in hy2 {
        var i :| 0 <= i < |hy2| && hy2[i] == e;
        assert users[i] in users;
      }
      if u :| u in users && e == Hysteria.User(u.name, u.password) {
        var i :| 0 <= i < |users| && users[i] == u;
        assert hy2[i] == e;
      }
    }
  }

  /** A successful sync leaves exactly the pushed users in both stores. */
  lemma SyncHolds(users: seq<SyncUser>, confirmEmpty: bool, s: Store, a: Answers)
    requires Succeeds(Sync(users, confirmEmpty), s, a)
    ensures HoldsExactly(After(s, Plan(Sync(users, confirmEmpty), s, a)), users)
  {
    ApplyHolds(users, s, a);
  }

  // ---- The records of the current users --------------------------------------

  lemma {:induction false} RecordsFrom(clients: seq<Client>, seen: set<string>, s: Store, minted: map<string, string>)
    requires s.hy2.Some?
    ensures forall r :: r in Records(clients, seen, s, minted) ==> r == Credential(Client(r.name, ""), s, minted)
  {
    if clients == [] {
    } else if clients[0].name in seen {
      RecordsFrom(clients[1..], seen, s, minted);
    } else {
      RecordsFrom(clients[1..], seen + {clients[0].name}, s, minted);
    }
  }

  lemma {:induction false} ArrangeFrom(records: seq<SyncUser>, order: seq<string>)
    ensures forall r :: r in Arrange(records, order) ==> r in records
    decreases |order|
  {
    if order == [] {
    } else {
      PickFrom(records, order[0]);
      ArrangeFrom(DropSync(records, order[0]), order[1..]);
    }
  }

  lemma {:induction false} PickFrom(records: seq<SyncUser>, name: string)
    ensures forall r :: r in Pick(records, name) ==> r in records
  {
    if records == [] {
    } else {
      PickFrom(records[1..], name);
    }
  }

  lemma {:induction false} UuidFound(clients: seq<Client>, n: string, u: string)
    requires XrayConfig.ValidName(n) && forall c :: c in clients && c.name == n ==> c.uuid == u
    ensures Client(n, u) in clients ==> UuidOf(clients, n) == Some(u)
  {
    if clients == [] {
    } else {
      XrayConfig.NamePlain(n);
      UuidFound(clients[1..], n, u);
      assert clients == [clients[0]] + clients[1..];
    }
  }

  lemma {:induction false} PasswordFound(users: seq<Hysteria.User>, n: string, p: string)
    requires forall e :: e in users && e.name == n ==> e.password == p
    ensures PasswordOf(users, n) == if Hysteria.User(n, p) in users then p else ""
  {
    if users == [] {
    } else {
      var before := users[..|users| - 1];
      PasswordFound(before, n, p);
      assert users == before + [users[|users| - 1]];
    }
  }

  /** The record a current user gets, from the two stores: the uuid of its clients, the
      password of its entries, and a minted one only when it has none. */
  ghost predicate TrueRecord(r: SyncUser, s: Store, minted: map<string, string>) {
    && (forall u :: XrayConfig.ValidName(r.name) && UuidIs(s, r.name, u) ==> r.uuid == u)
    && (forall p :: p != "" && PasswordIs(s, r.name, p) ==> r.password == p)
    && (NoPassword(s, r.name) && r.name in minted ==> r.password == minted[r.name])
  }

  lemma CredentialTrue(n: string, s: Store, minted: map<string, string>)
    requires s.hy2.Some?
    ensures TrueRecord(Credential(Client(n, ""), s, minted), s, minted)
  {
    forall u | XrayConfig.ValidName(n) && UuidIs(s, n, u)
      ensures Credential(Client(n, ""), s, minted).uuid == u
    {
      UuidFound(s.xray, n, u);
    }
    forall p | p != "" && PasswordIs(s, n, p) ensures PasswordOf(s.hy2.value, n) == p {
      PasswordFound(s.hy2.value, n, p);
    }
    if NoPassword(s, n) {
      PasswordFound(s.hy2.value, n, "");
    }
  }

  lemma CurrentTrue(s: Store, a: Answers)
    requires s.hy2.Some?
    ensures forall r :: r in CurrentUsers(s, a) ==> TrueRecord(r, s, a.minted)
  {
    var records := Records(s.xray, {}, s, a.minted);
    RecordsFrom(s.xray, {}, s, a.minted);
    ArrangeFrom(records, a.order);
    forall r | r in CurrentUsers(s, a) ensures TrueRecord(r, s, a.minted) {
      CredentialTrue(r.name, s, a.minted);
    }
  }

  // ---- What the agent keeps --------------------------------------------------

  /** The credentials of n are the same in t: its uuid, its password if it had one, and a
      minted one otherwise. */
  ghost predicate Keeps(s: Store, t: Store, n: string, minted: map<string, string>) {
    && (forall u :: XrayConfig.ValidName(n) && UuidIs(s, n, u) ==> UuidIs(t, n, u))
    && (forall p :: p != "" && PasswordIs(s, n, p) ==> PasswordIs(t, n, p))
    && (NoPassword(s, n) && n in minted ==> PasswordIs(t, n, minted[n]))
  }

  lemma AppliedKeeps(s: Store, t: Store, users: seq<SyncUser>, n: string, minted: map<string, string>)
    requires HoldsExactly(t, users) && n in SyncNames(users)
    requires forall r :: r in users && r.name == n ==> TrueRecord(r, s, minted)
    ensures Keeps(s, t, n, minted)
  {
    var k :| 0 <= k < |users| && users[k].name == n;
    assert t.xray[k] == Client(n, users[k].uuid);
    assert Hysteria.User(n, users[k].password) in t.hy2.value;
    forall c | c in t.xray && c.name == n
      ensures exists r :: r in users && r.name == n && c.uuid == r.uuid
    {
      var i :| 0 <= i < |t.xray| && t.xray[i] == c;
      assert users[i] in users;
    }
  }

  /** After a successful addition by the agent everybody keeps their credentials, and the
      new user has exactly the generated ones. */
  lemma AgentAddKeeps(name: string, s: Store, a: Answers, n: string)
    requires Succeeds(AgentAdd(name), s, a) && n in ClientNames(s.xray)
    ensures var t := After(s, Plan(AgentAdd(name), s, a));
            && Keeps(s, t, n, a.minted)
            && (!HasClient(s.xray, name) ==>
                  a.uuid.Some? && a.password.Some?
                  && UuidIs(t, name, a.uuid.value) && PasswordIs(t, name, a.password.value))
  {
    CurrentTrue(s, a);
    var records := CurrentUsers(s, a);
    var t := After(s, Plan(AgentAdd(name), s, a));
    if HasClient(s.xray, name) {
      ApplyHolds(records, s, a);
      AppliedKeeps(s, t, records, n, a.minted);
    } else {
      AgentAddsNew(name, s, a);
      RecordsPlus(records, SyncUser(name, a.uuid.value, a.password.value));
      AppliedKeeps(s, t, records + [SyncUser(name, a.uuid.value, a.password.value)], n, a.minted);
    }
  }

  lemma AgentAddsNew(name: string, s: Store, a: Answers)
    requires Succeeds(AgentAdd(name), s, a) && !HasClient(s.xray, name)
    ensures a.uuid.Some? && a.password.Some?
    ensures var t := After(s, Plan(AgentAdd(name), s, a));
            && HoldsExactly(t, CurrentUsers(s, a) + [SyncUser(name, a.uuid.value, a.password.value)])
            && UuidIs(t, name, a.uuid.value) && PasswordIs(t, name, a.password.value)
  {
    var records, u := CurrentUsers(s, a), SyncUser(name, a.uuid.value, a.password.value);
    AgentAddPlan(name, s, a, records + [u]);
    ApplyHolds(records + [u], s, a);
    assert forall v :: v in records ==> v.name in SyncNames(records);
    LastHeld(After(s, Plan(AgentAdd(name), s, a)), records, u);
  }

  /** The last of the users held, when no other has its name. */
  lemma LastHeld(t: Store, others: seq<SyncUser>, u: SyncUser)
    requires HoldsExactly(t, others + [u]) && forall v :: v in others ==> v.name != u.name
    ensures UuidIs(t, u.name, u.uuid) && PasswordIs(t, u.name, u.password)
  {
    var users := others + [u];
    assert users[|others|] == u && forall v :: v in users ==> v in others || v == u;
    assert t.xray[|others|] == Client(u.name, u.uuid);
    forall c | c in t.xray && c.name == u.name ensures c.uuid == u.uuid {
      var i :| 0 <= i < |t.xray| && t.xray[i] == c;
      assert users[i] in users;
    }
  }

  /** After a successful deletion everybody else keeps their credentials. */
  lemma AgentDeleteKeeps(name: string, s: Store, a: Answers, n: string)
    requires Succeeds(AgentDelete(name), s, a) && n in ClientNames(s.xray) && n != name
    ensures Keeps(s, After(s, Plan(AgentDelete(name), s, a)), n, a.minted)
  {
    CurrentTrue(s, a);
    var records := CurrentUsers(s, a);
    DropSyncNames(records, name);
    ApplyHolds(DropSync(records, name), s, a);
    AppliedKeeps(s, After(s, Plan(AgentDelete(name), s, a)), DropSync(records, name), n, a.minted);
  }

  // ---- What the CLI leaves ---------------------------------------------------

  /** A successful CLI add puts the generated password under the name unless there was an
      entry, and leaves every entry that was there. */
  lemma CliAddEntries(name: string, domain: string, s: Store, a: Answers, e: Hysteria.User)
    requires Succeeds(CliAdd(name, domain), s, a) && s.hy2.Some?
    ensures var t := After(s, Plan(CliAdd(name, domain), s, a));
            && t.hy2.Some?
            && (e in t.hy2.value <==>
                || e in s.hy2.value
                || (!HasUser(s.hy2.value, name) && a.password.Some? && e == Hysteria.User(name, a.password.value)))
  {
    var join, clients := JoinPlan(name, s, a), s.xray + [Client(name, a.uuid.value)];
    var publish := PublishXray(s.xray, clients, a);
    AddPlan(name, domain, s, a);
    AfterConcat(s, join, publish);
    AfterPublish(After(s, join), clients, a, |publish|);
    assert publish[..|publish|] == publish;
    if HasUser(s.hy2.value, name) {
      assert join == [];
    } else {
      var users := s.hy2.value + [Hysteria.User(name, a.password.value)];
      AfterHy2(s, users, a, 1);
      assert join == WriteHy2(users, a) && join[..1] == join;
      SortedSame(users);
    }
  }

  lemma {:induction false} DropUserEntries(users: seq<Hysteria.User>, name: string)
    ensures forall e :: e in DropUser(users, name) <==> e in users && e.name != name
  {
    if users == [] {
    } else {
      DropUserEntries(users[1..], name);
      assert users == [users[0]] + users[1..];
    }
  }

  /** A successful CLI removal takes out the entries of the name and no other. */
  lemma CliRemoveEntries(name: string, s: Store, a: Answers, e: Hysteria.User)
    requires Succeeds(CliRemove(name), s, a) && s.hy2.Some?
    ensures var t := After(s, Plan(CliRemove(name), s, a));
            t.hy2.Some? && (e in t.hy2.value <==> e in s.hy2.value && e.name != name)
  {
    var clients, users := DropClient(s.xray, name), DropUser(s.hy2.value, name);
    var publish := PublishXray(s.xray, clients, a);
    DropUserEntries(s.hy2.value, name);
    AfterPublish(s, clients, a, |publish|);
    assert publish[..|publish|] == publish;
    if |users| < |s.hy2.value| {
      var write := WriteHy2(users, a);
      AfterConcat(s, publish, write);
      AfterHy2(After(s, publish), users, a, |write|);
      assert write[..|write|] == write;
      SortedSame(users);
    } else {
      AfterConcat(s, publish, []);
      assert publish + [] == publish;
      DropUserAll(s.hy2.value, name);
    }
  }

  // ---- What is refused -------------------------------------------------------

  /** The requests that are turned down before anything is written: bad names, a missing
      domain, a name that is taken or is not there, more than five users, an empty list
      nobody confirmed, incomplete users, a node without hysteria. */
  ghost predicate Refused(op: Op, s: Store, a: Answers) {
    match op
    case CliAdd(name, domain) =>
      !XrayConfig.ValidName(name) || domain == "" || |s.xray| >= 5 || exists c :: c in s.xray && c.name == name
    case CliRemove(name) =>
      !XrayConfig.ValidName(name) || forall c :: c in s.xray ==> c.name != name
    case Sync(users, confirmEmpty) =>
      || |users| > 5 || s.hy2.None?
      || (users == [] && !confirmEmpty && a.loadHy2 && s.hy2.value != [])
      || exists u :: u in users
                     && (!XrayConfig.ValidName(u.name) || TrimSpace(u.uuid) == "" || TrimSpace(u.password) == "")
    case AgentAdd(name) =>
      || !XrayConfig.ValidName(name) || s.hy2.None?
      || (|ClientNames(s.xray)| >= 5 && forall c :: c in s.xray ==> c.name != name)
    case AgentDelete(name) =>
      !XrayConfig.ValidName(name) || s.hy2.None? || forall c :: c in s.xray ==> c.name != name
  }

  lemma {:induction false} NamesCount(users: seq<SyncUser>)
    requires DistinctNames(users)
    ensures |SyncNames(users)| == |users|
  {
    if users == [] {
    } else {
      NamesCount(users[1..]);
      assert SyncNames(users) == {users[0].name} + SyncNames(users[1..]);
    }
  }

  /** Nothing outside fails, and what is generated is not blank. */
  ghost predicate Willing(a: Answers) {
    && a.loadXray && a.loadHy2 && a.render && a.valid && a.writeXray != NotWritten && a.restart
    && a.subscription && a.writeHy2 == Written && a.reload && a.uuid.Some? && a.password.Some?
    && TrimSpace(a.uuid.value) != "" && TrimSpace(a.password.value) != ""
  }

  lemma CliAddChecks(name: string, domain: string, s: Store, a: Answers)
    ensures var op := CliAdd(name, domain);
            && (Refused(op, s, a) ==> !Succeeds(op, s, a) && Plan(op, s, a) == [])
            && (Willing(a) && !Refused(op, s, a) ==> Succeeds(op, s, a))
  {
  }

  lemma CliRemoveChecks(name: string, s: Store, a: Answers)
    ensures var op := CliRemove(name);
            && (Refused(op, s, a) ==> !Succeeds(op, s, a) && Plan(op, s, a) == [])
            && (Willing(a) && !Refused(op, s, a) ==> Succeeds(op, s, a))
  {
  }

  lemma SyncChecks(users: seq<SyncUser>, confirmEmpty: bool, s: Store, a: Answers)
    ensures var op := Sync(users, confirmEmpty);
            && (Refused(op, s, a) ==> !Succeeds(op, s, a) && (Plan(op, s, a) == [] || s.hy2.None?))
            && (Willing(a) && !Refused(op, s, a) ==> Succeeds(op, s, a))
  {
  }

  /** The agent also needs complete credentials of the users it has. */
  ghost predicate Known(s: Store, a: Answers) {
    s.hy2.Some? && Loads(s, a) && Complete(CurrentUsers(s, a))
  }

  lemma AgentAddChecks(name: string, s: Store, a: Answers)
    ensures var op := AgentAdd(name);
            && (Refused(op, s, a) ==> !Succeeds(op, s, a) && Plan(op, s, a) == [])
            && (Willing(a) && Known(s, a) && !Refused(op, s, a) ==> Succeeds(op, s, a))
  {
    if s.hy2.Some? {
      var records := CurrentUsers(s, a);
      NamesCount(records);
      if a.uuid.Some? && a.password.Some? {
        var u := SyncUser(name, a.uuid.value, a.password.value);
        assert forall v :: v in records + [u] <==> v in records || v == u;
      }
    }
  }

  lemma AgentDeleteChecks(name: string, s: Store, a: Answers)
    ensures var op := AgentDelete(name);
            && (Refused(op, s, a) ==> !Succeeds(op, s, a) && Plan(op, s, a) == [])
            && (Willing(a) && Known(s, a) && !Refused(op, s, a) ==> Succeeds(op, s, a))
  {
  }

  /** Refused requests fail, and only a sync to a node without hysteria may write
      anything; everything else goes through when nothing outside fails. */
  lemma RefusedExactly(op: Op, s: Store, a: Answers)
    ensures Refused(op, s, a) ==> !Succeeds(op, s, a) && (Plan(op, s, a) == [] || (op.Sync? && s.hy2.None?))
    ensures Willing(a) && (op.AgentAdd? || op.AgentDelete? ==> Known(s, a))
            ==> (Succeeds(op, s, a) <==> !Refused(op, s, a))
  {
    match op
    case CliAdd(name, domain) => CliAddChecks(name, domain, s, a);
    case CliRemove(name) => CliRemoveChecks(name, s, a);
    case Sync(users, confirmEmpty) => SyncChecks(users, confirmEmpty, s, a);
    case AgentAdd(name) => AgentAddChecks(name, s, a);
    case AgentDelete(name) => AgentDeleteChecks(name, s, a);
  }

  /** An empty list empties both stores, unless nobody confirmed it and hysteria was seen
      to have users: when its file cannot be listed, the list goes through unconfirmed. */
  lemma EmptySync(confirmed: bool, s: Store, a: Answers)
    requires Willing(a.(loadHy2 := true)) && s.hy2.Some?
    ensures After(s, Plan(Sync([], confirmed), s, a))
            == if !confirmed && a.loadHy2 && s.hy2.value != [] then s else Store([], Some([]))
  {
    ApplyWrites([], s, a);
    SortedSame([]);
  }
}
