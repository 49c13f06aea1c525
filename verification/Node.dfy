/** The edits of the two user stores as the programs perform them: each method loads,
    decides and writes step by step, and is proved to make exactly the writes of the
    plan UserStores specifies, in that order. */
module Node {
  import opened Storage
  import opened Text
  import Hysteria
  import opened UserStores
  import XrayConfig

  /** The filter loop of RunRemoveUser. */
  method WithoutUser(users: seq<Hysteria.User>, name: string) returns (filtered: seq<Hysteria.User>)
    ensures filtered == DropUser(users, name)
  {
    filtered := [];
    for i := 0 to |users|
      invariant filtered == DropUser(users[..i], name)
    {
      DropUserLast(users[..i + 1], name);
      assert users[..i + 1][..i] == users[..i];
      if users[i].name != name {
        filtered := filtered + [users[i]];
      }
    }
    assert users[..|users|] == users;
  }

  lemma {:induction false} DropUserLast(users: seq<Hysteria.User>, name: string)
    requires users != []
    ensures var most, u := users[..|users| - 1], users[|users| - 1];
            DropUser(users, name) == if u.name == name then DropUser(most, name) else DropUser(most, name) + [u]
  {
    if |users| <= 1 {
    } else {
      var most, u := users[..|users| - 1], users[|users| - 1];
      DropUserLast(users[1..], name);
      assert users[1..][..|users| - 2] == most[1..];
      if u.name != name && most[0].name != name {
        assert [most[0]] + (DropUser(most[1..], name) + [u]) == [most[0]] + DropUser(most[1..], name) + [u];
      }
    }
  }

  /** The filter loop of handleUser, with its found flag. */
  method WithoutRecord(records: seq<SyncUser>, name: string) returns (filtered: seq<SyncUser>, found: bool)
    ensures filtered == DropSync(records, name)
    ensures found <==> name in SyncNames(records)
  {
    filtered, found := [], false;
    for i := 0 to |records|
      invariant filtered == DropSync(records[..i], name)
      invariant |filtered| <= i && (found <==> |filtered| < i)
    {
      DropSyncLast(records[..i + 1], name);
      assert records[..i + 1][..i] == records[..i];
      if records[i].name == name {
        found := true;
      } else {
        filtered := filtered + [records[i]];
      }
    }
    assert records[..|records|] == records;
    DropSyncNames(records, name);
  }

  lemma {:induction false} DropSyncLast(records: seq<SyncUser>, name: string)
    requires records != []
    ensures var most, u := records[..|records| - 1], records[|records| - 1];
            DropSync(records, name) == if u.name == name then DropSync(most, name) else DropSync(most, name) + [u]
  {
    if |records| <= 1 {
    } else {
      var most, u := records[..|records| - 1], records[|records| - 1];
      DropSyncLast(records[1..], name);
      assert records[1..][..|records| - 2] == most[1..];
      if u.name != name && most[0].name != name {
        assert [most[0]] + (DropSync(most[1..], name) + [u]) == [most[0]] + DropSync(most[1..], name) + [u];
      }
    }
  }

  /** currentSyncUsers: a map from name to record, filled in client order and read
      back in the map's own order. */
  method CurrentSyncUsers(s: Store, a: Answers) returns (records: Option<seq<SyncUser>>)
    ensures records.Some? <==> Loads(s, a)
    ensures records.Some? ==> records.value == CurrentUsers(s, a)
  {
    if !a.loadXray || s.hy2.None? || !a.loadHy2 {
      return None;
    }
    var byName := CollectRecords(s, a.minted);
    match byName
    case None => return None;
    case Some(collected) => return Some(Arrange(collected, a.order));
  }

  /** The loop state over the clients: those seen have credentials, and their records are
      what the rest of the clients have not got any more. */
  ghost predicate Collected(s: Store, minted: map<string, string>, i: nat, seen: set<string>, records: seq<SyncUser>)
    requires s.hy2.Some?
  {
    && i <= |s.xray|
    && (forall j :: 0 <= j < i ==> HasCredential(s.xray[j], s, minted) && s.xray[j].name in seen)
    && (forall n :: n in seen ==> PasswordOf(s.hy2.value, n) != "" || n in minted)
    && records + Records(s.xray[i..], seen, s, minted) == Records(s.xray, {}, s, minted)
  }

  lemma CollectedNext(s: Store, minted: map<string, string>, i: nat, seen: set<string>, records: seq<SyncUser>)
    requires s.hy2.Some? && Collected(s, minted, i, seen, records)
    requires i < |s.xray| && HasCredential(s.xray[i], s, minted)
    ensures var c := s.xray[i];
            if c.name in seen then Collected(s, minted, i + 1, seen, records)
            else Collected(s, minted, i + 1, seen + {c.name}, records + [Credential(c, s, minted)])
  {
    var c, rest := s.xray[i], s.xray[i..];
    assert rest[0] == c && rest[1..] == s.xray[i + 1..];
    if c.name !in seen {
      Regroup(records, [Credential(c, s, minted)], Records(rest[1..], seen + {c.name}, s, minted));
    }
  }

  /** The loop over the clients: an unknown uuid or a failed password generation ends it. */
  method CollectRecords(s: Store, minted: map<string, string>) returns (byName: Option<seq<SyncUser>>)
    requires s.hy2.Some?
    ensures byName.Some? <==> forall c :: c in s.xray ==> HasCredential(c, s, minted)
    ensures byName.Some? ==> byName.value == Records(s.xray, {}, s, minted)
  {
    var seen, records := {}, [];
    for i := 0 to |s.xray|
      invariant Collected(s, minted, i, seen, records)
    {
      var c := s.xray[i];
      var lacking := UuidOf(s.xray, c.name).None?
        || (c.name !in seen && PasswordOf(s.hy2.value, c.name) == "" && c.name !in minted);
      assert lacking <==> !HasCredential(c, s, minted);
      if lacking {
        assert c in s.xray;
        return None;
      }
      CollectedNext(s, minted, i, seen, records);
      if c.name !in seen {
        seen, records := seen + {c.name}, records + [Credential(c, s, minted)];
      }
    }
    return Some(records);
  }

  /** The node's two config files. The log lists the writes made so far. */
  class Node {
    var xray: seq<Client>
    var hy2: Option<seq<Hysteria.User>>
    ghost var log: seq<Write>

    constructor (s: Store)
      ensures Current() == s && log == []
    {
      xray, hy2, log := s.xray, s.hy2, [];
    }

    function Current(): Store
      reads this
    {
      Store(xray, hy2)
    }

    method SaveXray(clients: seq<Client>)
      modifies this
      ensures log == old(log) + [SetXray(clients)] && Current() == Do(old(Current()), SetXray(clients))
    {
      xray, log := clients, log + [SetXray(clients)];
    }

    method SaveHy2(users: seq<Hysteria.User>)
      modifies this
      ensures log == old(log) + [SetHy2(users)] && Current() == Do(old(Current()), SetHy2(users))
    {
      hy2, log := Some(users), log + [SetHy2(users)];
    }

    /** writeXrayConfigChecked: a write that is live but not durable counts as written. */
    method WriteXrayConfigChecked(clients: seq<Client>, a: Answers) returns (ok: bool)
      modifies this
      ensures ok == (a.valid && a.writeXray != NotWritten)
      ensures var w := if ok then [SetXray(clients)] else [];
              log == old(log) + w && Current() == After(old(Current()), w)
    {
      if !a.valid || a.writeXray == NotWritten {
        return false;
      }
      After1(Current(), SetXray(clients));
      SaveXray(clients);
      return true;
    }

    /** applyXrayConfig: publish, restart, and on a failed restart put the previous
        clients back. */
    method ApplyXrayConfig(clients: seq<Client>, a: Answers) returns (ok: bool)
      modifies this
      ensures ok == Published(a)
      ensures var w := PublishXray(old(xray), clients, a);
              log == old(log) + w && Current() == After(old(Current()), w)
    {
      var previous := xray;
      After2(Current(), SetXray(clients), SetXray(previous));
      ok := WriteXrayConfigChecked(clients, a);
      if ok && !a.restart {
        if a.restore != NotWritten {
          SaveXray(previous);
        }
        ok := false;
      }
    }

    /** hysteria.SetUsers: rewrites the userpass block in name order. */
    method SetUsers(users: seq<Hysteria.User>, a: Answers) returns (ok: bool)
      modifies this
      ensures ok == (a.writeHy2 == Written)
      ensures var w := WriteHy2(users, a);
              log == old(log) + w && Current() == After(old(Current()), w)
    {
      if a.writeHy2 == NotWritten {
        return false;
      }
      After1(Current(), SetHy2(Hysteria.SortByName(users)));
      SaveHy2(Hysteria.SortByName(users));
      return a.writeHy2 == Written;
    }

    method AddHysteriaUser(name: string, a: Answers) returns (ok: bool)
      modifies this
      ensures ok == Joined(name, old(Current()), a)
      ensures var w := JoinPlan(name, old(Current()), a);
              log == old(log) + w && Current() == After(old(Current()), w)
      ensures xray == old(xray)
    {
      ghost var s := Current();
      AfterJoin(name, s, a, |JoinPlan(name, s, a)|);
      assert JoinPlan(name, s, a)[..|JoinPlan(name, s, a)|] == JoinPlan(name, s, a);
      if hy2.None? {
        return true;
      }
      if !a.loadHy2 {
        return false;
      }
      if HasUser(hy2.value, name) {
        return true;
      }
      if a.password.None? {
        return false;
      }
      ok := SetUsers(hy2.value + [Hysteria.User(name, a.password.value)], a);
      ok := ok && a.reload;
    }

    method RunAddUser(name: string, domain: string, a: Answers) returns (ok: bool)
      modifies this
      ensures ok == Succeeds(CliAdd(name, domain), old(Current()), a)
      ensures var w := Plan(CliAdd(name, domain), old(Current()), a);
              log == old(log) + w && Current() == After(old(Current()), w)
    {
      if !XrayConfig.ValidName(name) || domain == "" {
        return false;
      }
      if !a.loadXray || |xray| >= MAX_USERS || HasClient(xray, name) || a.uuid.None? {
        return false;
      }
      AddPlan(name, domain, Current(), a);
      ok := JoinAndPublish(name, xray + [Client(name, a.uuid.value)], a);
      ok := ok && a.subscription;
    }

    method JoinAndPublish(name: string, clients: seq<Client>, a: Answers) returns (ok: bool)
      modifies this
      ensures ok == (Joined(name, old(Current()), a) && Published(a))
      ensures var s := old(Current());
              var w := JoinPlan(name, s, a) + if Joined(name, s, a) then PublishXray(s.xray, clients, a) else [];
              log == old(log) + w && Current() == After(s, w)
    {
      ghost var s := Current();
      AfterConcat(s, JoinPlan(name, s, a), PublishXray(xray, clients, a));
      ok := AddHysteriaUser(name, a);
      if ok {
        ok := ApplyXrayConfig(clients, a);
      } else {
        assert JoinPlan(name, s, a) + [] == JoinPlan(name, s, a);
      }
    }

    method RunRemoveUser(name: string, a: Answers) returns (ok: bool)
      modifies this
      ensures ok == Succeeds(CliRemove(name), old(Current()), a)
      ensures var w := Plan(CliRemove(name), old(Current()), a);
              log == old(log) + w && Current() == After(old(Current()), w)
    {
      if !XrayConfig.ValidName(name) || !a.loadXray || !HasClient(xray, name) {
        return false;
      }
      ghost var s := Current();
      ghost var first := PublishXray(xray, DropClient(xray, name), a);
      KeepsHy2(s, DropClient(xray, name), a);
      ok := ApplyXrayConfig(DropClient(xray, name), a);
      if !ok || !a.subscription {
        return false;
      }
      if hy2.None? {
        return true;
      }
      if !a.loadHy2 {
        return false;
      }
      var filtered := WithoutUser(hy2.value, name);
      if |filtered| < |hy2.value| {
        AfterConcat(s, first, WriteHy2(filtered, a));
        ok := SetUsers(filtered, a);
        ok := ok && a.reload;
      }
    }

    /** applyUsers: both files replaced by the given records. */
    method ApplyUsers(users: seq<SyncUser>, a: Answers) returns (ok: bool)
      modifies this
      ensures ok == ApplySucceeds(users, old(Current()), a)
      ensures var w := ApplyPlan(users, old(Current()), a);
              log == old(log) + w && Current() == After(old(Current()), w)
    {
      if !Complete(users) || !a.render {
        return false;
      }
      ghost var s := Current();
      ghost var first := PublishXray(xray, Clients(users), a);
      KeepsHy2(s, Clients(users), a);
      ok := ApplyXrayConfig(Clients(users), a);
      if !ok || hy2.None? {
        return false;
      }
      AfterConcat(s, first, WriteHy2(HyUsers(users), a));
      ok := SetUsers(HyUsers(users), a);
      ok := ok && a.reload && a.subscription;
    }

    method HandleSync(users: seq<SyncUser>, confirmEmpty: bool, a: Answers) returns (ok: bool)
      modifies this
      ensures ok == Succeeds(Sync(users, confirmEmpty), old(Current()), a)
      ensures var w := Plan(Sync(users, confirmEmpty), old(Current()), a);
              log == old(log) + w && Current() == After(old(Current()), w)
      ensures ok ==> Current() == Store(Clients(users), Some(Hysteria.SortByName(HyUsers(users))))
    {
      if |users| > MAX_USERS {
        return false;
      }
      if RefusesEmpty(users, confirmEmpty, Current(), a) {
        return false;
      }
      ghost var s := Current();
      ok := ApplyUsers(users, a);
      if ok {
        ApplyWrites(users, s, a);
      }
    }

    method HandleUsers(name: string, a: Answers) returns (ok: bool)
      modifies this
      ensures ok == Succeeds(AgentAdd(name), old(Current()), a)
      ensures var w := Plan(AgentAdd(name), old(Current()), a);
              log == old(log) + w && Current() == After(old(Current()), w)
    {
      if !XrayConfig.ValidName(name) {
        return false;
      }
      var loaded := CurrentSyncUsers(Current(), a);
      if loaded.None? {
        return false;
      }
      var records := loaded.value;
      if exists u :: u in records && u.name == name {
        assert name in SyncNames(records);
        ok := ApplyUsers(records, a);
        return;
      }
      assert name !in SyncNames(records);
      if |records| + 1 > MAX_USERS || a.uuid.None? || a.password.None? {
        return false;
      }
      ok := ApplyUsers(records + [SyncUser(name, a.uuid.value, a.password.value)], a);
    }

    method HandleUser(name: string, a: Answers) returns (ok: bool)
      modifies this
      ensures ok == Succeeds(AgentDelete(name), old(Current()), a)
      ensures var w := Plan(AgentDelete(name), old(Current()), a);
              log == old(log) + w && Current() == After(old(Current()), w)
    {
      if !XrayConfig.ValidName(name) {
        return false;
      }
      var loaded := CurrentSyncUsers(Current(), a);
      if loaded.None? {
        return false;
      }
      var filtered, found := WithoutRecord(loaded.value, name);
      if !found {
        return false;
      }
      ok := ApplyUsers(filtered, a);
    }
  }

  lemma KeepsHy2(s: Store, clients: seq<Client>, a: Answers)
    ensures After(s, PublishXray(s.xray, clients, a)).hy2 == s.hy2
  {
    var w := PublishXray(s.xray, clients, a);
    AfterPublish(s, clients, a, |w|);
    assert w[..|w|] == w;
  }
}
