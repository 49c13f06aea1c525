/** The upgrade of a node (internal/commands/install.go, runUpgradeCore): back up the
    config directory, prune old backups, rewrite configs and DNS, and on any failure
    roll back. A directory is a map from relative path to content. */
module Upgrade {
  import opened Storage
  import opened Text

  type Tree = map<string, string>

  const KEEP_BACKUPS := 3
  const PREFIX := "cfvpn.backup-"
  const MAX_INT64 := 0x7FFF_FFFF_FFFF_FFFF

  // ---- Pruning -------------------------------------------------------------

  /** The time in a backup directory's name; other names have none. */
  function Stamp(name: string): Option<nat> {
    if !HasPrefix(name, PREFIX) then None
    else
      var digits := name[|PREFIX|..];
      if digits == "" || !IsDigits(digits) || Number(digits) > MAX_INT64 then None else Some(Number(digits))
  }

  function BackupName(now: nat): string {
    PREFIX + Digits(now)
  }

  lemma StampOfName(now: nat)
    requires now <= MAX_INT64
    ensures Stamp(BackupName(now)) == Some(now)
  {
    NumberOfDigits(now);
    assert BackupName(now)[|PREFIX|..] == Digits(now);
  }

  /** Exactly the names of the pattern are backups, unless the time does not fit 64 bits. */
  lemma StampExactly(name: string, time: nat)
    ensures Stamp(name) == Some(time)
            <==> exists digits :: digits != "" && IsDigits(digits) && name == "cfvpn.backup-" + digits
                                  && Number(digits) == time <= 0x7FFF_FFFF_FFFF_FFFF
  {
    if HasPrefix(name, PREFIX) {
      assert name == PREFIX + name[|PREFIX|..];
    }
    forall digits | name == PREFIX + digits ensures HasPrefix(name, PREFIX) && name[|PREFIX|..] == digits {
    }
  }

  datatype Backup = Backup(name: string, time: nat)

  predicate NewestFirst(bs: seq<Backup>) {
    forall i, j :: 0 <= i < j < |bs| ==> bs[i].time >= bs[j].time
  }

  predicate DistinctNames(bs: seq<Backup>) {
    forall i, j :: 0 <= i < j < |bs| ==> bs[i].name != bs[j].name
  }

  /** bs lists exactly the backups among the names, once each. */
  ghost predicate Lists(bs: seq<Backup>, names: set<string>) {
    && DistinctNames(bs)
    && (forall b :: b in bs ==> b.name in names && Stamp(b.name) == Some(b.time))
    && (forall n :: n in names && Stamp(n).Some? ==> Backup(n, Stamp(n).value) in bs)
  }

  function InsertNewest(b: Backup, bs: seq<Backup>): seq<Backup> {
    if bs == [] || b.time > bs[0].time then [b] + bs else [bs[0]] + InsertNewest(b, bs[1..])
  }

  lemma {:induction false} InsertNewestKeeps(b: Backup, bs: seq<Backup>)
    requires NewestFirst(bs) && DistinctNames(bs) && forall c :: c in bs ==> c.name != b.name
    ensures NewestFirst(InsertNewest(b, bs)) && DistinctNames(InsertNewest(b, bs))
    ensures forall c :: c in InsertNewest(b, bs) <==> c == b || c in bs
  {
    if bs == [] || b.time > bs[0].time {
    } else {
      InsertNewestKeeps(b, bs[1..]);
      assert bs == [bs[0]] + bs[1..];
      var rest := InsertNewest(b, bs[1..]);
      forall j | 0 <= j < |rest| ensures bs[0].time >= rest[j].time && bs[0].name != rest[j].name {
        assert rest[j] in rest;
      }
    }
  }

  /** The names kept when at most keep survive. */
  ghost predicate KeepsNewest(kept: set<string>, names: set<string>, keep: nat) {
    var backups := set n | n in names && Stamp(n).Some?;
    && kept <= backups
    && |kept| == (if |backups| <= keep then |backups| else keep)
    && forall k, n :: k in kept && n in backups - kept ==> Stamp(k).value >= Stamp(n).value
  }

  /** Scan the directory and sort what it holds, newest first. */
  method SortedBackups(names: set<string>) returns (bs: seq<Backup>)
    ensures Lists(bs, names) && NewestFirst(bs)
  {
    bs := [];
    var rest := names;
    while rest != {}
      invariant rest <= names && Lists(bs, names - rest) && NewestFirst(bs)
      decreases |rest|
    {
      var name :| name in rest;
      if Stamp(name).Some? {
        var b := Backup(name, Stamp(name).value);
        InsertNewestKeeps(b, bs);
        bs := InsertNewest(b, bs);
      }
      rest := rest - {name};
    }
    assert names - {} == names;
  }

  ghost function NamesOf(bs: seq<Backup>): set<string> {
    set b | b in bs :: b.name
  }

  lemma {:induction false} NamesCount(bs: seq<Backup>)
    requires DistinctNames(bs)
    ensures |NamesOf(bs)| == |bs|
  {
    if bs == [] {
    } else {
      var before, last := bs[..|bs| - 1], bs[|bs| - 1];
      NamesCount(before);
      assert bs == before + [last];
      assert NamesOf(bs) == NamesOf(before) + {last.name};
    }
  }

  lemma ListedNames(bs: seq<Backup>, names: set<string>)
    requires Lists(bs, names)
    ensures NamesOf(bs) == set n | n in names && Stamp(n).Some?
    ensures |set n | n in names && Stamp(n).Some?| == |bs|
  {
    NamesCount(bs);
    var backups := set n | n in names && Stamp(n).Some?;
    forall n ensures n in NamesOf(bs) <==> n in backups {
      if n in backups {
        assert Backup(n, Stamp(n).value) in bs;
      }
    }
    assert NamesOf(bs) == backups;
  }

  lemma KeptIsNewer(bs: seq<Backup>, n: nat, i: nat, name: string)
    requires NewestFirst(bs) && n <= |bs| && i < n && name in NamesOf(bs) && name !in NamesOf(bs[..n])
    ensures exists j :: n <= j < |bs| && bs[j].name == name && bs[i].time >= bs[j].time
  {
    var j :| 0 <= j < |bs| && bs[j].name == name;
    assert forall k :: 0 <= k < n ==> bs[..n][k] in bs[..n] && bs[..n][k].name in NamesOf(bs[..n]);
    assert j >= n ==> bs[i].time >= bs[j].time;
  }

  lemma FirstAreNewest(bs: seq<Backup>, names: set<string>, keep: nat)
    requires Lists(bs, names) && NewestFirst(bs)
    ensures KeepsNewest(NamesOf(if |bs| <= keep then bs else bs[..keep]), names, keep)
  {
    var n := if |bs| <= keep then |bs| else keep;
    var first := bs[..n];
    assert first == if |bs| <= keep then bs else bs[..keep];
    ListedNames(bs, names);
    NamesCount(first);
    var backups := set m | m in names && Stamp(m).Some?;
    forall k, m | k in NamesOf(first) && m in backups - NamesOf(first) ensures Stamp(k).value >= Stamp(m).value {
      var i :| 0 <= i < n && bs[i].name == k;
      KeptIsNewer(bs, n, i, m);
    }
  }

  /** The backup in use survives when fewer than keep others are as new: the precondition
      is exact up to equal times, where the order of the sort decides. */
  lemma Survives(kept: set<string>, names: set<string>, keep: nat, mine: string)
    requires KeepsNewest(kept, names, keep) && mine in names && Stamp(mine).Some?
    requires |set n | n in names && Stamp(n).Some? && n != mine && Stamp(n).value >= Stamp(mine).value| < keep
    ensures mine in kept
  {
    var backups := set n | n in names && Stamp(n).Some?;
    var others := set n | n in names && Stamp(n).Some? && n != mine && Stamp(n).value >= Stamp(mine).value;
    assert mine in backups;
    if mine !in kept {
      SubsetSize(kept, backups - {mine});
      SubsetSize(kept, others);
    }
  }

  /** And it does not when keep others are newer. */
  lemma Pruned(kept: set<string>, names: set<string>, keep: nat, mine: string)
    requires KeepsNewest(kept, names, keep) && mine in names && Stamp(mine).Some?
    requires |set n | n in names && Stamp(n).Some? && Stamp(n).value > Stamp(mine).value| >= keep
    ensures mine !in kept
  {
    var newer := set n | n in names && Stamp(n).Some? && Stamp(n).value > Stamp(mine).value;
    if mine in kept {
      SubsetSize(newer, kept - {mine});
    }
  }

  lemma {:induction false} SubsetSize(a: set<string>, b: set<string>)
    requires a <= b
    ensures |a| <= |b|
  {
    if a == {} {
    } else {
      var x :| x in a;
      SubsetSize(a - {x}, b - {x});
    }
  }

  // ---- The upgrade ---------------------------------------------------------

  const XRAY := "xray/config.json"
  const CLOUDFLARED := "cloudflared/config.yml"
  const ENV := "cfvpn.env"

  datatype Inputs = Inputs(direct: bool, now: nat, newHost: string, hy2Host: string, adminHost: string, ip: string,
                           tunnel: string, xray: string, cloudflared: string, env: string)

  /** What everything outside answers; true is success. prepare covers host generation,
      IP detection, reading the users and rendering; units writing, reloading and
      enabling them. The undo answers and the two restore steps belong to the rollback. */
  datatype Answers = Answers(
    backup: bool, list: bool, stuck: set<string>, prepare: bool, valid: bool, writeXray: WriteResult,
    render: bool, writeCloudflared: WriteResult, upsertHost: bool, upsertHy2: bool, restart: bool,
    saveEnv: WriteResult, subscriptions: bool, adminRecord: bool, units: bool,
    undoHost: bool, undoHy2: bool, removeConfig: bool, restoreConfig: bool)

  /** An address record the run created, and whether deleting it again will work. */
  datatype Created = Created(host: string, undo: bool)

  function Upgraded(config: Tree, i: Inputs): Tree {
    config[XRAY := i.xray][CLOUDFLARED := i.cloudflared][ENV := i.env]
  }

  /** copyTree onto what the destination may already hold. */
  function CopyTree(src: Tree, dst: Tree): Tree {
    dst + src
  }

  function TreeAt(dirs: map<string, Tree>, name: string): Tree {
    if name in dirs then dirs[name] else map[]
  }

  function AfterBackup(dirs: map<string, Tree>, config: Tree, now: nat): map<string, Tree> {
    dirs[BackupName(now) := CopyTree(config, TreeAt(dirs, BackupName(now)))]
  }

  /** The backups a prune that keeps these removes. */
  function Outdated(names: set<string>, kept: set<string>): set<string> {
    set n | n in names && Stamp(n).Some? && n !in kept
  }

  function Hosts(created: seq<Created>): set<string> {
    set c | c in created :: c.host
  }

  function Deleted(created: seq<Created>): set<string> {
    set c | c in created && c.undo :: c.host
  }

  /** An xray write that is live but not durable is taken as done, a cloudflared write
      is not. */
  predicate ConfigsWritten(a: Answers) {
    a.prepare && a.valid && a.writeXray != NotWritten && a.render && a.writeCloudflared == Written
  }

  /** Every step up to the subscriptions went well. */
  predicate Switched(i: Inputs, a: Answers) {
    && ConfigsWritten(a) && a.upsertHost && (i.hy2Host == "" || a.upsertHy2)
    && a.restart && a.saveEnv == Written && a.subscriptions
  }

  /** Every step up to the last went well. */
  predicate AllWell(i: Inputs, a: Answers) {
    Switched(i, a) && a.adminRecord && a.units
  }

  /** The address records that go through once their step is reached. */
  function RecordsMade(i: Inputs, a: Answers): seq<Created> {
    (if a.upsertHost && i.direct then [Created(i.newHost, a.undoHost)] else [])
    + if a.upsertHost && i.hy2Host != "" && a.upsertHy2 then [Created(i.hy2Host, a.undoHy2)] else []
  }

  /** The address records a run makes before it fails or finishes. */
  function Published(i: Inputs, a: Answers): seq<Created> {
    if a.backup && ConfigsWritten(a) then RecordsMade(i, a) else []
  }

  /** The aliases it points at the tunnel: the host of a cloudflare node, and the admin
      host in both modes. */
  function Aliased(i: Inputs, a: Answers): set<string> {
    (if a.backup && ConfigsWritten(a) && a.upsertHost && !i.direct then {i.newHost} else {})
    + if a.backup && Switched(i, a) && a.adminRecord then {i.adminHost} else {}
  }

  function Pointing(hosts: set<string>, target: string): map<string, string> {
    map h | h in hosts :: target
  }

  /** The address records once the run is over. */
  function EndAddresses(before: map<string, string>, i: Inputs, a: Answers): map<string, string> {
    var made := before + Pointing(Hosts(Published(i, a)), i.ip);
    if a.backup && AllWell(i, a) then made else made - Deleted(Published(i, a))
  }

  // ---- What a run leaves, read off its inputs --------------------------------

  /** The run got as far as the DNS records. */
  ghost predicate AtRecords(a: Answers) {
    && a.backup && a.prepare && a.valid && a.writeXray != NotWritten && a.render && a.writeCloudflared == Written
    && a.upsertHost
  }

  ghost predicate Succeeds(i: Inputs, a: Answers) {
    && AtRecords(a) && (i.hy2Host != "" ==> a.upsertHy2) && a.restart && a.saveEnv == Written
    && a.subscriptions && a.adminRecord && a.units
  }

  /** Host by host: the new host of a direct node and the HY2 host have the address, unless
      the run failed and took it back; every other host has what it had. */
  ghost predicate AddressesLeft(before: map<string, string>, after: map<string, string>, i: Inputs, a: Answers) {
    forall h ::
      var isHost, isHy2 := i.direct && h == i.newHost, i.hy2Host != "" && a.upsertHy2 && h == i.hy2Host;
      var takenBack := !Succeeds(i, a) && ((isHost && a.undoHost) || (isHy2 && a.undoHy2));
      if !AtRecords(a) || !(isHost || isHy2) then
        (h in after <==> h in before) && (h in before ==> after[h] == before[h])
      else if takenBack then h !in after
      else h in after && after[h] == i.ip
  }

  /** The new host of a cloudflare node points at the tunnel, and so does the admin host
      once the subscriptions are written; a failed run takes neither back. */
  ghost predicate AliasesLeft(before: map<string, string>, after: map<string, string>, i: Inputs, a: Answers) {
    forall h ::
      var isHost := AtRecords(a) && !i.direct && h == i.newHost;
      var isAdmin := AtRecords(a) && (i.hy2Host != "" ==> a.upsertHy2) && a.restart && a.saveEnv == Written
                     && a.subscriptions && a.adminRecord && h == i.adminHost;
      if isHost || isAdmin then h in after && after[h] == i.tunnel
      else (h in after <==> h in before) && (h in before ==> after[h] == before[h])
  }

  /** The three files of the config directory that an upgrade writes, and the others. */
  ghost predicate ConfigLeft(before: Tree, after: Tree, i: Inputs) {
    forall p ::
      if p == "xray/config.json" then p in after && after[p] == i.xray
      else if p == "cloudflared/config.yml" then p in after && after[p] == i.cloudflared
      else if p == "cfvpn.env" then p in after && after[p] == i.env
      else (p in after <==> p in before) && (p in before ==> after[p] == before[p])
  }

  lemma ConfigIs(config: Tree, i: Inputs)
    ensures ConfigLeft(config, Upgraded(config, i), i)
  {
  }

  lemma RecordsAre(i: Inputs, a: Answers)
    ensures forall c :: c in RecordsMade(i, a) <==>
              a.upsertHost && ((i.direct && c == Created(i.newHost, a.undoHost))
                               || (i.hy2Host != "" && a.upsertHy2 && c == Created(i.hy2Host, a.undoHy2)))
  {
    var made := RecordsMade(i, a);
    assert a.upsertHost && i.direct ==> made[0] == Created(i.newHost, a.undoHost);
    assert a.upsertHost && i.hy2Host != "" && a.upsertHy2 ==> made[|made| - 1] == Created(i.hy2Host, a.undoHy2);
  }

  lemma AddressesAre(before: map<string, string>, i: Inputs, a: Answers)
    ensures AddressesLeft(before, EndAddresses(before, i, a), i, a)
  {
    RecordsAre(i, a);
    var made := Published(i, a);
    assert AtRecords(a) <==> a.backup && ConfigsWritten(a) && a.upsertHost;
    assert Succeeds(i, a) <==> a.backup && AllWell(i, a);
    forall h
      ensures h in Hosts(made) <==>
              AtRecords(a) && ((i.direct && h == i.newHost) || (i.hy2Host != "" && a.upsertHy2 && h == i.hy2Host))
      ensures h in Deleted(made) <==>
              AtRecords(a) && ((i.direct && h == i.newHost && a.undoHost)
                               || (i.hy2Host != "" && a.upsertHy2 && h == i.hy2Host && a.undoHy2))
    {
      assert h in Hosts(made) <==> exists c :: c in made && c.host == h;
      assert h in Deleted(made) <==> exists c :: c in made && c.undo && c.host == h;
      if AtRecords(a) && i.direct {
        assert Created(i.newHost, a.undoHost) in made;
      }
      if AtRecords(a) && i.hy2Host != "" && a.upsertHy2 {
        assert Created(i.hy2Host, a.undoHy2) in made;
      }
    }
  }

  lemma AliasesAre(before: map<string, string>, i: Inputs, a: Answers)
    ensures AliasesLeft(before, before + Pointing(Aliased(i, a), i.tunnel), i, a)
  {
  }

  // ---- The node --------------------------------------------------------------

  class Node {
    /** The config directory, the directories of the backup root, and the DNS records. */
    var config: Tree
    var dirs: map<string, Tree>
    var addresses: map<string, string>
    var aliases: map<string, string>
    var createdA: seq<Created>

    constructor (config: Tree, dirs: map<string, Tree>, addresses: map<string, string>, aliases: map<string, string>)
      ensures this.config == config && this.dirs == dirs && this.addresses == addresses && this.aliases == aliases
      ensures createdA == []
    {
      this.config, this.dirs, this.addresses, this.aliases, createdA := config, dirs, addresses, aliases, [];
    }

    /** pruneConfigBackups. A directory that cannot be removed stays. */
    method PruneConfigBackups(keep: nat, list: bool, stuck: set<string>) returns (ghost kept: set<string>)
      modifies this`dirs
      ensures list ==> KeepsNewest(kept, old(dirs).Keys, keep)
      ensures dirs == old(dirs) - if list then Outdated(old(dirs).Keys, kept) - stuck else {}
    {
      kept := {};
      if !list {
        assert dirs == dirs - {};
        return;
      }
      var before := dirs;
      var bs := SortedBackups(before.Keys);
      FirstAreNewest(bs, before.Keys, keep);
      if |bs| <= keep {
        kept := NamesOf(bs);
        OutdatedAre(bs, before.Keys, |bs|);
        assert bs[..|bs|] == bs && dirs == dirs - {};
        return;
      }
      kept := NamesOf(bs[..keep]);
      OutdatedAre(bs, before.Keys, keep);
      DeleteAll(bs[keep..], stuck);
    }

    method DeleteAll(bs: seq<Backup>, stuck: set<string>)
      modifies this`dirs
      ensures dirs == old(dirs) - (NamesOf(bs) - stuck)
    {
      for i := 0 to |bs|
        invariant dirs == old(dirs) - (NamesOf(bs[..i]) - stuck)
      {
        assert bs[..i + 1] == bs[..i] + [bs[i]];
        assert NamesOf(bs[..i + 1]) == NamesOf(bs[..i]) + {bs[i].name};
        if bs[i].name !in stuck {
          dirs := dirs - {bs[i].name};
        }
      }
      assert bs[..|bs|] == bs;
    }

    method Rollback(backup: string, a: Answers)
      modifies this`config, this`addresses
      ensures addresses == old(addresses) - Deleted(createdA)
      ensures config == if !a.removeConfig then old(config)
                        else if a.restoreConfig then TreeAt(dirs, backup)
                        else map[]
    {
      for k := 0 to |createdA|
        invariant config == old(config)
        invariant addresses == old(addresses) - Deleted(createdA[..k])
      {
        DeletedNext(createdA, k);
        if createdA[k].undo {
          addresses := addresses - {createdA[k].host};
        }
      }
      assert createdA[..|createdA|] == createdA;
      if a.removeConfig {
        config := map[];
        if a.restoreConfig && backup in dirs {
          config := dirs[backup];
        }
      }
    }

    /** The steps that write the config directory up to the DNS records. */
    method WriteConfigs(i: Inputs, a: Answers) returns (ok: bool)
      modifies this`config
      ensures ok == ConfigsWritten(a)
      ensures ok ==> config == old(config)[XRAY := i.xray][CLOUDFLARED := i.cloudflared]
    {
      if !a.prepare {
        return false;
      }
      if !a.valid || a.writeXray == NotWritten {
        return false;
      }
      config := config[XRAY := i.xray];
      if !a.render {
        return false;
      }
      if a.writeCloudflared != NotWritten {
        config := config[CLOUDFLARED := i.cloudflared];
      }
      return a.writeCloudflared == Written;
    }

    /** Creates or replaces an address record and remembers it for the rollback. */
    method UpsertAddress(host: string, undo: bool, ip: string, ghost before: map<string, string>)
      requires addresses == before + Pointing(Hosts(createdA), ip)
      modifies this`addresses, this`createdA
      ensures createdA == old(createdA) + [Created(host, undo)]
      ensures addresses == before + Pointing(Hosts(createdA), ip)
    {
      HostsAppend(createdA, Created(host, undo));
      assert before + Pointing(Hosts(createdA) + {host}, ip) == (before + Pointing(Hosts(createdA), ip))[host := ip];
      addresses, createdA := addresses[host := ip], createdA + [Created(host, undo)];
    }

    /** The records: an address on a direct node, an alias otherwise, and the HY2 one. */
    method PublishRecords(i: Inputs, a: Answers) returns (ok: bool)
      requires createdA == []
      modifies this`addresses, this`aliases, this`createdA
      ensures createdA == RecordsMade(i, a) && addresses == old(addresses) + Pointing(Hosts(createdA), i.ip)
      ensures ok == (a.upsertHost && (i.hy2Host == "" || a.upsertHy2))
      ensures aliases == if a.upsertHost && !i.direct then old(aliases)[i.newHost := i.tunnel] else old(aliases)
    {
      ghost var before := addresses;
      assert Hosts([]) == {} && before + Pointing({}, i.ip) == before;
      if !a.upsertHost {
        return false;
      }
      if i.direct {
        UpsertAddress(i.newHost, a.undoHost, i.ip, before);
      } else {
        aliases := aliases[i.newHost := i.tunnel];
      }
      if i.hy2Host == "" {
        return true;
      }
      if !a.upsertHy2 {
        return false;
      }
      UpsertAddress(i.hy2Host, a.undoHy2, i.ip, before);
      return true;
    }

    /** runUpgradeCore. On success the three files are the new ones and every other file is
        untouched. On a failure after the backup whose rollback works, the config
        directory is the backup's copy, or empty if the prune removed the backup. A failed
        run deletes the address records it made as far as the deletions work, and leaves
        every alias it made. */
    method RunUpgradeCore(i: Inputs, a: Answers) returns (ok: bool, ghost kept: set<string>)
      requires createdA == []
      modifies this
      ensures ok == (a.backup && AllWell(i, a)) && createdA == Published(i, a)
      ensures ok ==> config == Upgraded(old(config), i)
      ensures !a.backup ==> config == old(config) && dirs == old(dirs)
      ensures a.backup && a.list ==> KeepsNewest(kept, old(dirs).Keys + {BackupName(i.now)}, KEEP_BACKUPS)
      ensures a.backup ==>
                dirs == AfterBackup(old(dirs), old(config), i.now)
                        - if a.list then Outdated(old(dirs).Keys + {BackupName(i.now)}, kept) - a.stuck else {}
      ensures !ok && a.backup && a.removeConfig
              ==> config == if a.restoreConfig then TreeAt(dirs, BackupName(i.now)) else map[]
      ensures addresses == EndAddresses(old(addresses), i, a)
      ensures aliases == old(aliases) + Pointing(Aliased(i, a), i.tunnel)
      ensures ok == Succeeds(i, a) && (ok ==> ConfigLeft(old(config), config, i))
      ensures AddressesLeft(old(addresses), addresses, i, a) && AliasesLeft(old(aliases), aliases, i, a)
    {
      ConfigIs(config, i);
      AddressesAre(addresses, i, a);
      AliasesAre(aliases, i, a);
      kept := {};
      if !a.backup {
        NothingMade(addresses, aliases, i);
        return false, kept;
      }
      kept := BackUp(i.now, a);
      ok := Steps(i, a);
      if !ok {
        Rollback(BackupName(i.now), a);
      }
    }

    method BackUp(now: nat, a: Answers) returns (ghost kept: set<string>)
      modifies this`dirs
      ensures a.list ==> KeepsNewest(kept, old(dirs).Keys + {BackupName(now)}, KEEP_BACKUPS)
      ensures dirs == AfterBackup(old(dirs), config, now)
                      - if a.list then Outdated(old(dirs).Keys + {BackupName(now)}, kept) - a.stuck else {}
    {
      var backup := BackupName(now);
      dirs := dirs[backup := CopyTree(config, TreeAt(dirs, backup))];
      assert dirs.Keys == old(dirs).Keys + {backup};
      kept := PruneConfigBackups(KEEP_BACKUPS, a.list, a.stuck);
    }

    /** Everything after the backup, up to the first failure. */
    method Steps(i: Inputs, a: Answers) returns (ok: bool)
      requires createdA == [] && a.backup
      modifies this`config, this`addresses, this`aliases, this`createdA
      ensures ok == AllWell(i, a) && createdA == Published(i, a)
      ensures ok ==> config == Upgraded(old(config), i)
      ensures addresses == old(addresses) + Pointing(Hosts(createdA), i.ip)
      ensures aliases == old(aliases) + Pointing(Aliased(i, a), i.tunnel)
    {
      NothingMade(addresses, aliases, i);
      ok := WriteConfigs(i, a);
      if !ok {
        return;
      }
      ok := PublishRecords(i, a);
      if !ok || !a.restart {
        return false;
      }
      ghost var before := aliases;
      ok := Finish(i, a);
      AdminAdded(old(aliases), before, i, a);
    }

    /** The env, the subscriptions, the admin record and the units. */
    method Finish(i: Inputs, a: Answers) returns (ok: bool)
      modifies this`config, this`aliases
      ensures ok == (a.saveEnv == Written && a.subscriptions && a.adminRecord && a.units)
      ensures config == if a.saveEnv == NotWritten then old(config) else old(config)[ENV := i.env]
      ensures aliases == if a.saveEnv == Written && a.subscriptions && a.adminRecord
                         then old(aliases)[i.adminHost := i.tunnel]
                         else old(aliases)
    {
      if a.saveEnv != NotWritten {
        config := config[ENV := i.env];
      }
      if a.saveEnv != Written || !a.subscriptions || !a.adminRecord {
        return false;
      }
      aliases := aliases[i.adminHost := i.tunnel];
      return a.units;
    }
  }

  lemma RestNames(bs: seq<Backup>, keep: nat)
    requires DistinctNames(bs) && keep <= |bs|
    ensures NamesOf(bs[keep..]) == NamesOf(bs) - NamesOf(bs[..keep])
  {
    assert bs == bs[..keep] + bs[keep..];
    assert NamesOf(bs) == NamesOf(bs[..keep]) + NamesOf(bs[keep..]);
    forall n | n in NamesOf(bs[keep..]) ensures n !in NamesOf(bs[..keep]) {
      var j :| 0 <= j < |bs[keep..]| && bs[keep..][j].name == n;
      assert bs[keep + j].name == n;
    }
  }

  lemma OutdatedAre(bs: seq<Backup>, names: set<string>, n: nat)
    requires Lists(bs, names) && n <= |bs|
    ensures Outdated(names, NamesOf(bs[..n])) == NamesOf(bs[n..])
  {
    ListedNames(bs, names);
    RestNames(bs, n);
  }

  // ---- When the rollback restores ------------------------------------------

  /** Nothing in an older backup of the same second is missing from the config. */
  predicate NoLeftovers(dirs: map<string, Tree>, config: Tree, now: nat) {
    forall p :: p in TreeAt(dirs, BackupName(now)) ==> p in config
  }

  /** Backups at least as new as this one, other than it. */
  function AsNew(dirs: map<string, Tree>, now: nat): set<string> {
    set n | n in dirs && n != BackupName(now) && Stamp(n).Some? && Stamp(n).value >= now
  }

  function Newer(dirs: map<string, Tree>, now: nat): set<string> {
    set n | n in dirs && Stamp(n).Some? && Stamp(n).value > now
  }

  /** The backup copy equals the config exactly when it has no leftovers. */
  lemma CopyIsSnapshot(dirs: map<string, Tree>, config: Tree, now: nat)
    ensures AfterBackup(dirs, config, now)[BackupName(now)] == config <==> NoLeftovers(dirs, config, now)
  {
    var old1 := TreeAt(dirs, BackupName(now));
    if NoLeftovers(dirs, config, now) {
      assert old1 + config == config;
    } else {
      var p :| p in old1 && p !in config;
      assert p in old1 + config;
    }
  }

  /** After the prune of a run that listed the backups: with fewer than KEEP_BACKUPS
      others as new, the rollback's copy is the snapshot exactly when there were no
      leftovers; with KEEP_BACKUPS newer ones it is gone, unless its removal failed. */
  lemma RollbackCopy(dirs: map<string, Tree>, config: Tree, now: nat, kept: set<string>)
    requires now <= MAX_INT64
    requires KeepsNewest(kept, dirs.Keys + {BackupName(now)}, KEEP_BACKUPS)
    ensures |AsNew(dirs, now)| < KEEP_BACKUPS ==> BackupName(now) in kept
    ensures |Newer(dirs, now)| >= KEEP_BACKUPS ==> BackupName(now) !in kept
  {
    var mine, names := BackupName(now), dirs.Keys + {BackupName(now)};
    StampOfName(now);
    var asNew := set n | n in names && Stamp(n).Some? && n != mine && Stamp(n).value >= Stamp(mine).value;
    var newer := set n | n in names && Stamp(n).Some? && Stamp(n).value > Stamp(mine).value;
    assert asNew == AsNew(dirs, now) && newer == Newer(dirs, now);
    if |asNew| < KEEP_BACKUPS {
      Survives(kept, names, KEEP_BACKUPS, mine);
    }
    if |newer| >= KEEP_BACKUPS {
      Pruned(kept, names, KEEP_BACKUPS, mine);
    }
  }

  /** The backup of this run outlives its own prune: the listing failed, its removal
      would fail, or fewer than KEEP_BACKUPS others are as new. */
  predicate BackupStays(dirs: map<string, Tree>, i: Inputs, a: Answers) {
    !a.list || BackupName(i.now) in a.stuck || |AsNew(dirs, i.now)| < KEEP_BACKUPS
  }

  /** A whole failing run, from the state before it: when do the config directory and the
      DNS records come back exactly. */
  method UpgradeFails(node: Node, i: Inputs, a: Answers) returns (ok: bool)
    requires node.createdA == [] && i.now <= MAX_INT64
    modifies node
    ensures !ok && a.backup && a.removeConfig && a.restoreConfig && BackupStays(old(node.dirs), i, a)
            ==> (node.config == old(node.config) <==> NoLeftovers(old(node.dirs), old(node.config), i.now))
    ensures !ok && a.backup && a.removeConfig && a.restoreConfig
            && a.list && BackupName(i.now) !in a.stuck && |Newer(old(node.dirs), i.now)| >= KEEP_BACKUPS
            ==> node.config == map[]
    ensures !ok ==> (node.addresses == old(node.addresses) <==>
                     forall h :: h in Hosts(Published(i, a)) ==>
                       if h in Deleted(Published(i, a)) then h !in old(node.addresses)
                       else h in old(node.addresses) && old(node.addresses)[h] == i.ip)
    ensures !ok ==> (node.aliases == old(node.aliases) <==>
                     forall h :: h in Aliased(i, a) ==>
                       h in old(node.aliases) && old(node.aliases)[h] == i.tunnel)
  {
    ghost var dirs, config, addresses, aliases := node.dirs, node.config, node.addresses, node.aliases;
    ghost var kept;
    ok, kept := node.RunUpgradeCore(i, a);
    if !ok {
      PutAndTaken(addresses, Hosts(Published(i, a)), Deleted(Published(i, a)), i.ip);
      PutAndTaken(aliases, Aliased(i, a), {}, i.tunnel);
      assert node.aliases - {} == node.aliases;
      if a.backup {
        if a.list {
          RollbackCopy(dirs, config, i.now, kept);
        }
        CopyIsSnapshot(dirs, config, i.now);
        StampOfName(i.now);
      }
    }
  }

  /** The HY2 record does not come back when a later step fails: a run whose restart
      fails deletes it although it was there before. */
  method Hy2RecordLost(node: Node, i: Inputs, a: Answers) returns (ok: bool)
    requires node.createdA == [] && i.hy2Host != "" && i.hy2Host in node.addresses
    requires a.backup && ConfigsWritten(a) && a.upsertHost && a.upsertHy2 && !a.restart && a.undoHy2
    modifies node
    ensures !ok && i.hy2Host !in node.addresses
  {
    ghost var kept;
    ok, kept := node.RunUpgradeCore(i, a);
    ghost var made := Published(i, a);
    assert made[|made| - 1] == Created(i.hy2Host, true);
    assert i.hy2Host in Deleted(made);
  }

  /** The admin alias stays in both modes when the units cannot be written, reloaded or
      enabled: every other step went well, and the rollback knows address records only. */
  method AdminAliasLeft(node: Node, i: Inputs, a: Answers) returns (ok: bool)
    requires node.createdA == [] && i.adminHost !in node.aliases
    requires a.backup && Switched(i, a) && a.adminRecord && !a.units
    modifies node
    ensures !ok && i.adminHost in node.aliases && node.aliases[i.adminHost] == i.tunnel
    ensures i.direct ==> node.aliases == old(node.aliases)[i.adminHost := i.tunnel]
  {
    ghost var kept;
    ok, kept := node.RunUpgradeCore(i, a);
    assert i.adminHost in Aliased(i, a);
  }

  lemma HostsAppend(created: seq<Created>, c: Created)
    ensures Hosts(created + [c]) == Hosts(created) + {c.host}
    ensures Deleted(created + [c]) == Deleted(created) + if c.undo then {c.host} else {}
  {
    assert forall d :: d in created + [c] <==> d in created || d == c;
  }

  lemma DeletedNext(created: seq<Created>, k: nat)
    requires k < |created|
    ensures Deleted(created[..k + 1]) == Deleted(created[..k]) + if created[k].undo then {created[k].host} else {}
  {
    assert created[..k + 1] == created[..k] + [created[k]];
    HostsAppend(created[..k], created[k]);
  }

  lemma AdminAdded(before: map<string, string>, now: map<string, string>, i: Inputs, a: Answers)
    requires a.backup && ConfigsWritten(a) && a.upsertHost && (i.hy2Host == "" || a.upsertHy2) && a.restart
    requires now == if i.direct then before else before[i.newHost := i.tunnel]
    ensures before + Pointing(Aliased(i, a), i.tunnel)
            == if a.saveEnv == Written && a.subscriptions && a.adminRecord then now[i.adminHost := i.tunnel] else now
  {
  }

  lemma NothingMade(addresses: map<string, string>, aliases: map<string, string>, i: Inputs)
    ensures addresses + Pointing(Hosts([]), i.ip) == addresses == addresses - Deleted([])
    ensures aliases + Pointing({}, i.tunnel) == aliases
  {
    assert Hosts([]) == {} && Deleted([]) == {};
  }

  /** Records put in and some of them taken out again. */
  lemma PutAndTaken(before: map<string, string>, put: set<string>, taken: set<string>, value: string)
    requires taken <= put
    ensures before + Pointing(put, value) - taken == before
            <==> forall h :: h in put ==> if h in taken then h !in before else h in before && before[h] == value
  {
    var after := before + Pointing(put, value) - taken;
    if after == before {
      forall h | h in put ensures if h in taken then h !in before else h in before && before[h] == value {
        assert h in taken ==> h !in after;
        assert h !in taken ==> h in after && after[h] == value;
      }
    }
    if forall h :: h in put ==> if h in taken then h !in before else h in before && before[h] == value {
      assert forall h :: h in after <==> h in before;
      assert after == before;
    }
  }
}
