/** The configs built over the route names: the Shadowrocket .conf groups
    (panel/worker/src/lib/shadowrocket.ts), the Clash config (clash.ts) and the sing-box
    config (singbox.ts). Every name a group or rule mentions is one the config, or the
    URI list beside it, contains. */
module Configs {
  import opened Text
  import opened Routes
  import ModuleRules
  import UriReader

  datatype Group = Group(tag: string, urlTest: bool, members: seq<string>)

  function Filter<T>(keep: T -> bool, s: seq<T>): seq<T> {
    if s == [] then [] else Filter(keep, s[..|s| - 1]) + if keep(s[|s| - 1]) then [s[|s| - 1]] else []
  }

  lemma {:induction false} FilterIn<T>(keep: T -> bool, s: seq<T>)
    ensures forall x :: x in Filter(keep, s) <==> x in s && keep(x)
  {
    if s == [] {
    } else {
      FilterIn(keep, s[..|s| - 1]);
      assert s == s[..|s| - 1] + [s[|s| - 1]];
    }
  }

  function Tags(groups: seq<Group>): set<string> {
    set g | g in groups :: g.tag
  }

  /** Every member of every group is a node, another group, or the built-in DIRECT. */
  ghost predicate Resolves(groups: seq<Group>, names: seq<string>) {
    forall g, m :: g in groups && m in g.members ==> m in names || m == "DIRECT" || m in Tags(groups)
  }

  ghost predicate NoEmptyTest(groups: seq<Group>) {
    forall g :: g in groups && g.urlTest ==> g.members != []
  }

  // ---- Automatic groups ----------------------------------------------------

  const AUTO_MEMBERS: seq<(string, Route)> := [
    ("JPY-02", Reality), ("SIN-01", Reality), ("JPY-03", XHTTPH3), ("JPY-03", Reality),
    ("JPY-01", HY2), ("HKG-01", HY2), ("OR-001", HTTPUpgrade)]

  const AUTO_MEMBERS_RU: seq<(string, Route)> := [
    ("HAN-01", Reality), ("VNM-02", Reality), ("SIN-01", Reality), ("JPY-02", Reality), ("HKG-01", Reality)]

  function AutoMembers(rules: string): seq<(string, Route)> {
    if rules == "ru" then AUTO_MEMBERS_RU else AUTO_MEMBERS
  }

  function MemberName(m: (string, Route)): string {
    Name(m.0, m.1)
  }

  const RU_NAMES := ["HAN-01-Reality", "VNM-02-Reality", "SIN-01-Reality", "JPY-02-Reality", "HKG-01-Reality"]

  function OtherNames(h3: string): seq<string> {
    ["JPY-02-Reality", "SIN-01-Reality", h3, "JPY-03-Reality", "JPY-01-HY2", "HKG-01-HY2", "OR-001-HTTPUpgrade"]
  }

  /** The names the automatic group is made of, in order of preference. */
  lemma AutoNames(rules: string)
    ensures Map(MemberName, AutoMembers(rules))
            == if rules == "ru" then RU_NAMES else OtherNames("JPY-03-XHTTP-H3")
  {
    var members := AutoMembers(rules);
    forall i | 0 <= i < |members| ensures Map(MemberName, members)[i] == members[i].0 + Suffix(members[i].1) {
      MapAt(MemberName, members, i);
    }
    if rules == "ru" {
      RuTexts();
    } else {
      AutoTexts();
    }
  }

  lemma RuTexts()
    ensures "HAN-01" + "-Reality" == "HAN-01-Reality" && "VNM-02" + "-Reality" == "VNM-02-Reality"
    ensures "SIN-01" + "-Reality" == "SIN-01-Reality" && "JPY-02" + "-Reality" == "JPY-02-Reality"
    ensures "HKG-01" + "-Reality" == "HKG-01-Reality"
  {
  }

  lemma AutoTexts()
    ensures "JPY-02" + "-Reality" == "JPY-02-Reality" && "SIN-01" + "-Reality" == "SIN-01-Reality"
    ensures "JPY-03" + "-XHTTP-H3" == "JPY-03-XHTTP-H3" && "JPY-03" + "-Reality" == "JPY-03-Reality"
    ensures "JPY-01" + "-HY2" == "JPY-01-HY2" && "HKG-01" + "-HY2" == "HKG-01-HY2"
    ensures "OR-001" + "-HTTPUpgrade" == "OR-001-HTTPUpgrade"
  {
  }

  function EndsWith(suffix: string): string -> bool {
    name => HasSuffix(name, suffix)
  }

  function Among(names: seq<string>): string -> bool {
    name => name in names
  }

  lemma EndsExactly(id: string, route: Route, suffix: string)
    requires |suffix| <= |Suffix(route)|
    ensures HasSuffix(Name(id, route), suffix) <==> HasSuffix(Suffix(route), suffix)
  {
    SuffixOfAppend(id, Suffix(route), suffix);
  }

  /** The "-HY2" filter takes the IPv4 Hysteria2 routes and nothing else. */
  lemma EndsHy2(id: string, route: Route)
    ensures HasSuffix(Name(id, route), "-HY2") <==> route == HY2
  {
    EndsExactly(id, route, "-HY2");
    assert Suffix(HY2) == "-HY2";
    SuffixesApart(route, HY2);
  }

  /** The "-v6" filter takes exactly the IPv6 twins. */
  lemma EndsV6(id: string, route: Route)
    ensures HasSuffix(Name(id, route), "-v6") <==> route in {RealityV6, HY2V6}
  {
    EndsExactly(id, route, "-v6");
    var s := Suffix(route);
    assert s[|s| - 3..] == "-v6" <==> s[|s| - 3] == '-' && s[|s| - 2] == 'v' && s[|s| - 1] == '6';
  }

  /** A filter that goes by the end of a name goes by the route. */
  lemma {:induction false} FilterNames(keep: string -> bool, only: Route -> bool, spots: seq<Spot>)
    requires forall id, route :: keep(Name(id, route)) <==> only(route)
    ensures Filter(keep, Names(spots)) == Names(Filter(Carried(only), spots))
  {
    if spots == [] {
    } else {
      var before, last := spots[..|spots| - 1], spots[|spots| - 1];
      FilterNames(keep, only, before);
      assert Names(spots) == Names(before) + [NameOf(last)];
      assert keep(NameOf(last)) == Carried(only)(last);
      MapConcat(NameOf, Filter(Carried(only), before), if only(last.route) then [last] else []);
      assert Names([last]) == [NameOf(last)] by {
        assert [last][..0] == [];
      }
    }
  }

  /** The backup group holds the IPv4 Hysteria2 routes. */
  lemma BackupNames(spots: seq<Spot>)
    ensures Filter(EndsWith("-HY2"), Names(spots)) == Names(Filter(Carried(route => route == HY2), spots))
  {
    forall id, route ensures EndsWith("-HY2")(Name(id, route)) <==> route == HY2 {
      EndsHy2(id, route);
    }
    FilterNames(EndsWith("-HY2"), route => route == HY2, spots);
  }

  /** The automatic group of Clash holds everything but the IPv6 twins. */
  lemma V4Names(spots: seq<Spot>)
    ensures Filter(NotV6(), Names(spots))
            == Names(Filter(Carried(route => route != RealityV6 && route != HY2V6), spots))
  {
    forall id, route ensures NotV6()(Name(id, route)) <==> route != RealityV6 && route != HY2V6 {
      EndsV6(id, route);
    }
    FilterNames(NotV6(), route => route != RealityV6 && route != HY2V6, spots);
  }

  // ---- Shadowrocket --------------------------------------------------------

  function AutoGroup(members: seq<string>): seq<Group> {
    if members == [] then [] else [Group("AUTO", true, members)]
  }

  function BackupGroup(hy2: seq<string>): seq<Group> {
    if hy2 == [] then [] else [Group("HY2-BACKUP", false, hy2)]
  }

  /** PROXY over everything, or over DIRECT for a user with no route. */
  function ProxyGroup(all: seq<string>, members: seq<string>, hy2: seq<string>): Group {
    Group("PROXY", false, if all == [] then ["DIRECT"] else Firsts(members, hy2) + all)
  }

  /** Groups built from members that are among all names resolve, and no test is empty. */
  lemma GroupsResolve(groups: seq<Group>, all: seq<string>, members: seq<string>, hy2: seq<string>)
    requires forall m :: m in members || m in hy2 ==> m in all
    requires forall g ::
               g in groups <==> g in AutoGroup(members) || g in BackupGroup(hy2) || g == ProxyGroup(all, members, hy2)
    ensures Resolves(groups, all) && NoEmptyTest(groups)
    ensures "PROXY" in Tags(groups)
  {
    assert ProxyGroup(all, members, hy2) in groups;
    FirstsTagged(groups, members, hy2);
    forall g, m | g in groups && m in g.members ensures m in all || m == "DIRECT" || m in Tags(groups) {
      if g == ProxyGroup(all, members, hy2) && m !in all && m != "DIRECT" {
        assert m in Firsts(members, hy2);
      }
    }
  }

  lemma FirstsTagged(groups: seq<Group>, members: seq<string>, hy2: seq<string>)
    requires forall g :: g in AutoGroup(members) || g in BackupGroup(hy2) ==> g in groups
    ensures forall m :: m in Firsts(members, hy2) ==> m in Tags(groups)
  {
    if members != [] {
      assert AutoGroup(members)[0] in AutoGroup(members);
    }
    if hy2 != [] {
      assert BackupGroup(hy2)[0] in BackupGroup(hy2);
    }
  }

  /** The groups PROXY lists before the nodes. */
  function Firsts(members: seq<string>, hy2: seq<string>): seq<string> {
    (if members == [] then [] else ["AUTO"]) + if hy2 == [] then [] else ["HY2-BACKUP"]
  }

  /** The [Proxy Group] section of the .conf. */
  method ShadowrocketGroups(rows: seq<Row>, rules: string) returns (groups: seq<Group>)
    ensures Resolves(groups, Names(Spots(rows, Kept(false)))) && NoEmptyTest(groups)
    ensures var all := Names(Spots(rows, Kept(false)));
            var members, hy2 := Filter(Among(all), Map(MemberName, AutoMembers(rules))), Filter(EndsWith("-HY2"), all);
            && groups == AutoGroup(members) + BackupGroup(hy2) + [ProxyGroup(all, members, hy2)]
            && Listed(groups, all, members, hy2)
  {
    var all := AvailableNames(rows);
    var members := Filter(Among(all), Map(MemberName, AutoMembers(rules)));
    var hy2 := Filter(EndsWith("-HY2"), all);
    FilterIn(Among(all), Map(MemberName, AutoMembers(rules)));
    FilterIn(EndsWith("-HY2"), all);
    groups := GroupsOf(all, members, hy2);
  }

  /** AUTO is a test over the automatic members and HY2-BACKUP a choice of the backups,
      each there when it has members; PROXY is a choice of those two and every node, or
      of nothing but DIRECT. */
  ghost predicate Listed(groups: seq<Group>, all: seq<string>, members: seq<string>, hy2: seq<string>) {
    && (forall ms :: Group("AUTO", true, ms) in groups <==> ms == members && members != [])
    && (forall ms :: Group("HY2-BACKUP", false, ms) in groups <==> ms == hy2 && hy2 != [])
    && (forall ms :: Group("PROXY", false, ms) in groups
                     <==> ms == if all == [] then ["DIRECT"]
                                else (if members != [] then ["AUTO"] else [])
                                     + (if hy2 != [] then ["HY2-BACKUP"] else []) + all)
    && |groups| == 1 + (if members != [] then 1 else 0) + if hy2 != [] then 1 else 0
  }

  /** AUTO and HY2-BACKUP when they have members, then PROXY over both and every node. */
  method GroupsOf(all: seq<string>, members: seq<string>, hy2: seq<string>) returns (groups: seq<Group>)
    requires forall m :: m in members || m in hy2 ==> m in all
    ensures groups == AutoGroup(members) + BackupGroup(hy2) + [ProxyGroup(all, members, hy2)]
    ensures Listed(groups, all, members, hy2)
    ensures Resolves(groups, all) && NoEmptyTest(groups)
  {
    groups := [];
    if members != [] {
      groups := groups + [Group("AUTO", true, members)];
    }
    if hy2 != [] {
      groups := groups + [Group("HY2-BACKUP", false, hy2)];
    }
    if all != [] {
      groups := groups + [Group("PROXY", false, Firsts(members, hy2) + all)];
    } else {
      groups := groups + [Group("PROXY", false, ["DIRECT"])];
    }
    assert groups == AutoGroup(members) + BackupGroup(hy2) + [ProxyGroup(all, members, hy2)];
    GroupsResolve(groups, all, members, hy2);
  }

  // ---- Clash ---------------------------------------------------------------

  /** A proxy or outbound entry: its name and where it dials. */
  datatype Outbound = Outbound(tag: string, server: string, port: int)

  function OutboundOf(spot: Spot): Outbound {
    Outbound(NameOf(spot), Dial(spot), Port(spot))
  }

  /** An entry dials what a client reads off the URI of the same route. */
  lemma SameEndpoint(w: Wire, spot: Spot)
    requires Serves(spot.row, spot.route)
    ensures var a := UriReader.RowAccess(w, spot);
            OutboundOf(spot) == Outbound(spot.row.nodeId + Suffix(spot.route), a.host, a.port)
  {
  }

  function TagOf(o: Outbound): string {
    o.tag
  }

  lemma {:induction false} OutboundTags(spots: seq<Spot>)
    ensures Map(TagOf, Map(OutboundOf, spots)) == Names(spots)
  {
    if spots == [] {
    } else {
      OutboundTags(spots[..|spots| - 1]);
      var all := Map(OutboundOf, spots);
      assert all[..|all| - 1] == Map(OutboundOf, spots[..|spots| - 1]);
    }
  }

  lemma MapRowNoXHTTP<B>(f: Spot -> B, r: Row, naive: bool)
    ensures Map(f, RowSpots(r, NoXHTTP(naive)))
            == Map(f, Three(r, NoXHTTP(naive), Reality, RealityV6, HTTPUpgrade))
               + Map(f, Three(r, NoXHTTP(naive), HY2, HY2V6, Naive))
  {
    MapRow(f, r, NoXHTTP(naive));
    NoMiddle(r, naive);
  }

  lemma NoMiddle(r: Row, naive: bool)
    ensures Three(r, NoXHTTP(naive), XHTTP, XHTTPDirect, XHTTPH3) == []
  {
  }

  method RowOutbounds<T>(item: Spot -> T, r: Row, kept: Route -> bool, naive: bool) returns (out: seq<T>)
    requires kept == NoXHTTP(naive)
    ensures out == Map(item, RowSpots(r, kept))
  {
    if !IsReality(r) && !IsCloudflare(r) {
      NothingServed(item, r, kept);
      return [];
    }
    out := ServedOutbounds(item, r, kept, naive);
    MapRowNoXHTTP(item, r, naive);
  }

  method ServedOutbounds<T>(item: Spot -> T, r: Row, kept: Route -> bool, naive: bool) returns (out: seq<T>)
    requires IsReality(r) || IsCloudflare(r)
    requires kept(Reality) && kept(RealityV6) && kept(HTTPUpgrade) && kept(HY2) && kept(HY2V6) && kept(Naive) == naive
    ensures out == Map(item, Three(r, kept, Reality, RealityV6, HTTPUpgrade))
            + Map(item, Three(r, kept, HY2, HY2V6, Naive))
  {
    var head := RowHead(item, r, kept);
    var tail := RowTail(item, r, kept, naive);
    out := head + tail;
  }

  /** buildProxies of the Clash builder (without Naive) and nodeOutbounds of the sing-box
      builder (with it): the URI list's routes minus the ones without a transport. */
  method NodeOutbounds(rows: seq<Row>, naive: bool) returns (out: seq<Outbound>)
    ensures out == Map(OutboundOf, Spots(rows, NoXHTTP(naive)))
  {
    out := [];
    for i := 0 to |rows|
      invariant out == Map(OutboundOf, Spots(rows[..i], NoXHTTP(naive)))
    {
      SpotsNext(rows, i, NoXHTTP(naive));
      MapConcat(OutboundOf, Spots(rows[..i], NoXHTTP(naive)), RowSpots(rows[i], NoXHTTP(naive)));
      var more := RowOutbounds(OutboundOf, rows[i], NoXHTTP(naive), naive);
      out := out + more;
    }
    assert rows[..|rows|] == rows;
  }

  function NotV6(): string -> bool {
    name => !HasSuffix(name, "-v6")
  }

  datatype Clash = Clash(proxies: seq<Outbound>, groups: seq<Group>, final: string)

  lemma NamesIn(rows: seq<Row>, kept: Route -> bool, spot: Spot)
    requires spot in Spots(rows, kept)
    ensures NameOf(spot) in Names(Spots(rows, kept))
  {
    var i :| 0 <= i < |Spots(rows, kept)| && Spots(rows, kept)[i] == spot;
    MapAt(NameOf, Spots(rows, kept), i);
  }

  /** Every row that serves anything in Clash serves a route that is no IPv6 twin. */
  lemma MainSpot(rows: seq<Row>, r: Row)
    requires r in rows && (IsReality(r) || IsCloudflare(r))
    ensures var main := Spot(r, if IsReality(r) then Reality else HTTPUpgrade);
            main in Spots(rows, NoXHTTP(false)) && !HasSuffix(NameOf(main), "-v6")
  {
    var route := if IsReality(r) then Reality else HTTPUpgrade;
    MainServed(r, route);
    SpotsServed(rows, NoXHTTP(false));
    EndsV6(r.nodeId, route);
  }

  lemma MainServed(r: Row, route: Route)
    requires IsReality(r) || IsCloudflare(r)
    requires route == if IsReality(r) then Reality else HTTPUpgrade
    ensures Serves(r, route) && NoXHTTP(false)(route)
  {
  }

  /** A user with any route in Clash has one that is not an IPv6 twin. */
  lemma SomeV4(rows: seq<Row>, names: seq<string>)
    requires names == Names(Spots(rows, NoXHTTP(false))) && names != []
    ensures Filter(NotV6(), names) != []
  {
    var main := SomeMain(rows);
    NamesIn(rows, NoXHTTP(false), main);
    FilterIn(NotV6(), names);
    assert NameOf(main) in Filter(NotV6(), names);
  }

  lemma SomeMain(rows: seq<Row>) returns (main: Spot)
    requires Spots(rows, NoXHTTP(false)) != []
    ensures main in Spots(rows, NoXHTTP(false)) && !HasSuffix(NameOf(main), "-v6")
  {
    var spots := Spots(rows, NoXHTTP(false));
    SpotsServed(rows, NoXHTTP(false));
    assert spots[0] in spots;
    var r := spots[0].row;
    MainSpot(rows, r);
    main := Spot(r, if IsReality(r) then Reality else HTTPUpgrade);
  }

  /** The proxy-groups section over the proxy names. */
  method ClashGroups(names: seq<string>) returns (groups: seq<Group>)
    requires names != [] ==> Filter(NotV6(), names) != []
    ensures Resolves(groups, names) && NoEmptyTest(groups)
    ensures names != [] ==> "Proxy" in Tags(groups)
    ensures groups == if names == [] then []
                      else [Group("Auto", true, Filter(NotV6(), names)), Group("Proxy", false, ["Auto"] + names)]
  {
    if names == [] {
      return [];
    }
    FilterIn(NotV6(), names);
    var automatic := Group("Auto", true, Filter(NotV6(), names));
    var manual := Group("Proxy", false, ["Auto"] + names);
    groups := [automatic, manual];
    assert automatic in groups && manual in groups;
  }

  /** buildClashConfig: the automatic group holds exactly the non-IPv6 names, is never
      empty, and every reference resolves. */
  method BuildClashConfig(rows: seq<Row>) returns (cfg: Clash)
    ensures cfg.proxies == Map(OutboundOf, Spots(rows, NoXHTTP(false)))
    ensures Resolves(cfg.groups, Names(Spots(rows, NoXHTTP(false)))) && NoEmptyTest(cfg.groups)
    ensures if cfg.proxies == [] then cfg.final == "DIRECT" else cfg.final == "Proxy" && "Proxy" in Tags(cfg.groups)
    ensures var names := Names(Spots(rows, NoXHTTP(false)));
            cfg.groups == if names == [] then []
                          else [Group("Auto", true, Filter(NotV6(), names)), Group("Proxy", false, ["Auto"] + names)]
  {
    var proxies := NodeOutbounds(rows, false);
    OutboundTags(Spots(rows, NoXHTTP(false)));
    var names := Map(TagOf, proxies);
    if names != [] {
      SomeV4(rows, names);
    }
    var groups := ClashGroups(names);
    cfg := Clash(proxies, groups, if names == [] then "DIRECT" else "Proxy");
  }

  // ---- sing-box ------------------------------------------------------------

  /** The route and dns sections: the rule sets defined, the ones each section names, and
      the outbounds the rules name. */
  datatype Routing = Routing(blocked: seq<ModuleRules.Headless>, ruleSets: seq<string>, routeSets: seq<string>,
                             dnsSets: seq<string>, targets: set<string>, final: string)

  datatype Singbox = Singbox(groups: seq<Group>, nodes: seq<Outbound>, routing: Routing)

  /** Every rule set named is defined, dns never names the address set, each set is there
      exactly when it has rules, and the rules only name PROXY and DIRECT. */
  ghost predicate Sound(r: Routing) {
    && r.routeSets == r.ruleSets && (forall t :: t in r.dnsSets ==> t in r.ruleSets)
    && (forall t :: t in r.ruleSets
                    <==> || (t == "blocked-domain" && exists h :: h in r.blocked && h.Names?)
                         || (t == "blocked-ip" && exists h :: h in r.blocked && h.Addresses?))
    && (forall t :: t in r.dnsSets <==> t == "blocked-domain" && exists h :: h in r.blocked && h.Names?)
    && r.targets <= {"PROXY", "DIRECT"} && r.final in r.targets
  }

  function GroupTag(g: Group): string {
    g.tag
  }

  const OWN_TAGS := {"PROXY", "AUTO", "HY2-BACKUP", "DIRECT"}

  lemma LastTwo(id: string, route: Route)
    ensures var name, s := Name(id, route), Suffix(route);
            |name| >= 2 && name[|name| - 1] == s[|s| - 1] && name[|name| - 2] == s[|s| - 2]
  {
  }

  /** No route is named like one of the config's own outbounds. */
  lemma NotOwnTag(id: string, route: Route)
    ensures Name(id, route) !in OWN_TAGS
  {
    LastTwo(id, route);
  }

  lemma DistinctThree(a: seq<string>, b: seq<string>, last: string)
    requires Distinct(a) && Distinct(b) && last !in a && last !in b
    requires forall i, j :: 0 <= i < |a| && 0 <= j < |b| ==> a[i] != b[j]
    ensures Distinct(a + b + [last])
  {
  }

  lemma TagsApart(cfg: Singbox, spots: seq<Spot>)
    requires cfg.nodes == Map(OutboundOf, spots) && Distinct(Names(spots))
    requires Distinct(Map(GroupTag, cfg.groups)) && forall g :: g in cfg.groups ==> g.tag in OWN_TAGS - {"DIRECT"}
    ensures Distinct(OutboundTagsOf(cfg))
  {
    var a, b := Map(GroupTag, cfg.groups), Names(spots);
    OutboundTags(spots);
    forall i | 0 <= i < |a| ensures a[i] in OWN_TAGS - {"DIRECT"} {
      MapAt(GroupTag, cfg.groups, i);
      assert cfg.groups[i] in cfg.groups;
    }
    forall j | 0 <= j < |b| ensures b[j] !in OWN_TAGS {
      MapAt(NameOf, spots, j);
      NotOwnTag(spots[j].row.nodeId, spots[j].route);
    }
    DistinctThree(a, b, "DIRECT");
  }

  /** The tags of the outbounds section: groups, nodes, and the built-in one. */
  function OutboundTagsOf(cfg: Singbox): seq<string> {
    Map(GroupTag, cfg.groups) + Map(TagOf, cfg.nodes) + ["DIRECT"]
  }

  /** An XHTTP-H3 member is taken by the same node's Hysteria2 route. */
  function Substitute(have: seq<string>): ((string, Route)) -> string {
    (m: (string, Route)) => if m.1 == XHTTPH3 && MemberName(m) !in have then Name(m.0, HY2) else MemberName(m)
  }

  function Dedupe(s: seq<string>): seq<string> {
    if s == [] then []
    else
      var before := Dedupe(s[..|s| - 1]);
      if s[|s| - 1] in before then before else before + [s[|s| - 1]]
  }

  function AutoTags(rules: string, have: seq<string>): (auto: seq<string>)
  {
    var listed := Filter(Among(have), Dedupe(Map(Substitute(have), AutoMembers(rules))));
    if rules == "ru" && Name("JPY-01", Naive) in have then listed + [Name("JPY-01", Naive)] else listed
  }

  /** What AUTO holds in sing-box: the names of the list, with the Hysteria2 route of
      JPY-03 where its H3 route is missing, and Naive of JPY-01 for Russia. */
  lemma AutoTagsAre(rules: string, have: seq<string>)
    ensures AutoTags(rules, have)
            == Filter(Among(have),
                      if rules == "ru" then RU_NAMES + ["JPY-01-Naive"]
                      else OtherNames(if "JPY-03-XHTTP-H3" in have then "JPY-03-XHTTP-H3" else "JPY-03-HY2"))
  {
    if rules == "ru" {
      RuTaken(have);
      RuDistinct();
      DedupeDistinct(RU_NAMES);
      FilterConcat(Among(have), RU_NAMES, ["JPY-01-Naive"]);
      assert ["JPY-01-Naive"][..0] == [];
      OtherTexts();
    } else {
      var h3 := if "JPY-03-XHTTP-H3" in have then "JPY-03-XHTTP-H3" else "JPY-03-HY2";
      OtherTaken(rules, have);
      OtherDistinct(h3);
      DedupeDistinct(OtherNames(h3));
    }
  }

  lemma Taken(rules: string, have: seq<string>)
    ensures var members := AutoMembers(rules);
            var names, taken := Map(MemberName, members), Map(Substitute(have), members);
            forall i :: 0 <= i < |members| ==>
              names[i] == MemberName(members[i]) && taken[i] == Substitute(have)(members[i])
  {
    var members := AutoMembers(rules);
    forall i | 0 <= i < |members|
      ensures Map(MemberName, members)[i] == MemberName(members[i])
      ensures Map(Substitute(have), members)[i] == Substitute(have)(members[i])
    {
      MapAt(MemberName, members, i);
      MapAt(Substitute(have), members, i);
    }
  }

  lemma RuTaken(have: seq<string>)
    ensures Map(Substitute(have), AutoMembers("ru")) == RU_NAMES
  {
    var members := AutoMembers("ru");
    assert forall i :: 0 <= i < |members| ==> members[i].1 == Reality;
    Taken("ru", have);
    AutoNames("ru");
  }

  lemma OtherTaken(rules: string, have: seq<string>)
    requires rules != "ru"
    ensures Map(Substitute(have), AutoMembers(rules))
            == OtherNames(if "JPY-03-XHTTP-H3" in have then "JPY-03-XHTTP-H3" else "JPY-03-HY2")
  {
    Taken(rules, have);
    AutoNames(rules);
    OtherTexts();
  }

  lemma OtherTexts()
    ensures Name("JPY-01", Naive) == "JPY-01-Naive" && Name("JPY-03", HY2) == "JPY-03-HY2"
    ensures MemberName(("JPY-03", XHTTPH3)) == "JPY-03-XHTTP-H3"
  {
    assert "JPY-01" + "-Naive" == "JPY-01-Naive" && "JPY-03" + "-HY2" == "JPY-03-HY2";
    assert "JPY-03" + "-XHTTP-H3" == "JPY-03-XHTTP-H3";
  }

  lemma RuDistinct()
    ensures Distinct(RU_NAMES)
  {
  }

  lemma OtherDistinct(h3: string)
    requires h3 in {"JPY-03-XHTTP-H3", "JPY-03-HY2"}
    ensures Distinct(OtherNames(h3))
  {
  }

  lemma {:induction false} DedupeDistinct(s: seq<string>)
    requires Distinct(s)
    ensures Dedupe(s) == s
  {
    if s == [] {
    } else {
      DedupeDistinct(s[..|s| - 1]);
      assert s == s[..|s| - 1] + [s[|s| - 1]];
    }
  }

  lemma AutoTagsIn(rules: string, have: seq<string>)
    ensures forall t :: t in AutoTags(rules, have) ==> t in have
  {
    FilterIn(Among(have), Dedupe(Map(Substitute(have), AutoMembers(rules))));
  }

  /** buildSingboxConfig, references only: every group member, rule set and target
      resolves, and with distinct nodes no two outbounds share a tag. */
  method BuildSingboxConfig(rows: seq<Row>, rules: string, always: bool, list: Option<seq<ModuleRules.Rule>>,
                            proxyAll: bool)
    returns (cfg: Singbox)
    ensures cfg.nodes == Map(OutboundOf, Spots(rows, NoXHTTP(true)))
    ensures var tags := Names(Spots(rows, NoXHTTP(true)));
            var auto, hy2 := AutoTags(rules, tags), Filter(EndsWith("-HY2"), tags);
            && cfg.groups == [ProxyGroup(tags, auto, hy2)] + AutoGroup(auto) + BackupGroup(hy2)
            && Listed(cfg.groups, tags, auto, hy2)
    ensures Resolves(cfg.groups, Names(Spots(rows, NoXHTTP(true)))) && NoEmptyTest(cfg.groups)
    ensures Sound(cfg.routing) && cfg.routing.targets <= Tags(cfg.groups) + {"DIRECT"}
    ensures cfg.routing.blocked == if proxyAll || list.None? then [] else ModuleRules.Translated(list.value)
    ensures cfg.routing.final == if proxyAll then "PROXY" else "DIRECT"
    ensures DistinctNodes(rows) ==> Distinct(OutboundTagsOf(cfg))
  {
    var nodes := NodeOutbounds(rows, true);
    OutboundTags(Spots(rows, NoXHTTP(true)));
    var groups := SingboxGroupsFor(Map(TagOf, nodes), rules);
    var blocked := if proxyAll || list.None? then [] else ModuleRules.Translated(list.value);
    var routing := SingboxRouting(always, blocked, proxyAll);
    cfg := Singbox(groups, nodes, routing);
    if DistinctNodes(rows) {
      NamesDistinct(rows, NoXHTTP(true));
      TagsApart(cfg, Spots(rows, NoXHTTP(true)));
    }
  }

  /** always says there are control-plane hosts to send through the proxy. */
  method SingboxRouting(always: bool, blocked: seq<ModuleRules.Headless>, proxyAll: bool) returns (r: Routing)
    ensures Sound(r) && r.blocked == blocked && r.final == if proxyAll then "PROXY" else "DIRECT"
    ensures "PROXY" in r.targets <==> proxyAll || always || blocked != []
  {
    var ruleSets, dnsSets := BlockedSets(blocked);
    var final := if proxyAll then "PROXY" else "DIRECT";
    var targets := {"DIRECT", final} + if always || ruleSets != [] then {"PROXY"} else {};
    r := Routing(blocked, ruleSets, ruleSets, dnsSets, targets, final);
  }

  method SingboxGroupsFor(tags: seq<string>, rules: string) returns (groups: seq<Group>)
    ensures var auto, hy2 := AutoTags(rules, tags), Filter(EndsWith("-HY2"), tags);
            && groups == [ProxyGroup(tags, auto, hy2)] + AutoGroup(auto) + BackupGroup(hy2)
            && Listed(groups, tags, auto, hy2)
    ensures Resolves(groups, tags) && NoEmptyTest(groups) && "PROXY" in Tags(groups)
    ensures Distinct(Map(GroupTag, groups)) && forall g :: g in groups ==> g.tag in OWN_TAGS - {"DIRECT"}
  {
    AutoTagsIn(rules, tags);
    FilterIn(EndsWith("-HY2"), tags);
    groups := SingboxGroups(tags, AutoTags(rules, tags), Filter(EndsWith("-HY2"), tags));
    GroupTagsDistinct(tags, AutoTags(rules, tags), Filter(EndsWith("-HY2"), tags));
  }

  method BlockedSets(blocked: seq<ModuleRules.Headless>) returns (ruleSets: seq<string>, dnsSets: seq<string>)
    ensures var names, addresses := exists h :: h in blocked && h.Names?, exists h :: h in blocked && h.Addresses?;
            && dnsSets == (if names then ["blocked-domain"] else [])
            && ruleSets == dnsSets + (if addresses then ["blocked-ip"] else [])
            && (ruleSets != [] <==> blocked != [])
  {
    var domain := Filter((h: ModuleRules.Headless) => h.Names?, blocked);
    var ip := Filter((h: ModuleRules.Headless) => h.Addresses?, blocked);
    FilterIn((h: ModuleRules.Headless) => h.Names?, blocked);
    FilterIn((h: ModuleRules.Headless) => h.Addresses?, blocked);
    assert blocked != [] ==> blocked[0] in blocked;
    ruleSets, dnsSets := [], [];
    if |domain| > 0 {
      assert domain[0] in domain;
      ruleSets := ruleSets + ["blocked-domain"];
    }
    if |ip| > 0 {
      assert ip[0] in ip;
      ruleSets := ruleSets + ["blocked-ip"];
    }
    if |domain| > 0 {
      dnsSets := ["blocked-domain"];
    }
  }

  lemma TagsDistinct(groups: seq<Group>)
    requires forall i, j :: 0 <= i < j < |groups| ==> groups[i].tag != groups[j].tag
    ensures Distinct(Map(GroupTag, groups))
  {
    forall i, j | 0 <= i < j < |groups| ensures Map(GroupTag, groups)[i] != Map(GroupTag, groups)[j] {
      MapAt(GroupTag, groups, i);
      MapAt(GroupTag, groups, j);
    }
  }

  /** The same groups with PROXY in front. */
  method SingboxGroups(tags: seq<string>, auto: seq<string>, hy2: seq<string>) returns (groups: seq<Group>)
    requires forall m :: m in auto || m in hy2 ==> m in tags
    ensures groups == [ProxyGroup(tags, auto, hy2)] + AutoGroup(auto) + BackupGroup(hy2)
    ensures Listed(groups, tags, auto, hy2)
    ensures Resolves(groups, tags) && NoEmptyTest(groups) && "PROXY" in Tags(groups)
  {
    groups := [];
    var members: seq<string> := [];
    if auto != [] {
      groups, members := groups + [Group("AUTO", true, auto)], members + ["AUTO"];
    }
    if hy2 != [] {
      groups, members := groups + [Group("HY2-BACKUP", false, hy2)], members + ["HY2-BACKUP"];
    }
    assert members == Firsts(auto, hy2);
    ghost var tail := groups;
    assert tail == AutoGroup(auto) + BackupGroup(hy2);
    members := members + tags;
    NoTagsNoMembers(tags, auto, hy2);
    groups := [Group("PROXY", false, if members != [] then members else ["DIRECT"])] + groups;
    assert groups[0] == ProxyGroup(tags, auto, hy2) && groups == [ProxyGroup(tags, auto, hy2)] + tail;
    assert groups == [ProxyGroup(tags, auto, hy2)] + AutoGroup(auto) + BackupGroup(hy2);
    GroupsResolve(groups, tags, auto, hy2);
  }

  lemma NoTagsNoMembers(tags: seq<string>, auto: seq<string>, hy2: seq<string>)
    requires forall m :: m in auto || m in hy2 ==> m in tags
    ensures tags == [] ==> auto == [] && hy2 == []
  {
    assert auto != [] ==> auto[0] in auto;
    assert hy2 != [] ==> hy2[0] in hy2;
  }

  lemma GroupTagsDistinct(tags: seq<string>, auto: seq<string>, hy2: seq<string>)
    ensures var groups := [ProxyGroup(tags, auto, hy2)] + AutoGroup(auto) + BackupGroup(hy2);
            Distinct(Map(GroupTag, groups)) && forall g :: g in groups ==> g.tag in OWN_TAGS - {"DIRECT"}
  {
    TagsDistinct([ProxyGroup(tags, auto, hy2)] + AutoGroup(auto) + BackupGroup(hy2));
  }

  // ---- The formats agree ---------------------------------------------------

  function Carried(kept: Route -> bool): Spot -> bool {
    (spot: Spot) => kept(spot.route)
  }

  lemma {:induction false} FilterConcat<T>(keep: T -> bool, a: seq<T>, b: seq<T>)
    ensures Filter(keep, a + b) == Filter(keep, a) + Filter(keep, b)
    decreases |b|
  {
    if b == [] {
      assert a + b == a;
    } else {
      assert (a + b)[..|a + b| - 1] == a + b[..|b| - 1];
      FilterConcat(keep, a, b[..|b| - 1]);
    }
  }

  predicate Fewer(few: Route -> bool, many: Route -> bool) {
    forall route :: few(route) ==> many(route)
  }

  lemma OptFewer(r: Row, route: Route, few: Route -> bool, many: Route -> bool)
    requires Fewer(few, many)
    ensures Filter(Carried(few), Opt(r, route, many)) == Opt(r, route, few)
  {
    assert [Spot(r, route)][..0] == [];
  }

  lemma ThreeFewer(r: Row, few: Route -> bool, many: Route -> bool, a: Route, b: Route, c: Route)
    requires Fewer(few, many)
    ensures Filter(Carried(few), Three(r, many, a, b, c)) == Three(r, few, a, b, c)
  {
    FilterConcat(Carried(few), Opt(r, a, many), Opt(r, b, many));
    FilterConcat(Carried(few), Opt(r, a, many) + Opt(r, b, many), Opt(r, c, many));
    OptFewer(r, a, few, many);
    OptFewer(r, b, few, many);
    OptFewer(r, c, few, many);
  }

  lemma RowFewer(r: Row, few: Route -> bool, many: Route -> bool)
    requires Fewer(few, many)
    ensures Filter(Carried(few), RowSpots(r, many)) == RowSpots(r, few)
  {
    var a, b := Three(r, many, Reality, RealityV6, HTTPUpgrade), Three(r, many, XHTTP, XHTTPDirect, XHTTPH3);
    FilterConcat(Carried(few), a, b);
    FilterConcat(Carried(few), a + b, Three(r, many, HY2, HY2V6, Naive));
    ThreeFewer(r, few, many, Reality, RealityV6, HTTPUpgrade);
    ThreeFewer(r, few, many, XHTTP, XHTTPDirect, XHTTPH3);
    ThreeFewer(r, few, many, HY2, HY2V6, Naive);
  }

  lemma {:induction false} SpotsFewer(rows: seq<Row>, few: Route -> bool, many: Route -> bool)
    requires Fewer(few, many)
    ensures Filter(Carried(few), Spots(rows, many)) == Spots(rows, few)
  {
    if rows == [] {
    } else {
      SpotsFewer(rows[..|rows| - 1], few, many);
      FilterConcat(Carried(few), Spots(rows[..|rows| - 1], many), RowSpots(rows[|rows| - 1], many));
      RowFewer(rows[|rows| - 1], few, many);
    }
  }

  /** Clash carries exactly the URI list's routes that are not XHTTP, sing-box those and
      Naive, all in the list's order. */
  lemma FormatsAgree(rows: seq<Row>)
    ensures Spots(rows, NoXHTTP(false)) == Filter(Carried(NoXHTTP(false)), Spots(rows, Kept(false)))
    ensures Spots(rows, NoXHTTP(true)) == Filter(Carried(NoXHTTP(true)), Spots(rows, Kept(true)))
    ensures Spots(rows, NoXHTTP(false)) == Filter(Carried(Kept(false)), Spots(rows, NoXHTTP(true)))
  {
    SpotsFewer(rows, NoXHTTP(false), Kept(false));
    SpotsFewer(rows, NoXHTTP(true), Kept(true));
    SpotsFewer(rows, NoXHTTP(false), NoXHTTP(true));
    SpotsServed(rows, NoXHTTP(true));
    SameFilter(Carried(NoXHTTP(false)), Carried(Kept(false)), Spots(rows, NoXHTTP(true)));
  }

  /** On routes without XHTTP the two conditions are the same. */
  lemma {:induction false} SameFilter(p: Spot -> bool, q: Spot -> bool, spots: seq<Spot>)
    requires forall s :: s in spots ==> p(s) == q(s)
    ensures Filter(p, spots) == Filter(q, spots)
  {
    if spots == [] {
    } else {
      SameFilter(p, q, spots[..|spots| - 1]);
    }
  }
}
