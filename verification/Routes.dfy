/** The subscription formats of the Worker (panel/worker/src/lib/subscription.ts,
    shadowrocket.ts, clash.ts, singbox.ts): which routes a row serves, the URI list, and
    the groups each config builds over the same route names. */
module Routes {
  import opened Text
  import Uri

  /** A node a user has. ipv6 is the literal that passed the IPv6 check, if any. */
  datatype Row = Row(
    nodeId: string, mode: string, uuid: string, hy2Password: string, vpnHost: string,
    publicIp: Option<string>, ipv6: Option<string>,
    hy2Host: Option<string>, hy2Port: Option<int>, hy2Obfs: Option<string>,
    realityKey: Option<string>, realitySid: Option<string>, realitySni: Option<string>,
    xhttpPath: Option<string>, xhttpEnabled: bool,
    directHost: Option<string>, directPath: Option<string>,
    h3Host: Option<string>, h3Path: Option<string>,
    naiveHost: Option<string>, naiveUser: Option<string>, naivePass: Option<string>)

  datatype Route = Reality | RealityV6 | HTTPUpgrade | XHTTP | XHTTPDirect | XHTTPH3 | HY2 | HY2V6 | Naive

  function Suffix(route: Route): string {
    match route
    case Reality => "-Reality"
    case RealityV6 => "-Reality-v6"
    case HTTPUpgrade => "-HTTPUpgrade"
    case XHTTP => "-XHTTP"
    case XHTTPDirect => "-XHTTP-Direct"
    case XHTTPH3 => "-XHTTP-H3"
    case HY2 => "-HY2"
    case HY2V6 => "-HY2-v6"
    case Naive => "-Naive"
  }

  function Name(nodeId: string, route: Route): string {
    nodeId + Suffix(route)
  }

  // ---- Row predicates ------------------------------------------------------

  /** JavaScript truth of a nullable string. */
  predicate Given(o: Option<string>) {
    o.Some? && o.value != ""
  }

  function Value(o: Option<string>): string {
    match o case None => "" case Some(s) => s
  }

  predicate IsReality(r: Row) {
    r.mode == "direct" && Given(r.realityKey) && Given(r.realitySid) && Given(r.realitySni)
  }

  predicate IsCloudflare(r: Row) {
    r.mode == "cloudflare"
  }

  predicate HasXHTTP(r: Row) {
    IsCloudflare(r) && r.xhttpEnabled
  }

  predicate HasXHTTPDirect(r: Row) {
    IsCloudflare(r) && Given(r.directHost) && Given(r.directPath)
  }

  predicate HasXHTTPH3(r: Row) {
    r.mode == "direct" && Given(r.h3Host) && Given(r.h3Path)
  }

  predicate HasHy2(r: Row) {
    Given(r.hy2Host) && r.hy2Port.Some? && r.hy2Port.value != 0 && Given(r.hy2Obfs)
  }

  predicate HasNaive(r: Row) {
    Given(r.naiveHost) && Given(r.naiveUser) && Given(r.naivePass)
  }

  // ---- What a row serves ---------------------------------------------------

  /** The row serves this route. */
  predicate Serves(r: Row, route: Route) {
    (IsReality(r) || IsCloudflare(r)) &&
    match route
    case Reality => IsReality(r)
    case RealityV6 => IsReality(r) && r.ipv6.Some?
    case HTTPUpgrade => IsCloudflare(r)
    case XHTTP => HasXHTTP(r)
    case XHTTPDirect => HasXHTTPDirect(r)
    case XHTTPH3 => HasXHTTPH3(r)
    case HY2 => HasHy2(r)
    case HY2V6 => HasHy2(r) && r.ipv6.Some?
    case Naive => HasNaive(r)
  }

  predicate Missing(o: Option<string>) {
    o.None? || o.value == ""
  }

  /** Which settings a route needs. A row that is neither a complete Reality node nor a
      cloudflare one serves nothing, whatever else it has. */
  lemma ServesExactly(r: Row, route: Route)
    ensures var reality := && r.mode == "direct" && !Missing(r.realityKey) && !Missing(r.realitySid)
                           && !Missing(r.realitySni);
            var cloudflare := r.mode == "cloudflare";
            var hy2 := !Missing(r.hy2Host) && !Missing(r.hy2Obfs) && r.hy2Port.Some? && r.hy2Port.value != 0;
            Serves(r, route) <==> match route
              case Reality => reality
              case RealityV6 => reality && r.ipv6 != None
              case HTTPUpgrade => cloudflare
              case XHTTP => cloudflare && r.xhttpEnabled
              case XHTTPDirect => cloudflare && !Missing(r.directHost) && !Missing(r.directPath)
              case XHTTPH3 => reality && !Missing(r.h3Host) && !Missing(r.h3Path)
              case HY2 => (reality || cloudflare) && hy2
              case HY2V6 => (reality || cloudflare) && hy2 && r.ipv6 != None
              case Naive =>
                && (reality || cloudflare)
                && !Missing(r.naiveHost) && !Missing(r.naiveUser) && !Missing(r.naivePass)
  {
  }

  datatype Spot = Spot(row: Row, route: Route)

  function Opt(r: Row, route: Route, kept: Route -> bool): seq<Spot> {
    if Serves(r, route) && kept(route) then [Spot(r, route)] else []
  }

  /** Three routes in a row. */
  function Three(r: Row, kept: Route -> bool, a: Route, b: Route, c: Route): seq<Spot> {
    Opt(r, a, kept) + Opt(r, b, kept) + Opt(r, c, kept)
  }

  /** What a row contributes to a format that keeps these routes. */
  function RowSpots(r: Row, kept: Route -> bool): seq<Spot> {
    Three(r, kept, Reality, RealityV6, HTTPUpgrade) + Three(r, kept, XHTTP, XHTTPDirect, XHTTPH3)
    + Three(r, kept, HY2, HY2V6, Naive)
  }

  function Spots(rows: seq<Row>, kept: Route -> bool): seq<Spot> {
    if rows == [] then [] else Spots(rows[..|rows| - 1], kept) + RowSpots(rows[|rows| - 1], kept)
  }

  /** What each format carries: the URI list leaves out Naive unless asked for it, Clash
      and sing-box have no XHTTP transport, and Clash no Naive either. */
  function Kept(naive: bool): Route -> bool {
    route => naive || route != Naive
  }

  function NoXHTTP(naive: bool): Route -> bool {
    route => route != XHTTP && route != XHTTPDirect && route != XHTTPH3 && (naive || route != Naive)
  }

  function Map<A, B>(f: A -> B, s: seq<A>): (r: seq<B>)
    ensures |r| == |s|
  {
    if s == [] then [] else Map(f, s[..|s| - 1]) + [f(s[|s| - 1])]
  }

  lemma {:induction false} MapAt<A, B>(f: A -> B, s: seq<A>, i: nat)
    requires i < |s|
    ensures Map(f, s)[i] == f(s[i])
  {
    if i >= |s| - 1 {
    } else {
      MapAt(f, s[..|s| - 1], i);
    }
  }

  lemma {:induction false} MapConcat<A, B>(f: A -> B, a: seq<A>, b: seq<A>)
    ensures Map(f, a + b) == Map(f, a) + Map(f, b)
    decreases |b|
  {
    if b == [] {
      assert a + b == a;
    } else {
      assert (a + b)[..|a + b| - 1] == a + b[..|b| - 1];
      MapConcat(f, a, b[..|b| - 1]);
    }
  }

  /** A route in a rendering, when the row serves it and the format keeps it. */
  function Piece<B>(f: Spot -> B, r: Row, kept: Route -> bool, route: Route): seq<B> {
    if Serves(r, route) && kept(route) then [f(Spot(r, route))] else []
  }

  lemma MapOpt<B>(f: Spot -> B, r: Row, kept: Route -> bool, route: Route)
    ensures Map(f, Opt(r, route, kept)) == Piece(f, r, kept, route)
  {
    var s := [Spot(r, route)];
    assert s[..0] == [];
  }

  /** A direct node has no XHTTP through the tunnel, a tunnelled one none over H3. */
  lemma H3Pieces<B>(f: Spot -> B, r: Row, kept: Route -> bool)
    requires IsReality(r)
    ensures Piece(f, r, kept, XHTTP) + Piece(f, r, kept, XHTTPDirect) + Piece(f, r, kept, XHTTPH3)
            == Piece(f, r, kept, XHTTPH3)
  {
  }

  lemma TunnelPieces<B>(f: Spot -> B, r: Row, kept: Route -> bool)
    requires IsCloudflare(r)
    ensures Piece(f, r, kept, XHTTP) + Piece(f, r, kept, XHTTPDirect) + Piece(f, r, kept, XHTTPH3)
            == Piece(f, r, kept, XHTTP) + Piece(f, r, kept, XHTTPDirect)
  {
  }

  lemma MapThree<B>(f: Spot -> B, r: Row, kept: Route -> bool, a: Route, b: Route, c: Route)
    ensures Map(f, Three(r, kept, a, b, c)) == Piece(f, r, kept, a) + Piece(f, r, kept, b) + Piece(f, r, kept, c)
  {
    MapConcat(f, Opt(r, a, kept), Opt(r, b, kept));
    MapConcat(f, Opt(r, a, kept) + Opt(r, b, kept), Opt(r, c, kept));
    MapOpt(f, r, kept, a);
    MapOpt(f, r, kept, b);
    MapOpt(f, r, kept, c);
  }

  lemma MapRow<B>(f: Spot -> B, r: Row, kept: Route -> bool)
    ensures Map(f, RowSpots(r, kept))
            == Map(f, Three(r, kept, Reality, RealityV6, HTTPUpgrade))
               + Map(f, Three(r, kept, XHTTP, XHTTPDirect, XHTTPH3))
               + Map(f, Three(r, kept, HY2, HY2V6, Naive))
  {
    var a, b := Three(r, kept, Reality, RealityV6, HTTPUpgrade), Three(r, kept, XHTTP, XHTTPDirect, XHTTPH3);
    MapConcat(f, a, b);
    MapConcat(f, a + b, Three(r, kept, HY2, HY2V6, Naive));
  }

  function NameOf(spot: Spot): string {
    Name(spot.row.nodeId, spot.route)
  }

  function Names(spots: seq<Spot>): seq<string> {
    Map(NameOf, spots)
  }

  lemma SpotsServed(rows: seq<Row>, kept: Route -> bool)
    ensures forall s :: s in Spots(rows, kept) <==> s.row in rows && Serves(s.row, s.route) && kept(s.route)
  {
    if rows != [] {
      var before, last := rows[..|rows| - 1], rows[|rows| - 1];
      SpotsServed(before, kept);
      assert rows == before + [last];
      RowSpotsServed(last, kept);
    }
  }

  lemma ThreeServed(r: Row, kept: Route -> bool, a: Route, b: Route, c: Route, s: Spot)
    ensures s in Three(r, kept, a, b, c)
            <==> s.row == r && Serves(r, s.route) && kept(s.route) && (s.route == a || s.route == b || s.route == c)
  {
    OptServed(r, kept, a, s);
    OptServed(r, kept, b, s);
    OptServed(r, kept, c, s);
  }

  lemma OptServed(r: Row, kept: Route -> bool, route: Route, s: Spot)
    ensures s in Opt(r, route, kept) <==> s == Spot(r, route) && Serves(r, route) && kept(route)
  {
  }

  lemma RowSpotsServed(r: Row, kept: Route -> bool)
    ensures forall s :: s in RowSpots(r, kept) <==> s.row == r && Serves(r, s.route) && kept(s.route)
  {
    forall s ensures s in RowSpots(r, kept) <==> s.row == r && Serves(r, s.route) && kept(s.route) {
      ThreeServed(r, kept, Reality, RealityV6, HTTPUpgrade, s);
      ThreeServed(r, kept, XHTTP, XHTTPDirect, XHTTPH3, s);
      ThreeServed(r, kept, HY2, HY2V6, Naive, s);
    }
  }

  // ---- Names ---------------------------------------------------------------

  /** No route's suffix ends another's. */
  lemma SuffixesApart(a: Route, b: Route)
    ensures HasSuffix(Suffix(a), Suffix(b)) ==> a == b
  {
    var s, t := Suffix(a), Suffix(b);
    if |s| > |t| {
      assert s[|s| - |t|..][|t| - 1] == s[|s| - 1];
    }
  }

  lemma SuffixEnds(id: string, s: string, t: string)
    requires HasSuffix(id + s, t) && |t| <= |s|
    ensures HasSuffix(s, t)
  {
    assert (id + s)[|id + s| - |t|..] == s[|s| - |t|..];
  }

  /** A route name gives back its node and its route, whatever the node is called. */
  lemma NameInjective(id1: string, a: Route, id2: string, b: Route)
    requires Name(id1, a) == Name(id2, b)
    ensures id1 == id2 && a == b
  {
    var name := Name(id1, a);
    assert name[|name| - |Suffix(a)|..] == Suffix(a) && name[|name| - |Suffix(b)|..] == Suffix(b);
    if |Suffix(a)| <= |Suffix(b)| {
      SuffixEnds(id2, Suffix(b), Suffix(a));
      SuffixesApart(b, a);
    } else {
      SuffixEnds(id1, Suffix(a), Suffix(b));
      SuffixesApart(a, b);
    }
    assert name[..|id1|] == id1 && name[..|id2|] == id2;
  }

  /** Distinct nodes never share a route name, in any format. */
  lemma {:induction false} NamesDistinct(rows: seq<Row>, kept: Route -> bool)
    requires DistinctNodes(rows)
    ensures Distinct(Names(Spots(rows, kept)))
  {
    if rows == [] {
    } else {
      var before, last := rows[..|rows| - 1], rows[|rows| - 1];
      NamesDistinct(before, kept);
      RowNamesDistinct(last, kept);
      MapConcat(NameOf, Spots(before, kept), RowSpots(last, kept));
      var a, b := Names(Spots(before, kept)), Names(RowSpots(last, kept));
      forall i, j | 0 <= i < |a| && 0 <= j < |b| ensures a[i] != b[j] {
        OtherNode(rows, kept, i, j);
      }
      DistinctConcat(a, b);
    }
  }

  lemma OtherNode(rows: seq<Row>, kept: Route -> bool, i: nat, j: nat)
    requires DistinctNodes(rows) && rows != []
    requires var a, b := Spots(rows[..|rows| - 1], kept), RowSpots(rows[|rows| - 1], kept); i < |a| && j < |b|
    ensures Names(Spots(rows[..|rows| - 1], kept))[i] != Names(RowSpots(rows[|rows| - 1], kept))[j]
  {
    var a, b := Spots(rows[..|rows| - 1], kept), RowSpots(rows[|rows| - 1], kept);
    SpotsServed(rows[..|rows| - 1], kept);
    RowSpotsServed(rows[|rows| - 1], kept);
    MapAt(NameOf, a, i);
    MapAt(NameOf, b, j);
    var x, y := a[i], b[j];
    assert x in a && y in b;
    if NameOf(x) == NameOf(y) {
      NameInjective(x.row.nodeId, x.route, y.row.nodeId, y.route);
      assert false;
    }
  }

  predicate DistinctNodes(rows: seq<Row>) {
    forall i, j :: 0 <= i < j < |rows| ==> rows[i].nodeId != rows[j].nodeId
  }

  lemma DistinctConcat(a: seq<string>, b: seq<string>)
    requires Distinct(a) && Distinct(b)
    requires forall i, j :: 0 <= i < |a| && 0 <= j < |b| ==> a[i] != b[j]
    ensures Distinct(a + b)
  {
  }

  /** Every format lists a row's routes in this order. */
  function Rank(route: Route): nat {
    match route
    case Reality => 0
    case RealityV6 => 1
    case HTTPUpgrade => 2
    case XHTTP => 3
    case XHTTPDirect => 4
    case XHTTPH3 => 5
    case HY2 => 6
    case HY2V6 => 7
    case Naive => 8
  }

  /** Spots of one row in rank order, with ranks between the bounds. */
  predicate Ranked(spots: seq<Spot>, r: Row, lo: nat, hi: nat) {
    && (forall i :: 0 <= i < |spots| ==> spots[i].row == r && lo <= Rank(spots[i].route) < hi)
    && (forall i, j :: 0 <= i < j < |spots| ==> Rank(spots[i].route) < Rank(spots[j].route))
  }

  lemma ThreeRanked(r: Row, kept: Route -> bool, a: Route, b: Route, c: Route)
    requires Rank(a) < Rank(b) < Rank(c)
    ensures Ranked(Three(r, kept, a, b, c), r, Rank(a), Rank(c) + 1)
  {
  }

  lemma RankedConcat(x: seq<Spot>, y: seq<Spot>, r: Row, lo: nat, mid: nat, hi: nat)
    requires lo <= mid <= hi && Ranked(x, r, lo, mid) && Ranked(y, r, mid, hi)
    ensures Ranked(x + y, r, lo, hi)
  {
  }

  lemma RowRanked(r: Row, kept: Route -> bool)
    ensures Ranked(RowSpots(r, kept), r, 0, 9)
  {
    var a, b := Three(r, kept, Reality, RealityV6, HTTPUpgrade), Three(r, kept, XHTTP, XHTTPDirect, XHTTPH3);
    ThreeRanked(r, kept, Reality, RealityV6, HTTPUpgrade);
    ThreeRanked(r, kept, XHTTP, XHTTPDirect, XHTTPH3);
    ThreeRanked(r, kept, HY2, HY2V6, Naive);
    RankedConcat(a, b, r, 0, 3, 6);
    RankedConcat(a + b, Three(r, kept, HY2, HY2V6, Naive), r, 0, 6, 9);
  }

  /** A row never lists a route twice. */
  lemma RowNamesDistinct(r: Row, kept: Route -> bool)
    ensures Distinct(Names(RowSpots(r, kept)))
  {
    var spots := RowSpots(r, kept);
    RowRanked(r, kept);
    forall i, j | 0 <= i < j < |spots| ensures Names(spots)[i] != Names(spots)[j] {
      MapAt(NameOf, spots, i);
      MapAt(NameOf, spots, j);
      if NameOf(spots[i]) == NameOf(spots[j]) {
        NameInjective(r.nodeId, spots[i].route, r.nodeId, spots[j].route);
        assert false;
      }
    }
  }

  // ---- The URI list --------------------------------------------------------

  function UriHost(host: string): string {
    if ':' in host && !HasPrefix(host, "[") then "[" + host + "]" else host
  }

  /** The parameters of a query, in order, each already encoded. */
  type Params = seq<(string, string)>

  function Query(params: Params): string {
    if params == [] then ""
    else
      params[0].0 + "=" + params[0].1 + (if |params| == 1 then "" else "&" + Query(params[1..]))
  }

  /** The wire format up to the route name. */
  function UriText(scheme: string, login: string, host: string, port: string, path: string,
                   params: Params): string {
    scheme + "://" + (login + "@" + (host + ":" + port)) + (path + "?" + Query(params))
  }

  function RealityParams(sni: string, key: string, sid: string): Params {
    [("encryption", "none"), ("security", "reality"), ("flow", "xtls-rprx-vision"), ("type", "tcp"),
     ("sni", sni), ("pbk", key), ("sid", sid), ("fp", "chrome")]
  }

  function UpgradeParams(host: string, path: string, alpn: string): Params {
    [("encryption", "none"), ("security", "tls"), ("type", "httpupgrade"), ("host", host), ("path", path),
     ("alpn", alpn), ("sni", host)]
  }

  function XHTTPParams(host: string, path: string, mode: string, alpn: string): Params {
    [("encryption", "none"), ("security", "tls"), ("type", "xhttp"), ("host", host), ("path", path),
     ("mode", mode), ("alpn", alpn), ("sni", host)]
  }

  function Hy2Params(obfs: string, sni: string): Params {
    [("obfs", "salamander"), ("obfs-password", obfs), ("sni", sni), ("insecure", "0")]
  }

  function NaiveParams(host: string): Params {
    [("security", "tls"), ("sni", host), ("uot", "false")]
  }

  function RealityBody(uuid: string, host: string, sni: string, key: string, sid: string): string {
    UriText("vless", uuid, UriHost(host), "443", "", RealityParams(sni, key, sid))
  }

  function HTTPUpgradeBody(uuid: string, domain: string, host: string, path: string): string {
    UriText("vless", uuid, domain, "443", "", UpgradeParams(host, path, ALPN_H1))
  }

  function XHTTPBody(uuid: string, domain: string, host: string, path: string, mode: string, alpn: string): string {
    UriText("vless", uuid, domain, "443", "", XHTTPParams(host, path, mode, alpn))
  }

  function Hy2Body(user: string, password: string, address: string, port: int, obfs: string, sni: string): string {
    UriText("hysteria2", user + ":" + password, UriHost(address), Itoa(port), "/", Hy2Params(obfs, sni))
  }

  function NaiveBody(user: string, pass: string, domain: string, host: string): string {
    UriText("naive", user + ":" + pass, domain, "443", "", NaiveParams(host))
  }

  /** Whom a list is for, and the fixed texts both builders put into it. */
  datatype Wire = Wire(username: string, defaultPath: string, xhttpPath: string, xhttpMode: string, streamOne: string)

  const ALPN_H1 := "http%2F1.1"
  const ALPN_H2 := "h2%2Chttp%2F1.1"

  /** The segments of a path, each encoded, with an encoded slash between them. */
  function EncodePath(path: string): string {
    Join(Uri.EncodeAll(Split(path, '/')), "%2F")
  }

  function Address(r: Row, fallback: string): string {
    if Given(r.publicIp) then r.publicIp.value else fallback
  }

  function Path(w: Wire, r: Row): string {
    match r.xhttpPath case None => w.defaultPath case Some(p) => p
  }

  /** The host a client dials for a route, the same in every format. */
  function Dial(spot: Spot): string {
    var r := spot.row;
    match spot.route
    case Reality => Address(r, r.vpnHost)
    case RealityV6 => Value(r.ipv6)
    case HTTPUpgrade => r.vpnHost
    case XHTTP => r.vpnHost
    case XHTTPDirect => Value(r.directHost)
    case XHTTPH3 => Value(r.h3Host)
    case HY2 => Address(r, Value(r.hy2Host))
    case HY2V6 => Value(r.ipv6)
    case Naive => Value(r.naiveHost)
  }

  function Port(spot: Spot): int {
    if spot.route in {HY2, HY2V6} && spot.row.hy2Port.Some? then spot.row.hy2Port.value else 443
  }

  function RealityOf(spot: Spot): string {
    var r := spot.row;
    RealityBody(r.uuid, Dial(spot), Uri.Encode(Value(r.realitySni)), Uri.Encode(Value(r.realityKey)),
                Uri.Encode(Value(r.realitySid)))
  }

  function Hy2Of(username: string, spot: Spot): string {
    var r := spot.row;
    Hy2Body(Uri.Encode(username), Uri.Encode(r.hy2Password), Dial(spot), Port(spot),
            Uri.Encode(Value(r.hy2Obfs)), Uri.Encode(Value(r.hy2Host)))
  }

  function XHTTPOf(spot: Spot, path: string, mode: string, alpn: string): string {
    XHTTPBody(spot.row.uuid, Dial(spot), Uri.Encode(Dial(spot)), EncodePath(path), Uri.Encode(mode), alpn)
  }

  function Body(w: Wire, spot: Spot): string {
    var r := spot.row;
    match spot.route
    case Reality => RealityOf(spot)
    case RealityV6 => RealityOf(spot)
    case HTTPUpgrade => HTTPUpgradeBody(r.uuid, Dial(spot), Uri.Encode(Dial(spot)), EncodePath(Path(w, r)))
    case XHTTP => XHTTPOf(spot, w.xhttpPath, w.xhttpMode, ALPN_H2)
    case XHTTPDirect => XHTTPOf(spot, Value(r.directPath), w.streamOne, ALPN_H2)
    case XHTTPH3 => XHTTPOf(spot, Value(r.h3Path), w.streamOne, "h3")
    case HY2 => Hy2Of(w.username, spot)
    case HY2V6 => Hy2Of(w.username, spot)
    case Naive =>
      NaiveBody(Uri.Encode(Value(r.naiveUser)), Uri.Encode(Value(r.naivePass)), Dial(spot), Uri.Encode(Dial(spot)))
  }

  function Line(body: string, tag: string, route: Route): string {
    body + "#" + (Uri.Encode(tag) + Suffix(route))
  }

  function LineOf(w: Wire): Spot -> string {
    (spot: Spot) => Line(Body(w, spot), spot.row.nodeId, spot.route)
  }

  /** The loop body of buildSubscriptionURIs in three parts, for any rendering of a
      route: the main route and its IPv6 twin, the XHTTP routes, and the rest. */
  method RowURIs<T>(line: Spot -> T, r: Row, naive: bool) returns (lines: seq<T>)
    ensures lines == Map(line, RowSpots(r, Kept(naive)))
  {
    MapRow(line, r, Kept(naive));
    if !IsReality(r) && !IsCloudflare(r) {
      NothingServed(line, r, Kept(naive));
      return [];
    }
    var head := RowHead(line, r, Kept(naive));
    var middle := RowXHTTP(line, r, Kept(naive));
    var tail := RowTail(line, r, Kept(naive), naive);
    lines := head + middle + tail;
  }

  lemma NothingServed<T>(f: Spot -> T, r: Row, kept: Route -> bool)
    requires !IsReality(r) && !IsCloudflare(r)
    ensures Map(f, RowSpots(r, kept)) == []
  {
    assert RowSpots(r, kept) == [];
  }

  method RowHead<T>(line: Spot -> T, r: Row, kept: Route -> bool) returns (lines: seq<T>)
    requires IsReality(r) || IsCloudflare(r)
    requires kept(Reality) && kept(RealityV6) && kept(HTTPUpgrade)
    ensures lines == Map(line, Three(r, kept, Reality, RealityV6, HTTPUpgrade))
  {
    MapThree(line, r, kept, Reality, RealityV6, HTTPUpgrade);
    if IsReality(r) {
      lines := [line(Spot(r, Reality))];
    } else {
      lines := [line(Spot(r, HTTPUpgrade))];
    }
    if IsReality(r) && r.ipv6.Some? {
      lines := lines + [line(Spot(r, RealityV6))];
    }
  }

  method RowXHTTP<T>(line: Spot -> T, r: Row, kept: Route -> bool) returns (lines: seq<T>)
    requires IsReality(r) || IsCloudflare(r)
    requires kept(XHTTP) && kept(XHTTPDirect) && kept(XHTTPH3)
    ensures lines == Map(line, Three(r, kept, XHTTP, XHTTPDirect, XHTTPH3))
  {
    ghost var a, b, c := Piece(line, r, kept, XHTTP), Piece(line, r, kept, XHTTPDirect), Piece(line, r, kept, XHTTPH3);
    XHTTPServed(line, r, kept);
    lines := [];
    if HasXHTTP(r) {
      lines := lines + [line(Spot(r, XHTTP))];
    }
    assert lines == a;
    if HasXHTTPDirect(r) {
      lines := lines + [line(Spot(r, XHTTPDirect))];
    }
    assert lines == a + b;
    if HasXHTTPH3(r) {
      lines := lines + [line(Spot(r, XHTTPH3))];
    }
    assert lines == a + b + c;
    MapThree(line, r, kept, XHTTP, XHTTPDirect, XHTTPH3);
  }

  lemma XHTTPServed<T>(line: Spot -> T, r: Row, kept: Route -> bool)
    requires IsReality(r) || IsCloudflare(r)
    requires kept(XHTTP) && kept(XHTTPDirect) && kept(XHTTPH3)
    ensures Piece(line, r, kept, XHTTP) == if HasXHTTP(r) then [line(Spot(r, XHTTP))] else []
    ensures Piece(line, r, kept, XHTTPDirect) == if HasXHTTPDirect(r) then [line(Spot(r, XHTTPDirect))] else []
    ensures Piece(line, r, kept, XHTTPH3) == if HasXHTTPH3(r) then [line(Spot(r, XHTTPH3))] else []
  {
  }

  method RowTail<T>(line: Spot -> T, r: Row, kept: Route -> bool, naive: bool) returns (lines: seq<T>)
    requires IsReality(r) || IsCloudflare(r)
    requires kept(HY2) && kept(HY2V6) && kept(Naive) == naive
    ensures lines == Map(line, Three(r, kept, HY2, HY2V6, Naive))
  {
    MapThree(line, r, kept, HY2, HY2V6, Naive);
    lines := [];
    if HasHy2(r) {
      lines := lines + [line(Spot(r, HY2))];
      if r.ipv6.Some? {
        lines := lines + [line(Spot(r, HY2V6))];
      }
    }
    if naive && HasNaive(r) {
      lines := lines + [line(Spot(r, Naive))];
    }
  }

  lemma SpotsNext(rows: seq<Row>, i: nat, kept: Route -> bool)
    requires i < |rows|
    ensures Spots(rows[..i + 1], kept) == Spots(rows[..i], kept) + RowSpots(rows[i], kept)
  {
    assert rows[..i + 1][..i] == rows[..i];
  }

  /** buildSubscriptionURIs: one line per served route. */
  method BuildSubscriptionURIs(w: Wire, rows: seq<Row>, naive: bool) returns (lines: seq<string>)
    ensures lines == Map(LineOf(w), Spots(rows, Kept(naive)))
  {
    lines := [];
    for i := 0 to |rows|
      invariant lines == Map(LineOf(w), Spots(rows[..i], Kept(naive)))
    {
      SpotsNext(rows, i, Kept(naive));
      MapConcat(LineOf(w), Spots(rows[..i], Kept(naive)), RowSpots(rows[i], Kept(naive)));
      var more := RowURIs(LineOf(w), rows[i], naive);
      lines := lines + more;
    }
    assert rows[..|rows|] == rows;
  }

  /** The loop body of availableNames, gated by the kind of node. */
  method RowNames<T>(name: Spot -> T, r: Row) returns (names: seq<T>)
    ensures names == Map(name, RowSpots(r, Kept(false)))
  {
    MapRow(name, r, Kept(false));
    if !IsReality(r) && !IsCloudflare(r) {
      NothingServed(name, r, Kept(false));
      return [];
    }
    var first := RowHead(name, r, Kept(false));
    var second;
    if IsReality(r) {
      second := DirectNames(name, r);
    } else {
      second := TunnelNames(name, r);
    }
    var third := RowTail(name, r, Kept(false), false);
    names := first + second + third;
  }

  method DirectNames<T>(name: Spot -> T, r: Row) returns (names: seq<T>)
    requires IsReality(r)
    ensures names == Map(name, Three(r, Kept(false), XHTTP, XHTTPDirect, XHTTPH3))
  {
    MapThree(name, r, Kept(false), XHTTP, XHTTPDirect, XHTTPH3);
    H3Pieces(name, r, Kept(false));
    names := if HasXHTTPH3(r) then [name(Spot(r, XHTTPH3))] else [];
  }

  method TunnelNames<T>(name: Spot -> T, r: Row) returns (names: seq<T>)
    requires IsCloudflare(r)
    ensures names == Map(name, Three(r, Kept(false), XHTTP, XHTTPDirect, XHTTPH3))
  {
    MapThree(name, r, Kept(false), XHTTP, XHTTPDirect, XHTTPH3);
    TunnelPieces(name, r, Kept(false));
    names := [];
    if HasXHTTP(r) {
      names := names + [name(Spot(r, XHTTP))];
    }
    assert names == Piece(name, r, Kept(false), XHTTP);
    if HasXHTTPDirect(r) {
      names := names + [name(Spot(r, XHTTPDirect))];
    }
  }

  /** availableNames: the names a config may put in its groups. */
  method AvailableNames(rows: seq<Row>) returns (names: seq<string>)
    ensures names == Names(Spots(rows, Kept(false)))
  {
    names := [];
    for i := 0 to |rows|
      invariant names == Names(Spots(rows[..i], Kept(false)))
    {
      SpotsNext(rows, i, Kept(false));
      MapConcat(NameOf, Spots(rows[..i], Kept(false)), RowSpots(rows[i], Kept(false)));
      var more := RowNames(NameOf, rows[i]);
      names := names + more;
    }
    assert rows[..|rows|] == rows;
  }

  // ---- The names in the list -----------------------------------------------

  /** The fragment of a URI: what follows the first '#' (RFC 3986, section 3.5). */
  function Fragment(uri: string): string {
    if uri == "" then "" else if uri[0] == '#' then uri[1..] else Fragment(uri[1..])
  }

  lemma {:induction false} FragmentOf(body: string, name: string)
    requires '#' !in body
    ensures Fragment(body + "#" + name) == name
  {
    if body == "" {
      assert (body + "#" + name)[1..] == name;
    } else {
      FragmentOf(body[1..], name);
      assert (body + "#" + name)[1..] == body[1..] + "#" + name;
    }
  }

  lemma {:induction false} FragmentEarly(body: string, name: string) returns (x: string)
    requires '#' in body
    ensures Fragment(body + "#" + name) == x + "#" + name
  {
    assert (body + "#" + name)[1..] == body[1..] + "#" + name;
    if body[0] == '#' {
      x := body[1..];
    } else {
      x := FragmentEarly(body[1..], name);
    }
  }

  /** A client reads the label off a URI exactly when nothing before it holds a '#'. */
  lemma LabelRead(body: string, tag: string, suffix: string)
    requires '#' !in suffix && '%' !in suffix
    ensures Uri.Decode(Fragment(body + "#" + (Uri.Encode(tag) + suffix))) == Some(tag + suffix) <==> '#' !in body
  {
    var shown := Uri.Encode(tag) + suffix;
    Uri.DecodeEncode(tag, suffix);
    if '#' in body {
      var x := FragmentEarly(body, shown);
      Uri.DecodeAfterHash(x, shown);
    } else {
      FragmentOf(body, shown);
    }
  }

  /** The fields that go into a line as they are. */
  predicate PlainFields(spot: Spot) {
    '#' !in Dial(spot) && (spot.route in {HY2, HY2V6, Naive} || '#' !in spot.row.uuid)
  }

  lemma HostPlain(host: string)
    ensures '#' in UriHost(host) <==> '#' in host
  {
  }

  /** No key or value holds the character. */
  ghost predicate ParamsFree(params: Params, c: char) {
    forall i :: 0 <= i < |params| ==> c !in params[i].0 && c !in params[i].1
  }

  lemma {:induction false} QueryPlain(params: Params)
    requires ParamsFree(params, '#')
    ensures '#' !in Query(params)
  {
    if params == [] {
    } else {
      assert '#' !in params[0].0 && '#' !in params[0].1;
      QueryPlain(params[1..]);
    }
  }

  lemma UriPlain(scheme: string, login: string, host: string, port: string, path: string, params: Params)
    requires '#' !in scheme && '#' !in port && '#' !in path && ParamsFree(params, '#')
    ensures '#' in UriText(scheme, login, host, port, path, params) <==> '#' in login || '#' in host
  {
    QueryPlain(params);
  }

  lemma RealityPlain(uuid: string, host: string, sni: string, key: string, sid: string)
    requires '#' !in sni && '#' !in key && '#' !in sid
    ensures '#' in RealityBody(uuid, host, sni, key, sid) <==> '#' in uuid || '#' in host
  {
    UriPlain("vless", uuid, UriHost(host), "443", "", RealityParams(sni, key, sid));
    HostPlain(host);
  }

  lemma UpgradePlain(uuid: string, domain: string, host: string, path: string)
    requires '#' !in host && '#' !in path
    ensures '#' in HTTPUpgradeBody(uuid, domain, host, path) <==> '#' in uuid || '#' in domain
  {
    UriPlain("vless", uuid, domain, "443", "", UpgradeParams(host, path, ALPN_H1));
  }

  lemma XHTTPPlain(uuid: string, domain: string, host: string, path: string, mode: string, alpn: string)
    requires '#' !in host && '#' !in path && '#' !in mode && '#' !in alpn
    ensures '#' in XHTTPBody(uuid, domain, host, path, mode, alpn) <==> '#' in uuid || '#' in domain
  {
    UriPlain("vless", uuid, domain, "443", "", XHTTPParams(host, path, mode, alpn));
  }

  lemma PortPlain(n: int)
    ensures '#' !in Itoa(n)
  {
    NumberOfDigits(if n < 0 then -n else n);
  }

  lemma Hy2Plain(user: string, password: string, address: string, port: int, obfs: string, sni: string)
    requires '#' !in user && '#' !in password && '#' !in obfs && '#' !in sni
    ensures '#' in Hy2Body(user, password, address, port, obfs, sni) <==> '#' in address
  {
    PortPlain(port);
    UriPlain("hysteria2", user + ":" + password, UriHost(address), Itoa(port), "/", Hy2Params(obfs, sni));
    HostPlain(address);
  }

  lemma NaivePlain(user: string, pass: string, domain: string, host: string)
    requires '#' !in user && '#' !in pass && '#' !in host
    ensures '#' in NaiveBody(user, pass, domain, host) <==> '#' in domain
  {
    UriPlain("naive", user + ":" + pass, domain, "443", "", NaiveParams(host));
  }

  lemma SuffixPlain(route: Route)
    ensures '#' !in Suffix(route) && '%' !in Suffix(route)
  {
  }

  lemma PathIs(path: string)
    ensures EncodePath(path) == Uri.Encode(path)
  {
    Uri.PathSegments(path);
  }

  lemma XHTTPOfPlain(spot: Spot, path: string, mode: string, alpn: string)
    requires '#' !in alpn
    ensures '#' in XHTTPOf(spot, path, mode, alpn) <==> '#' in spot.row.uuid || '#' in Dial(spot)
  {
    PathIs(path);
    Uri.EncodedPlain(path);
    Uri.EncodedPlain(mode);
    Uri.EncodedPlain(Dial(spot));
    XHTTPPlain(spot.row.uuid, Dial(spot), Uri.Encode(Dial(spot)), EncodePath(path), Uri.Encode(mode), alpn);
  }

  lemma RealityOfPlain(spot: Spot)
    ensures '#' in RealityOf(spot) <==> '#' in spot.row.uuid || '#' in Dial(spot)
  {
    var r := spot.row;
    Uri.EncodedPlain(Value(r.realitySni));
    Uri.EncodedPlain(Value(r.realityKey));
    Uri.EncodedPlain(Value(r.realitySid));
    RealityPlain(r.uuid, Dial(spot), Uri.Encode(Value(r.realitySni)), Uri.Encode(Value(r.realityKey)),
                 Uri.Encode(Value(r.realitySid)));
  }

  lemma Hy2OfPlain(username: string, spot: Spot)
    ensures '#' in Hy2Of(username, spot) <==> '#' in Dial(spot)
  {
    var r := spot.row;
    Uri.EncodedPlain(username);
    Uri.EncodedPlain(r.hy2Password);
    Uri.EncodedPlain(Value(r.hy2Obfs));
    Uri.EncodedPlain(Value(r.hy2Host));
    Hy2Plain(Uri.Encode(username), Uri.Encode(r.hy2Password), Dial(spot), Port(spot),
             Uri.Encode(Value(r.hy2Obfs)), Uri.Encode(Value(r.hy2Host)));
  }

  lemma UpgradeOfPlain(w: Wire, spot: Spot)
    requires spot.route == HTTPUpgrade
    ensures '#' in Body(w, spot) <==> '#' in spot.row.uuid || '#' in Dial(spot)
  {
    var path := Path(w, spot.row);
    PathIs(path);
    Uri.EncodedPlain(path);
    Uri.EncodedPlain(Dial(spot));
    UpgradePlain(spot.row.uuid, Dial(spot), Uri.Encode(Dial(spot)), EncodePath(path));
  }

  lemma NaiveOfPlain(w: Wire, spot: Spot)
    requires spot.route == Naive
    ensures '#' in Body(w, spot) <==> '#' in Dial(spot)
  {
    var r := spot.row;
    Uri.EncodedPlain(Value(r.naiveUser));
    Uri.EncodedPlain(Value(r.naivePass));
    Uri.EncodedPlain(Dial(spot));
    NaivePlain(Uri.Encode(Value(r.naiveUser)), Uri.Encode(Value(r.naivePass)), Dial(spot), Uri.Encode(Dial(spot)));
  }

  lemma BodyPlain(w: Wire, spot: Spot)
    ensures '#' !in Body(w, spot) <==> PlainFields(spot)
  {
    match spot.route
    case Reality => RealityOfPlain(spot);
    case RealityV6 => RealityOfPlain(spot);
    case HTTPUpgrade => UpgradeOfPlain(w, spot);
    case XHTTP => XHTTPOfPlain(spot, w.xhttpPath, w.xhttpMode, ALPN_H2);
    case XHTTPDirect => XHTTPOfPlain(spot, Value(spot.row.directPath), w.streamOne, ALPN_H2);
    case XHTTPH3 => XHTTPOfPlain(spot, Value(spot.row.h3Path), w.streamOne, "h3");
    case HY2 => Hy2OfPlain(w.username, spot);
    case HY2V6 => Hy2OfPlain(w.username, spot);
    case Naive => NaiveOfPlain(w, spot);
  }

  /** The name a client reads off a URI is the route name the configs use, exactly when
      the host and the uuid, which go in as they are, hold no '#'. */
  lemma LineName(w: Wire, spot: Spot)
    ensures Uri.Decode(Fragment(LineOf(w)(spot))) == Some(NameOf(spot)) <==> PlainFields(spot)
  {
    SuffixPlain(spot.route);
    BodyPlain(w, spot);
    LabelRead(Body(w, spot), spot.row.nodeId, Suffix(spot.route));
  }

  /** The names the configs use are the names in the URI list, one for one and in order,
      as far as a client can read them. */
  lemma AvailableIsSubscription(w: Wire, rows: seq<Row>)
    ensures var spots := Spots(rows, Kept(false));
            var lines, names := Map(LineOf(w), spots), Names(spots);
            && |lines| == |names| == |spots|
            && forall i :: 0 <= i < |lines| ==>
                 (Uri.Decode(Fragment(lines[i])) == Some(names[i]) <==> PlainFields(spots[i]))
  {
    var spots := Spots(rows, Kept(false));
    forall i | 0 <= i < |spots|
      ensures Uri.Decode(Fragment(Map(LineOf(w), spots)[i])) == Some(Names(spots)[i]) <==> PlainFields(spots[i])
    {
      MapAt(LineOf(w), spots, i);
      MapAt(NameOf, spots, i);
      LineName(w, spots[i]);
    }
  }
}
