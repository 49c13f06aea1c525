/** The node's own URI list (internal/commands/subscription.go, internal/subscription)
    against the Worker's: the same branching written twice, over the env file on one side
    and the database row on the other. */
module GoMirror {
  import opened Text
  import opened Routes
  import Uri

  /** cfvpn.env as far as the URIs need it. hy2Port is what Atoi makes of the port, ipv6
      what publicIPv6 makes of the address. */
  datatype Env = Env(
    nodeId: string, mode: string, publicIp: string, ipv6: Option<string>,
    realityPub: string, realitySid: string, realitySni: string,
    xhttpPath: string, xhttpEnabled: bool, directHost: string, directPath: string, h3Host: string, h3Path: string,
    hy2Enabled: bool, hy2Host: string, hy2Port: Option<int>, hy2Obfs: string)

  datatype User = User(name: string, uuid: string, domain: string, hy2Password: string)

  function Tag(u: User, env: Env): string {
    var tag := Upper(TrimSpace(env.nodeId));
    if tag == "" then u.name else tag
  }

  /** The tag is the node's id in capitals, or the user's name on a node without one. */
  lemma TagIs(u: User, env: Env)
    ensures var id, tag := TrimSpace(env.nodeId), Tag(u, env);
            if id == "" then tag == u.name
            else |tag| == |id| && forall i :: 0 <= i < |id| ==>
                   tag[i] == if 'a' <= id[i] <= 'z' then (id[i] as int - 32) as char else id[i]
  {
    UpperIs(TrimSpace(env.nodeId));
  }

  lemma {:induction false} UpperIs(s: string)
    ensures |Upper(s)| == |s| && forall i :: 0 <= i < |s| ==> Upper(s)[i] == UpperChar(s[i])
  {
    if s == "" {
    } else {
      UpperIs(s[1..]);
    }
  }

  /** EncodeURIComponent of the node, on the bytes of the text. */
  function Enc(s: string): string {
    Uri.EncodeBytes(Uri.Utf8All(s))
  }

  lemma EncIs(s: string)
    ensures Enc(s) == Uri.Encode(s)
  {
    Uri.EncodersAgree(s);
  }

  // ---- The node's builders -------------------------------------------------

  function Labelled(body: string, tag: string, suffix: string): string {
    body + "#" + (Enc(tag) + suffix)
  }

  function VLESSReality(u: User, env: Env, host: string, suffix: string): string {
    Labelled(RealityBody(u.uuid, host, Enc(env.realitySni), Enc(env.realityPub), Enc(env.realitySid)),
             Tag(u, env), "-Reality" + suffix)
  }

  function Hy2(u: User, env: Env, address: string, port: int, suffix: string): string {
    Labelled(Hy2Body(Enc(u.name), Enc(u.hy2Password), address, port, Enc(env.hy2Obfs), Enc(env.hy2Host)),
             Tag(u, env), "-HY2" + suffix)
  }

  predicate RealityComplete(env: Env) {
    env.realityPub != "" && env.realitySid != "" && env.realitySni != ""
  }

  function PublicIpOr(env: Env, fallback: string): string {
    var ip := TrimSpace(env.publicIp);
    if ip == "" then fallback else ip
  }

  /** buildHy2Line succeeds. */
  predicate Hy2Line(u: User, env: Env) {
    && env.hy2Enabled && env.hy2Host != "" && env.hy2Port.Some? && env.hy2Port.value > 0
    && env.hy2Obfs != "" && u.hy2Password != ""
  }

  function OptLine(present: bool, line: string): seq<string> {
    if present then [line] else []
  }

  function RealityLines(u: User, env: Env): seq<string> {
    if !RealityComplete(env) then []
    else
      [VLESSReality(u, env, PublicIpOr(env, u.domain), "")]
      + match env.ipv6 case None => [] case Some(v6) => [VLESSReality(u, env, v6, "-v6")]
  }

  function XHTTPLine(u: User, env: Env, host: string, path: string, mode: string, alpn: string,
                     suffix: string): string {
    Labelled(XHTTPBody(u.uuid, host, Enc(host), Uri.Encode(path), Enc(mode), alpn), Tag(u, env), suffix)
  }

  /** An XHTTP route on a hostname of its own, when both settings are there. */
  function OwnHostLines(w: Wire, u: User, env: Env, host: string, path: string, alpn: string,
                        suffix: string): seq<string> {
    OptLine(host != "" && path != "", XHTTPLine(u, env, host, path, w.streamOne, alpn, suffix))
  }

  function H3Lines(w: Wire, u: User, env: Env): seq<string> {
    OwnHostLines(w, u, env, TrimSpace(env.h3Host), TrimSpace(env.h3Path), "h3", "-XHTTP-H3")
  }

  function DirectLines(w: Wire, u: User, env: Env): seq<string> {
    OwnHostLines(w, u, env, TrimSpace(env.directHost), TrimSpace(env.directPath), ALPN_H2, "-XHTTP-Direct")
  }

  function XHTTPLines(w: Wire, u: User, env: Env): seq<string> {
    OptLine(env.xhttpEnabled, XHTTPLine(u, env, u.domain, w.xhttpPath, w.xhttpMode, ALPN_H2, "-XHTTP"))
  }

  function UpgradeLine(w: Wire, u: User, env: Env): string {
    var path := if env.xhttpPath == "" then w.defaultPath else env.xhttpPath;
    Labelled(HTTPUpgradeBody(u.uuid, u.domain, Enc(u.domain), Uri.Encode(path)), Tag(u, env), "-HTTPUpgrade")
  }

  function Hy2Lines(u: User, env: Env): seq<string> {
    if !Hy2Line(u, env) then []
    else
      [Hy2(u, env, PublicIpOr(env, env.hy2Host), env.hy2Port.value, "")]
      + match env.ipv6 case None => [] case Some(v6) => [Hy2(u, env, v6, env.hy2Port.value, "-v6")]
  }

  /** What MODE serves. */
  function MainLines(w: Wire, u: User, env: Env): seq<string> {
    var mode := TrimSpace(env.mode);
    if mode == "direct" then RealityLines(u, env) + H3Lines(w, u, env)
    else if mode == "cloudflare" then [UpgradeLine(w, u, env)] + XHTTPLines(w, u, env) + DirectLines(w, u, env)
    else []
  }

  /** The node's list. */
  function NodeLines(w: Wire, u: User, env: Env): seq<string> {
    MainLines(w, u, env) + Hy2Lines(u, env)
  }

  method BuildXHTTPLines(u: User, env: Env, present: bool, host: string, path: string, mode: string, alpn: string,
                         suffix: string)
    returns (lines: seq<string>)
    ensures lines == OptLine(present, XHTTPLine(u, env, host, path, mode, alpn, suffix))
  {
    if !present {
      return [];
    }
    var encPath := Uri.EncodeVLESSPath(path);
    lines := [Labelled(XHTTPBody(u.uuid, host, Enc(host), encPath, Enc(mode), alpn), Tag(u, env), suffix)];
  }

  method BuildUpgradeLine(w: Wire, u: User, env: Env) returns (line: string)
    ensures line == UpgradeLine(w, u, env)
  {
    var path := env.xhttpPath;
    if path == "" {
      path := w.defaultPath;
    }
    var encPath := Uri.EncodeVLESSPath(path);
    line := Labelled(HTTPUpgradeBody(u.uuid, u.domain, Enc(u.domain), encPath), Tag(u, env), "-HTTPUpgrade");
  }

  method BuildRealityLines(u: User, env: Env) returns (lines: seq<string>)
    ensures lines == RealityLines(u, env)
  {
    if env.realityPub == "" || env.realitySid == "" || env.realitySni == "" {
      return [];
    }
    var host := TrimSpace(env.publicIp);
    if host == "" {
      host := u.domain;
    }
    lines := [VLESSReality(u, env, host, "")];
    if env.ipv6.Some? {
      lines := lines + [VLESSReality(u, env, env.ipv6.value, "-v6")];
    }
  }

  method BuildHy2Lines(u: User, env: Env) returns (lines: seq<string>)
    ensures lines == Hy2Lines(u, env)
  {
    if !env.hy2Enabled || env.hy2Host == "" {
      return [];
    }
    if env.hy2Port.None? || env.hy2Port.value <= 0 {
      return [];
    }
    if env.hy2Obfs == "" || u.hy2Password == "" {
      return [];
    }
    var address := TrimSpace(env.publicIp);
    if address == "" {
      address := env.hy2Host;
    }
    lines := [Hy2(u, env, address, env.hy2Port.value, "")];
    if env.ipv6.Some? {
      lines := lines + [Hy2(u, env, env.ipv6.value, env.hy2Port.value, "-v6")];
    }
  }

  /** A line's fragment decodes to the node's tag and the route's suffix, unless a '#'
      comes before it. */
  lemma LabelledReads(body: string, tag: string, suffix: string)
    requires '#' !in suffix && '%' !in suffix
    ensures Uri.Decode(Fragment(Labelled(body, tag, suffix))) == Some(tag + suffix) <==> '#' !in body
  {
    EncIs(tag);
    LabelRead(body, tag, suffix);
  }

  lemma EncPlain(s: string)
    ensures '#' !in Enc(s)
  {
    EncIs(s);
    Uri.EncodedPlain(s);
  }

  /** The suffix of a line, or of its IPv6 twin. */
  function Twin(i: nat): string {
    if i == 0 then "" else "-v6"
  }

  /** And the address it dials. */
  function Dialled(env: Env, fallback: string, i: nat): string
    requires i > 0 ==> env.ipv6.Some?
  {
    if i == 0 then PublicIpOr(env, fallback) else env.ipv6.value
  }

  lemma RealityReads(u: User, env: Env, host: string, i: nat)
    ensures Uri.Decode(Fragment(VLESSReality(u, env, host, Twin(i)))) == Some(Tag(u, env) + ("-Reality" + Twin(i)))
            <==> '#' !in u.uuid && '#' !in host
  {
    var body := RealityBody(u.uuid, host, Enc(env.realitySni), Enc(env.realityPub), Enc(env.realitySid));
    EncPlain(env.realitySni);
    EncPlain(env.realityPub);
    EncPlain(env.realitySid);
    RealityPlain(u.uuid, host, Enc(env.realitySni), Enc(env.realityPub), Enc(env.realitySid));
    LabelledReads(body, Tag(u, env), "-Reality" + Twin(i));
  }

  lemma Hy2Reads(u: User, env: Env, address: string, port: int, i: nat)
    ensures Uri.Decode(Fragment(Hy2(u, env, address, port, Twin(i)))) == Some(Tag(u, env) + ("-HY2" + Twin(i)))
            <==> '#' !in address
  {
    var body := Hy2Body(Enc(u.name), Enc(u.hy2Password), address, port, Enc(env.hy2Obfs), Enc(env.hy2Host));
    EncPlain(u.name);
    EncPlain(u.hy2Password);
    EncPlain(env.hy2Obfs);
    EncPlain(env.hy2Host);
    Hy2Plain(Enc(u.name), Enc(u.hy2Password), address, port, Enc(env.hy2Obfs), Enc(env.hy2Host));
    LabelledReads(body, Tag(u, env), "-HY2" + Twin(i));
  }

  /** When the node has Reality lines, how many, and when clients read their names. */
  lemma RealityLinesRead(u: User, env: Env)
    ensures var lines := RealityLines(u, env);
            && |lines| == (if env.realityPub == "" || env.realitySid == "" || env.realitySni == "" then 0
                           else if env.ipv6.Some? then 2 else 1)
            && forall i :: 0 <= i < |lines| ==>
                 (Uri.Decode(Fragment(lines[i])) == Some(Tag(u, env) + ("-Reality" + Twin(i)))
                  <==> '#' !in u.uuid && '#' !in Dialled(env, u.domain, i))
  {
    if RealityComplete(env) {
      RealityReads(u, env, PublicIpOr(env, u.domain), 0);
      if env.ipv6.Some? {
        RealityReads(u, env, env.ipv6.value, 1);
      }
    }
  }

  /** The same for Hysteria2: everything the endpoint needs must be there. */
  lemma Hy2LinesRead(u: User, env: Env)
    ensures var lines := Hy2Lines(u, env);
            && |lines| == (if !env.hy2Enabled || env.hy2Host == "" || env.hy2Port.None? || env.hy2Port.value <= 0
                              || env.hy2Obfs == "" || u.hy2Password == "" then 0
                           else if env.ipv6.Some? then 2 else 1)
            && forall i :: 0 <= i < |lines| ==>
                 (Uri.Decode(Fragment(lines[i])) == Some(Tag(u, env) + ("-HY2" + Twin(i)))
                  <==> '#' !in Dialled(env, env.hy2Host, i))
  {
    if Hy2Line(u, env) {
      Hy2Reads(u, env, PublicIpOr(env, env.hy2Host), env.hy2Port.value, 0);
      if env.ipv6.Some? {
        Hy2Reads(u, env, env.ipv6.value, env.hy2Port.value, 1);
      }
    }
  }

  /** buildUserURIs. */
  method BuildUserURIs(w: Wire, u: User, env: Env) returns (lines: seq<string>)
    ensures lines == NodeLines(w, u, env)
  {
    lines := BuildMainLines(w, u, env);
    var hy2 := BuildHy2Lines(u, env);
    lines := lines + hy2;
  }

  method BuildMainLines(w: Wire, u: User, env: Env) returns (lines: seq<string>)
    ensures lines == MainLines(w, u, env)
  {
    lines := [];
    var mode := TrimSpace(env.mode);
    if mode == "direct" {
      lines := BuildRealityLines(u, env);
      var host, path := TrimSpace(env.h3Host), TrimSpace(env.h3Path);
      var h3 := BuildXHTTPLines(u, env, host != "" && path != "", host, path, w.streamOne, "h3", "-XHTTP-H3");
      lines := lines + h3;
    } else if mode == "cloudflare" {
      var upgrade := BuildUpgradeLine(w, u, env);
      var xhttp := BuildXHTTPLines(u, env, env.xhttpEnabled, u.domain, w.xhttpPath, w.xhttpMode, ALPN_H2, "-XHTTP");
      var host, path := TrimSpace(env.directHost), TrimSpace(env.directPath);
      var direct := BuildXHTTPLines(u, env, host != "" && path != "", host, path, w.streamOne, ALPN_H2,
                                    "-XHTTP-Direct");
      lines := [upgrade] + xhttp + direct;
    }
  }

  // ---- Corresponding states ------------------------------------------------

  /** The row says what the node's env says: the state after a sync. An empty env value
      is a null or empty column, except that the default path is a null one. */
  predicate Corresponds(u: User, env: Env, r: Row) {
    && r.nodeId == Tag(u, env) && r.mode == TrimSpace(env.mode)
    && r.uuid == u.uuid && r.vpnHost == u.domain && r.hy2Password == u.hy2Password
    && Value(r.publicIp) == TrimSpace(env.publicIp) && r.ipv6 == env.ipv6
    && Value(r.realityKey) == env.realityPub && Value(r.realitySid) == env.realitySid
       && Value(r.realitySni) == env.realitySni
    && r.xhttpPath == (if env.xhttpPath == "" then None else Some(env.xhttpPath)) && r.xhttpEnabled == env.xhttpEnabled
    && Value(r.directHost) == TrimSpace(env.directHost) && Value(r.directPath) == TrimSpace(env.directPath)
    && Value(r.h3Host) == TrimSpace(env.h3Host) && Value(r.h3Path) == TrimSpace(env.h3Path)
    && Value(r.hy2Host) == env.hy2Host && Value(r.hy2Obfs) == env.hy2Obfs && r.hy2Port == env.hy2Port
  }

  lemma SuffixParts()
    ensures Suffix(Reality) == "-Reality" + "" && Suffix(RealityV6) == "-Reality" + "-v6"
    ensures Suffix(HY2) == "-HY2" + "" && Suffix(HY2V6) == "-HY2" + "-v6"
  {
  }

  // ---- Line by line --------------------------------------------------------

  lemma LabelIs(body: string, tag: string, suffix: string, route: Route)
    requires suffix == Suffix(route)
    ensures Labelled(body, tag, suffix) == Line(body, tag, route)
  {
    EncIs(tag);
  }

  lemma RealityAgrees(w: Wire, u: User, env: Env, r: Row, route: Route, host: string, suffix: string)
    requires w.username == u.name && Corresponds(u, env, r) && IsReality(r) && route in {Reality, RealityV6}
    requires host == Dial(Spot(r, route)) && "-Reality" + suffix == Suffix(route)
    ensures VLESSReality(u, env, host, suffix) == LineOf(w)(Spot(r, route))
  {
    EncIs(env.realitySni);
    EncIs(env.realityPub);
    EncIs(env.realitySid);
    LabelIs(RealityOf(Spot(r, route)), r.nodeId, "-Reality" + suffix, route);
  }

  lemma Hy2Agrees(w: Wire, u: User, env: Env, r: Row, route: Route, address: string, suffix: string)
    requires w.username == u.name && Corresponds(u, env, r) && HasHy2(r) && route in {HY2, HY2V6}
    requires address == Dial(Spot(r, route)) && "-HY2" + suffix == Suffix(route)
    ensures Hy2(u, env, address, env.hy2Port.value, suffix) == LineOf(w)(Spot(r, route))
  {
    EncIs(u.name);
    EncIs(u.hy2Password);
    EncIs(env.hy2Obfs);
    EncIs(env.hy2Host);
    LabelIs(Hy2Of(w.username, Spot(r, route)), r.nodeId, "-HY2" + suffix, route);
  }

  lemma UpgradeAgrees(w: Wire, u: User, env: Env, r: Row)
    requires w.username == u.name && Corresponds(u, env, r) && IsCloudflare(r)
    ensures UpgradeLine(w, u, env) == LineOf(w)(Spot(r, HTTPUpgrade))
  {
    EncIs(u.domain);
    PathIs(Path(w, r));
    LabelIs(Body(w, Spot(r, HTTPUpgrade)), r.nodeId, "-HTTPUpgrade", HTTPUpgrade);
  }

  lemma XHTTPAgrees(u: User, env: Env, r: Row, route: Route, path: string, mode: string, alpn: string)
    requires Corresponds(u, env, r)
    ensures XHTTPLine(u, env, Dial(Spot(r, route)), path, mode, alpn, Suffix(route))
            == Line(XHTTPOf(Spot(r, route), path, mode, alpn), r.nodeId, route)
  {
    EncIs(Dial(Spot(r, route)));
    EncIs(mode);
    PathIs(path);
    LabelIs(XHTTPOf(Spot(r, route), path, mode, alpn), r.nodeId, Suffix(route), route);
  }

  // ---- List by list --------------------------------------------------------

  lemma RealityPieces(w: Wire, u: User, env: Env, r: Row)
    requires w.username == u.name && Corresponds(u, env, r) && IsReality(r)
    ensures var f, kept := LineOf(w), Kept(false);
            (RealityLines(u, env)
             == Piece(f, r, kept, Reality) + Piece(f, r, kept, RealityV6) + Piece(f, r, kept, HTTPUpgrade))
  {
    var first := VLESSReality(u, env, PublicIpOr(env, u.domain), "");
    RealityFirst(w, u, env, r);
    if env.ipv6.Some? {
      RealityTwin(w, u, env, r);
      RealityTwinPieces(LineOf(w), r, first, VLESSReality(u, env, env.ipv6.value, "-v6"));
    } else {
      RealityOnePieces(LineOf(w), r, first);
    }
  }

  lemma RealityFirst(w: Wire, u: User, env: Env, r: Row)
    requires w.username == u.name && Corresponds(u, env, r) && IsReality(r)
    ensures VLESSReality(u, env, PublicIpOr(env, u.domain), "") == LineOf(w)(Spot(r, Reality))
  {
    SuffixParts();
    RealityAgrees(w, u, env, r, Reality, PublicIpOr(env, u.domain), "");
  }

  lemma RealityTwin(w: Wire, u: User, env: Env, r: Row)
    requires w.username == u.name && Corresponds(u, env, r) && IsReality(r) && env.ipv6.Some?
    ensures VLESSReality(u, env, env.ipv6.value, "-v6") == LineOf(w)(Spot(r, RealityV6))
  {
    SuffixParts();
    RealityAgrees(w, u, env, r, RealityV6, env.ipv6.value, "-v6");
  }

  lemma RealityOnePieces(f: Spot -> string, r: Row, first: string)
    requires IsReality(r) && first == f(Spot(r, Reality)) && r.ipv6.None?
    ensures [first] == Piece(f, r, Kept(false), Reality) + Piece(f, r, Kept(false), RealityV6)
                       + Piece(f, r, Kept(false), HTTPUpgrade)
  {
  }

  lemma RealityTwinPieces(f: Spot -> string, r: Row, first: string, twin: string)
    requires IsReality(r) && first == f(Spot(r, Reality)) && twin == f(Spot(r, RealityV6)) && r.ipv6.Some?
    ensures [first] + [twin] == Piece(f, r, Kept(false), Reality) + Piece(f, r, Kept(false), RealityV6)
                                + Piece(f, r, Kept(false), HTTPUpgrade)
  {
  }

  /** A route on a hostname of its own: the node's line or none. */
  lemma OwnHostAgrees(w: Wire, u: User, env: Env, r: Row, route: Route, path: string, alpn: string)
    requires w.username == u.name && Corresponds(u, env, r)
    requires LineOf(w)(Spot(r, route)) == Line(XHTTPOf(Spot(r, route), path, w.streamOne, alpn), r.nodeId, route)
    requires Serves(r, route) <==> Dial(Spot(r, route)) != "" && path != ""
    requires route != Naive
    ensures OwnHostLines(w, u, env, Dial(Spot(r, route)), path, alpn, Suffix(route))
            == Piece(LineOf(w), r, Kept(false), route)
  {
    XHTTPAgrees(u, env, r, route, path, w.streamOne, alpn);
  }

  lemma H3LineIs(w: Wire, r: Row)
    ensures LineOf(w)(Spot(r, XHTTPH3))
            == Line(XHTTPOf(Spot(r, XHTTPH3), Value(r.h3Path), w.streamOne, "h3"), r.nodeId, XHTTPH3)
  {
    assert Body(w, Spot(r, XHTTPH3)) == XHTTPOf(Spot(r, XHTTPH3), Value(r.h3Path), w.streamOne, "h3");
  }

  lemma DirectLineIs(w: Wire, r: Row)
    ensures LineOf(w)(Spot(r, XHTTPDirect))
            == Line(XHTTPOf(Spot(r, XHTTPDirect), Value(r.directPath), w.streamOne, ALPN_H2), r.nodeId, XHTTPDirect)
  {
  }

  lemma H3LinesAre(w: Wire, u: User, env: Env, r: Row)
    requires Corresponds(u, env, r)
    ensures H3Lines(w, u, env)
            == OwnHostLines(w, u, env, Dial(Spot(r, XHTTPH3)), Value(r.h3Path), "h3", Suffix(XHTTPH3))
  {
  }

  lemma DirectLinesAre(w: Wire, u: User, env: Env, r: Row)
    requires Corresponds(u, env, r)
    ensures DirectLines(w, u, env)
            == OwnHostLines(w, u, env, Dial(Spot(r, XHTTPDirect)), Value(r.directPath), ALPN_H2, Suffix(XHTTPDirect))
  {
  }

  lemma H3Serves(r: Row)
    requires IsReality(r)
    ensures Serves(r, XHTTPH3) <==> Dial(Spot(r, XHTTPH3)) != "" && Value(r.h3Path) != ""
  {
  }

  lemma DirectServes(r: Row)
    requires IsCloudflare(r)
    ensures Serves(r, XHTTPDirect) <==> Dial(Spot(r, XHTTPDirect)) != "" && Value(r.directPath) != ""
  {
  }

  lemma H3Agrees(w: Wire, u: User, env: Env, r: Row)
    requires w.username == u.name && Corresponds(u, env, r) && IsReality(r)
    ensures H3Lines(w, u, env) == Piece(LineOf(w), r, Kept(false), XHTTPH3)
  {
    H3LineIs(w, r);
    H3Serves(r);
    H3LinesAre(w, u, env, r);
    OwnHostAgrees(w, u, env, r, XHTTPH3, Value(r.h3Path), "h3");
  }

  lemma DirectAgrees(w: Wire, u: User, env: Env, r: Row)
    requires w.username == u.name && Corresponds(u, env, r) && IsCloudflare(r)
    ensures DirectLines(w, u, env) == Piece(LineOf(w), r, Kept(false), XHTTPDirect)
  {
    DirectLineIs(w, r);
    DirectServes(r);
    DirectLinesAre(w, u, env, r);
    OwnHostAgrees(w, u, env, r, XHTTPDirect, Value(r.directPath), ALPN_H2);
  }

  lemma TunnelAgrees(w: Wire, u: User, env: Env, r: Row)
    requires w.username == u.name && Corresponds(u, env, r) && IsCloudflare(r)
    ensures XHTTPLines(w, u, env) == Piece(LineOf(w), r, Kept(false), XHTTP)
  {
    XHTTPAgrees(u, env, r, XHTTP, w.xhttpPath, w.xhttpMode, ALPN_H2);
  }

  lemma UpgradePieces(w: Wire, u: User, env: Env, r: Row)
    requires w.username == u.name && Corresponds(u, env, r) && IsCloudflare(r)
    ensures var f, kept := LineOf(w), Kept(false);
            ([UpgradeLine(w, u, env)]
             == Piece(f, r, kept, Reality) + Piece(f, r, kept, RealityV6) + Piece(f, r, kept, HTTPUpgrade))
  {
    UpgradeAgrees(w, u, env, r);
  }

  lemma MainAgrees(w: Wire, u: User, env: Env, r: Row)
    requires w.username == u.name && Corresponds(u, env, r) && (IsReality(r) || IsCloudflare(r))
    ensures MainLines(w, u, env)
            == Map(LineOf(w), Three(r, Kept(false), Reality, RealityV6, HTTPUpgrade))
               + Map(LineOf(w), Three(r, Kept(false), XHTTP, XHTTPDirect, XHTTPH3))
  {
    var f, kept := LineOf(w), Kept(false);
    MapThree(f, r, kept, Reality, RealityV6, HTTPUpgrade);
    MapThree(f, r, kept, XHTTP, XHTTPDirect, XHTTPH3);
    if IsReality(r) {
      RealityPieces(w, u, env, r);
      H3Agrees(w, u, env, r);
      H3Pieces(f, r, kept);
    } else {
      UpgradePieces(w, u, env, r);
      TunnelAgrees(w, u, env, r);
      DirectAgrees(w, u, env, r);
      TunnelPieces(f, r, kept);
      Regroup([UpgradeLine(w, u, env)], XHTTPLines(w, u, env), DirectLines(w, u, env));
    }
  }

  /** The Worker's Hysteria2 lines are the node's, or the node has none. */
  lemma TailAgrees(w: Wire, u: User, env: Env, r: Row)
    requires w.username == u.name && Corresponds(u, env, r) && (IsReality(r) || IsCloudflare(r))
    ensures var worker := Map(LineOf(w), Three(r, Kept(false), HY2, HY2V6, Naive));
            if Hy2Line(u, env) then worker == Hy2Lines(u, env)
            else Hy2Lines(u, env) == [] && (worker == [] <==> !HasHy2(r))
  {
    MapThree(LineOf(w), r, Kept(false), HY2, HY2V6, Naive);
    if Hy2Line(u, env) {
      Hy2Pieces(w, u, env, r);
    }
  }

  lemma Hy2Pieces(w: Wire, u: User, env: Env, r: Row)
    requires w.username == u.name && Corresponds(u, env, r) && (IsReality(r) || IsCloudflare(r)) && Hy2Line(u, env)
    ensures var f, kept := LineOf(w), Kept(false);
            Hy2Lines(u, env) == Piece(f, r, kept, HY2) + Piece(f, r, kept, HY2V6) + Piece(f, r, kept, Naive)
  {
    var first := Hy2(u, env, PublicIpOr(env, env.hy2Host), env.hy2Port.value, "");
    Hy2First(w, u, env, r);
    if env.ipv6.Some? {
      var twin := Hy2(u, env, env.ipv6.value, env.hy2Port.value, "-v6");
      Hy2Twin(w, u, env, r);
      Hy2TwinPieces(LineOf(w), r, first, twin);
    } else {
      Hy2OnePieces(LineOf(w), r, first);
    }
  }

  lemma Hy2First(w: Wire, u: User, env: Env, r: Row)
    requires w.username == u.name && Corresponds(u, env, r) && HasHy2(r)
    ensures Hy2(u, env, PublicIpOr(env, env.hy2Host), env.hy2Port.value, "") == LineOf(w)(Spot(r, HY2))
  {
    SuffixParts();
    Hy2Agrees(w, u, env, r, HY2, PublicIpOr(env, env.hy2Host), "");
  }

  lemma Hy2Twin(w: Wire, u: User, env: Env, r: Row)
    requires w.username == u.name && Corresponds(u, env, r) && HasHy2(r) && env.ipv6.Some?
    ensures Hy2(u, env, env.ipv6.value, env.hy2Port.value, "-v6") == LineOf(w)(Spot(r, HY2V6))
  {
    SuffixParts();
    Hy2Agrees(w, u, env, r, HY2V6, env.ipv6.value, "-v6");
  }

  lemma Hy2OnePieces(f: Spot -> string, r: Row, first: string)
    requires HasHy2(r) && (IsReality(r) || IsCloudflare(r)) && first == f(Spot(r, HY2)) && r.ipv6.None?
    ensures [first] == Piece(f, r, Kept(false), HY2) + Piece(f, r, Kept(false), HY2V6) + Piece(f, r, Kept(false), Naive)
  {
  }

  lemma Hy2TwinPieces(f: Spot -> string, r: Row, first: string, twin: string)
    requires HasHy2(r) && (IsReality(r) || IsCloudflare(r)) && first == f(Spot(r, HY2)) && twin == f(Spot(r, HY2V6))
             && r.ipv6.Some?
    ensures [first] + [twin]
            == Piece(f, r, Kept(false), HY2) + Piece(f, r, Kept(false), HY2V6) + Piece(f, r, Kept(false), Naive)
  {
  }

  /** What only the node checks about a complete HY2 endpoint. */
  predicate Hy2Usable(u: User, env: Env) {
    env.hy2Enabled && env.hy2Port.Some? && env.hy2Port.value > 0 && u.hy2Password != ""
  }

  lemma Hy2LineIff(u: User, env: Env, r: Row)
    requires Corresponds(u, env, r)
    ensures Hy2Line(u, env) <==> HasHy2(r) && Hy2Usable(u, env)
  {
  }

  lemma SameTail(main: seq<string>, a: seq<string>, b: seq<string>)
    ensures main + a == main + b <==> a == b
  {
    assert (main + a)[|main|..] == a && (main + b)[|main|..] == b;
  }

  /** For every corresponding state of a cloudflare node or a direct one with complete
      Reality parameters, the node and the Worker build the same list, byte for byte and
      in the same order, exactly when a complete HY2 endpoint in the row also has what
      only the node checks: HY2 enabled, a positive port, and a password. */
  lemma NodeMatchesWorker(w: Wire, u: User, env: Env, r: Row)
    requires w.username == u.name && Corresponds(u, env, r) && (IsReality(r) || IsCloudflare(r))
    ensures NodeLines(w, u, env) == Map(LineOf(w), RowSpots(r, Kept(false))) <==> (HasHy2(r) ==> Hy2Usable(u, env))
  {
    MapRow(LineOf(w), r, Kept(false));
    MainAgrees(w, u, env, r);
    TailAgrees(w, u, env, r);
    Hy2LineIff(u, env, r);
    SameTail(MainLines(w, u, env), Hy2Lines(u, env), Map(LineOf(w), Three(r, Kept(false), HY2, HY2V6, Naive)));
  }
}
