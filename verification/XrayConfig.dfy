/** The xray config editor (internal/xray/config.go): a typed view of the members it
    knows at four levels of the JSON document, with everything else carried along. */
module XrayConfig {
  import opened Text
  import Hysteria

  /** A JSON value; numbers and booleans are kept as raw text. */
  datatype Json =
    | Null
    | Str(text: string)
    | Raw(text: string)
    | List(items: seq<Json>)
    | Object(members: map<string, Json>)

  // ---- The typed view ------------------------------------------------------

  datatype Client = Client(id: string, email: string, flow: string, extras: map<string, Json>)

  /** A nil slice is None and is written as null. */
  datatype Settings = Settings(clients: Option<seq<Client>>, decryption: string, extras: map<string, Json>)

  datatype Inbound = Inbound(protocol: string, settings: Option<Json>, extras: map<string, Json>)

  datatype Config = Config(inbounds: Option<seq<Inbound>>, extras: map<string, Json>)

  /** json.Unmarshal into a string: null leaves it empty, other types are errors. */
  function ToText(m: map<string, Json>, key: string): Option<string> {
    if key !in m || m[key].Null? then Some("")
    else if m[key].Str? then Some(m[key].text)
    else None
  }

  function ToClient(j: Json): Option<Client> {
    if j.Null? then Some(Client("", "", "", map[]))
    else if !j.Object? then None
    else
      var m := j.members;
      var id, email, flow := ToText(m, "id"), ToText(m, "email"), ToText(m, "flow");
      if id.None? || email.None? || flow.None? then None
      else Some(Client(id.value, email.value, flow.value, m - {"id", "email", "flow"}))
  }

  function FromClient(c: Client): Json {
    var m := c.extras["id" := Str(c.id)]["email" := Str(c.email)];
    Object(if c.flow == "" then m else m["flow" := Str(c.flow)])
  }

  function ToClients(items: seq<Json>): Option<seq<Client>> {
    if items == [] then Some([])
    else
      var first, rest := ToClient(items[0]), ToClients(items[1..]);
      if first.None? || rest.None? then None else Some([first.value] + rest.value)
  }

  function FromClients(clients: seq<Client>): seq<Json> {
    if clients == [] then [] else [FromClient(clients[0])] + FromClients(clients[1..])
  }

  function ToSettings(j: Json): Option<Settings> {
    if j.Null? then Some(Settings(None, "", map[]))
    else if !j.Object? then None
    else
      var m := j.members;
      var decryption, extras := ToText(m, "decryption"), m - {"clients", "decryption"};
      if decryption.None? then None
      else if "clients" !in m || m["clients"].Null? then Some(Settings(None, decryption.value, extras))
      else if !m["clients"].List? then None
      else
        match ToClients(m["clients"].items)
        case None => None
        case Some(clients) => Some(Settings(Some(clients), decryption.value, extras))
  }

  function FromSettings(s: Settings): Json {
    var clients := match s.clients case None => Null case Some(cs) => List(FromClients(cs));
    Object(s.extras["clients" := clients]["decryption" := Str(s.decryption)])
  }

  function ToInbound(j: Json): Option<Inbound> {
    if j.Null? then Some(Inbound("", None, map[]))
    else if !j.Object? then None
    else
      var m := j.members;
      match ToText(m, "protocol")
      case None => None
      case Some(protocol) =>
        Some(Inbound(protocol, if "settings" in m then Some(m["settings"]) else None, m - {"protocol", "settings"}))
  }

  function FromInbound(inb: Inbound): Json {
    var m := inb.extras["protocol" := Str(inb.protocol)];
    Object(match inb.settings case None => m case Some(s) => m["settings" := s])
  }

  function ToInbounds(items: seq<Json>): Option<seq<Inbound>> {
    if items == [] then Some([])
    else
      var first, rest := ToInbound(items[0]), ToInbounds(items[1..]);
      if first.None? || rest.None? then None else Some([first.value] + rest.value)
  }

  function FromInbounds(inbounds: seq<Inbound>): seq<Json> {
    if inbounds == [] then [] else [FromInbound(inbounds[0])] + FromInbounds(inbounds[1..])
  }

  function ToConfig(j: Json): Option<Config> {
    if j.Null? then Some(Config(None, map[]))
    else if !j.Object? then None
    else
      var m := j.members;
      if "inbounds" !in m || m["inbounds"].Null? then Some(Config(None, m - {"inbounds"}))
      else if !m["inbounds"].List? then None
      else
        match ToInbounds(m["inbounds"].items)
        case None => None
        case Some(inbounds) => Some(Config(Some(inbounds), m - {"inbounds"}))
  }

  function FromConfig(c: Config): Json {
    var inbounds := match c.inbounds case None => Null case Some(ins) => List(FromInbounds(ins));
    Object(c.extras["inbounds" := inbounds])
  }

  // ---- What survives -------------------------------------------------------

  /** The members of an object; null reads as an object without any. */
  function Members(j: Json): map<string, Json> {
    if j.Object? then j.members else map[]
  }

  function At(j: Json, key: string): Json {
    if key in Members(j) then Members(j)[key] else Null
  }

  function ItemsAt(j: Json, key: string): seq<Json> {
    if At(j, key).List? then At(j, key).items else []
  }

  function TextAt(j: Json, key: string): string {
    if At(j, key).Str? then At(j, key).text else ""
  }

  /** The typed values are those of the members of these names, read and written. */
  lemma ClientKeys(j: Json, c: Client)
    ensures ToClient(j) == Some(c) ==>
              c.id == TextAt(j, "id") && c.email == TextAt(j, "email") && c.flow == TextAt(j, "flow")
    ensures var out := FromClient(c);
            && At(out, "id") == Str(c.id) && At(out, "email") == Str(c.email)
            && (c.flow != "" ==> At(out, "flow") == Str(c.flow))
  {
  }

  lemma SettingsKeys(j: Json, s: Settings)
    ensures ToSettings(j) == Some(s) ==>
              && s.decryption == TextAt(j, "decryption") && (s.clients.Some? <==> At(j, "clients").List?)
              && (s.clients.Some? ==> ToClients(ItemsAt(j, "clients")) == s.clients)
    ensures var out := FromSettings(s);
            && At(out, "decryption") == Str(s.decryption)
            && (At(out, "clients") == if s.clients.Some? then List(FromClients(s.clients.value)) else Null)
  {
  }

  lemma InboundKeys(j: Json, inb: Inbound)
    ensures ToInbound(j) == Some(inb) ==>
              && inb.protocol == TextAt(j, "protocol") && (inb.settings.Some? <==> "settings" in Members(j))
              && (inb.settings.Some? ==> inb.settings.value == At(j, "settings"))
    ensures var out := FromInbound(inb);
            && At(out, "protocol") == Str(inb.protocol)
            && (inb.settings.Some? ==> At(out, "settings") == inb.settings.value)
  {
  }

  lemma ConfigKeys(j: Json, cfg: Config)
    ensures ToConfig(j) == Some(cfg) ==>
              && (cfg.inbounds.Some? <==> At(j, "inbounds").List?)
              && (cfg.inbounds.Some? ==> ToInbounds(ItemsAt(j, "inbounds")) == cfg.inbounds)
    ensures At(FromConfig(cfg), "inbounds")
            == if cfg.inbounds.Some? then List(FromInbounds(cfg.inbounds.value)) else Null
  {
  }

  const CLIENT_KEYS := {"id", "email", "flow"}
  const SETTINGS_KEYS := {"clients", "decryption"}

  /** Outside the known keys the written object has exactly the members of the read one. */
  predicate SameBut(a: Json, b: Json, known: set<string>) {
    b.Object? && Members(a) - known == b.members - known
  }

  /** b is the client a, written again. */
  predicate SameClient(a: Json, b: Json) {
    SameBut(a, b, CLIENT_KEYS) && ToClient(b) == ToClient(a)
  }

  predicate SameClients(a: seq<Json>, b: seq<Json>) {
    |a| == |b| && forall i :: 0 <= i < |a| ==> SameClient(a[i], b[i])
  }

  predicate SameInbound(a: Json, b: Json) {
    SameBut(a, b, {"protocol"}) && ToInbound(b) == ToInbound(a)
  }

  /** Reading an object and writing it again keeps every member the editor does not know,
      at each of the four levels, and reading the result gives the same typed value. */
  lemma ClientSurvives(j: Json)
    requires ToClient(j).Some?
    ensures SameClient(j, FromClient(ToClient(j).value))
  {
    var c := ToClient(j).value;
    var m := FromClient(c).members;
    assert m - CLIENT_KEYS == c.extras;
  }

  lemma {:induction false} ClientsSurvive(items: seq<Json>)
    requires ToClients(items).Some?
    ensures SameClients(items, FromClients(ToClients(items).value))
    ensures ToClients(FromClients(ToClients(items).value)) == ToClients(items)
  {
    if items == [] {
    } else {
      ClientsSurvive(items[1..]);
      ClientSurvives(items[0]);
      var cs := ToClients(items).value;
      assert cs[1..] == ToClients(items[1..]).value;
      assert FromClients(cs)[1..] == FromClients(cs[1..]);
    }
  }

  lemma SettingsSurvive(j: Json)
    requires ToSettings(j).Some?
    ensures var out := FromSettings(ToSettings(j).value);
            && SameBut(j, out, SETTINGS_KEYS) && SameClients(ItemsAt(j, "clients"), ItemsAt(out, "clients"))
            && ToSettings(out) == ToSettings(j)
  {
    var s := ToSettings(j).value;
    assert FromSettings(s).members - SETTINGS_KEYS == s.extras;
    if s.clients.Some? {
      ClientsSurvive(j.members["clients"].items);
    }
  }

  lemma InboundSurvives(j: Json)
    requires ToInbound(j).Some?
    ensures SameInbound(j, FromInbound(ToInbound(j).value))
  {
    var c := ToInbound(j).value;
    assert FromInbound(c).members - {"protocol", "settings"} == c.extras;
  }

  lemma {:induction false} InboundsSurvive(items: seq<Json>)
    requires ToInbounds(items).Some?
    ensures var ins := ToInbounds(items).value;
            && |FromInbounds(ins)| == |ins| == |items|
            && (forall i :: 0 <= i < |items| ==>
                  ToInbound(items[i]) == Some(ins[i]) && SameInbound(items[i], FromInbounds(ins)[i]))
            && ToInbounds(FromInbounds(ins)) == Some(ins)
  {
    if items == [] {
    } else {
      InboundsSurvive(items[1..]);
      InboundSurvives(items[0]);
      var ins := ToInbounds(items).value;
      assert ins[1..] == ToInbounds(items[1..]).value;
      assert FromInbounds(ins)[1..] == FromInbounds(ins[1..]);
    }
  }

  lemma ConfigSurvives(j: Json)
    requires ToConfig(j).Some?
    ensures SameBut(j, FromConfig(ToConfig(j).value), {"inbounds"})
    ensures ToConfig(FromConfig(ToConfig(j).value)) == ToConfig(j)
  {
    var c := ToConfig(j).value;
    assert FromConfig(c).members - {"inbounds"} == c.extras;
    if c.inbounds.Some? {
      InboundsSurvive(j.members["inbounds"].items);
    }
  }

  // ---- Writing an object ---------------------------------------------------

  predicate StrictlySorted(keys: seq<string>) {
    forall i, j :: 0 <= i < j < |keys| ==> Hysteria.Less(keys[i], keys[j])
  }

  function InsertKey(k: string, keys: seq<string>): seq<string> {
    if keys == [] || Hysteria.Less(k, keys[0]) then [k] + keys else [keys[0]] + InsertKey(k, keys[1..])
  }

  lemma {:induction false} InsertKeySorted(k: string, keys: seq<string>)
    requires StrictlySorted(keys) && k !in keys
    ensures StrictlySorted(InsertKey(k, keys))
    ensures forall x :: x in InsertKey(k, keys) <==> x == k || x in keys
  {
    if keys == [] {
    } else if Hysteria.Less(k, keys[0]) {
      forall j | 0 <= j < |keys| ensures Hysteria.Less(k, keys[j]) {
        Hysteria.LessTrans(k, keys[0], keys[j]);
      }
    } else {
      InsertKeySorted(k, keys[1..]);
      Hysteria.LessTrans(k, keys[0], k);
      assert keys == [keys[0]] + keys[1..];
      var r := InsertKey(k, keys[1..]);
      forall j | 0 <= j < |r| ensures Hysteria.Less(keys[0], r[j]) {
        assert r[j] in r;
      }
    }
  }

  /** The preferred keys that are present, in their order. */
  function Present(preferred: seq<string>, m: map<string, Json>): seq<string> {
    if preferred == [] then []
    else Present(preferred[..|preferred| - 1], m)
         + if preferred[|preferred| - 1] in m then [preferred[|preferred| - 1]] else []
  }

  lemma {:induction false} PresentIn(preferred: seq<string>, m: map<string, Json>)
    ensures forall k :: k in Present(preferred, m) <==> k in preferred && k in m
  {
    if preferred == [] {
    } else {
      PresentIn(preferred[..|preferred| - 1], m);
      assert preferred == preferred[..|preferred| - 1] + [preferred[|preferred| - 1]];
    }
  }

  /** The key order of a written object: preferred keys, then the rest sorted. */
  ghost predicate StableOrder(keys: seq<string>, preferred: seq<string>, m: map<string, Json>) {
    var n := |Present(preferred, m)|;
    && n <= |keys| && keys[..n] == Present(preferred, m)
    && StrictlySorted(keys[n..])
    && forall k :: k in keys[n..] <==> k in m && k !in preferred
  }

  /** marshalStableObject: the members in the order written, whatever order the map is
      iterated in. */
  method MarshalStableObject(m: map<string, Json>, preferred: seq<string>)
    returns (keys: seq<string>, out: seq<(string, Json)>)
    ensures StableOrder(keys, preferred, m)
    ensures |out| == |keys| && forall i :: 0 <= i < |out| ==> keys[i] in m && out[i] == (keys[i], m[keys[i]])
  {
    var first: seq<string> := [];
    for i := 0 to |preferred|
      invariant first == Present(preferred[..i], m)
    {
      assert preferred[..i + 1][..i] == preferred[..i];
      if preferred[i] in m {
        first := first + [preferred[i]];
      }
    }
    assert preferred[..|preferred|] == preferred;
    PresentIn(preferred, m);
    var leftovers := Leftovers(m, first, preferred);
    keys := first + leftovers;
    assert keys[..|first|] == first && keys[|first|..] == leftovers;
    out := Emit(m, keys);
  }

  method Emit(m: map<string, Json>, keys: seq<string>) returns (out: seq<(string, Json)>)
    requires forall k :: k in keys ==> k in m
    ensures |out| == |keys| && forall i :: 0 <= i < |out| ==> keys[i] in m && out[i] == (keys[i], m[keys[i]])
  {
    out := [];
    for i := 0 to |keys|
      invariant |out| == i && forall j :: 0 <= j < i ==> keys[j] in m && out[j] == (keys[j], m[keys[j]])
    {
      out := out + [(keys[i], m[keys[i]])];
    }
  }

  method Leftovers(m: map<string, Json>, seen: seq<string>, ghost preferred: seq<string>)
    returns (leftovers: seq<string>)
    requires forall k :: k in seen <==> k in preferred && k in m
    ensures StrictlySorted(leftovers) && forall k :: k in leftovers <==> k in m && k !in preferred
  {
    leftovers := [];
    var rest := m.Keys;
    while rest != {}
      invariant rest <= m.Keys && StrictlySorted(leftovers)
      invariant forall k :: k in leftovers <==> k in m && k !in rest && k !in preferred
      decreases |rest|
    {
      var k :| k in rest;
      rest := rest - {k};
      if k !in seen {
        InsertKeySorted(k, leftovers);
        leftovers := InsertKey(k, leftovers);
      }
    }
  }

  lemma {:induction false} SortedUnique(a: seq<string>, b: seq<string>)
    requires StrictlySorted(a) && StrictlySorted(b) && forall k :: k in a <==> k in b
    ensures a == b
  {
    assert a != [] ==> a[0] in a;
    assert b != [] ==> b[0] in b;
    if a == [] {
    } else {
      var i :| 0 <= i < |b| && b[i] == a[0];
      var j :| 0 <= j < |a| && a[j] == b[0];
      Hysteria.LessTrans(a[0], b[0], a[0]);
      assert a[0] == b[0];
      forall k ensures k in a[1..] <==> k in b[1..] {
        SortedTail(a, k);
        SortedTail(b, k);
      }
      SortedUnique(a[1..], b[1..]);
      assert a == [a[0]] + a[1..] && b == [b[0]] + b[1..];
    }
  }

  lemma SortedTail(a: seq<string>, k: string)
    requires a != [] && StrictlySorted(a)
    ensures k in a[1..] <==> k in a && k != a[0]
  {
    Hysteria.LessTrans(a[0], a[0], a[0]);
    assert a == [a[0]] + a[1..];
  }

  /** The written order is determined by the object alone, and names every key once. */
  lemma StableOrderUnique(a: seq<string>, b: seq<string>, preferred: seq<string>, m: map<string, Json>)
    requires StableOrder(a, preferred, m) && StableOrder(b, preferred, m)
    requires Distinct(preferred)
    ensures a == b
    ensures forall k :: k in m <==> k in a
    ensures Distinct(a)
  {
    var n := |Present(preferred, m)|;
    SortedUnique(a[n..], b[n..]);
    assert a == a[..n] + a[n..] && b == b[..n] + b[n..];
    PresentIn(preferred, m);
    PresentDistinct(preferred, m);
    forall i, j | 0 <= i < j < |a| ensures a[i] != a[j] {
      if j < n {
        assert a[i] == Present(preferred, m)[i] && a[j] == Present(preferred, m)[j];
      } else if i >= n {
        assert a[i] == a[n..][i - n] && a[j] == a[n..][j - n];
        Hysteria.LessTrans(a[i], a[j], a[i]);
      } else {
        assert a[i] == a[..n][i] && a[i] in a[..n];
        assert a[j] == a[n..][j - n] && a[j] in a[n..];
        assert a[i] in preferred && a[j] !in preferred;
      }
    }
  }

  lemma {:induction false} PresentDistinct(preferred: seq<string>, m: map<string, Json>)
    requires Distinct(preferred)
    ensures Distinct(Present(preferred, m))
  {
    if preferred == [] {
    } else {
      var before, last := preferred[..|preferred| - 1], preferred[|preferred| - 1];
      PresentDistinct(before, m);
      PresentIn(before, m);
      assert last !in before;
      DistinctAppend(Present(before, m), last);
    }
  }

  lemma DistinctAppend(keys: seq<string>, last: string)
    requires Distinct(keys) && last !in keys
    ensures Distinct(keys + [last])
  {
  }

  // ---- The users -----------------------------------------------------------

  /** Every trailing "@vpn". */
  function StripVpn(email: string): string {
    if HasSuffix(email, "@vpn") then StripVpn(email[..|email| - 4]) else email
  }

  function NormalizeEmail(email: string): string {
    StripVpn(TrimSpace(email))
  }

  predicate NameChar(c: char) {
    'A' <= c <= 'Z' || 'a' <= c <= 'z' || '0' <= c <= '9' || c == '_' || c == '-'
  }

  predicate ValidName(name: string) {
    1 <= |name| <= 32 && forall i :: 0 <= i < |name| ==> NameChar(name[i])
  }

  /** A user name is 1 to 32 letters, digits, underscores and hyphens of ASCII. */
  lemma NameAlphabet(name: string)
    ensures ValidName(name)
            <==> && 1 <= |name| <= 32
                 && forall c :: c in name ==>
                      var n := c as int;
                      0x41 <= n <= 0x5A || 0x61 <= n <= 0x7A || 0x30 <= n <= 0x39 || n == 0x5F || n == 0x2D
  {
    assert forall i :: 0 <= i < |name| ==> name[i] in name;
  }

  /** Index of the first inbound of the protocol. */
  function FindInbound(inbounds: seq<Inbound>, protocol: string): (i: Option<nat>)
    ensures i.Some? ==> i.value < |inbounds| && inbounds[i.value].protocol == protocol
    ensures forall j :: 0 <= j < (if i.Some? then i.value else |inbounds|) ==> inbounds[j].protocol != protocol
  {
    if inbounds == [] then None
    else if inbounds[0].protocol == protocol then Some(0)
    else match FindInbound(inbounds[1..], protocol) case None => None case Some(i) => Some(i + 1)
  }

  function Inbounds(cfg: Config): seq<Inbound> {
    match cfg.inbounds case None => [] case Some(ins) => ins
  }

  /** The settings of the first vless inbound, when there is one and they parse. */
  function VLESS(cfg: Config): Option<Settings> {
    match FindInbound(Inbounds(cfg), "vless")
    case None => None
    case Some(i) =>
      match Inbounds(cfg)[i].settings
      case None => None
      case Some(j) => ToSettings(j)
  }

  /** Which inbound the users are in: the first vless one, whatever comes after it. */
  lemma UsersInbound(cfg: Config, i: nat)
    requires cfg.inbounds.Some?
    requires i <= |cfg.inbounds.value| && forall j :: 0 <= j < i ==> cfg.inbounds.value[j].protocol != "vless"
    requires i < |cfg.inbounds.value| ==> cfg.inbounds.value[i].protocol == "vless"
    ensures VLESS(cfg) == if i == |cfg.inbounds.value| || cfg.inbounds.value[i].settings.None? then None
                          else ToSettings(cfg.inbounds.value[i].settings.value)
  {
    var ins := cfg.inbounds.value;
    assert FindInbound(ins, "vless") == if i == |ins| then None else Some(i);
  }

  function Clients(cfg: Config): seq<Client> {
    match VLESS(cfg)
    case None => []
    case Some(s) => match s.clients case None => [] case Some(cs) => cs
  }

  function EmailNames(clients: seq<Client>): (names: seq<string>)
    ensures |names| == |clients| && forall i :: 0 <= i < |names| ==> names[i] == NormalizeEmail(clients[i].email)
  {
    if clients == [] then [] else [NormalizeEmail(clients[0].email)] + EmailNames(clients[1..])
  }

  function ListUserNames(cfg: Config): seq<string> {
    EmailNames(Clients(cfg))
  }

  function Lookup(clients: seq<Client>, target: string): Option<string> {
    if clients == [] then None
    else if NormalizeEmail(clients[0].email) == target then Some(clients[0].id)
    else Lookup(clients[1..], target)
  }

  function GetVLESSClient(cfg: Config, name: string): Option<string> {
    Lookup(Clients(cfg), NormalizeEmail(name))
  }

  /** Write settings back into the first vless inbound. */
  function SaveVLESS(cfg: Config, s: Settings): Config {
    match FindInbound(Inbounds(cfg), "vless")
    case None => cfg
    case Some(i) =>
      var ins := Inbounds(cfg);
      cfg.(inbounds := Some(ins[i := ins[i].(settings := Some(FromSettings(s)))]))
  }

  function Drop(clients: seq<Client>, target: string): seq<Client> {
    if clients == [] then []
    else if NormalizeEmail(clients[0].email) == target then Drop(clients[1..], target)
    else [clients[0]] + Drop(clients[1..], target)
  }

  /** The config after adding, or None on an error. */
  function Added(cfg: Config, name: string, uuid: string, flow: string): Option<Config> {
    if !ValidName(name) || name in ListUserNames(cfg) || VLESS(cfg).None? then None
    else
      var s := VLESS(cfg).value;
      Some(SaveVLESS(cfg, s.(clients := Some(Clients(cfg) + [Client(uuid, name + "@vpn", flow, map[])]))))
  }

  function Removed(cfg: Config, name: string): Option<Config> {
    if VLESS(cfg).None? || Lookup(Clients(cfg), NormalizeEmail(name)).None? then None
    else Some(SaveVLESS(cfg, VLESS(cfg).value.(clients := Some(Drop(Clients(cfg), NormalizeEmail(name))))))
  }

  /** The editor's object: one config edited through a pointer. */
  class Editor {
    var cfg: Config

    constructor (c: Config)
      ensures cfg == c
    {
      cfg := c;
    }

    method AddUser(name: string, uuid: string, flow: string) returns (ok: bool)
      modifies this
      ensures ok == Added(old(cfg), name, uuid, flow).Some?
      ensures cfg == if ok then Added(old(cfg), name, uuid, flow).value else old(cfg)
    {
      if !ValidName(name) {
        return false;
      }
      var taken := Taken(ListUserNames(cfg), name);
      if taken {
        return false;
      }
      var settings := VLESS(cfg);
      if settings.None? {
        return false;
      }
      var more := Clients(cfg) + [Client(uuid, name + "@vpn", flow, map[])];
      cfg := SaveVLESS(cfg, settings.value.(clients := Some(more)));
      return true;
    }

    method RemoveUser(name: string) returns (ok: bool)
      modifies this
      ensures ok == Removed(old(cfg), name).Some?
      ensures cfg == if ok then Removed(old(cfg), name).value else old(cfg)
    {
      var settings := VLESS(cfg);
      if settings.None? {
        return false;
      }
      var s := settings.value;
      var filtered, found := FilterClients(Clients(cfg), NormalizeEmail(name));
      if !found {
        return false;
      }
      cfg := SaveVLESS(cfg, s.(clients := Some(filtered)));
      return true;
    }
  }

  method Taken(names: seq<string>, name: string) returns (taken: bool)
    ensures taken <==> name in names
  {
    for i := 0 to |names|
      invariant name !in names[..i]
    {
      if names[i] == name {
        return true;
      }
    }
    assert names[..|names|] == names;
    return false;
  }

  method FilterClients(clients: seq<Client>, target: string) returns (filtered: seq<Client>, found: bool)
    ensures filtered == Drop(clients, target)
    ensures found == Lookup(clients, target).Some?
  {
    filtered, found := [], false;
    for i := 0 to |clients|
      invariant filtered == Drop(clients[..i], target)
      invariant found == Lookup(clients[..i], target).Some?
    {
      var c := clients[i];
      assert clients[..i + 1] == clients[..i] + [c];
      DropAppend(clients[..i], c, target);
      if NormalizeEmail(c.email) == target {
        found := true;
      } else {
        filtered := filtered + [c];
      }
    }
    assert clients[..|clients|] == clients;
  }

  // ---- Add and remove ------------------------------------------------------

  lemma NamePlain(name: string)
    requires ValidName(name)
    ensures NormalizeEmail(name) == name && NormalizeEmail(name + "@vpn") == name
  {
    assert NameChar(name[0]) && NameChar(name[|name| - 1]);
    TrimVisible(name);
    TrimVisible(name + "@vpn");
    assert |name| >= 4 ==> name[|name| - 4..][0] == name[|name| - 4] && NameChar(name[|name| - 4]);
    assert (name + "@vpn")[|name|..] == "@vpn" && (name + "@vpn")[..|name|] == name;
  }

  /** Settings whose extras hold none of the known keys and whose clients likewise, which
      is what reading produces, come back from writing unchanged. */
  ghost predicate ReadClient(c: Client) {
    forall k :: k in c.extras ==> k !in {"id", "email", "flow"}
  }

  ghost predicate ReadSettings(s: Settings) {
    && (forall k :: k in s.extras ==> k !in {"clients", "decryption"})
    && (s.clients.Some? ==> forall c :: c in s.clients.value ==> ReadClient(c))
  }

  lemma ClientReads(c: Client)
    requires ReadClient(c)
    ensures ToClient(FromClient(c)) == Some(c)
  {
    assert FromClient(c).members - {"id", "email", "flow"} == c.extras;
  }

  lemma {:induction false} ClientsRead(clients: seq<Client>)
    requires forall c :: c in clients ==> ReadClient(c)
    ensures ToClients(FromClients(clients)) == Some(clients)
  {
    if clients == [] {
    } else {
      ClientReads(clients[0]);
      ClientsRead(clients[1..]);
      assert FromClients(clients)[1..] == FromClients(clients[1..]);
      assert [clients[0]] + clients[1..] == clients;
    }
  }

  lemma SettingsRead(s: Settings)
    requires ReadSettings(s)
    ensures ToSettings(FromSettings(s)) == Some(s)
  {
    assert FromSettings(s).members - {"clients", "decryption"} == s.extras;
    if s.clients.Some? {
      ClientsRead(s.clients.value);
    }
  }

  lemma {:induction false} ToClientsRead(items: seq<Json>)
    ensures ToClients(items).Some? ==> forall c :: c in ToClients(items).value ==> ReadClient(c)
  {
    if items == [] {
    } else {
      ToClientsRead(items[1..]);
    }
  }

  lemma ToSettingsRead(j: Json)
    ensures ToSettings(j).Some? ==> ReadSettings(ToSettings(j).value)
  {
    if j.Object? && "clients" in j.members && j.members["clients"].List? {
      ToClientsRead(j.members["clients"].items);
    }
  }

  lemma VLESSRead(cfg: Config)
    ensures VLESS(cfg).Some? ==> ReadSettings(VLESS(cfg).value)
  {
    if VLESS(cfg).Some? {
      var i := FindInbound(Inbounds(cfg), "vless").value;
      ToSettingsRead(Inbounds(cfg)[i].settings.value);
    }
  }

  lemma {:induction false} FindSame(ins: seq<Inbound>, i: nat, j: Json)
    requires FindInbound(ins, "vless") == Some(i)
    ensures FindInbound(ins[i := ins[i].(settings := Some(j))], "vless") == Some(i)
  {
    if i == 0 {
    } else {
      FindSame(ins[1..], i - 1, j);
      assert ins[i := ins[i].(settings := Some(j))][1..] == ins[1..][i - 1 := ins[i].(settings := Some(j))];
    }
  }

  /** Reading back saved settings gives them; a second save replaces the first; the other
      inbounds and the rest of the config stay. */
  lemma SaveRead(cfg: Config, s: Settings, t: Settings)
    requires VLESS(cfg).Some? && ReadSettings(s)
    ensures VLESS(SaveVLESS(cfg, s)) == Some(s)
    ensures SaveVLESS(SaveVLESS(cfg, s), t) == SaveVLESS(cfg, t)
    ensures SaveVLESS(cfg, s).extras == cfg.extras
  {
    var ins := Inbounds(cfg);
    var i := FindInbound(ins, "vless").value;
    FindSame(ins, i, FromSettings(s));
    SettingsRead(s);
    var once := ins[i := ins[i].(settings := Some(FromSettings(s)))];
    assert once[i := once[i].(settings := Some(FromSettings(t)))]
           == ins[i := ins[i].(settings := Some(FromSettings(t)))];
  }

  lemma {:induction false} DropAbsent(clients: seq<Client>, target: string)
    requires target !in EmailNames(clients)
    ensures Drop(clients, target) == clients && Lookup(clients, target) == None
  {
    if clients == [] {
    } else {
      assert EmailNames(clients)[1..] == EmailNames(clients[1..]);
      assert EmailNames(clients)[0] in EmailNames(clients);
      DropAbsent(clients[1..], target);
    }
  }

  lemma {:induction false} DropAppend(clients: seq<Client>, c: Client, target: string)
    ensures Drop(clients + [c], target) == Drop(clients, target) + Drop([c], target)
    ensures Lookup(clients + [c], target)
            == if Lookup(clients, target).Some? then Lookup(clients, target) else Lookup([c], target)
  {
    if clients == [] {
      assert clients + [c] == [c];
    } else {
      assert (clients + [c])[1..] == clients[1..] + [c];
      DropAppend(clients[1..], c, target);
    }
  }

  lemma {:induction false} DropOther(clients: seq<Client>, gone: string, other: string)
    requires gone != other
    ensures Lookup(Drop(clients, gone), other) == Lookup(clients, other)
  {
    if clients == [] {
    } else {
      DropOther(clients[1..], gone, other);
      if NormalizeEmail(clients[0].email) != gone {
        assert Drop(clients, gone)[1..] == Drop(clients[1..], gone);
      }
    }
  }

  /** A config as the editor writes it: the settings of its vless inbound in written form,
      with a client list even if there was none. */
  function Normal(cfg: Config): Config
    requires VLESS(cfg).Some?
  {
    SaveVLESS(cfg, VLESS(cfg).value.(clients := Some(Clients(cfg))))
  }

  /** What the editor reads after an addition, and what saving over it gives. */
  lemma AddedReads(cfg: Config, name: string, uuid: string, flow: string, t: Settings)
    requires Added(cfg, name, uuid, flow).Some?
    ensures var after := Added(cfg, name, uuid, flow).value;
            var more := Clients(cfg) + [Client(uuid, name + "@vpn", flow, map[])];
            && VLESS(after) == Some(VLESS(cfg).value.(clients := Some(more))) && Clients(after) == more
            && SaveVLESS(after, t) == SaveVLESS(cfg, t)
  {
    var s := VLESS(cfg).value;
    VLESSRead(cfg);
    SaveRead(cfg, s.(clients := Some(Clients(cfg) + [Client(uuid, name + "@vpn", flow, map[])])), t);
  }

  lemma NewClient(clients: seq<Client>, c: Client, name: string)
    requires name !in EmailNames(clients) && NormalizeEmail(c.email) == name
    ensures Drop(clients + [c], name) == clients && Lookup(clients + [c], name) == Some(c.id)
    ensures EmailNames(clients + [c]) == EmailNames(clients) + [name]
  {
    DropAbsent(clients, name);
    DropAppend(clients, c, name);
    DropOne(c, name);
    EmailsAppend(clients, c);
  }

  /** How the editor writes a client: the texts are there, and flow only with a value. */
  predicate WrittenClient(j: Json) {
    && j.Object? && At(j, "id").Str? && At(j, "email").Str?
    && ("flow" in j.members ==> j.members["flow"].Str? && j.members["flow"].text != "")
  }

  /** And settings: a client list and a decryption text are there. */
  predicate WrittenSettings(j: Json) {
    && j.Object? && At(j, "clients").List? && At(j, "decryption").Str?
    && forall c :: c in ItemsAt(j, "clients") ==> WrittenClient(c)
  }

  lemma ClientWritten(j: Json)
    requires ToClient(j).Some?
    ensures FromClient(ToClient(j).value) == j <==> WrittenClient(j)
  {
    var c := ToClient(j).value;
    var out := FromClient(c).members;
    if WrittenClient(j) {
      assert forall k :: k in CLIENT_KEYS ==> (k in out <==> k in j.members) && (k in out ==> out[k] == j.members[k]);
      assert out == j.members;
    } else if j.Object? {
      assert "id" in out && "email" in out;
    }
  }

  lemma {:induction false} ClientsWritten(items: seq<Json>)
    requires ToClients(items).Some?
    ensures FromClients(ToClients(items).value) == items <==> forall c :: c in items ==> WrittenClient(c)
  {
    if items == [] {
    } else {
      ClientsWritten(items[1..]);
      ClientWritten(items[0]);
      var cs := ToClients(items).value;
      assert cs[1..] == ToClients(items[1..]).value;
      assert items == [items[0]] + items[1..];
      assert FromClients(cs)[1..] == FromClients(cs[1..]);
    }
  }

  lemma SettingsWritten(j: Json)
    requires ToSettings(j).Some?
    ensures var s := ToSettings(j).value;
            var cs := match s.clients case None => [] case Some(cs) => cs;
            FromSettings(s.(clients := Some(cs))) == j <==> WrittenSettings(j)
  {
    var s := ToSettings(j).value;
    var cs := match s.clients case None => [] case Some(cs) => cs;
    var out := FromSettings(s.(clients := Some(cs))).members;
    assert out["clients"] == List(FromClients(cs)) && out["decryption"] == Str(s.decryption);
    if At(j, "clients").List? {
      ClientsWritten(ItemsAt(j, "clients"));
    }
    if WrittenSettings(j) {
      assert out == j.members;
    }
  }

  /** The settings of the first vless inbound, as they stand in the document. */
  function VLESSJson(cfg: Config): Json
    requires VLESS(cfg).Some?
  {
    Inbounds(cfg)[FindInbound(Inbounds(cfg), "vless").value].settings.value
  }

  lemma NormalWritten(cfg: Config)
    requires VLESS(cfg).Some?
    ensures Normal(cfg) == cfg <==> WrittenSettings(VLESSJson(cfg))
  {
    var ins, i := Inbounds(cfg), FindInbound(Inbounds(cfg), "vless").value;
    var out := FromSettings(VLESS(cfg).value.(clients := Some(Clients(cfg))));
    SettingsWritten(VLESSJson(cfg));
    assert Normal(cfg) == cfg.(inbounds := Some(ins[i := ins[i].(settings := Some(out))]));
    if out == VLESSJson(cfg) {
      assert ins[i := ins[i].(settings := Some(out))] == ins;
    } else {
      assert ins[i := ins[i].(settings := Some(out))][i] != ins[i];
    }
  }

  /** Adding a valid, unlisted user stores it, and removing it again gives the config as
      it was, in written form; so exactly as it was when its vless settings were already
      in that form. */
  lemma RemoveUndoesAdd(cfg: Config, name: string, uuid: string, flow: string)
    requires Added(cfg, name, uuid, flow).Some?
    ensures var after := Added(cfg, name, uuid, flow).value;
            && GetVLESSClient(after, name) == Some(uuid)
            && ListUserNames(after) == ListUserNames(cfg) + [name]
            && Removed(after, name) == Some(Normal(cfg))
            && (Removed(after, name) == Some(cfg) <==> WrittenSettings(VLESSJson(cfg)))
  {
    var after, c := Added(cfg, name, uuid, flow).value, Client(uuid, name + "@vpn", flow, map[]);
    var s := VLESS(cfg).value.(clients := Some(Clients(cfg)));
    NamePlain(name);
    AddedReads(cfg, name, uuid, flow, s);
    NewClient(Clients(cfg), c, name);
    NormalWritten(cfg);
    assert Drop(Clients(after), name) == Clients(cfg);
    assert Removed(after, name) == Some(SaveVLESS(after, s));
  }

  lemma DropOne(c: Client, name: string)
    requires NormalizeEmail(c.email) == name
    ensures Drop([c], name) == [] && Lookup([c], name) == Some(c.id)
  {
  }

  lemma {:induction false} EmailsAppend(clients: seq<Client>, c: Client)
    ensures EmailNames(clients + [c]) == EmailNames(clients) + [NormalizeEmail(c.email)]
  {
  }

  /** Nobody else's lookup changes. */
  lemma AddKeepsOthers(cfg: Config, name: string, uuid: string, flow: string, other: string)
    requires Added(cfg, name, uuid, flow).Some? && NormalizeEmail(other) != name
    ensures GetVLESSClient(Added(cfg, name, uuid, flow).value, other) == GetVLESSClient(cfg, other)
  {
    var c := Client(uuid, name + "@vpn", flow, map[]);
    NamePlain(name);
    AddedReads(cfg, name, uuid, flow, VLESS(cfg).value);
    DropAppend(Clients(cfg), c, NormalizeEmail(other));
  }

  /** Removing a user removes every client that normalizes to it and nobody else. */
  lemma RemoveKeepsOthers(cfg: Config, name: string, other: string)
    requires Removed(cfg, name).Some? && NormalizeEmail(other) != NormalizeEmail(name)
    ensures GetVLESSClient(Removed(cfg, name).value, name) == None
    ensures GetVLESSClient(Removed(cfg, name).value, other) == GetVLESSClient(cfg, other)
  {
    var s, target := VLESS(cfg).value, NormalizeEmail(name);
    VLESSRead(cfg);
    DropReads(Clients(cfg), target);
    SaveRead(cfg, s.(clients := Some(Drop(Clients(cfg), target))), s);
    DropOther(Clients(cfg), target, NormalizeEmail(other));
    DropGone(Clients(cfg), target);
  }

  lemma {:induction false} DropReads(clients: seq<Client>, target: string)
    ensures forall c :: c in Drop(clients, target) ==> c in clients
  {
    if clients == [] {
    } else {
      DropReads(clients[1..], target);
    }
  }

  lemma {:induction false} DropGone(clients: seq<Client>, target: string)
    ensures Lookup(Drop(clients, target), target) == None
  {
    if clients == [] {
    } else {
      DropGone(clients[1..], target);
    }
  }

  // ---- From document to document -------------------------------------------

  /** The documents differ at most in the client list of inbound v and in how the members
      the editor knows are written. */
  ghost predicate OnlyClients(j: Json, out: Json, v: nat) {
    var a, b := ItemsAt(j, "inbounds"), ItemsAt(out, "inbounds");
    && SameBut(j, out, {"inbounds"}) && |a| == |b| && v < |a|
    && (forall i :: 0 <= i < |a| && i != v ==> SameInbound(a[i], b[i]))
    && SameBut(a[v], b[v], {"protocol", "settings"})
    && SameBut(At(a[v], "settings"), At(b[v], "settings"), SETTINGS_KEYS)
  }

  /** The client entries of inbound v. */
  function ClientItems(j: Json, v: nat): seq<Json> {
    var ins := ItemsAt(j, "inbounds");
    if v < |ins| then ItemsAt(At(ins[v], "settings"), "clients") else []
  }

  lemma {:induction false} InboundsWritten(ins: seq<Inbound>)
    ensures |FromInbounds(ins)| == |ins| && forall i :: 0 <= i < |ins| ==> FromInbounds(ins)[i] == FromInbound(ins[i])
  {
    if ins == [] {
    } else {
      InboundsWritten(ins[1..]);
    }
  }

  /** Inbound v of a written list, and the others. */
  lemma InboundsCarried(items: seq<Json>, ins: seq<Inbound>, v: nat, settings: Json)
    requires ToInbounds(items) == Some(ins) && v < |ins|
    ensures var out := FromInbounds(ins[v := ins[v].(settings := Some(settings))]);
            && |out| == |items| && v < |items|
            && (forall i :: 0 <= i < |items| && i != v ==> SameInbound(items[i], out[i]))
            && SameBut(items[v], out[v], {"protocol", "settings"}) && At(out[v], "settings") == settings
            && ToInbound(items[v]) == Some(ins[v])
  {
    var saved := ins[v := ins[v].(settings := Some(settings))];
    InboundsSurvive(items);
    InboundsWritten(saved);
    InboundCarried(items[v], settings);
    forall i | 0 <= i < |items| && i != v ensures SameInbound(items[i], FromInbounds(saved)[i]) {
      InboundSurvives(items[i]);
      assert saved[i] == ins[i];
    }
  }

  lemma SettingsAt(j: Json)
    requires ToInbound(j).Some?
    ensures ToInbound(j).value.settings.Some? ==> At(j, "settings") == ToInbound(j).value.settings.value
  {
  }

  lemma SaveCarries(j: Json, clients: seq<Client>)
    requires ToConfig(j).Some? && VLESS(ToConfig(j).value).Some?
    ensures var cfg := ToConfig(j).value;
            var out := FromConfig(SaveVLESS(cfg, VLESS(cfg).value.(clients := Some(clients))));
            var v := FindInbound(Inbounds(cfg), "vless").value;
            && OnlyClients(j, out, v) && ClientItems(out, v) == FromClients(clients)
            && ToClients(ClientItems(j, v)) == Some(Clients(cfg))
  {
    var cfg := ToConfig(j).value;
    var v, items := FindInbound(Inbounds(cfg), "vless").value, ItemsAt(j, "inbounds");
    var s := FromSettings(VLESS(cfg).value.(clients := Some(clients)));
    InboundsCarried(items, Inbounds(cfg), v, s);
    SettingsAt(items[v]);
    SettingsCarried(VLESSJson(cfg), clients);
    ConfigCarried(j, Inbounds(cfg)[v := Inbounds(cfg)[v].(settings := Some(s))]);
  }

  lemma ConfigCarried(j: Json, ins: seq<Inbound>)
    requires ToConfig(j).Some?
    ensures var out := FromConfig(ToConfig(j).value.(inbounds := Some(ins)));
            SameBut(j, out, {"inbounds"}) && ItemsAt(out, "inbounds") == FromInbounds(ins)
  {
    var cfg := ToConfig(j).value;
    assert FromConfig(cfg.(inbounds := Some(ins))).members - {"inbounds"} == cfg.extras;
  }

  lemma SettingsCarried(j: Json, clients: seq<Client>)
    requires ToSettings(j).Some?
    ensures var s := ToSettings(j).value;
            var out := FromSettings(s.(clients := Some(clients)));
            && SameBut(j, out, SETTINGS_KEYS) && ItemsAt(out, "clients") == FromClients(clients)
            && ToClients(ItemsAt(j, "clients")) == Some(match s.clients case None => [] case Some(cs) => cs)
  {
    var s := ToSettings(j).value;
    assert FromSettings(s.(clients := Some(clients))).members - SETTINGS_KEYS == s.extras;
  }

  lemma InboundCarried(j: Json, settings: Json)
    requires ToInbound(j).Some?
    ensures var out := FromInbound(ToInbound(j).value.(settings := Some(settings)));
            SameBut(j, out, {"protocol", "settings"}) && At(out, "settings") == settings
  {
    var inb := ToInbound(j).value;
    assert FromInbound(inb.(settings := Some(settings))).members - {"protocol", "settings"} == inb.extras;
  }

  lemma {:induction false} WrittenAppend(clients: seq<Client>, c: Client)
    ensures FromClients(clients + [c]) == FromClients(clients) + [FromClient(c)]
    ensures |FromClients(clients)| == |clients|
  {
    if clients == [] {
      assert clients + [c] == [c];
    } else {
      WrittenAppend(clients[1..], c);
      assert (clients + [c])[1..] == clients[1..] + [c];
    }
  }

  /** From the document read to the document written, an addition changes nothing but the
      client list, where it appends one entry: whatever the editor does not know survives
      at all four levels. */
  lemma AddSurvives(j: Json, name: string, uuid: string, flow: string)
    requires ToConfig(j).Some? && Added(ToConfig(j).value, name, uuid, flow).Some?
    ensures var cfg := ToConfig(j).value;
            var out, v := FromConfig(Added(cfg, name, uuid, flow).value), FindInbound(Inbounds(cfg), "vless").value;
            && OnlyClients(j, out, v)
            && var before, after := ClientItems(j, v), ClientItems(out, v);
               && |after| == |before| + 1 && SameClients(before, after[..|before|])
               && after[|before|] == FromClient(Client(uuid, name + "@vpn", flow, map[]))
  {
    var cfg := ToConfig(j).value;
    var v, c := FindInbound(Inbounds(cfg), "vless").value, Client(uuid, name + "@vpn", flow, map[]);
    SaveCarries(j, Clients(cfg) + [c]);
    ClientsSurvive(ClientItems(j, v));
    WrittenAppend(Clients(cfg), c);
    assert FromClients(Clients(cfg) + [c])[..|Clients(cfg)|] == FromClients(Clients(cfg));
  }

  /** The client entries of the document that are not the user's. */
  function OtherItems(items: seq<Json>, target: string): seq<Json> {
    if items == [] then []
    else
      var rest := OtherItems(items[1..], target);
      match ToClient(items[0])
      case None => [items[0]] + rest
      case Some(c) => if NormalizeEmail(c.email) == target then rest else [items[0]] + rest
  }

  lemma {:induction false} OthersSurvive(items: seq<Json>, target: string)
    requires ToClients(items).Some?
    ensures SameClients(OtherItems(items, target), FromClients(Drop(ToClients(items).value, target)))
  {
    if items == [] {
    } else {
      OthersSurvive(items[1..], target);
      ClientSurvives(items[0]);
      assert ToClients(items).value[1..] == ToClients(items[1..]).value;
    }
  }

  /** And a removal nothing but that the entries of the user are gone. */
  lemma RemoveSurvives(j: Json, name: string)
    requires ToConfig(j).Some? && Removed(ToConfig(j).value, name).Some?
    ensures var cfg := ToConfig(j).value;
            var out, v := FromConfig(Removed(cfg, name).value), FindInbound(Inbounds(cfg), "vless").value;
            && OnlyClients(j, out, v)
            && SameClients(OtherItems(ClientItems(j, v), NormalizeEmail(name)), ClientItems(out, v))
  {
    var cfg, target := ToConfig(j).value, NormalizeEmail(name);
    SaveCarries(j, Drop(Clients(cfg), target));
    OthersSurvive(ClientItems(j, FindInbound(Inbounds(cfg), "vless").value), target);
  }
}
