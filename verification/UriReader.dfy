/** What a client reads from a subscription URI: the generic syntax of RFC 3986
    (section 3) and percent-decoding, with no knowledge of the builders. */
module UriReader {
  import opened Text
  import opened Routes
  import Uri
  import GoMirror

  /** Where a client connects, what it logs in with, and its settings by key. */
  datatype Access = Access(scheme: string, login: seq<string>, host: string, port: int, settings: map<string, string>)

  /** Position of the first of the stops. */
  function Until(s: string, stops: string): (n: nat)
    ensures n <= |s|
  {
    if s == "" || s[0] in stops then 0 else 1 + Until(s[1..], stops)
  }

  /** What stands before and after the mark, when the first of the stops begins one. */
  function Cut(s: string, stops: string, mark: string): Option<(string, string)> {
    var n := Until(s, stops);
    if HasPrefix(s[n..], mark) then Some((s[..n], s[n..][|mark|..])) else None
  }

  /** The host, without the brackets around an IPv6 literal, and the port. */
  function HostPort(s: string): Option<(string, int)> {
    match (if HasPrefix(s, "[") then Cut(s[1..], "]", "]:") else Cut(s, ":", ":"))
    case None => None
    case Some((host, port)) => if Integer(port) == None then None else Some((host, Integer(port).value))
  }

  /** Each part decoded; None when one is not an encoding. */
  function DecodeAll(parts: seq<string>): (users: Option<seq<string>>)
    ensures users.Some? ==> |users.value| == |parts|
  {
    if parts == [] then Some([])
    else
      match (Uri.Decode(parts[0]), DecodeAll(parts[1..]))
      case (Some(first), Some(rest)) => Some([first] + rest)
      case _ => None
  }

  /** The settings of a query on top of those read so far. */
  function Settings(fields: seq<string>, known: map<string, string>): Option<map<string, string>>
    decreases |fields|
  {
    if fields == [] then Some(known)
    else
      match Cut(fields[0], "=", "=")
      case None => None
      case Some((key, text)) =>
        match Uri.Decode(text)
        case None => None
        case Some(value) => Settings(fields[1..], known[key := value])
  }

  function ReadFields(scheme: string, login: string, place: string, query: string): Option<Access> {
    var users, address, settings := DecodeAll(Split(login, ':')), HostPort(place), Settings(Split(query, '&'), map[]);
    if users.None? || address.None? || settings.None? then None
    else Some(Access(scheme, users.value, address.value.0, address.value.1, settings.value))
  }

  function ReadParts(scheme: string, authority: string, query: string): Option<Access> {
    match Cut(authority, "@", "@")
    case None => None
    case Some((login, place)) => ReadFields(scheme, login, place, query)
  }

  /** The authority ends at the path, the query starts after it and ends at the fragment. */
  function ReadHier(scheme: string, hier: string): Option<Access> {
    var end := Until(hier, "/?#");
    match Cut(hier[end..], "?#", "?")
    case None => None
    case Some((_, query)) => ReadParts(scheme, hier[..end], query[..Until(query, "#")])
  }

  function Read(uri: string): Option<Access> {
    match Cut(uri, ":", "://")
    case None => None
    case Some((scheme, hier)) => ReadHier(scheme, hier)
  }

  // ---- Reading back --------------------------------------------------------

  /** None of the stops occurs. */
  ghost predicate Without(s: string, stops: string) {
    forall c :: c in stops ==> c !in s
  }

  lemma {:induction false} UntilAt(a: string, rest: string, stops: string)
    requires Without(a, stops) && (rest == "" || rest[0] in stops)
    ensures Until(a + rest, stops) == |a| && (a + rest)[..|a|] == a && (a + rest)[|a|..] == rest
  {
    if a == "" {
      assert a + rest == rest;
    } else {
      UntilAt(a[1..], rest, stops);
      assert (a + rest)[1..] == a[1..] + rest;
    }
  }

  lemma CutAt(a: string, stops: string, mark: string, rest: string)
    requires Without(a, stops) && mark != "" && mark[0] in stops
    ensures Cut(a + (mark + rest), stops, mark) == Some((a, rest))
  {
    UntilAt(a, mark + rest, stops);
    assert (mark + rest)[|mark|..] == rest;
  }

  lemma EncodedWithout(s: string)
    ensures Without(Uri.Encode(s), ":/?#@[]&=")
  {
    Uri.EncodedPlain(s);
  }

  lemma Decodes(s: string)
    ensures Uri.Decode(Uri.Encode(s)) == Some(s)
  {
    Uri.DecodeEncode(s, "");
    assert Uri.Encode(s) + "" == Uri.Encode(s) && s + "" == s;
  }

  lemma DecodesPlain(t: string)
    requires '%' !in t
    ensures Uri.Decode(t) == Some(t)
  {
    Uri.DecodeEncode("", t);
    assert Uri.Encode("") + t == t && "" + t == t;
  }

  /** The host part of a URI: as it is, or with the brackets an IPv6 literal needs. */
  function HostText(host: string, brackets: bool): string {
    if brackets then UriHost(host) else host
  }

  function Place(host: string, brackets: bool, port: int): string {
    HostText(host, brackets) + ":" + Itoa(port)
  }

  /** A host that is read back: it does not end the authority, does not start like a
      literal, and if it is one, gets its brackets and does not close them. */
  predicate HostReads(host: string, brackets: bool) {
    && '/' !in host && '?' !in host && '#' !in host
    && !HasPrefix(host, "[") && (':' in host ==> brackets && ']' !in host)
  }

  lemma HostRead(host: string, brackets: bool, port: int)
    requires HostReads(host, brackets)
    ensures HostPort(Place(host, brackets, port)) == Some((host, port))
  {
    IntegerRead(port);
    if ':' in host {
      LiteralRead(host, Itoa(port), port);
    } else {
      NameRead(host, Itoa(port), port);
    }
  }

  lemma LiteralRead(host: string, text: string, port: int)
    requires ']' !in host && Integer(text) == Some(port)
    ensures HostPort("[" + host + "]" + ":" + text) == Some((host, port))
  {
    var s := "[" + host + "]" + ":" + text;
    assert s == "[" + (host + ("]:" + text));
    CutAt(host, "]", "]:", text);
  }

  lemma NameRead(host: string, text: string, port: int)
    requires ':' !in host && !HasPrefix(host, "[") && Integer(text) == Some(port)
    ensures HostPort(host + ":" + text) == Some((host, port))
  {
    var s := host + ":" + text;
    NotBracketed(host, ":" + text);
    assert s == host + (":" + text);
    CutAt(host, ":", ":", text);
  }

  lemma NotBracketed(host: string, rest: string)
    requires rest != "" && rest[0] != '['
    ensures HasPrefix(host + rest, "[") <==> HasPrefix(host, "[")
  {
    assert (host + rest)[..1][0] == if host == "" then rest[0] else host[0];
    assert host != "" ==> host[..1][0] == host[0];
  }

  predicate Word(s: string) {
    forall i :: 0 <= i < |s| ==> 'a' <= s[i] <= 'z' || '0' <= s[i] <= '9' || s[i] == '-'
  }

  /** A setting with a text of its own, or with an encoded one. */
  ghost predicate Entry(param: (string, string), plain: (string, string)) {
    && param.0 == plain.0 && Word(param.0)
    && (if Word(param.1) then param.1 == plain.1 else param.1 == Uri.Encode(plain.1))
  }

  lemma EntryRead(param: (string, string), plain: (string, string))
    requires Entry(param, plain)
    ensures Without(param.0, "&=#") && Without(param.1, "&#") && Uri.Decode(param.1) == Some(plain.1)
  {
    if Word(param.1) {
      DecodesPlain(param.1);
    } else {
      Decodes(plain.1);
      EncodedWithout(plain.1);
    }
  }

  /** The text of the query decodes to these values. */
  ghost predicate Denotes(params: Params, plain: Params) {
    |params| == |plain| && forall i :: 0 <= i < |params| ==> Entry(params[i], plain[i])
  }

  function Collect(plain: Params, i: nat, known: map<string, string>): map<string, string>
    decreases |plain| - i
  {
    if i >= |plain| then known else Collect(plain, i + 1, known[plain[i].0 := plain[i].1])
  }

  lemma {:induction false} QueryRead(params: Params, plain: Params, i: nat, known: map<string, string>)
    requires Denotes(params, plain) && i < |params|
    ensures Settings(Split(Query(params[i..]), '&'), known) == Some(Collect(plain, i, known))
    decreases |params| - i
  {
    var rest, next := params[i..], known[plain[i].0 := plain[i].1];
    EntryRead(params[i], plain[i]);
    FieldRead(params[i], plain[i]);
    var field := params[i].0 + "=" + params[i].1;
    SplitHead(field, Query(rest[1..]), '&');
    assert rest[1..] == params[i + 1..];
    if i == |params| - 1 {
      assert Collect(plain, i + 1, next) == next && Query(rest) == field;
      assert [field][1..] == [];
    } else {
      assert Query(rest) == field + ['&'] + Query(rest[1..]);
      QueryRead(params, plain, i + 1, next);
      var fields := Split(Query(rest[1..]), '&');
      assert ([field] + fields)[1..] == fields;
    }
  }

  lemma FieldRead(param: (string, string), plain: (string, string))
    requires Entry(param, plain)
    ensures var field := param.0 + "=" + param.1;
            '&' !in field && Cut(field, "=", "=") == Some((param.0, param.1))
  {
    EntryRead(param, plain);
    CutAt(param.0, "=", "=", param.1);
    assert param.0 + "=" + param.1 == param.0 + ("=" + param.1);
  }

  lemma {:induction false} QueryWithout(params: Params, plain: Params)
    requires Denotes(params, plain)
    ensures '#' !in Query(params)
  {
    if params == [] {
    } else {
      EntryRead(params[0], plain[0]);
      QueryWithout(params[1..], plain[1..]);
    }
  }

  lemma UriRead(scheme: string, login: string, users: seq<string>, host: string, brackets: bool, port: int,
                path: string, params: Params, plain: Params, fragment: string)
    requires ':' !in scheme && LoginReads(login, users) && HostReads(host, brackets)
    requires path in {"", "/"} && params != [] && Denotes(params, plain)
    ensures Read(UriText(scheme, login, HostText(host, brackets), Itoa(port), path, params) + "#" + fragment)
            == Some(Access(scheme, users, host, port, Collect(plain, 0, map[])))
  {
    var place := Place(host, brackets, port);
    var authority, query := login + "@" + place, Query(params);
    Assembled(scheme, authority, path, query, fragment);
    CutAt(scheme, ":", "://", authority + (path + ("?" + (query + ("#" + fragment)))));
    AuthorityPlain(login, host, brackets, port);
    QueryWithout(params, plain);
    HierRead(scheme, authority, path, query, fragment);
    assert params[0..] == params;
    QueryRead(params, plain, 0, map[]);
    HostRead(host, brackets, port);
    PartsRead(scheme, login, place, query);
  }

  /** A login that does not end the authority or itself, and decodes to these parts. */
  ghost predicate LoginReads(login: string, users: seq<string>) {
    Without(login, "/?#@") && DecodeAll(Split(login, ':')) == Some(users)
  }

  lemma Assembled(scheme: string, authority: string, path: string, query: string, fragment: string)
    ensures scheme + "://" + authority + (path + "?" + query) + "#" + fragment
            == scheme + ("://" + (authority + (path + ("?" + (query + ("#" + fragment))))))
  {
  }

  lemma HierRead(scheme: string, authority: string, path: string, query: string, fragment: string)
    requires Without(authority, "/?#") && path in {"", "/"} && '#' !in query
    ensures ReadHier(scheme, authority + (path + ("?" + (query + ("#" + fragment)))))
            == ReadParts(scheme, authority, query)
  {
    var rest := path + ("?" + (query + ("#" + fragment)));
    UntilAt(authority, rest, "/?#");
    CutAt(path, "?#", "?", query + ("#" + fragment));
    UntilAt(query, "#" + fragment, "#");
  }

  lemma PartsRead(scheme: string, login: string, place: string, query: string)
    requires '@' !in login
    ensures ReadParts(scheme, login + "@" + place, query) == ReadFields(scheme, login, place, query)
  {
    CutAt(login, "@", "@", place);
    assert login + "@" + place == login + ("@" + place);
  }

  lemma AuthorityPlain(login: string, host: string, brackets: bool, port: int)
    requires Without(login, "/?#") && HostReads(host, brackets)
    ensures Without(login + "@" + Place(host, brackets, port), "/?#")
  {
    NumberPlain(port);
    var text := HostText(host, brackets);
    forall c | c in "/?#" ensures c !in login && c !in text && c !in Itoa(port) && c !in "@:" {
      assert text == host || text == "[" + host + "]";
    }
  }

  lemma NumberPlain(n: int)
    ensures Without(Itoa(n), "/?#]")
  {
    NumberOfDigits(if n < 0 then -n else n);
  }

  // ---- Nothing else reads back -----------------------------------------------

  lemma {:induction false} UntilIs(s: string, stops: string)
    ensures forall i :: 0 <= i < Until(s, stops) ==> s[i] !in stops
    ensures Until(s, stops) < |s| ==> s[Until(s, stops)] in stops
  {
    if s == "" || s[0] in stops {
    } else {
      UntilIs(s[1..], stops);
    }
  }

  /** The host read off a place is shorter than the place. */
  lemma HostShort(s: string)
    requires HostPort(s).Some?
    ensures |HostPort(s).value.0| + (if HasPrefix(s, "[") then 3 else 1) <= |s|
  {
  }

  lemma BracketMisread(host: string, port: int)
    requires HasPrefix(host, "[")
    ensures var got := HostPort(host + ":" + Itoa(port)); got.Some? ==> got.value.0 != host
  {
    var s := host + ":" + Itoa(port);
    NotBracketed(host, ":" + Itoa(port));
    assert s == host + (":" + Itoa(port));
    NumberPlain(port);
    UntilIs(s[1..], "]");
    var rest := ":" + Itoa(port);
    assert ']' !in rest && forall i :: |host| <= i < |s| ==> s[i] == rest[i - |host|];
  }

  lemma ColonMisread(host: string, port: int)
    requires !HasPrefix(host, "[") && ':' in host
    ensures var got := HostPort(host + ":" + Itoa(port)); got.Some? ==> got.value.0 != host
  {
    var s := host + ":" + Itoa(port);
    NotBracketed(host, ":" + Itoa(port));
    assert s == host + (":" + Itoa(port));
    UntilIs(s, ":");
    var i :| 0 <= i < |host| && host[i] == ':';
    assert s[i] == ':';
  }

  lemma LiteralMisread(host: string, port: int)
    requires ']' in host
    ensures var got := HostPort("[" + host + "]" + ":" + Itoa(port)); got.Some? ==> got.value.0 != host
  {
    var s := "[" + host + "]" + ":" + Itoa(port);
    assert s == "[" + (host + ("]:" + Itoa(port)));
    UntilIs(s[1..], "]");
    var i :| 0 <= i < |host| && host[i] == ']';
    assert s[1..][i] == ']';
  }

  /** Where a text ends that stops at the first of these characters. */
  ghost predicate StopsAt(s: string, end: nat) {
    && end <= |s| && (forall i :: 0 <= i < end ==> s[i] !in "/?#")
    && (end < |s| ==> s[end] in "/?#")
  }

  /** A place cut short inside the host reads as a shorter one. */
  lemma StoppedEarly(host: string, brackets: bool, port: int, end: nat)
    requires var place := Place(host, brackets, port);
             end < |place| && place[end] in "/?#" && HostPort(place[..end]).Some?
    ensures |HostPort(Place(host, brackets, port)[..end]).value.0| < |host|
  {
    var place, text, rest := Place(host, brackets, port), HostText(host, brackets), ":" + Itoa(port);
    NumberPlain(port);
    assert place == text + rest;
    assert end >= |text| ==> place[end] == rest[end - |text|] && rest[end - |text|] in rest;
    HostShort(place[..end]);
    if text != host {
      assert text == "[" + host + "]" && place[0] == '[';
      assert place[..end][..1] == "[";
    }
  }

  lemma WholeHost(host: string, brackets: bool, port: int)
    requires var got := HostPort(Place(host, brackets, port)); got.Some? && got.value.0 == host
    ensures !HasPrefix(host, "[") && (':' in host ==> brackets && ']' !in host)
  {
    if HasPrefix(host, "[") {
      BracketMisread(host, port);
    } else if ':' in host && !brackets {
      ColonMisread(host, port);
    } else if ':' in host && ']' in host {
      LiteralMisread(host, port);
    }
  }

  lemma HostWithin(host: string, brackets: bool, port: int, c: char)
    requires c in host
    ensures c in Place(host, brackets, port)
  {
    assert HostText(host, brackets) == host || HostText(host, brackets) == "[" + host + "]";
  }

  /** Only a host that reads back is read off what the authority keeps of its place. */
  lemma HostOnly(host: string, brackets: bool, port: int, end: nat)
    requires StopsAt(Place(host, brackets, port), end)
    requires var got := HostPort(Place(host, brackets, port)[..end]); got.Some? && got.value.0 == host
    ensures HostReads(host, brackets)
  {
    var place := Place(host, brackets, port);
    if end < |place| {
      StoppedEarly(host, brackets, port, end);
    } else {
      assert place[..end] == place;
      WholeHost(host, brackets, port);
      forall c | c in "/?#" ensures c !in host {
        if c in host {
          HostWithin(host, brackets, port, c);
        }
      }
    }
  }

  /** No shorter text reads as the login. */
  ghost predicate Tight(login: string, users: seq<string>) {
    forall n :: 0 <= n < |login| ==> DecodeAll(Split(login[..n], ':')) != Some(users)
  }

  /** Only a login that reads back is read off what is kept of the authority. */
  lemma LoginOnly(login: string, users: seq<string>, place: string, end: nat, l: string, p: string)
    requires Without(login, "/?#@") || Tight(login, users)
    requires StopsAt(login + "@" + place, end) && Cut((login + "@" + place)[..end], "@", "@") == Some((l, p))
    requires DecodeAll(Split(l, ':')) == Some(users)
    ensures LoginReads(login, users) && end > |login| && p == place[..end - |login| - 1]
  {
    var authority := login + "@" + place;
    var kept := authority[..end];
    var m := FirstAt(login, place, end);
    assert l == login[..m];
    assert Without(login, "/?#@") ==> '@' !in login;
    assert m == |login| && login[..m] == login;
    assert forall i :: 0 <= i < |login| ==> login[i] == authority[i];
    assert forall c :: c in "/?#" ==> c !in login;
    assert kept[m..][1..] == place[..end - m - 1];
  }

  /** The first '@' of an authority is in the login or right after it. */
  lemma FirstAt(login: string, place: string, end: nat) returns (m: nat)
    requires end <= |login + "@" + place| && Cut((login + "@" + place)[..end], "@", "@").Some?
    ensures m == Until((login + "@" + place)[..end], "@") < end && m <= |login|
    ensures Cut((login + "@" + place)[..end], "@", "@").value.0 == login[..m]
    ensures '@' !in login[..m] && (m < |login| ==> '@' in login)
  {
    var authority := login + "@" + place;
    var kept := authority[..end];
    m := Until(kept, "@");
    UntilIs(kept, "@");
    assert kept[m] == '@' && authority[|login|] == '@';
    assert kept[..m] == login[..m];
    assert m < |login| ==> login[m] == authority[m];
  }

  lemma PlaceStops(login: string, place: string, end: nat)
    requires |login| < end && StopsAt(login + "@" + place, end)
    ensures StopsAt(place, end - |login| - 1)
  {
    var authority := login + "@" + place;
    assert forall i :: 0 <= i < |place| ==> place[i] == authority[|login| + 1 + i];
  }

  lemma AuthorityOnly(login: string, users: seq<string>, host: string, brackets: bool, port: int, end: nat,
                      l: string, p: string)
    requires Without(login, "/?#@") || Tight(login, users)
    requires var authority := login + "@" + Place(host, brackets, port);
             StopsAt(authority, end) && Cut(authority[..end], "@", "@") == Some((l, p))
    requires DecodeAll(Split(l, ':')) == Some(users) && HostPort(p).Some? && HostPort(p).value.0 == host
    ensures LoginReads(login, users) && HostReads(host, brackets)
  {
    var place := Place(host, brackets, port);
    LoginOnly(login, users, place, end, l, p);
    PlaceStops(login, place, end);
    HostOnly(host, brackets, port, end - |login| - 1);
  }

  /** What a client reads is what the line should say exactly when its login and its host
      read back. */
  lemma UriReads(scheme: string, login: string, users: seq<string>, host: string, brackets: bool, port: int,
                 path: string, params: Params, plain: Params, fragment: string)
    requires ':' !in scheme && path in {"", "/"} && params != [] && Denotes(params, plain)
    requires Without(login, "/?#@") || Tight(login, users)
    ensures Read(UriText(scheme, login, HostText(host, brackets), Itoa(port), path, params) + "#" + fragment)
            == Some(Access(scheme, users, host, port, Collect(plain, 0, map[])))
            <==> LoginReads(login, users) && HostReads(host, brackets)
  {
    var uri := UriText(scheme, login, HostText(host, brackets), Itoa(port), path, params) + "#" + fragment;
    if LoginReads(login, users) && HostReads(host, brackets) {
      UriRead(scheme, login, users, host, brackets, port, path, params, plain, fragment);
    } else if Read(uri).Some? && Read(uri).value.login == users && Read(uri).value.host == host {
      Misread(scheme, login, users, host, brackets, port, path, Query(params), fragment);
    }
  }

  lemma Misread(scheme: string, login: string, users: seq<string>, host: string, brackets: bool, port: int,
                path: string, query: string, fragment: string)
    requires ':' !in scheme && path in {"", "/"}
    requires Without(login, "/?#@") || Tight(login, users)
    requires var got := Read(scheme + "://" + (login + "@" + Place(host, brackets, port)) + (path + "?" + query)
                             + "#" + fragment);
             got.Some? && got.value.login == users && got.value.host == host
    ensures LoginReads(login, users) && HostReads(host, brackets)
  {
    var authority, rest := login + "@" + Place(host, brackets, port), path + ("?" + (query + ("#" + fragment)));
    Assembled(scheme, authority, path, query, fragment);
    CutAt(scheme, ":", "://", authority + rest);
    var end, l, p := HierParts(scheme, authority, rest);
    AuthorityOnly(login, users, host, brackets, port, end, l, p);
  }

  /** The part of an authority that is read. */
  lemma HierParts(scheme: string, authority: string, rest: string) returns (end: nat, l: string, p: string)
    requires rest != "" && rest[0] in "/?#" && ReadHier(scheme, authority + rest).Some?
    ensures StopsAt(authority, end) && Cut(authority[..end], "@", "@") == Some((l, p))
    ensures var got := ReadHier(scheme, authority + rest).value;
            DecodeAll(Split(l, ':')) == Some(got.login) && HostPort(p).Some? && HostPort(p).value.0 == got.host
  {
    var hier := authority + rest;
    end := Until(hier, "/?#");
    UntilIs(hier, "/?#");
    assert hier[|authority|] == rest[0];
    assert forall i :: 0 <= i < |authority| ==> hier[i] == authority[i];
    assert hier[..end] == authority[..end];
    var cut := Cut(authority[..end], "@", "@").value;
    l, p := cut.0, cut.1;
  }

  // ---- The formats ---------------------------------------------------------

  lemma Fixed(key: string, value: string)
    requires Word(key) && Word(value)
    ensures Entry((key, value), (key, value))
  {
  }

  lemma Encoded(key: string, value: string)
    requires Word(key)
    ensures Entry((key, Uri.Encode(value)), (key, value))
  {
    Decodes(value);
  }

  /** A login that goes into a URI as it is. */
  predicate BareLogin(login: string) {
    && '/' !in login && '?' !in login && '#' !in login && '@' !in login
    && ':' !in login && '%' !in login
  }

  lemma BareRead(login: string)
    requires BareLogin(login)
    ensures Without(login, "/?#@") && DecodeAll(Split(login, ':')) == Some([login])
  {
    SplitHead(login, "", ':');
    DecodesPlain(login);
    assert DecodeAll([]) == Some([]) && [login] + [] == [login];
  }

  lemma OnePart(s: string, sep: char)
    requires |Split(s, sep)| == 1
    ensures sep !in s && Split(s, sep) == [s]
  {
    SplitFree(s, sep);
    JoinSplit(s, sep);
  }

  lemma OneDecoded(s: string, user: string)
    requires DecodeAll(Split(s, ':')) == Some([user])
    ensures ':' !in s && Uri.Decode(s) == Some(user)
  {
    OnePart(s, ':');
    SingleDecoded(s, user);
  }

  lemma SingleDecoded(part: string, user: string)
    requires DecodeAll([part]) == Some([user])
    ensures Uri.Decode(part) == Some(user)
  {
    assert [part][1..] == [] && DecodeAll([part]).value[0] == Uri.Decode(part).value;
  }

  lemma BareExact(login: string)
    ensures LoginReads(login, [login]) <==> BareLogin(login)
    ensures Tight(login, [login])
  {
    if BareLogin(login) {
      BareRead(login);
    } else if LoginReads(login, [login]) {
      OneDecoded(login, login);
      Uri.DecodeShorter(login);
    }
    forall n | 0 <= n < |login| ensures DecodeAll(Split(login[..n], ':')) != Some([login]) {
      if DecodeAll(Split(login[..n], ':')) == Some([login]) {
        OneDecoded(login[..n], login);
        Uri.DecodeShorter(login[..n]);
      }
    }
  }

  lemma PairRead(a: string, b: string, user: string, password: string)
    requires ':' !in a && ':' !in b && Uri.Decode(a) == Some(user) && Uri.Decode(b) == Some(password)
    ensures DecodeAll(Split(a + ":" + b, ':')) == Some([user, password])
  {
    SplitHead(a, b, ':');
    SplitHead(b, "", ':');
    var parts := [a] + [b];
    assert parts[1..] == [b] && [b][1..] == [] && [password] + [] == [password];
    assert DecodeAll([b]) == Some([password]);
    assert [user] + [password] == [user, password];
  }

  lemma LoginRead(user: string, password: string)
    ensures var login := Uri.Encode(user) + ":" + Uri.Encode(password);
            Without(login, "/?#@") && DecodeAll(Split(login, ':')) == Some([user, password])
  {
    EncodedWithout(user);
    EncodedWithout(password);
    Decodes(user);
    Decodes(password);
    PairRead(Uri.Encode(user), Uri.Encode(password), user, password);
  }

  lemma Https()
    ensures Itoa(443) == "443"
  {
    assert Digits(4) == "4" && Digits(44) == "4" + "4";
  }

  lemma BothDenote(a: (string, string), b: (string, string), c: (string, string), d: (string, string))
    requires Entry(a, b) && Entry(c, d)
    ensures Denotes([a, c], [b, d])
  {
  }

  lemma DenotesConcat(a: Params, b: Params, c: Params, d: Params)
    requires Denotes(a, b) && Denotes(c, d)
    ensures Denotes(a + c, b + d)
  {
  }

  lemma SecurityDenotes(kind: string)
    requires Word(kind)
    ensures var params: Params := [("encryption", "none"), ("security", kind)]; Denotes(params, params)
  {
    Fixed("encryption", "none");
    Fixed("security", kind);
    BothDenote(("encryption", "none"), ("encryption", "none"), ("security", kind), ("security", kind));
  }

  lemma FlowDenotes()
    ensures var params: Params := [("flow", "xtls-rprx-vision"), ("type", "tcp")]; Denotes(params, params)
  {
    Fixed("flow", "xtls-rprx-vision");
    Fixed("type", "tcp");
    BothDenote(("flow", "xtls-rprx-vision"), ("flow", "xtls-rprx-vision"), ("type", "tcp"), ("type", "tcp"));
  }

  lemma BothEncoded(k1: string, v1: string, k2: string, v2: string)
    requires Word(k1) && Word(k2)
    ensures Denotes([(k1, Uri.Encode(v1)), (k2, Uri.Encode(v2))], [(k1, v1), (k2, v2)])
  {
    Encoded(k1, v1);
    Encoded(k2, v2);
    BothDenote((k1, Uri.Encode(v1)), (k1, v1), (k2, Uri.Encode(v2)), (k2, v2));
  }

  lemma SidDenotes(sid: string)
    ensures Denotes([("sid", Uri.Encode(sid)), ("fp", "chrome")], [("sid", sid), ("fp", "chrome")])
  {
    Encoded("sid", sid);
    Fixed("fp", "chrome");
    BothDenote(("sid", Uri.Encode(sid)), ("sid", sid), ("fp", "chrome"), ("fp", "chrome"));
  }

  lemma RealityIs(sni: string, key: string, sid: string)
    ensures RealityParams(sni, key, sid)
            == [("encryption", "none"), ("security", "reality")] + [("flow", "xtls-rprx-vision"), ("type", "tcp")]
               + ([("sni", sni), ("pbk", key)] + [("sid", sid), ("fp", "chrome")])
  {
  }

  lemma RealityDenotes(sni: string, key: string, sid: string)
    ensures Denotes(RealityParams(Uri.Encode(sni), Uri.Encode(key), Uri.Encode(sid)), RealityParams(sni, key, sid))
  {
    var a: Params := [("encryption", "none"), ("security", "reality")];
    var b: Params := [("flow", "xtls-rprx-vision"), ("type", "tcp")];
    var c: Params, d: Params := [("sni", Uri.Encode(sni)), ("pbk", Uri.Encode(key))], [("sni", sni), ("pbk", key)];
    var e: Params, f: Params := [("sid", Uri.Encode(sid)), ("fp", "chrome")], [("sid", sid), ("fp", "chrome")];
    SecurityDenotes("reality");
    FlowDenotes();
    BothEncoded("sni", sni, "pbk", key);
    SidDenotes(sid);
    DenotesConcat(a, a, b, b);
    DenotesConcat(c, d, e, f);
    DenotesConcat(a + b, a + b, c + e, d + f);
    RealityIs(sni, key, sid);
    RealityIs(Uri.Encode(sni), Uri.Encode(key), Uri.Encode(sid));
  }

  lemma CollectTwo(params: Params, i: nat, known: map<string, string>)
    requires i + 2 <= |params|
    ensures var next := known[params[i].0 := params[i].1][params[i + 1].0 := params[i + 1].1];
            Collect(params, i, known) == if i + 2 == |params| then next else Collect(params, i + 2, next)
  {
    var next := known[params[i].0 := params[i].1][params[i + 1].0 := params[i + 1].1];
    assert Collect(params, i + 2, next) == if i + 2 == |params| then next else Collect(params, i + 2, next);
  }

  lemma VlessReads(uuid: string, host: string, brackets: bool, params: Params, plain: Params, fragment: string)
    requires params != [] && Denotes(params, plain)
    ensures Read(UriText("vless", uuid, HostText(host, brackets), "443", "", params) + "#" + fragment)
            == Some(Access("vless", [uuid], host, 443, Collect(plain, 0, map[])))
            <==> BareLogin(uuid) && HostReads(host, brackets)
  {
    BareExact(uuid);
    Https();
    UriReads("vless", uuid, [uuid], host, brackets, 443, "", params, plain, fragment);
  }

  function RealityAccess(uuid: string, host: string, sni: string, key: string, sid: string): Access {
    Access("vless", [uuid], host, 443,
           map["encryption" := "none", "security" := "reality", "flow" := "xtls-rprx-vision", "type" := "tcp",
               "sni" := sni, "pbk" := key, "sid" := sid, "fp" := "chrome"])
  }

  lemma RealityCollected(sni: string, key: string, sid: string)
    ensures Collect(RealityParams(sni, key, sid), 0, map[]) == RealityAccess("", "", sni, key, sid).settings
  {
    var params := RealityParams(sni, key, sid);
    var two := map["encryption" := "none", "security" := "reality"];
    var four := two["flow" := "xtls-rprx-vision"]["type" := "tcp"];
    CollectTwo(params, 0, map[]);
    CollectTwo(params, 2, two);
    CollectTwo(params, 4, four);
    CollectTwo(params, 6, four["sni" := sni]["pbk" := key]);
  }

  lemma RealityReads(uuid: string, host: string, sni: string, key: string, sid: string, fragment: string)
    ensures Read(RealityBody(uuid, host, Uri.Encode(sni), Uri.Encode(key), Uri.Encode(sid)) + "#" + fragment)
            == Some(RealityAccess(uuid, host, sni, key, sid))
            <==> BareLogin(uuid) && HostReads(host, true)
  {
    RealityDenotes(sni, key, sid);
    RealityCollected(sni, key, sid);
    VlessReads(uuid, host, true, RealityParams(Uri.Encode(sni), Uri.Encode(key), Uri.Encode(sid)),
               RealityParams(sni, key, sid), fragment);
  }

  // ---- HTTPUpgrade and XHTTP -----------------------------------------------

  lemma TypeDenotes(kind: string, host: string)
    requires Word(kind)
    ensures Denotes([("type", kind), ("host", Uri.Encode(host))], [("type", kind), ("host", host)])
  {
    Fixed("type", kind);
    Encoded("host", host);
    BothDenote(("type", kind), ("type", kind), ("host", Uri.Encode(host)), ("host", host));
  }

  function Front(kind: string, host: string): Params {
    [("encryption", "none"), ("security", "tls")] + [("type", kind), ("host", host)]
  }

  lemma FrontDenotes(kind: string, host: string)
    requires Word(kind)
    ensures Denotes(Front(kind, Uri.Encode(host)), Front(kind, host))
  {
    var a: Params := [("encryption", "none"), ("security", "tls")];
    SecurityDenotes("tls");
    TypeDenotes(kind, host);
    DenotesConcat(a, a, [("type", kind), ("host", Uri.Encode(host))], [("type", kind), ("host", host)]);
  }

  lemma UpgradeIs(host: string, path: string, alpn: string)
    ensures UpgradeParams(host, path, alpn)
            == Front("httpupgrade", host) + ([("path", path), ("alpn", alpn)] + [("sni", host)])
  {
  }

  lemma UpgradeDenotes(host: string, path: string, alpn: string)
    ensures Denotes(UpgradeParams(Uri.Encode(host), Uri.Encode(path), Uri.Encode(alpn)),
                    UpgradeParams(host, path, alpn))
  {
    FrontDenotes("httpupgrade", host);
    UpgradeRest(host, path, alpn);
    DenotesConcat(Front("httpupgrade", Uri.Encode(host)), Front("httpupgrade", host),
                  [("path", Uri.Encode(path)), ("alpn", Uri.Encode(alpn))] + [("sni", Uri.Encode(host))],
                  [("path", path), ("alpn", alpn)] + [("sni", host)]);
    UpgradeIs(host, path, alpn);
    UpgradeIs(Uri.Encode(host), Uri.Encode(path), Uri.Encode(alpn));
  }

  lemma UpgradeRest(host: string, path: string, alpn: string)
    ensures Denotes([("path", Uri.Encode(path)), ("alpn", Uri.Encode(alpn))] + [("sni", Uri.Encode(host))],
                    [("path", path), ("alpn", alpn)] + [("sni", host)])
  {
    BothEncoded("path", path, "alpn", alpn);
    Encoded("sni", host);
    DenotesConcat([("path", Uri.Encode(path)), ("alpn", Uri.Encode(alpn))], [("path", path), ("alpn", alpn)],
                  [("sni", Uri.Encode(host))], [("sni", host)]);
  }

  function UpgradeAccess(uuid: string, host: string, path: string): Access {
    Access("vless", [uuid], host, 443,
           map["encryption" := "none", "security" := "tls", "type" := "httpupgrade", "host" := host,
               "path" := path, "alpn" := "http/1.1", "sni" := host])
  }

  lemma UpgradeCollected(host: string, path: string)
    ensures Collect(UpgradeParams(host, path, "http/1.1"), 0, map[]) == UpgradeAccess("", host, path).settings
  {
    var params := UpgradeParams(host, path, "http/1.1");
    var two := map["encryption" := "none", "security" := "tls"];
    var four := two["type" := "httpupgrade"]["host" := host];
    var six := four["path" := path]["alpn" := "http/1.1"];
    CollectTwo(params, 0, map[]);
    CollectTwo(params, 2, two);
    CollectTwo(params, 4, four);
    assert Collect(params, 7, six["sni" := host]) == six["sni" := host];
  }

  lemma UpgradeReads(uuid: string, host: string, path: string, fragment: string)
    ensures Read(HTTPUpgradeBody(uuid, host, Uri.Encode(host), Uri.Encode(path)) + "#" + fragment)
            == Some(UpgradeAccess(uuid, host, path))
            <==> BareLogin(uuid) && HostReads(host, false)
  {
    H1Encoded();
    UpgradeDenotes(host, path, "http/1.1");
    UpgradeCollected(host, path);
    VlessReads(uuid, host, false, UpgradeParams(Uri.Encode(host), Uri.Encode(path), ALPN_H1),
               UpgradeParams(host, path, "http/1.1"), fragment);
  }

  lemma Around(a: string, mark: string, b: string, m: string, e: string)
    requires Uri.AllUnreserved(a) && Uri.Encode(mark) == m && Uri.Encode(b) == e
    ensures Uri.Encode(a + (mark + b)) == a + (m + e)
  {
    Uri.EncodeUnreserved(a);
    Uri.EncodeConcat(a, mark + b);
    Uri.EncodeConcat(mark, b);
  }

  /** The protocols of a handshake, as lists and as the builders write them. */
  lemma H1Encoded()
    ensures Uri.Encode("http/1.1") == ALPN_H1
  {
    Uri.EncodeUnreserved("1.1");
    Punctuation();
    Around("http", "/", "1.1", "%2F", "1.1");
    assert "http" + ("/" + "1.1") == "http/1.1" && "http" + ("%2F" + "1.1") == ALPN_H1;
  }

  lemma H2Encoded()
    ensures Uri.Encode("h2,http/1.1") == ALPN_H2
  {
    Punctuation();
    H1Encoded();
    Around("h2", ",", "http/1.1", "%2C", ALPN_H1);
    H2Text();
  }

  lemma H2Text()
    ensures "h2" + ("," + "http/1.1") == "h2,http/1.1" && "h2" + ("%2C" + ALPN_H1) == ALPN_H2
  {
  }

  lemma H3Encoded()
    ensures Uri.Encode("h3") == "h3"
  {
    Uri.EncodeUnreserved("h3");
  }

  lemma Punctuation()
    ensures Uri.Encode("/") == "%2F" && Uri.Encode(",") == "%2C"
  {
    Uri.SlashEncodes();
    assert Uri.Encode("") == "" && Uri.Utf8(',') == [0x2C];
    assert Uri.PercentAll([0x2C]) == Uri.Percent(0x2C) + Uri.PercentAll([]);
  }

  lemma XHTTPIs(host: string, path: string, mode: string, alpn: string)
    ensures XHTTPParams(host, path, mode, alpn)
            == Front("xhttp", host) + ([("path", path), ("mode", mode)] + [("alpn", alpn), ("sni", host)])
  {
  }

  lemma XHTTPDenotes(host: string, path: string, mode: string, alpn: string)
    ensures Denotes(XHTTPParams(Uri.Encode(host), Uri.Encode(path), Uri.Encode(mode), Uri.Encode(alpn)),
                    XHTTPParams(host, path, mode, alpn))
  {
    FrontDenotes("xhttp", host);
    XHTTPRest(host, path, mode, alpn);
    DenotesConcat(Front("xhttp", Uri.Encode(host)), Front("xhttp", host),
                  [("path", Uri.Encode(path)), ("mode", Uri.Encode(mode))]
                  + [("alpn", Uri.Encode(alpn)), ("sni", Uri.Encode(host))],
                  [("path", path), ("mode", mode)] + [("alpn", alpn), ("sni", host)]);
    XHTTPIs(host, path, mode, alpn);
    XHTTPIs(Uri.Encode(host), Uri.Encode(path), Uri.Encode(mode), Uri.Encode(alpn));
  }

  lemma XHTTPRest(host: string, path: string, mode: string, alpn: string)
    ensures Denotes([("path", Uri.Encode(path)), ("mode", Uri.Encode(mode))]
                    + [("alpn", Uri.Encode(alpn)), ("sni", Uri.Encode(host))],
                    [("path", path), ("mode", mode)] + [("alpn", alpn), ("sni", host)])
  {
    BothEncoded("path", path, "mode", mode);
    BothEncoded("alpn", alpn, "sni", host);
    DenotesConcat([("path", Uri.Encode(path)), ("mode", Uri.Encode(mode))], [("path", path), ("mode", mode)],
                  [("alpn", Uri.Encode(alpn)), ("sni", Uri.Encode(host))], [("alpn", alpn), ("sni", host)]);
  }

  function XHTTPAccess(uuid: string, host: string, path: string, mode: string, alpn: string): Access {
    Access("vless", [uuid], host, 443,
           map["encryption" := "none", "security" := "tls", "type" := "xhttp", "host" := host,
               "path" := path, "mode" := mode, "alpn" := alpn, "sni" := host])
  }

  lemma XHTTPCollected(host: string, path: string, mode: string, alpn: string)
    ensures Collect(XHTTPParams(host, path, mode, alpn), 0, map[]) == XHTTPAccess("", host, path, mode, alpn).settings
  {
    var params := XHTTPParams(host, path, mode, alpn);
    var two := map["encryption" := "none", "security" := "tls"];
    var four := two["type" := "xhttp"]["host" := host];
    CollectTwo(params, 0, map[]);
    CollectTwo(params, 2, two);
    CollectTwo(params, 4, four);
    CollectTwo(params, 6, four["path" := path]["mode" := mode]);
  }

  lemma XHTTPReads(uuid: string, host: string, path: string, mode: string, alpn: string, fragment: string)
    ensures Read(XHTTPBody(uuid, host, Uri.Encode(host), Uri.Encode(path), Uri.Encode(mode), Uri.Encode(alpn))
                 + "#" + fragment)
            == Some(XHTTPAccess(uuid, host, path, mode, alpn))
            <==> BareLogin(uuid) && HostReads(host, false)
  {
    XHTTPDenotes(host, path, mode, alpn);
    XHTTPCollected(host, path, mode, alpn);
    VlessReads(uuid, host, false,
               XHTTPParams(Uri.Encode(host), Uri.Encode(path), Uri.Encode(mode), Uri.Encode(alpn)),
               XHTTPParams(host, path, mode, alpn), fragment);
  }

  // ---- Hysteria2 and Naive -------------------------------------------------

  lemma Hy2Denotes(obfs: string, sni: string)
    ensures Denotes(Hy2Params(Uri.Encode(obfs), Uri.Encode(sni)), Hy2Params(obfs, sni))
  {
    ObfsDenotes(obfs);
    SniDenotes(sni, "insecure", "0");
    var a: Params, b: Params := [("obfs", "salamander"), ("obfs-password", Uri.Encode(obfs))],
                                [("obfs", "salamander"), ("obfs-password", obfs)];
    var c: Params, d: Params := [("sni", Uri.Encode(sni)), ("insecure", "0")], [("sni", sni), ("insecure", "0")];
    DenotesConcat(a, b, c, d);
    assert Hy2Params(obfs, sni) == b + d && Hy2Params(Uri.Encode(obfs), Uri.Encode(sni)) == a + c;
  }

  lemma ObfsDenotes(obfs: string)
    ensures Denotes([("obfs", "salamander"), ("obfs-password", Uri.Encode(obfs))],
                    [("obfs", "salamander"), ("obfs-password", obfs)])
  {
    Fixed("obfs", "salamander");
    Encoded("obfs-password", obfs);
    BothDenote(("obfs", "salamander"), ("obfs", "salamander"),
               ("obfs-password", Uri.Encode(obfs)), ("obfs-password", obfs));
  }

  lemma SniDenotes(sni: string, key: string, value: string)
    requires Word(key) && Word(value)
    ensures Denotes([("sni", Uri.Encode(sni)), (key, value)], [("sni", sni), (key, value)])
  {
    Encoded("sni", sni);
    Fixed(key, value);
    BothDenote(("sni", Uri.Encode(sni)), ("sni", sni), (key, value), (key, value));
  }

  function Hy2Access(user: string, password: string, host: string, port: int, obfs: string, sni: string): Access {
    Access("hysteria2", [user, password], host, port,
           map["obfs" := "salamander", "obfs-password" := obfs, "sni" := sni, "insecure" := "0"])
  }

  lemma Hy2Collected(obfs: string, sni: string)
    ensures Collect(Hy2Params(obfs, sni), 0, map[]) == Hy2Access("", "", "", 0, obfs, sni).settings
  {
    CollectTwo(Hy2Params(obfs, sni), 0, map[]);
    CollectTwo(Hy2Params(obfs, sni), 2, map["obfs" := "salamander", "obfs-password" := obfs]);
  }

  /** A URI that logs in by name and password. */
  lemma PairLoginReads(scheme: string, user: string, password: string, host: string, brackets: bool, port: int,
                       path: string, params: Params, plain: Params, fragment: string)
    requires ':' !in scheme && path in {"", "/"} && params != [] && Denotes(params, plain)
    ensures Read(UriText(scheme, Uri.Encode(user) + ":" + Uri.Encode(password), HostText(host, brackets), Itoa(port),
                         path, params) + "#" + fragment)
            == Some(Access(scheme, [user, password], host, port, Collect(plain, 0, map[])))
            <==> HostReads(host, brackets)
  {
    LoginRead(user, password);
    UriReads(scheme, Uri.Encode(user) + ":" + Uri.Encode(password), [user, password], host, brackets, port, path,
             params, plain, fragment);
  }

  lemma Hy2UriReads(user: string, password: string, host: string, port: int, params: Params, plain: Params,
                    fragment: string)
    requires params != [] && Denotes(params, plain)
    ensures Read(UriText("hysteria2", Uri.Encode(user) + ":" + Uri.Encode(password), UriHost(host), Itoa(port), "/",
                         params) + "#" + fragment)
            == Some(Access("hysteria2", [user, password], host, port, Collect(plain, 0, map[])))
            <==> HostReads(host, true)
  {
    PairLoginReads("hysteria2", user, password, host, true, port, "/", params, plain, fragment);
  }

  lemma Hy2Reads(user: string, password: string, host: string, port: int, obfs: string, sni: string,
                 fragment: string)
    ensures Read(Hy2Body(Uri.Encode(user), Uri.Encode(password), host, port, Uri.Encode(obfs), Uri.Encode(sni))
                 + "#" + fragment)
            == Some(Hy2Access(user, password, host, port, obfs, sni))
            <==> HostReads(host, true)
  {
    Hy2Denotes(obfs, sni);
    Hy2Collected(obfs, sni);
    Hy2UriReads(user, password, host, port, Hy2Params(Uri.Encode(obfs), Uri.Encode(sni)), Hy2Params(obfs, sni),
                fragment);
  }

  lemma NaiveDenotes(host: string)
    ensures Denotes(NaiveParams(Uri.Encode(host)), NaiveParams(host))
  {
    Fixed("security", "tls");
    SniDenotes(host, "uot", "false");
    var a: Params, b: Params := [("sni", Uri.Encode(host)), ("uot", "false")], [("sni", host), ("uot", "false")];
    var tls: Params := [("security", "tls")];
    DenotesConcat(tls, tls, a, b);
    assert NaiveParams(host) == tls + b && NaiveParams(Uri.Encode(host)) == tls + a;
  }

  function NaiveAccess(user: string, pass: string, host: string): Access {
    Access("naive", [user, pass], host, 443, map["security" := "tls", "sni" := host, "uot" := "false"])
  }

  lemma NaiveCollected(host: string)
    ensures Collect(NaiveParams(host), 0, map[]) == NaiveAccess("", "", host).settings
  {
    var two := map["security" := "tls", "sni" := host];
    CollectTwo(NaiveParams(host), 0, map[]);
    assert Collect(NaiveParams(host), 3, two["uot" := "false"]) == two["uot" := "false"];
  }

  lemma NaiveReads(user: string, pass: string, host: string, fragment: string)
    ensures Read(NaiveBody(Uri.Encode(user), Uri.Encode(pass), host, Uri.Encode(host)) + "#" + fragment)
            == Some(NaiveAccess(user, pass, host))
            <==> HostReads(host, false)
  {
    NaiveDenotes(host);
    NaiveCollected(host);
    Https();
    PairLoginReads("naive", user, pass, host, false, 443, "", NaiveParams(Uri.Encode(host)), NaiveParams(host),
                   fragment);
  }

  // ---- The Worker's lines --------------------------------------------------

  /** What a served route of a row says, field by field. */
  function RowAccess(w: Wire, spot: Spot): Access
    requires Serves(spot.row, spot.route)
  {
    var r := spot.row;
    var ip := if r.publicIp.Some? && r.publicIp.value != "" then r.publicIp else None;
    match spot.route
    case Reality =>
      RealityAccess(r.uuid, if ip.Some? then ip.value else r.vpnHost, r.realitySni.value, r.realityKey.value,
                    r.realitySid.value)
    case RealityV6 =>
      RealityAccess(r.uuid, r.ipv6.value, r.realitySni.value, r.realityKey.value, r.realitySid.value)
    case HTTPUpgrade =>
      UpgradeAccess(r.uuid, r.vpnHost, if r.xhttpPath.Some? then r.xhttpPath.value else w.defaultPath)
    case XHTTP => XHTTPAccess(r.uuid, r.vpnHost, w.xhttpPath, w.xhttpMode, "h2,http/1.1")
    case XHTTPDirect =>
      XHTTPAccess(r.uuid, r.directHost.value, r.directPath.value, w.streamOne, "h2,http/1.1")
    case XHTTPH3 => XHTTPAccess(r.uuid, r.h3Host.value, r.h3Path.value, w.streamOne, "h3")
    case HY2 =>
      Hy2Access(w.username, r.hy2Password, if ip.Some? then ip.value else r.hy2Host.value, r.hy2Port.value,
                r.hy2Obfs.value, r.hy2Host.value)
    case HY2V6 =>
      Hy2Access(w.username, r.hy2Password, r.ipv6.value, r.hy2Port.value, r.hy2Obfs.value, r.hy2Host.value)
    case Naive => NaiveAccess(r.naiveUser.value, r.naivePass.value, r.naiveHost.value)
  }

  /** What goes into a URI as it is reads back: the host, and the uuid of a VLESS route. */
  predicate Bare(a: Access, brackets: bool) {
    HostReads(a.host, brackets) && (|a.login| == 1 ==> BareLogin(a.login[0]))
  }

  /** The Reality and HY2 routes put brackets around an IPv6 literal, the others do not. */
  predicate BareSpot(w: Wire, spot: Spot)
    requires Serves(spot.row, spot.route)
  {
    Bare(RowAccess(w, spot), spot.route in {Reality, RealityV6, HY2, HY2V6})
  }

  /** A line of the list tells a client what its row says exactly when the host and the
      uuid, which go in as they are, read back. */
  lemma RowReads(w: Wire, spot: Spot)
    requires Serves(spot.row, spot.route)
    ensures Read(LineOf(w)(spot)) == Some(RowAccess(w, spot)) <==> BareSpot(w, spot)
  {
    match spot.route
    case Reality => RealityRow(w, spot);
    case RealityV6 => RealityRow(w, spot);
    case HTTPUpgrade => UpgradeRow(w, spot);
    case XHTTP => XHTTPRow(w, spot);
    case XHTTPDirect => XHTTPRow(w, spot);
    case XHTTPH3 => XHTTPRow(w, spot);
    case HY2 => Hy2Row(w, spot);
    case HY2V6 => Hy2Row(w, spot);
    case Naive => NaiveRow(w, spot);
  }

  lemma RealityRow(w: Wire, spot: Spot)
    requires Serves(spot.row, spot.route) && spot.route in {Reality, RealityV6}
    ensures Read(LineOf(w)(spot)) == Some(RowAccess(w, spot)) <==> BareSpot(w, spot)
  {
    var r := spot.row;
    assert RowAccess(w, spot)
        == RealityAccess(r.uuid, Dial(spot), r.realitySni.value, r.realityKey.value, r.realitySid.value);
    RealityReads(r.uuid, Dial(spot), r.realitySni.value, r.realityKey.value, r.realitySid.value,
                 Uri.Encode(r.nodeId) + Suffix(spot.route));
  }

  lemma Hy2Row(w: Wire, spot: Spot)
    requires Serves(spot.row, spot.route) && spot.route in {HY2, HY2V6}
    ensures Read(LineOf(w)(spot)) == Some(RowAccess(w, spot)) <==> BareSpot(w, spot)
  {
    var r := spot.row;
    assert RowAccess(w, spot)
        == Hy2Access(w.username, r.hy2Password, Dial(spot), Port(spot), r.hy2Obfs.value, r.hy2Host.value);
    Hy2Reads(w.username, r.hy2Password, Dial(spot), Port(spot), r.hy2Obfs.value, r.hy2Host.value,
             Uri.Encode(r.nodeId) + Suffix(spot.route));
  }

  lemma UpgradeRow(w: Wire, spot: Spot)
    requires Serves(spot.row, spot.route) && spot.route == HTTPUpgrade
    ensures Read(LineOf(w)(spot)) == Some(RowAccess(w, spot)) <==> BareSpot(w, spot)
  {
    PathIs(Path(w, spot.row));
    UpgradeReads(spot.row.uuid, Dial(spot), Path(w, spot.row), Uri.Encode(spot.row.nodeId) + Suffix(spot.route));
  }

  lemma NaiveRow(w: Wire, spot: Spot)
    requires Serves(spot.row, spot.route) && spot.route == Naive
    ensures Read(LineOf(w)(spot)) == Some(RowAccess(w, spot)) <==> BareSpot(w, spot)
  {
    var r := spot.row;
    NaiveReads(r.naiveUser.value, r.naivePass.value, Dial(spot), Uri.Encode(r.nodeId) + Suffix(spot.route));
  }

  lemma XHTTPRow(w: Wire, spot: Spot)
    requires Serves(spot.row, spot.route) && spot.route in {XHTTP, XHTTPDirect, XHTTPH3}
    ensures Read(LineOf(w)(spot)) == Some(RowAccess(w, spot)) <==> BareSpot(w, spot)
  {
    match spot.route
    case XHTTP => XHTTPSpotReads(spot, w.xhttpPath, w.xhttpMode, "h2,http/1.1");
    case XHTTPDirect => XHTTPSpotReads(spot, spot.row.directPath.value, w.streamOne, "h2,http/1.1");
    case XHTTPH3 => XHTTPSpotReads(spot, spot.row.h3Path.value, w.streamOne, "h3");
  }

  lemma XHTTPSpotReads(spot: Spot, path: string, mode: string, alpn: string)
    requires alpn in {"h2,http/1.1", "h3"}
    ensures Read(Line(XHTTPOf(spot, path, mode, if alpn == "h3" then "h3" else ALPN_H2), spot.row.nodeId, spot.route))
            == Some(XHTTPAccess(spot.row.uuid, Dial(spot), path, mode, alpn))
            <==> BareLogin(spot.row.uuid) && HostReads(Dial(spot), false)
  {
    H2Encoded();
    H3Encoded();
    PathIs(path);
    XHTTPReads(spot.row.uuid, Dial(spot), path, mode, alpn, Uri.Encode(spot.row.nodeId) + Suffix(spot.route));
  }

  /** The whole list, line by line. */
  lemma ListReads(w: Wire, rows: seq<Row>, naive: bool)
    ensures var spots := Spots(rows, Kept(naive)); var lines := Map(LineOf(w), spots);
            forall i :: 0 <= i < |spots| ==>
              && Serves(spots[i].row, spots[i].route)
              && (Read(lines[i]) == Some(RowAccess(w, spots[i])) <==> BareSpot(w, spots[i]))
  {
    var spots := Spots(rows, Kept(naive));
    SpotsServed(rows, Kept(naive));
    forall i | 0 <= i < |spots|
      ensures Serves(spots[i].row, spots[i].route)
      ensures Read(Map(LineOf(w), spots)[i]) == Some(RowAccess(w, spots[i])) <==> BareSpot(w, spots[i])
    {
      MapAt(LineOf(w), spots, i);
      RowReads(w, spots[i]);
    }
  }

  // ---- The node's lines ----------------------------------------------------

  /** PUBLIC_IP, or what stands in for it. */
  function IpOr(env: GoMirror.Env, other: string): string {
    if TrimSpace(env.publicIp) != "" then TrimSpace(env.publicIp) else other
  }

  /** The Reality lines: the public address, then the IPv6 one. */
  lemma RealityLinesSay(u: GoMirror.User, env: GoMirror.Env, i: nat)
    requires i < |GoMirror.RealityLines(u, env)|
    ensures var a := RealityAccess(u.uuid, if i == 0 || env.ipv6.None? then IpOr(env, u.domain) else env.ipv6.value,
                                   env.realitySni, env.realityPub, env.realitySid);
            Read(GoMirror.RealityLines(u, env)[i]) == Some(a) <==> Bare(a, true)
  {
    var host := if i == 0 then IpOr(env, u.domain) else env.ipv6.value;
    GoMirror.EncIs(env.realitySni);
    GoMirror.EncIs(env.realityPub);
    GoMirror.EncIs(env.realitySid);
    RealityReads(u.uuid, host, env.realitySni, env.realityPub, env.realitySid,
                GoMirror.Enc(GoMirror.Tag(u, env)) + ("-Reality" + GoMirror.Twin(i)));
  }

  lemma Hy2LinesSay(u: GoMirror.User, env: GoMirror.Env, i: nat)
    requires i < |GoMirror.Hy2Lines(u, env)|
    ensures env.hy2Port.Some?
    ensures var a := Hy2Access(u.name, u.hy2Password,
                               if i == 0 || env.ipv6.None? then IpOr(env, env.hy2Host) else env.ipv6.value,
                               env.hy2Port.value, env.hy2Obfs, env.hy2Host);
            Read(GoMirror.Hy2Lines(u, env)[i]) == Some(a) <==> Bare(a, true)
  {
    var host := if i == 0 then IpOr(env, env.hy2Host) else env.ipv6.value;
    GoMirror.EncIs(u.name);
    GoMirror.EncIs(u.hy2Password);
    GoMirror.EncIs(env.hy2Obfs);
    GoMirror.EncIs(env.hy2Host);
    Hy2Reads(u.name, u.hy2Password, host, env.hy2Port.value, env.hy2Obfs, env.hy2Host,
            GoMirror.Enc(GoMirror.Tag(u, env)) + ("-HY2" + GoMirror.Twin(i)));
  }

  lemma UpgradeLineSays(w: Wire, u: GoMirror.User, env: GoMirror.Env)
    ensures var a := UpgradeAccess(u.uuid, u.domain, if env.xhttpPath == "" then w.defaultPath else env.xhttpPath);
            Read(GoMirror.UpgradeLine(w, u, env)) == Some(a) <==> Bare(a, false)
  {
    GoMirror.EncIs(u.domain);
    UpgradeReads(u.uuid, u.domain, if env.xhttpPath == "" then w.defaultPath else env.xhttpPath,
                GoMirror.Enc(GoMirror.Tag(u, env)) + "-HTTPUpgrade");
  }

  lemma XHTTPLineSays(u: GoMirror.User, env: GoMirror.Env, host: string, path: string, mode: string, alpn: string,
                      suffix: string)
    requires alpn in {"h2,http/1.1", "h3"}
    ensures var a := XHTTPAccess(u.uuid, host, path, mode, alpn);
            var text := if alpn == "h3" then "h3" else ALPN_H2;
            Read(GoMirror.XHTTPLine(u, env, host, path, mode, text, suffix)) == Some(a) <==> Bare(a, false)
  {
    H2Encoded();
    H3Encoded();
    GoMirror.EncIs(host);
    GoMirror.EncIs(mode);
    XHTTPReads(u.uuid, host, path, mode, alpn, GoMirror.Enc(GoMirror.Tag(u, env)) + suffix);
  }

  /** The XHTTP lines of the node: through the tunnel, on a host of its own, over H3. */
  lemma XHTTPLinesSay(w: Wire, u: GoMirror.User, env: GoMirror.Env)
    ensures var lines := GoMirror.XHTTPLines(w, u, env);
            var a := XHTTPAccess(u.uuid, u.domain, w.xhttpPath, w.xhttpMode, "h2,http/1.1");
            if env.xhttpEnabled then |lines| == 1 && (Read(lines[0]) == Some(a) <==> Bare(a, false)) else lines == []
    ensures var lines := GoMirror.DirectLines(w, u, env);
            var host, path := TrimSpace(env.directHost), TrimSpace(env.directPath);
            var a := XHTTPAccess(u.uuid, host, path, w.streamOne, "h2,http/1.1");
            if host != "" && path != "" then |lines| == 1 && (Read(lines[0]) == Some(a) <==> Bare(a, false))
            else lines == []
    ensures var lines, host, path := GoMirror.H3Lines(w, u, env), TrimSpace(env.h3Host), TrimSpace(env.h3Path);
            var a := XHTTPAccess(u.uuid, host, path, w.streamOne, "h3");
            if host != "" && path != "" then |lines| == 1 && (Read(lines[0]) == Some(a) <==> Bare(a, false))
            else lines == []
  {
    XHTTPLineSays(u, env, u.domain, w.xhttpPath, w.xhttpMode, "h2,http/1.1", "-XHTTP");
    XHTTPLineSays(u, env, TrimSpace(env.directHost), TrimSpace(env.directPath), w.streamOne, "h2,http/1.1",
                  "-XHTTP-Direct");
    XHTTPLineSays(u, env, TrimSpace(env.h3Host), TrimSpace(env.h3Path), w.streamOne, "h3", "-XHTTP-H3");
  }
}
