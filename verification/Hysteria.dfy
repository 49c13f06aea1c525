/** The line-based editor of the hysteria YAML config (internal/hysteria/hysteria.go):
    rendering, parsing and rewriting the auth.userpass block. Each loop of the
    program is a method proved against a recursive specification; the round trips
    are lemmas about the specifications. */
module Hysteria {
  import opened Text

  datatype User = User(name: string, password: string)

  datatype Config = Config(listen: string, tlsCert: string, tlsKey: string, obfsPW: string,
                           upMbps: int, downMbps: int, users: seq<User>)

  // ---- Quoting -------------------------------------------------------------

  function Escape(c: char): string {
    match c
    case '\\' => "\\\\"
    case '\"' => "\\\""
    case '\n' => "\\n"
    case '\r' => "\\r"
    case '\t' => "\\t"
    case _ => [c]
  }

  function EscapeAll(s: string): string {
    if s == "" then "" else Escape(s[0]) + EscapeAll(s[1..])
  }

  function Quoted(s: string): string {
    "\"" + EscapeAll(s) + "\""
  }

  method YamlQuote(s: string) returns (quoted: string)
    ensures quoted == Quoted(s)
  {
    quoted := "\"";
    for i := 0 to |s|
      invariant quoted + EscapeAll(s[i..]) == "\"" + EscapeAll(s)
    {
      assert s[i..][1..] == s[i + 1..];
      Regroup(quoted, Escape(s[i]), EscapeAll(s[i + 1..]));
      quoted := quoted + Escape(s[i]);
    }
    assert s[|s|..] == "";
    quoted := quoted + "\"";
  }

  function Unescape(c: char): Option<char> {
    match c
    case '\\' => Some('\\')
    case '\"' => Some('\"')
    case 'n' => Some('\n')
    case 'r' => Some('\r')
    case 't' => Some('\t')
    case _ => None
  }

  function Prepend(s: string, rest: Option<string>): Option<string> {
    match rest
    case None => None
    case Some(t) => Some(s + t)
  }

  function UnescapeAll(s: string): Option<string> {
    if s == "" then Some("")
    else if s[0] != '\\' then Prepend([s[0]], UnescapeAll(s[1..]))
    else if |s| == 1 || Unescape(s[1]) == None then None
    else Prepend([Unescape(s[1]).value], UnescapeAll(s[2..]))
  }

  function Unquoted(s: string): Option<string> {
    if |s| < 2 || s[0] != '\"' || s[|s| - 1] != '\"' then None else UnescapeAll(s[1..|s| - 1])
  }

  lemma PrependPrepend(a: string, b: string, rest: Option<string>)
    ensures Prepend(a, Prepend(b, rest)) == Prepend(a + b, rest)
    ensures Prepend("", rest) == rest
  {
    if rest.Some? {
      assert a + (b + rest.value) == a + b + rest.value && "" + rest.value == rest.value;
    }
  }

  method YamlUnquote(s: string) returns (r: Option<string>)
    ensures r == Unquoted(s)
  {
    if |s| < 2 || s[0] != '\"' || s[|s| - 1] != '\"' {
      return None;
    }
    var b, i, last := "", 1, |s| - 1;
    PrependPrepend("", "", UnescapeAll(s[1..last]));
    while i < last
      invariant 1 <= i <= last
      invariant UnescapeAll(s[1..last]) == Prepend(b, UnescapeAll(s[i..last]))
    {
      var rest := s[i..last];
      if s[i] != '\\' {
        assert rest[1..] == s[i + 1..last];
        PrependPrepend(b, [s[i]], UnescapeAll(rest[1..]));
        b := b + [s[i]];
        i := i + 1;
        continue;
      }
      i := i + 1;
      if i >= last {
        return None;
      }
      assert rest[1] == s[i];
      assert rest[2..] == s[i + 1..last];
      var c := Unescape(s[i]);
      if c == None {
        return None;
      }
      PrependPrepend(b, [c.value], UnescapeAll(rest[2..]));
      b := b + [c.value];
      i := i + 1;
    }
    assert s[i..last] == "" && UnescapeAll("") == Some("") && b + "" == b;
    return Some(b);
  }

  lemma {:induction false} UnescapeEscape(s: string)
    ensures UnescapeAll(EscapeAll(s)) == Some(s)
  {
    if s == "" {
    } else {
      UnescapeEscape(s[1..]);
      var head, tail := Escape(s[0]), EscapeAll(s[1..]);
      assert (head + tail)[|head|..] == tail;
      assert s == [s[0]] + s[1..];
    }
  }

  /** yamlUnquote inverts yamlQuote on every string. */
  lemma QuoteRoundTrip(s: string)
    ensures Unquoted(Quoted(s)) == Some(s)
  {
    UnescapeEscape(s);
    var q := Quoted(s);
    assert q[1..|q| - 1] == EscapeAll(s);
  }

  /** A quoted scalar never spans lines. */
  lemma {:induction false} QuotedOneLine(s: string)
    ensures '\n' !in EscapeAll(s) && '\r' !in EscapeAll(s)
    ensures '\n' !in Quoted(s) && '\r' !in Quoted(s)
  {
    if s == "" {
    } else {
      QuotedOneLine(s[1..]);
      assert '\n' !in Escape(s[0]) && '\r' !in Escape(s[0]);
    }
  }

  // ---- Cutting an entry at its colon ---------------------------------------

  function Shift(n: nat, at: Option<nat>): Option<nat> {
    match at
    case None => None
    case Some(k) => Some(n + k)
  }

  /** Position of the first colon outside double quotes. */
  function ColonAt(s: string, inQuote: bool, escaped: bool): (at: Option<nat>)
    ensures at.Some? ==> at.value < |s| && s[at.value] == ':'
  {
    if s == "" then None
    else if escaped then Shift(1, ColonAt(s[1..], inQuote, false))
    else if inQuote && s[0] == '\\' then Shift(1, ColonAt(s[1..], inQuote, true))
    else if s[0] == '\"' then Shift(1, ColonAt(s[1..], !inQuote, false))
    else if !inQuote && s[0] == ':' then Some(0)
    else Shift(1, ColonAt(s[1..], inQuote, false))
  }

  method CutUserpassEntry(s: string) returns (name: string, password: string, ok: bool)
    ensures var at := ColonAt(s, false, false);
            if at == None then !ok && name == "" && password == ""
            else ok && name == s[..at.value] && password == s[at.value + 1..]
  {
    var inQuote, escaped := false, false;
    for i := 0 to |s|
      invariant ColonAt(s, false, false) == Shift(i, ColonAt(s[i..], inQuote, escaped))
    {
      assert s[i..][1..] == s[i + 1..];
      var c := s[i];
      if escaped {
        escaped := false;
      } else if inQuote && c == '\\' {
        escaped := true;
      } else if c == '\"' {
        inQuote := !inQuote;
      } else if !inQuote && c == ':' {
        return s[..i], s[i + 1..], true;
      }
    }
    return "", "", false;
  }

  lemma ColonPastEscape(c: char, more: string)
    ensures ColonAt(Escape(c) + more, true, false) == Shift(|Escape(c)|, ColonAt(more, true, false))
  {
    var whole := Escape(c) + more;
    if |Escape(c)| == 2 {
      assert whole[0] == '\\' && whole[1..][1..] == more;
    } else {
      assert whole[1..] == more && whole[0] != '\\' && whole[0] != '\"';
    }
  }

  lemma ShiftShift(m: nat, n: nat, at: Option<nat>)
    ensures Shift(m, Shift(n, at)) == Shift(m + n, at)
  {
  }

  lemma ColonPastBoth(c: char, rest: string, t: string, at: Option<nat>)
    requires ColonAt(rest + t, true, false) == Shift(|rest|, at)
    ensures ColonAt(Escape(c) + rest + t, true, false) == Shift(|Escape(c) + rest|, at)
  {
    ColonPastEscape(c, rest + t);
    Regroup(Escape(c), rest, t);
    ShiftShift(|Escape(c)|, |rest|, at);
  }

  lemma {:induction false} ColonPastEscapes(s: string, t: string, at: Option<nat>)
    requires at == ColonAt(t, true, false)
    ensures ColonAt(EscapeAll(s) + t, true, false) == Shift(|EscapeAll(s)|, at)
  {
    if s == "" {
      assert EscapeAll(s) + t == t;
    } else {
      var head, rest := Escape(s[0]), EscapeAll(s[1..]);
      ColonPastEscapes(s[1..], t, at);
      ColonPastBoth(s[0], rest, t, at);
      assert EscapeAll(s) == head + rest;
    }
  }

  lemma ColonAtQuote(rest: string)
    ensures ColonAt("\":" + rest, true, false) == Some(1)
  {
    var t := "\":" + rest;
    assert t[1..] == ":" + rest;
  }

  /** Colons and quotes inside the quoted name do not end it. */
  lemma ColonAfterQuoted(s: string, rest: string)
    ensures ColonAt(Quoted(s) + ":" + rest, false, false) == Some(|Quoted(s)|)
  {
    ColonAtQuote(rest);
    ColonPastEscapes(s, "\":" + rest, Some(1));
    var whole := Quoted(s) + ":" + rest;
    assert whole[1..] == EscapeAll(s) + ("\":" + rest);
  }

  // ---- Sorting by name -----------------------------------------------------

  /** Lexicographic order, the byte order of Go strings in UTF-8. */
  predicate Less(a: string, b: string) {
    b != "" && (a == "" || a[0] < b[0] || (a[0] == b[0] && Less(a[1..], b[1..])))
  }

  function Insert(u: User, users: seq<User>): seq<User> {
    if users == [] || Less(u.name, users[0].name) then [u] + users
    else [users[0]] + Insert(u, users[1..])
  }

  function SortByName(users: seq<User>): seq<User> {
    if users == [] then [] else Insert(users[|users| - 1], SortByName(users[..|users| - 1]))
  }

  ghost predicate Sorted(users: seq<User>) {
    forall i, j :: 0 <= i < j < |users| ==> !Less(users[j].name, users[i].name)
  }

  lemma {:induction false} LessTrans(a: string, b: string, c: string)
    ensures Less(a, b) && Less(b, c) ==> Less(a, c)
    ensures Less(a, b) ==> !Less(b, a)
    ensures !Less(a, b) && !Less(b, a) ==> a == b
  {
    if a == "" || b == "" {
    } else {
      if c != "" {
        LessTrans(a[1..], b[1..], c[1..]);
      } else {
        LessTrans(a[1..], b[1..], "");
      }
      assert a == [a[0]] + a[1..] && b == [b[0]] + b[1..];
    }
  }

  lemma {:induction false} InsertSorted(u: User, users: seq<User>)
    requires Sorted(users)
    ensures Sorted(Insert(u, users))
    ensures multiset(Insert(u, users)) == multiset(users) + multiset{u}
  {
    if users == [] {
    } else if Less(u.name, users[0].name) {
      forall j | 0 <= j < |users| ensures !Less(users[j].name, u.name) {
        LessTrans(users[j].name, u.name, users[0].name);
      }
    } else {
      InsertSorted(u, users[1..]);
      assert users == [users[0]] + users[1..];
      var r := Insert(u, users[1..]);
      forall j | 0 <= j < |r| ensures !Less(r[j].name, users[0].name) {
        assert r[j] in multiset(r);
        assert r[j] == u || r[j] in users[1..];
      }
    }
  }

  /** sort.Slice by name: an ordered permutation. */
  lemma {:induction false} SortByNameCorrect(users: seq<User>)
    ensures Sorted(SortByName(users)) && multiset(SortByName(users)) == multiset(users)
  {
    if users == [] {
    } else {
      SortByNameCorrect(users[..|users| - 1]);
      InsertSorted(users[|users| - 1], SortByName(users[..|users| - 1]));
      assert users == users[..|users| - 1] + [users[|users| - 1]];
    }
  }

  lemma {:induction false} InsertLast(u: User, users: seq<User>)
    requires forall i :: 0 <= i < |users| ==> !Less(u.name, users[i].name)
    ensures Insert(u, users) == users + [u]
  {
    if users == [] {
    } else {
      InsertLast(u, users[1..]);
      assert users == [users[0]] + users[1..];
    }
  }

  /** Sorting what is already in order changes nothing. */
  lemma {:induction false} SortSorted(users: seq<User>)
    requires Sorted(users)
    ensures SortByName(users) == users
  {
    if users == [] {
    } else {
      SortSorted(users[..|users| - 1]);
      InsertLast(users[|users| - 1], users[..|users| - 1]);
    }
  }

  // ---- Lines and the userpass block ----------------------------------------

  function TrimNewline(body: string): string {
    if HasSuffix(body, "\n") then body[..|body| - 1] else body
  }

  function DropCR(line: string): string {
    if HasSuffix(line, "\r") then line[..|line| - 1] else line
  }

  function DropCRs(lines: seq<string>): (r: seq<string>)
    ensures |r| == |lines| && forall i :: 0 <= i < |r| ==> r[i] == DropCR(lines[i])
  {
    if lines == [] then [] else [DropCR(lines[0])] + DropCRs(lines[1..])
  }

  /** A trailing empty line is not a token of the line scanner. */
  function StripLast(lines: seq<string>): seq<string> {
    if lines != [] && lines[|lines| - 1] == "" then lines[..|lines| - 1] else lines
  }

  function SplitLines(body: string): seq<string> {
    DropCRs(StripLast(Split(TrimNewline(body), '\n')))
  }

  function IndentWidth(s: string): nat {
    if s != "" && s[0] == ' ' then 1 + IndentWidth(s[1..]) else 0
  }

  /** First line of the userpass block, scanning lines[i..]. */
  function BlockStart(lines: seq<string>, i: nat, inAuth: bool): (start: Option<nat>)
    requires i <= |lines|
    ensures start.Some? ==> i < start.value <= |lines|
    decreases |lines| - i
  {
    if i == |lines| then None
    else
      var trimmed, indent := TrimSpace(lines[i]), IndentWidth(lines[i]);
      if indent == 0 && HasSuffix(trimmed, ":") then BlockStart(lines, i + 1, trimmed == "auth:")
      else if inAuth && indent == 2 && trimmed == "userpass:" then Some(i + 1)
      else BlockStart(lines, i + 1, inAuth)
  }

  predicate InBlock(line: string) {
    TrimSpace(line) == "" || IndentWidth(line) > 2
  }

  function BlockEnd(lines: seq<string>, end: nat): (r: nat)
    requires end <= |lines|
    ensures end <= r <= |lines|
    ensures r < |lines| ==> !InBlock(lines[r])
    decreases |lines| - end
  {
    if end < |lines| && InBlock(lines[end]) then BlockEnd(lines, end + 1) else end
  }

  method UserpassRange(lines: seq<string>) returns (start: int, end: int)
    ensures BlockStart(lines, 0, false) == None ==> start == end == -1
    ensures forall s: nat :: BlockStart(lines, 0, false) == Some(s) ==>
              s <= |lines| && start == s && end == BlockEnd(lines, s)
  {
    var inAuth := false;
    for i := 0 to |lines|
      invariant BlockStart(lines, 0, false) == BlockStart(lines, i, inAuth)
    {
      var trimmed, indent := TrimSpace(lines[i]), IndentWidth(lines[i]);
      if indent == 0 && HasSuffix(trimmed, ":") {
        inAuth := trimmed == "auth:";
      } else if inAuth && indent == 2 && trimmed == "userpass:" {
        start := i + 1;
        end := SkipBlock(lines, i + 1);
        return;
      }
    }
    return -1, -1;
  }

  /** The inner loop of userpassRange. */
  method SkipBlock(lines: seq<string>, start: nat) returns (end: nat)
    requires start <= |lines|
    ensures end == BlockEnd(lines, start)
  {
    end := start;
    while end < |lines|
      invariant start <= end <= |lines|
      invariant BlockEnd(lines, start) == BlockEnd(lines, end)
    {
      if TrimSpace(lines[end]) == "" {
        end := end + 1;
        continue;
      }
      if IndentWidth(lines[end]) <= 2 {
        break;
      }
      end := end + 1;
    }
  }

  // ---- Parsing -------------------------------------------------------------

  function UnquotedOr(s: string): string {
    match Unquoted(s)
    case None => s
    case Some(t) => t
  }

  function ParseLine(line: string): Option<User> {
    var trimmed := TrimSpace(line);
    if IndentWidth(line) != 4 || trimmed == "" || HasPrefix(trimmed, "#") then None
    else match ColonAt(trimmed, false, false)
      case None => None
      case Some(at) =>
        var name := UnquotedOr(TrimSpace(trimmed[..at]));
        if name == "" then None else Some(User(name, UnquotedOr(TrimSpace(trimmed[at + 1..]))))
  }

  function ParseBlock(lines: seq<string>): seq<User> {
    if lines == [] then []
    else match ParseLine(lines[0])
      case None => ParseBlock(lines[1..])
      case Some(u) => [u] + ParseBlock(lines[1..])
  }

  function OptSeq<T>(o: Option<T>): seq<T> {
    match o
    case None => []
    case Some(x) => [x]
  }

  function ParsedLines(lines: seq<string>): seq<User> {
    match BlockStart(lines, 0, false)
    case None => []
    case Some(start) => SortByName(ParseBlock(lines[start..BlockEnd(lines, start)]))
  }

  function ParsedUsers(body: string): seq<User> {
    ParsedLines(SplitLines(body))
  }

  method ParseUserpassLine(line: string) returns (entry: Option<User>)
    ensures entry == ParseLine(line)
  {
    if IndentWidth(line) != 4 {
      return None;
    }
    var trimmed := TrimSpace(line);
    if trimmed == "" || HasPrefix(trimmed, "#") {
      return None;
    }
    var name, pw, ok := CutUserpassEntry(trimmed);
    if !ok {
      return None;
    }
    name, pw := TrimSpace(name), TrimSpace(pw);
    var unquotedName := YamlUnquote(name);
    if unquotedName.Some? {
      name := unquotedName.value;
    }
    var unquotedPw := YamlUnquote(pw);
    if unquotedPw.Some? {
      pw := unquotedPw.value;
    }
    return if name == "" then None else Some(User(name, pw));
  }

  lemma BlockStep(lines: seq<string>, entry: Option<User>)
    requires lines != [] && entry == ParseLine(lines[0])
    ensures ParseBlock(lines) == OptSeq(entry) + ParseBlock(lines[1..])
  {
  }

  method ParseEntries(lines: seq<string>) returns (users: seq<User>)
    ensures users == ParseBlock(lines)
  {
    users := [];
    var rest := lines;
    while rest != []
      invariant users + ParseBlock(rest) == ParseBlock(lines)
    {
      var entry := ParseUserpassLine(rest[0]);
      BlockStep(rest, entry);
      users := users + OptSeq(entry);
      rest := rest[1..];
    }
  }

  method ParseUsers(body: string) returns (users: seq<User>)
    ensures users == ParsedUsers(body)
  {
    var lines := SplitLines(body);
    var start, end := UserpassRange(lines);
    if start < 0 {
      return [];
    }
    users := ParseEntries(lines[start..end]);
    users := SortByName(users);
  }

  // ---- Rewriting and rendering ---------------------------------------------

  function EntryLine(u: User): string {
    "    " + Quoted(u.name) + ": " + Quoted(u.password)
  }

  function EntryLines(users: seq<User>): (lines: seq<string>)
    ensures |lines| == |users| && forall i :: 0 <= i < |users| ==> lines[i] == EntryLine(users[i])
  {
    if users == [] then [] else [EntryLine(users[0])] + EntryLines(users[1..])
  }

  method RenderEntries(users: seq<User>) returns (lines: seq<string>)
    ensures lines == EntryLines(users)
  {
    lines := [];
    for i := 0 to |users|
      invariant |lines| == i && forall j :: 0 <= j < i ==> lines[j] == EntryLine(users[j])
    {
      var name := YamlQuote(users[i].name);
      var password := YamlQuote(users[i].password);
      lines := lines + ["    " + name + ": " + password];
    }
  }

  function TrailingNewline(body: string): string {
    if HasSuffix(body, "\n") then "\n" else ""
  }

  /** The lines of the rewritten body, when there is a userpass block. */
  function RewrittenLines(lines: seq<string>, users: seq<User>): Option<seq<string>> {
    match BlockStart(lines, 0, false)
    case None => None
    case Some(start) =>
      Some(lines[..start] + EntryLines(SortByName(users)) + lines[BlockEnd(lines, start)..])
  }

  method ReplaceUserpass(body: string, users: seq<User>) returns (out: string, ok: bool)
    ensures match RewrittenLines(SplitLines(body), users)
            case None => !ok && out == body
            case Some(lines) => ok && out == Join(lines, "\n") + TrailingNewline(body)
  {
    var lines := SplitLines(body);
    var start, end := UserpassRange(lines);
    if start < 0 {
      return body, false;
    }
    var repl := RenderEntries(SortByName(users));
    return Join(lines[..start] + repl + lines[end..], "\n") + TrailingNewline(body), true;
  }

  function TLSLines(cfg: Config): seq<string> {
    ["listen: " + Quoted(cfg.listen), "tls:", "  cert: " + Quoted(cfg.tlsCert), "  key: " + Quoted(cfg.tlsKey)]
  }

  function ObfsLines(cfg: Config): seq<string> {
    ["obfs:", "  type: salamander", "  salamander:", "    password: " + Quoted(cfg.obfsPW)]
  }

  function BandwidthLines(cfg: Config): seq<string> {
    ["bandwidth:", "  up: " + Itoa(cfg.upMbps) + "mbps", "  down: " + Itoa(cfg.downMbps) + "mbps"]
  }

  const AUTH_LINES := ["auth:", "  type: userpass", "  userpass:"]

  function HeaderLines(cfg: Config): seq<string> {
    TLSLines(cfg) + ObfsLines(cfg) + BandwidthLines(cfg) + AUTH_LINES
  }

  function Terminated(lines: seq<string>): string {
    if lines == [] then "" else lines[0] + "\n" + Terminated(lines[1..])
  }

  /** Render writes line by line; None is the missing-field error. */
  method Render(cfg: Config) returns (body: Option<string>)
    ensures body.None? <==> "" in {cfg.listen, cfg.tlsCert, cfg.tlsKey, cfg.obfsPW}
    ensures body.Some? ==> body.value == Terminated(HeaderLines(cfg) + EntryLines(SortByName(cfg.users)))
  {
    if cfg.listen == "" || cfg.tlsCert == "" || cfg.tlsKey == "" || cfg.obfsPW == "" {
      return None;
    }
    TerminatedConcat(HeaderLines(cfg), EntryLines(SortByName(cfg.users)));
    var users := RenderUsers(SortByName(cfg.users));
    return Some(Terminated(HeaderLines(cfg)) + users);
  }

  method RenderUsers(users: seq<User>) returns (b: string)
    ensures b == Terminated(EntryLines(users))
  {
    b := "";
    ghost var all := EntryLines(users);
    for i := 0 to |users|
      invariant b + Terminated(all[i..]) == Terminated(all)
    {
      var name := YamlQuote(users[i].name);
      var password := YamlQuote(users[i].password);
      assert all[i..][0] == EntryLine(users[i]) && all[i..][1..] == all[i + 1..];
      b := b + ("    " + name + ": " + password) + "\n";
    }
  }

  lemma {:induction false} TerminatedConcat(a: seq<string>, b: seq<string>)
    ensures Terminated(a + b) == Terminated(a) + Terminated(b)
  {
    if a == [] {
      assert a + b == b;
    } else {
      TerminatedConcat(a[1..], b);
      assert (a + b)[1..] == a[1..] + b;
    }
  }
}
