/** A reader of block mappings (YAML 1.2.2, sections 7.3.1 and 8.2.2) for the rendered
    hysteria config: it finds a scalar by the keys that lead to it, and knows nothing of
    how the config is written. */
module HysteriaReader {
  import opened Text
  import opened Hysteria
  import HysteriaRoundTrip

  /** Index of the first line with this key at this indentation; the mapping ends at a
      line indented by less. The length when there is none. */
  function Find(lines: seq<string>, indent: nat, key: string): (i: nat)
    ensures i <= |lines|
  {
    if lines == [] || IndentWidth(lines[0]) < indent then |lines|
    else if Has(lines[0], indent, key) then 0
    else 1 + Find(lines[1..], indent, key)
  }

  predicate Has(line: string, indent: nat, key: string) {
    IndentWidth(line) == indent <= |line| && HasPrefix(line[indent..], key + ":")
  }

  /** The text of the scalar the keys lead to, each mapping two blanks deeper. */
  function Read(lines: seq<string>, indent: nat, path: seq<string>): Option<string>
    requires path != []
    decreases |path|
  {
    var i := Find(lines, indent, path[0]);
    if i == |lines| || !Has(lines[i], indent, path[0]) then None
    else if |path| == 1 then Some(TrimSpace(lines[i][indent + |path[0]| + 1..]))
    else Read(lines[i + 1..], indent + 2, path[1..])
  }

  /** The escape sequences of section 5.7 the config has use for. */
  const ESCAPES: map<char, char> := map['\\' := '\\', '\"' := '\"', 'n' := '\n', 'r' := '\r', 't' := '\t']

  /** What stands between the quotes of a double-quoted scalar. */
  function Content(t: string): Option<string> {
    if t == "" then Some("")
    else if t[0] in "\"\n\r" then None
    else if t[0] != '\\' then Prepend([t[0]], Content(t[1..]))
    else if |t| == 1 || t[1] !in ESCAPES then None
    else Prepend([ESCAPES[t[1]]], Content(t[2..]))
  }

  function Denoted(t: string): Option<string> {
    if |t| < 2 || t[0] != '\"' || t[|t| - 1] != '\"' then None else Content(t[1..|t| - 1])
  }

  function Scalar(lines: seq<string>, path: seq<string>): Option<string>
    requires path != []
  {
    match Read(lines, 0, path)
    case None => None
    case Some(t) => Denoted(t)
  }

  /** The number of a rate. */
  function Rate(lines: seq<string>, path: seq<string>): Option<int>
    requires path != []
  {
    match Read(lines, 0, path)
    case None => None
    case Some(t) => if HasSuffix(t, "mbps") then Integer(t[..|t| - 4]) else None
  }

  /** A pair of quoted scalars inside auth.userpass. */
  ghost predicate Pair(line: string, key: string, value: string) {
    exists k, v :: line == "    " + k + ": " + v && Denoted(k) == Some(key) && Denoted(v) == Some(value)
  }

  // ---- Finding -------------------------------------------------------------

  lemma {:induction false} FindAt(lines: seq<string>, indent: nat, key: string, i: nat)
    requires i < |lines| && Has(lines[i], indent, key)
    requires forall j :: 0 <= j < i ==> IndentWidth(lines[j]) >= indent && !Has(lines[j], indent, key)
    ensures Find(lines, indent, key) == i
  {
    if i == 0 {
    } else {
      FindAt(lines[1..], indent, key, i - 1);
    }
  }

  function Blanks(n: nat): string {
    if n == 0 then "" else " " + Blanks(n - 1)
  }

  lemma {:induction false} Indented(n: nat, t: string)
    requires t != "" && t[0] != ' '
    ensures IndentWidth(Blanks(n) + t) == n == |Blanks(n)| && (Blanks(n) + t)[n..] == t
  {
    if n == 0 {
      assert Blanks(0) + t == t;
    } else {
      Indented(n - 1, t);
      assert Blanks(n) + t == " " + (Blanks(n - 1) + t);
    }
  }

  function Field(n: nat, key: string, text: string): string {
    Blanks(n) + (key + ":" + text)
  }

  predicate PlainKey(key: string) {
    key != "" && key[0] != ' ' && ':' !in key
  }

  /** A field has exactly its own key at its own indentation. */
  lemma HasField(n: nat, k: string, text: string, indent: nat, key: string)
    requires PlainKey(k) && PlainKey(key)
    ensures IndentWidth(Field(n, k, text)) == n
    ensures Has(Field(n, k, text), indent, key) <==> n == indent && k == key
  {
    var t := k + ":" + text;
    Indented(n, t);
    if n == indent && HasPrefix(t, key + ":") {
      SamePrefix(k, text, key);
    }
    assert k == key ==> t[..|key| + 1] == key + ":";
  }

  lemma SamePrefix(k: string, text: string, key: string)
    requires PlainKey(k) && PlainKey(key) && HasPrefix(k + ":" + text, key + ":")
    ensures k == key
  {
    var t := k + ":" + text;
    SplitHead(k, text, ':');
    SplitHead(key, t[|key| + 1..], ':');
    assert t == key + [':'] + t[|key| + 1..];
    assert Split(t, ':')[0] == k;
  }

  lemma FieldRest(n: nat, key: string, text: string)
    requires PlainKey(key)
    ensures n + |key| + 1 <= |Field(n, key, text)| && Field(n, key, text)[n + |key| + 1..] == text
  {
    Indented(n, key + ":" + text);
    assert (key + ":" + text)[|key| + 1..] == text;
    assert Field(n, key, text)[n + |key| + 1..] == Field(n, key, text)[n..][|key| + 1..];
  }

  // ---- A block of fields ---------------------------------------------------

  /** Each key with its indentation. */
  type Keys = seq<(nat, string)>

  ghost predicate Block(lines: seq<string>, keys: Keys, texts: seq<string>) {
    && |texts| == |keys| <= |lines|
    && forall j :: 0 <= j < |keys| ==> PlainKey(keys[j].1) && lines[j] == Field(keys[j].0, keys[j].1, texts[j])
  }

  /** The key is the first of its name in the mapping that starts at line from. */
  ghost predicate First(keys: Keys, from: nat, i: nat) {
    && from <= i < |keys|
    && forall j :: from <= j < i ==> keys[j].0 >= keys[i].0 && keys[j] != keys[i]
  }

  lemma FieldFind(lines: seq<string>, keys: Keys, texts: seq<string>, from: nat, i: nat)
    requires Block(lines, keys, texts) && First(keys, from, i)
    ensures var (n, key) := keys[i];
            && Find(lines[from..], n, key) == i - from && Has(lines[i], n, key)
            && lines[i][n + |key| + 1..] == texts[i]
  {
    var (n, key) := keys[i];
    HasField(n, key, texts[i], n, key);
    FieldRest(n, key, texts[i]);
    forall j | from <= j < i ensures IndentWidth(lines[j]) >= n && !Has(lines[j], n, key) {
      HasField(keys[j].0, keys[j].1, texts[j], n, key);
    }
    FindAt(lines[from..], n, key, i - from);
  }

  /** Reading ends at the key of a scalar or goes on below the key of a mapping. */
  lemma ReadFound(lines: seq<string>, from: nat, i: nat, indent: nat, path: seq<string>, text: string)
    requires from <= i < |lines| && path != []
    requires Find(lines[from..], indent, path[0]) == i - from && Has(lines[i], indent, path[0])
    requires lines[i][indent + |path[0]| + 1..] == text
    ensures Read(lines[from..], indent, path)
         == if |path| == 1 then Some(TrimSpace(text)) else Read(lines[i + 1..], indent + 2, path[1..])
  {
    var tail := lines[from..];
    assert tail[i - from] == lines[i] && tail[i - from + 1..] == lines[i + 1..];
  }

  lemma ReadStep(lines: seq<string>, keys: Keys, texts: seq<string>, from: nat, i: nat, path: seq<string>)
    requires Block(lines, keys, texts) && First(keys, from, i) && path != [] && path[0] == keys[i].1
    ensures Read(lines[from..], keys[i].0, path)
         == if |path| == 1 then Some(TrimSpace(texts[i])) else Read(lines[i + 1..], keys[i].0 + 2, path[1..])
  {
    FieldFind(lines, keys, texts, from, i);
    ReadFound(lines, from, i, keys[i].0, path, texts[i]);
  }

  lemma ReadTwo(lines: seq<string>, keys: Keys, texts: seq<string>, from: nat, i: nat, k: nat)
    requires Block(lines, keys, texts) && First(keys, from, i) && First(keys, i + 1, k)
    requires keys[k].0 == keys[i].0 + 2
    ensures Read(lines[from..], keys[i].0, [keys[i].1, keys[k].1]) == Some(TrimSpace(texts[k]))
  {
    var path := [keys[i].1, keys[k].1];
    ReadStep(lines, keys, texts, from, i, path);
    assert path[1..] == [keys[k].1];
    ReadStep(lines, keys, texts, i + 1, k, [keys[k].1]);
  }

  lemma ReadThree(lines: seq<string>, keys: Keys, texts: seq<string>, from: nat, i: nat, k: nat, m: nat)
    requires Block(lines, keys, texts) && First(keys, from, i) && First(keys, i + 1, k) && First(keys, k + 1, m)
    requires keys[k].0 == keys[i].0 + 2 && keys[m].0 == keys[i].0 + 4
    ensures Read(lines[from..], keys[i].0, [keys[i].1, keys[k].1, keys[m].1]) == Some(TrimSpace(texts[m]))
  {
    var path := [keys[i].1, keys[k].1, keys[m].1];
    assert path[1..] == [keys[k].1, keys[m].1];
    ReadTwo(lines, keys, texts, i + 1, k, m);
    ReadStep(lines, keys, texts, from, i, path);
  }

  // ---- The rendered config -------------------------------------------------

  /** The keys of a config in the order of its lines, with their indentation. */
  const KEYS: Keys := [
    (0, "listen"), (0, "tls"), (2, "cert"), (2, "key"), (0, "obfs"), (2, "type"), (2, "salamander"), (4, "password"),
    (0, "bandwidth"), (2, "up"), (2, "down"), (0, "auth"), (2, "type"), (2, "userpass")]

  lemma KeysPlain()
    ensures forall j :: 0 <= j < |KEYS| ==> PlainKey(KEYS[j].1)
  {
  }

  /** What stands after each key. */
  function Texts(cfg: Config): seq<string> {
    [" " + Quoted(cfg.listen), "", " " + Quoted(cfg.tlsCert), " " + Quoted(cfg.tlsKey), "", " salamander", "",
     " " + Quoted(cfg.obfsPW), "", " " + (Itoa(cfg.upMbps) + "mbps"), " " + (Itoa(cfg.downMbps) + "mbps"), "",
     " userpass", ""]
  }

  lemma FieldText(n: nat, key: string, text: string)
    requires n in {0, 2, 4}
    ensures Field(n, key, "") == Indent(n) + key + ":"
    ensures Field(n, key, " " + text) == Indent(n) + key + ": " + text
  {
    IndentIs();
    Spaced(Blanks(n), key, text);
    assert key + ":" + "" == key + ":";
  }

  function Indent(n: nat): string {
    if n == 0 then "" else if n == 2 then "  " else "    "
  }

  lemma IndentIs()
    ensures forall n :: n in {0, 2, 4} ==> Blanks(n) == Indent(n)
  {
    assert Blanks(1) == " " && Blanks(2) == "  " && Blanks(3) == "   " && Blanks(4) == "    ";
  }

  lemma Spaced(blanks: string, key: string, text: string)
    ensures blanks + (key + ":" + (" " + text)) == blanks + key + ": " + text
  {
    assert ":" + (" " + text) == ": " + text;
    assert blanks + (key + ":" + (" " + text)) == (blanks + key) + (":" + (" " + text));
  }

  lemma SectionHeader(cfg: Config)
    ensures var l := TLSLines(cfg);
            && l[0] == Field(0, "listen", " " + Quoted(cfg.listen)) && l[1] == Field(0, "tls", "")
            && l[2] == Field(2, "cert", " " + Quoted(cfg.tlsCert)) && l[3] == Field(2, "key", " " + Quoted(cfg.tlsKey))
  {
    FieldText(0, "listen", Quoted(cfg.listen));
    FieldText(0, "tls", "");
    FieldText(2, "cert", Quoted(cfg.tlsCert));
    FieldText(2, "key", Quoted(cfg.tlsKey));
    assert "listen: " == "" + "listen" + ": " && "tls:" == "" + "tls" + ":";
    assert "  cert: " == "  " + "cert" + ": " && "  key: " == "  " + "key" + ": ";
  }

  lemma ObfsHeader(cfg: Config)
    ensures var l := ObfsLines(cfg);
            && l[0] == Field(0, "obfs", "") && l[1] == Field(2, "type", " salamander")
            && l[2] == Field(2, "salamander", "") && l[3] == Field(4, "password", " " + Quoted(cfg.obfsPW))
  {
    FieldText(0, "obfs", "");
    assert "obfs:" == "" + "obfs" + ":";
    ObfsFields();
    PasswordField(Quoted(cfg.obfsPW));
  }

  lemma ObfsFields()
    ensures Field(2, "type", " salamander") == "  type: salamander"
    ensures Field(2, "salamander", "") == "  salamander:"
  {
    FieldText(2, "type", "salamander");
    FieldText(2, "salamander", "");
    assert " salamander" == " " + "salamander";
  }

  lemma PasswordField(text: string)
    ensures Field(4, "password", " " + text) == "    password: " + text
  {
    FieldText(4, "password", text);
    assert "    password: " == "    " + "password" + ": ";
  }

  lemma RateHeader(cfg: Config)
    ensures var l := BandwidthLines(cfg);
            && l[0] == Field(0, "bandwidth", "")
            && l[1] == Field(2, "up", " " + (Itoa(cfg.upMbps) + "mbps"))
            && l[2] == Field(2, "down", " " + (Itoa(cfg.downMbps) + "mbps"))
  {
    FieldText(0, "bandwidth", "");
    RateField("up", Itoa(cfg.upMbps));
    RateField("down", Itoa(cfg.downMbps));
    assert "bandwidth:" == "" + "bandwidth" + ":";
    assert "  up: " == "  " + "up" + ": " && "  down: " == "  " + "down" + ": ";
  }

  lemma RateField(key: string, n: string)
    ensures Field(2, key, " " + (n + "mbps")) == "  " + key + ": " + n + "mbps"
  {
    FieldText(2, key, n + "mbps");
    Regroup("  " + key + ": ", n, "mbps");
  }

  lemma AuthHeader()
    ensures AUTH_LINES[0] == Field(0, "auth", "") && AUTH_LINES[1] == Field(2, "type", " userpass")
    ensures AUTH_LINES[2] == Field(2, "userpass", "")
  {
    FieldText(0, "auth", "");
    FieldText(2, "type", "userpass");
    FieldText(2, "userpass", "");
    assert "auth:" == "" + "auth" + ":" && " userpass" == " " + "userpass";
  }

  lemma HeaderIs(cfg: Config, rest: seq<string>)
    ensures Block(HeaderLines(cfg) + rest, KEYS, Texts(cfg))
  {
    KeysPlain();
    FirstFields(cfg, rest);
    LastFields(cfg, rest);
  }

  lemma FirstFields(cfg: Config, rest: seq<string>)
    ensures var lines := HeaderLines(cfg) + rest;
            forall j :: 0 <= j < 8 ==> lines[j] == Field(KEYS[j].0, KEYS[j].1, Texts(cfg)[j])
  {
    SectionHeader(cfg);
    ObfsHeader(cfg);
    var all := HeaderLines(cfg);
    assert all[0..4] == TLSLines(cfg) && all[4..8] == ObfsLines(cfg);
  }

  lemma LastFields(cfg: Config, rest: seq<string>)
    ensures var lines := HeaderLines(cfg) + rest;
            forall j :: 8 <= j < 14 ==> lines[j] == Field(KEYS[j].0, KEYS[j].1, Texts(cfg)[j])
  {
    RateHeader(cfg);
    AuthHeader();
    var all := HeaderLines(cfg);
    assert all[8..11] == BandwidthLines(cfg) && all[11..14] == AUTH_LINES;
  }

  lemma KeysFirst()
    ensures First(KEYS, 0, 0) && First(KEYS, 0, 1) && First(KEYS, 2, 2) && First(KEYS, 2, 3)
    ensures First(KEYS, 0, 4) && First(KEYS, 5, 5) && First(KEYS, 5, 6) && First(KEYS, 7, 7)
  {
  }

  lemma LaterKeysFirst()
    ensures First(KEYS, 0, 8) && First(KEYS, 9, 9) && First(KEYS, 9, 10)
    ensures First(KEYS, 0, 11) && First(KEYS, 12, 12) && First(KEYS, 12, 13)
  {
  }

  lemma {:induction false} ContentEscaped(s: string)
    ensures Content(EscapeAll(s)) == Some(s)
  {
    if s == "" {
    } else {
      ContentEscaped(s[1..]);
      var head, tail := Escape(s[0]), EscapeAll(s[1..]);
      assert (head + tail)[|head|..] == tail;
      assert s == [s[0]] + s[1..];
    }
  }

  lemma QuotedDenotes(s: string)
    ensures Denoted(Quoted(s)) == Some(s)
  {
    ContentEscaped(s);
    assert Quoted(s)[1..|Quoted(s)| - 1] == EscapeAll(s);
  }

  lemma QuotedReads(s: string)
    ensures Denoted(TrimSpace(" " + Quoted(s))) == Some(s)
  {
    HysteriaRoundTrip.TrimQuoted(s);
    QuotedDenotes(s);
  }

  lemma RateReads(n: int)
    ensures var t := TrimSpace(" " + (Itoa(n) + "mbps")); HasSuffix(t, "mbps") && Integer(t[..|t| - 4]) == Some(n)
  {
    var t := Itoa(n) + "mbps";
    NumberOfDigits(if n < 0 then -n else n);
    IntegerRead(n);
    assert t[|t| - 1] == 's' && t[0] == Itoa(n)[0] && t[..|t| - 4] == Itoa(n);
    TrimVisible(t);
    assert (" " + t)[1..] == t;
  }

  lemma PairWritten(line: string, u: User)
    requires line == EntryLine(u)
    ensures Pair(line, u.name, u.password)
  {
    QuotedDenotes(u.name);
    QuotedDenotes(u.password);
  }

  /** Every setting is found under its own keys. */
  ghost predicate Settings(cfg: Config, lines: seq<string>) {
    && Scalar(lines, ["listen"]) == Some(cfg.listen)
    && Scalar(lines, ["tls", "cert"]) == Some(cfg.tlsCert)
    && Scalar(lines, ["tls", "key"]) == Some(cfg.tlsKey)
    && Read(lines, 0, ["obfs", "type"]) == Some("salamander")
    && Scalar(lines, ["obfs", "salamander", "password"]) == Some(cfg.obfsPW)
    && Rate(lines, ["bandwidth", "up"]) == Some(cfg.upMbps)
    && Rate(lines, ["bandwidth", "down"]) == Some(cfg.downMbps)
    && Read(lines, 0, ["auth", "type"]) == Some("userpass")
    && Read(lines, 0, ["auth", "userpass"]) == Some("")
  }

  /** The lines from the given one on are the users' names and passwords. */
  ghost predicate Pairs(users: seq<User>, lines: seq<string>, from: nat) {
    && |lines| == from + |users|
    && forall i :: 0 <= i < |users| ==> Pair(lines[from + i], users[i].name, users[i].password)
  }

  /** A rendered config reads back as itself. */
  lemma ConfigReads(cfg: Config)
    ensures var lines := SplitLines(Terminated(HeaderLines(cfg) + EntryLines(SortByName(cfg.users))));
            Settings(cfg, lines) && Pairs(SortByName(cfg.users), lines, |KEYS|)
  {
    var entries := EntryLines(SortByName(cfg.users));
    HeaderIs(cfg, entries);
    RenderedSplit(cfg);
    SettingsRead(cfg, HeaderLines(cfg) + entries);
    PairsRead(HeaderLines(cfg), SortByName(cfg.users));
  }

  lemma SettingsRead(cfg: Config, lines: seq<string>)
    requires Block(lines, KEYS, Texts(cfg))
    ensures Settings(cfg, lines)
  {
    TopReads(cfg, lines);
    ObfsRead(cfg, lines);
    RatesRead(cfg, lines);
    AuthRead(cfg, lines);
  }

  lemma PairsRead(header: seq<string>, users: seq<User>)
    ensures Pairs(users, header + EntryLines(users), |header|)
  {
    var lines := header + EntryLines(users);
    forall i | 0 <= i < |users| ensures Pair(lines[|header| + i], users[i].name, users[i].password) {
      EntryAt(header, users, i);
      PairWritten(lines[|header| + i], users[i]);
    }
  }

  lemma EntryAt(header: seq<string>, users: seq<User>, i: nat)
    requires i < |users|
    ensures (header + EntryLines(users))[|header| + i] == EntryLine(users[i])
  {
    var entries := EntryLines(users);
    assert (header + entries)[|header| + i] == entries[i];
  }

  lemma RenderedSplit(cfg: Config)
    ensures var lines := HeaderLines(cfg) + EntryLines(SortByName(cfg.users)); SplitLines(Terminated(lines)) == lines
  {
    var header, sorted := HeaderLines(cfg), SortByName(cfg.users);
    HysteriaRoundTrip.HeaderBlock(cfg);
    HysteriaRoundTrip.HeaderClean(cfg);
    HysteriaRoundTrip.EntriesClean(sorted);
    HysteriaRoundTrip.FreeConcat(header, EntryLines(sorted), '\n');
    HysteriaRoundTrip.FreeConcat(header, EntryLines(sorted), '\r');
    HysteriaRoundTrip.AppendedLast(header, sorted);
    HysteriaRoundTrip.TerminatedRead(header + EntryLines(sorted));
  }

  lemma TopReads(cfg: Config, lines: seq<string>)
    requires Block(lines, KEYS, Texts(cfg))
    ensures Scalar(lines, ["listen"]) == Some(cfg.listen)
    ensures Scalar(lines, ["tls", "cert"]) == Some(cfg.tlsCert)
    ensures Scalar(lines, ["tls", "key"]) == Some(cfg.tlsKey)
  {
    assert lines[0..] == lines;
    KeysFirst();
    ReadStep(lines, KEYS, Texts(cfg), 0, 0, ["listen"]);
    ReadTwo(lines, KEYS, Texts(cfg), 0, 1, 2);
    ReadTwo(lines, KEYS, Texts(cfg), 0, 1, 3);
    QuotedReads(cfg.listen);
    QuotedReads(cfg.tlsCert);
    QuotedReads(cfg.tlsKey);
  }

  lemma ObfsRead(cfg: Config, lines: seq<string>)
    requires Block(lines, KEYS, Texts(cfg))
    ensures Read(lines, 0, ["obfs", "type"]) == Some("salamander")
    ensures Scalar(lines, ["obfs", "salamander", "password"]) == Some(cfg.obfsPW)
  {
    assert lines[0..] == lines;
    KeysFirst();
    ReadTwo(lines, KEYS, Texts(cfg), 0, 4, 5);
    ReadThree(lines, KEYS, Texts(cfg), 0, 4, 6, 7);
    QuotedReads(cfg.obfsPW);
    TrimOne("salamander");
  }

  lemma RatesRead(cfg: Config, lines: seq<string>)
    requires Block(lines, KEYS, Texts(cfg))
    ensures Rate(lines, ["bandwidth", "up"]) == Some(cfg.upMbps)
    ensures Rate(lines, ["bandwidth", "down"]) == Some(cfg.downMbps)
  {
    assert lines[0..] == lines;
    LaterKeysFirst();
    ReadTwo(lines, KEYS, Texts(cfg), 0, 8, 9);
    ReadTwo(lines, KEYS, Texts(cfg), 0, 8, 10);
    RateReads(cfg.upMbps);
    RateReads(cfg.downMbps);
  }

  lemma AuthRead(cfg: Config, lines: seq<string>)
    requires Block(lines, KEYS, Texts(cfg))
    ensures Read(lines, 0, ["auth", "type"]) == Some("userpass") && Read(lines, 0, ["auth", "userpass"]) == Some("")
  {
    assert lines[0..] == lines;
    LaterKeysFirst();
    ReadTwo(lines, KEYS, Texts(cfg), 0, 11, 12);
    ReadTwo(lines, KEYS, Texts(cfg), 0, 11, 13);
    TrimOne("userpass");
  }

  lemma TrimOne(t: string)
    requires t != "" && !IsSpace(t[0]) && !IsSpace(t[|t| - 1])
    ensures TrimSpace(" " + t) == t
  {
    TrimVisible(t);
    assert (" " + t)[1..] == t;
  }
}
