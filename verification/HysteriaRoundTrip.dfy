/** What the hysteria config editor promises: users written are the users read
    back, and everything outside the userpass block survives. */
module HysteriaRoundTrip {
  import opened Text
  import opened Hysteria

  /** Users an entry line can carry: the parser drops an empty name. */
  function Named(users: seq<User>): seq<User> {
    if users == [] then []
    else (if users[0].name == "" then [] else [users[0]]) + Named(users[1..])
  }

  lemma {:induction false} NamedMembers(users: seq<User>)
    ensures forall u :: u in Named(users) <==> u in users && u.name != ""
  {
    if users == [] {
    } else {
      NamedMembers(users[1..]);
      assert users == [users[0]] + users[1..];
    }
  }

  lemma {:induction false} NamedAll(users: seq<User>)
    ensures |Named(users)| <= |users|
    ensures Named(users) == users <==> forall u :: u in users ==> u.name != ""
  {
    if users == [] {
    } else {
      NamedAll(users[1..]);
      assert users == [users[0]] + users[1..];
      if users[0].name != "" {
        assert Named(users)[1..] == Named(users[1..]);
      }
    }
  }

  lemma {:induction false} NamedSorted(users: seq<User>)
    requires Sorted(users)
    ensures Sorted(Named(users))
  {
    if users == [] {
    } else {
      NamedSorted(users[1..]);
      NamedMembers(users[1..]);
    }
  }

  // ---- One entry -----------------------------------------------------------

  lemma OneSpace(t: string)
    ensures TrimLeft(" " + t) == TrimLeft(t) && IndentWidth(" " + t) == 1 + IndentWidth(t)
  {
    assert (" " + t)[1..] == t;
  }

  lemma TrimEntry(u: User)
    ensures TrimSpace(EntryLine(u)) == Quoted(u.name) + ": " + Quoted(u.password)
    ensures IndentWidth(EntryLine(u)) == 4
  {
    var t := Quoted(u.name) + ": " + Quoted(u.password);
    assert EntryLine(u) == " " + (" " + (" " + (" " + t)));
    OneSpace(t);
    OneSpace(" " + t);
    OneSpace(" " + (" " + t));
    OneSpace(" " + (" " + (" " + t)));
    assert t[0] == '\"' && t[|t| - 1] == '\"';
    TrimVisible(t);
  }

  lemma TrimQuoted(s: string)
    ensures TrimSpace(Quoted(s)) == Quoted(s) && TrimSpace(" " + Quoted(s)) == Quoted(s)
  {
    var q := Quoted(s);
    assert q[0] == '\"' && q[|q| - 1] == '\"';
    TrimVisible(q);
    assert (" " + q)[1..] == q;
  }

  /** A written entry reads back as its user, whatever the name and password hold. */
  lemma EntryRoundTrip(u: User)
    ensures ParseLine(EntryLine(u)) == if u.name == "" then None else Some(u)
  {
    TrimEntry(u);
    var name, pw := Quoted(u.name), Quoted(u.password);
    var t := name + ": " + pw;
    assert t == name + ":" + (" " + pw);
    ColonAfterQuoted(u.name, " " + pw);
    assert t[0] == '\"' && !HasPrefix(t, "#");
    assert t[..|name|] == name && t[|name| + 1..] == " " + pw;
    TrimQuoted(u.name);
    TrimQuoted(u.password);
    QuoteRoundTrip(u.name);
    QuoteRoundTrip(u.password);
  }

  lemma {:induction false} EntriesRoundTrip(users: seq<User>)
    ensures ParseBlock(EntryLines(users)) == Named(users)
  {
    if users == [] {
    } else {
      EntriesRoundTrip(users[1..]);
      EntryRoundTrip(users[0]);
      assert EntryLines(users)[1..] == EntryLines(users[1..]);
    }
  }

  // ---- Locating the block --------------------------------------------------

  lemma {:induction false} BlockStartStable(lines: seq<string>, other: seq<string>, i: nat, inAuth: bool)
    requires i <= |lines|
    requires var s := BlockStart(lines, i, inAuth);
             s.Some? && s.value <= |other| && other[..s.value] == lines[..s.value]
    ensures BlockStart(other, i, inAuth) == BlockStart(lines, i, inAuth)
    decreases |lines| - i
  {
    var s := BlockStart(lines, i, inAuth).value;
    assert other[i] == other[..s][i] == lines[..s][i] == lines[i];
    var trimmed := TrimSpace(lines[i]);
    if IndentWidth(lines[i]) == 0 && HasSuffix(trimmed, ":") {
      BlockStartStable(lines, other, i + 1, trimmed == "auth:");
    } else if inAuth && IndentWidth(lines[i]) == 2 && trimmed == "userpass:" {
    } else {
      BlockStartStable(lines, other, i + 1, inAuth);
    }
  }

  lemma {:induction false} BlockEndAt(lines: seq<string>, lo: nat, hi: nat)
    requires lo <= hi <= |lines|
    requires forall i :: lo <= i < hi ==> InBlock(lines[i])
    requires hi == |lines| || !InBlock(lines[hi])
    ensures BlockEnd(lines, lo) == hi
    decreases hi - lo
  {
    if lo >= hi {
    } else {
      BlockEndAt(lines, lo + 1, hi);
    }
  }

  lemma EntriesInBlock(users: seq<User>)
    ensures forall i :: 0 <= i < |users| ==> InBlock(EntryLines(users)[i])
  {
    forall i | 0 <= i < |users| ensures InBlock(EntryLines(users)[i]) {
      TrimEntry(users[i]);
    }
  }

  lemma BlockAround(pre: seq<string>, entries: seq<string>, tail: seq<string>)
    requires forall i :: 0 <= i < |entries| ==> InBlock(entries[i])
    requires tail == [] || !InBlock(tail[0])
    ensures BlockEnd(pre + entries + tail, |pre|) == |pre| + |entries|
    ensures (pre + entries + tail)[|pre|..|pre| + |entries|] == entries
  {
    var out := pre + entries + tail;
    assert forall i :: |pre| <= i < |pre| + |entries| ==> out[i] == entries[i - |pre|];
    BlockEndAt(out, |pre|, |pre| + |entries|);
  }

  /** Where a rewritten file keeps its block, and what it parses to. */
  lemma RewrittenBlock(lines: seq<string>, users: seq<User>, tail: seq<string>)
    requires BlockStart(lines, 0, false).Some?
    requires tail == [] || !InBlock(tail[0])
    ensures var s := BlockStart(lines, 0, false).value;
            var out := lines[..s] + EntryLines(users) + tail;
            && BlockStart(out, 0, false) == Some(s)
            && BlockEnd(out, s) == s + |users|
            && ParsedLines(out) == SortByName(Named(users))
  {
    var s := BlockStart(lines, 0, false).value;
    var entries := EntryLines(users);
    var out := lines[..s] + entries + tail;
    assert out[..s] == lines[..s];
    BlockStartStable(lines, out, 0, false);
    EntriesInBlock(users);
    BlockAround(lines[..s], entries, tail);
    EntriesRoundTrip(users);
  }

  // ---- Lines and text ------------------------------------------------------

  lemma {:induction false} DropCRsNone(lines: seq<string>)
    requires Free(lines, '\r')
    ensures DropCRs(lines) == lines
  {
    forall i | 0 <= i < |lines| ensures DropCR(lines[i]) == lines[i] {
      var l := lines[i];
      if l != "" {
        assert l[|l| - 1] in l;
        assert l[|l| - 1..] == [l[|l| - 1]];
      }
    }
  }

  lemma LinesClean(body: string)
    requires '\r' !in body
    ensures Free(SplitLines(body), '\r') && Free(SplitLines(body), '\n')
    ensures SplitLines(body) == StripLast(Split(TrimNewline(body), '\n'))
  {
    SplitFree(TrimNewline(body), '\n');
    var parts := StripLast(Split(TrimNewline(body), '\n'));
    assert Free(parts, '\n');
    forall i | 0 <= i < |parts| ensures '\r' !in parts[i] {
      assert parts[i] in Split(TrimNewline(body), '\n');
    }
    DropCRsNone(parts);
  }

  /** Both end in the same character. */
  predicate EndsAlike(a: string, b: string) {
    a != "" && b != "" && a[|a| - 1] == b[|b| - 1]
  }

  lemma {:induction false} JoinLast(lines: seq<string>, sep: string, last: string)
    requires lines != [] && lines[|lines| - 1] == last && last != ""
    ensures EndsAlike(Join(lines, sep), last)
  {
    if |lines| <= 1 {
    } else {
      JoinLast(lines[1..], sep, last);
      AppendEndsAlike(lines[0] + sep, Join(lines[1..], sep));
    }
  }

  lemma AppendEndsAlike(a: string, b: string)
    requires b != ""
    ensures EndsAlike(a + b, b)
  {
  }

  /** Lines written out with a final newline come back, minus one trailing empty line. */
  lemma WriteLinesRead(lines: seq<string>, ending: string)
    requires lines != [] && Free(lines, '\n') && Free(lines, '\r')
    requires ending == "\n" || (ending == "" && lines[|lines| - 1] != "")
    ensures SplitLines(Join(lines, "\n") + ending) == StripLast(lines)
  {
    var text := Join(lines, "\n");
    SplitJoin(lines, '\n');
    if ending == "" {
      var last := lines[|lines| - 1];
      JoinLast(lines, "\n", last);
      assert last[|last| - 1] in last;
      assert text + ending == text;
      assert !HasSuffix(text, "\n");
    }
    assert TrimNewline(text + ending) == text;
    DropCRsNone(StripLast(lines));
  }

  lemma EntriesClean(users: seq<User>)
    ensures Free(EntryLines(users), '\n') && Free(EntryLines(users), '\r')
  {
    forall i | 0 <= i < |users| ensures '\n' !in EntryLines(users)[i] && '\r' !in EntryLines(users)[i] {
      QuotedOneLine(users[i].name);
      QuotedOneLine(users[i].password);
    }
  }

  lemma RewrittenClean(body: string, users: seq<User>)
    requires '\r' !in body
    requires RewrittenLines(SplitLines(body), users).Some?
    ensures var out := RewrittenLines(SplitLines(body), users).value;
            && out != [] && Free(out, '\n') && Free(out, '\r')
            && (TrailingNewline(body) == "" ==> out[|out| - 1] != "")
  {
    LinesClean(body);
    var lines := SplitLines(body);
    var s := BlockStart(lines, 0, false).value;
    var entries, tail := EntryLines(SortByName(users)), lines[BlockEnd(lines, s)..];
    EntriesClean(SortByName(users));
    PiecesClean(lines[..s], entries, tail);
    StartLine(lines, 0, false);
    if TrailingNewline(body) == "" {
      LastLine(body);
    }
  }

  lemma PiecesClean(a: seq<string>, b: seq<string>, c: seq<string>)
    ensures forall sep :: Free(a, sep) && Free(b, sep) && Free(c, sep) ==> Free(a + b + c, sep)
  {
  }

  lemma LastLine(body: string)
    requires '\r' !in body && !HasSuffix(body, "\n") && SplitLines(body) != []
    ensures var l := SplitLines(body); l[|l| - 1] != ""
  {
    LinesClean(body);
    var parts := Split(body, '\n');
    JoinSplit(body, '\n');
    if parts[|parts| - 1] == "" && |parts| > 1 {
      JoinEmptyLast(parts);
    }
  }

  lemma {:induction false} JoinEmptyLast(parts: seq<string>)
    requires |parts| > 1 && parts[|parts| - 1] == ""
    ensures HasSuffix(Join(parts, "\n"), "\n")
  {
    if |parts| <= 2 {
    } else {
      JoinEmptyLast(parts[1..]);
    }
  }

  lemma {:induction false} StartLine(lines: seq<string>, i: nat, inAuth: bool)
    requires i <= |lines| && BlockStart(lines, i, inAuth).Some?
    ensures lines[BlockStart(lines, i, inAuth).value - 1] != ""
    decreases |lines| - i
  {
    var trimmed := TrimSpace(lines[i]);
    if IndentWidth(lines[i]) == 0 && HasSuffix(trimmed, ":") {
      StartLine(lines, i + 1, trimmed == "auth:");
    } else if !(inAuth && IndentWidth(lines[i]) == 2 && trimmed == "userpass:") {
      StartLine(lines, i + 1, inAuth);
    }
  }

  // ---- The promises --------------------------------------------------------

  /** Rewriting the block of any CR-free body: the lines before and after the block
      are kept in place (one trailing empty line may go), and the users read back
      are the users written, sorted, exactly when no name is empty. */
  lemma RewriteRoundTrip(body: string, users: seq<User>)
    requires '\r' !in body
    requires BlockStart(SplitLines(body), 0, false).Some?
    ensures var lines := SplitLines(body);
            var s := BlockStart(lines, 0, false).value;
            var written := RewrittenLines(lines, users).value;
            var out := Join(written, "\n") + TrailingNewline(body);
            && written == lines[..s] + EntryLines(SortByName(users)) + lines[BlockEnd(lines, s)..]
            && SplitLines(out) == StripLast(written)
            && ParsedUsers(out) == Named(SortByName(users))
            && (ParsedUsers(out) == SortByName(users) <==> forall u :: u in users ==> u.name != "")
  {
    var lines := SplitLines(body);
    var s := BlockStart(lines, 0, false).value;
    var sorted := SortByName(users);
    var tail := lines[BlockEnd(lines, s)..];
    var written := RewrittenLines(lines, users).value;
    RewrittenClean(body, users);
    StartLine(lines, 0, false);
    WriteLinesRead(written, TrailingNewline(body));
    var kept := StripTail(lines[..s] + EntryLines(sorted), tail, lines, s);
    RewrittenBlock(lines, sorted, kept);
    SortedNamed(users);
  }

  lemma SortedNamed(users: seq<User>)
    ensures SortByName(Named(SortByName(users))) == Named(SortByName(users))
    ensures Named(SortByName(users)) == SortByName(users) <==> forall u :: u in users ==> u.name != ""
  {
    var sorted := SortByName(users);
    SortByNameCorrect(users);
    NamedAll(sorted);
    NamedSorted(sorted);
    SortSorted(Named(sorted));
    forall u ensures u in users <==> u in sorted {
      assert u in multiset(users) <==> u in multiset(sorted);
    }
  }

  lemma StripTail(head: seq<string>, tail: seq<string>, lines: seq<string>, s: nat) returns (kept: seq<string>)
    requires s <= |lines| && tail == lines[BlockEnd(lines, s)..]
    requires head != [] && (tail == [] ==> head[|head| - 1] != "")
    ensures StripLast(head + tail) == head + kept
    ensures kept == StripLast(tail)
    ensures kept == [] || !InBlock(kept[0])
  {
    kept := StripLast(tail);
    if tail != [] {
      assert !InBlock(tail[0]);
    }
  }

  /** A second rewrite replaces exactly what the first one wrote. */
  lemma RewriteTwice(body: string, first: seq<User>, second: seq<User>)
    requires '\r' !in body
    requires BlockStart(SplitLines(body), 0, false).Some?
    ensures var lines := SplitLines(body);
            var s := BlockStart(lines, 0, false).value;
            var once := StripLast(RewrittenLines(lines, first).value);
            (RewrittenLines(once, second)
             == Some(lines[..s] + EntryLines(SortByName(second)) + StripLast(lines[BlockEnd(lines, s)..])))
  {
    var lines := SplitLines(body);
    var s := BlockStart(lines, 0, false).value;
    var tail := lines[BlockEnd(lines, s)..];
    var sorted := SortByName(first);
    StartLine(lines, 0, false);
    var kept := StripTail(lines[..s] + EntryLines(sorted), tail, lines, s);
    OnceRewritten(lines, sorted, kept);
  }

  lemma OnceRewritten(lines: seq<string>, sorted: seq<User>, kept: seq<string>)
    requires BlockStart(lines, 0, false).Some?
    requires kept == [] || !InBlock(kept[0])
    ensures var s := BlockStart(lines, 0, false).value;
            var once := lines[..s] + EntryLines(sorted) + kept;
            && BlockStart(once, 0, false) == Some(s)
            && once[..s] == lines[..s]
            && once[BlockEnd(once, s)..] == kept
  {
    RewrittenBlock(lines, sorted, kept);
  }

  // ---- Rendering a whole config --------------------------------------------

  lemma SkipIndented(lines: seq<string>, i: nat)
    requires i < |lines| && HasPrefix(lines[i], " ")
    ensures BlockStart(lines, i, false) == BlockStart(lines, i + 1, false)
  {
  }

  lemma OpenSection(lines: seq<string>, i: nat, name: string, inAuth: bool)
    requires i < |lines| && lines[i] == name + ":"
    requires name in {"tls", "obfs", "bandwidth", "auth"}
    ensures BlockStart(lines, i, inAuth) == BlockStart(lines, i + 1, name == "auth")
  {
    TrimVisible(lines[i]);
  }

  /** A section that is not auth leaves the scan where it was. */
  lemma {:induction false} SkipSection(lines: seq<string>, i: nat, n: nat)
    requires i + n <= |lines|
    requires forall k :: i <= k < i + n ==> HasPrefix(lines[k], " ")
    ensures BlockStart(lines, i, false) == BlockStart(lines, i + n, false)
    decreases n
  {
    if n == 0 {
    } else {
      SkipIndented(lines, i);
      SkipSection(lines, i + 1, n - 1);
    }
  }

  /** A named section and its indented lines, whatever was open before. */
  lemma SectionBlock(lines: seq<string>, i: nat, n: nat, name: string)
    requires i + 1 + n <= |lines| && lines[i] == name + ":" && name in {"tls", "obfs", "bandwidth"}
    requires forall k :: i + 1 <= k < i + 1 + n ==> HasPrefix(lines[k], " ")
    ensures BlockStart(lines, i, false) == BlockStart(lines, i + 1 + n, false)
  {
    OpenSection(lines, i, name, false);
    SkipSection(lines, i + 1, n);
  }

  lemma SectionsBlock(lines: seq<string>)
    requires |lines| == 14
    requires lines[1] == "tls:" && lines[4] == "obfs:" && lines[8] == "bandwidth:"
    requires forall i :: 2 <= i < 4 || 5 <= i < 8 || 9 <= i < 11 ==> HasPrefix(lines[i], " ")
    ensures BlockStart(lines, 1, false) == BlockStart(lines, 11, false)
  {
    SectionBlock(lines, 1, 2, "tls");
    SectionBlock(lines, 4, 3, "obfs");
    SectionBlock(lines, 8, 2, "bandwidth");
  }

  lemma AuthBlock(lines: seq<string>, i: nat)
    requires i + 3 == |lines| && lines[i] == "auth:"
    requires lines[i + 1] == "  type: userpass" && lines[i + 2] == "  userpass:"
    ensures BlockStart(lines, i, false) == Some(i + 3)
  {
    OpenSection(lines, i, "auth", false);
    TypeLine();
    assert BlockStart(lines, i + 2, true) == Some(i + 3);
  }

  lemma ListenLine(lines: seq<string>)
    requires lines != [] && lines[0] != "" && lines[0][0] == 'l' && lines[0][|lines[0]| - 1] == '\"'
    ensures BlockStart(lines, 0, false) == BlockStart(lines, 1, false)
  {
    TrimVisible(lines[0]);
  }

  lemma HeaderBlock(cfg: Config)
    ensures |HeaderLines(cfg)| == 14
    ensures BlockStart(HeaderLines(cfg), 0, false) == Some(14)
  {
    var lines := HeaderLines(cfg);
    assert lines[0] == TLSLines(cfg)[0];
    ListenLine(lines);
    SectionsBlock(lines);
    AuthBlock(lines, 11);
  }

  lemma TypeLine()
    ensures TrimSpace("  type: userpass") == "type: userpass" && IndentWidth("  type: userpass") == 2
    ensures TrimSpace("  userpass:") == "userpass:" && IndentWidth("  userpass:") == 2
  {
    Indented2("type: userpass");
    Indented2("userpass:");
  }

  lemma Indented2(t: string)
    requires t != "" && !IsSpace(t[0]) && !IsSpace(t[|t| - 1])
    ensures TrimSpace("  " + t) == t && IndentWidth("  " + t) == 2
  {
    assert "  " + t == " " + (" " + t);
    OneSpace(t);
    OneSpace(" " + t);
    TrimVisible(t);
  }

  lemma {:induction false} DigitsClean(n: nat)
    ensures '\n' !in Digits(n) && '\r' !in Digits(n)
  {
    if n < 10 {
    } else {
      DigitsClean(n / 10);
    }
  }

  predicate Clean(s: string) {
    '\n' !in s && '\r' !in s
  }

  lemma CleanScalar(key: string, s: string)
    requires Clean(key)
    ensures Clean(key + Quoted(s))
  {
    QuotedOneLine(s);
  }

  lemma CleanRate(key: string, n: int)
    requires Clean(key)
    ensures Clean(key + Itoa(n) + "mbps")
  {
    DigitsClean(if n < 0 then -n else n);
  }

  lemma TLSClean(cfg: Config)
    ensures Free(TLSLines(cfg), '\n') && Free(TLSLines(cfg), '\r')
  {
    CleanScalar("listen: ", cfg.listen);
    CleanScalar("  cert: ", cfg.tlsCert);
    CleanScalar("  key: ", cfg.tlsKey);
  }

  lemma BandwidthClean(cfg: Config)
    ensures Free(BandwidthLines(cfg), '\n') && Free(BandwidthLines(cfg), '\r')
  {
    CleanRate("  up: ", cfg.upMbps);
    CleanRate("  down: ", cfg.downMbps);
  }

  lemma FreeConcat(a: seq<string>, b: seq<string>, sep: char)
    requires Free(a, sep) && Free(b, sep)
    ensures Free(a + b, sep)
  {
  }

  lemma ObfsClean(cfg: Config)
    ensures Free(ObfsLines(cfg), '\n') && Free(ObfsLines(cfg), '\r')
  {
    CleanScalar("    password: ", cfg.obfsPW);
  }

  lemma FourFree(a: seq<string>, b: seq<string>, c: seq<string>, d: seq<string>, sep: char)
    requires Free(a, sep) && Free(b, sep) && Free(c, sep) && Free(d, sep)
    ensures Free(a + b + c + d, sep)
  {
    FreeConcat(a, b, sep);
    FreeConcat(a + b, c, sep);
    FreeConcat(a + b + c, d, sep);
  }

  lemma HeaderClean(cfg: Config)
    ensures Free(HeaderLines(cfg), '\n') && Free(HeaderLines(cfg), '\r')
  {
    TLSClean(cfg);
    ObfsClean(cfg);
    BandwidthClean(cfg);
    FourFree(TLSLines(cfg), ObfsLines(cfg), BandwidthLines(cfg), AUTH_LINES, '\n');
    FourFree(TLSLines(cfg), ObfsLines(cfg), BandwidthLines(cfg), AUTH_LINES, '\r');
  }

  lemma {:induction false} TerminatedJoin(lines: seq<string>)
    requires lines != []
    ensures Terminated(lines) == Join(lines, "\n") + "\n"
  {
    if |lines| <= 1 {
    } else {
      TerminatedJoin(lines[1..]);
    }
  }

  /** Parsing a rendered config gives back its users in name order, for any listen
      address, paths and passwords; exactly all of them when no name is empty. */
  lemma RenderRoundTrip(cfg: Config)
    ensures var body := Terminated(HeaderLines(cfg) + EntryLines(SortByName(cfg.users)));
            && ParsedUsers(body) == Named(SortByName(cfg.users))
            && (ParsedUsers(body) == SortByName(cfg.users) <==> forall u :: u in cfg.users ==> u.name != "")
  {
    var header, sorted := HeaderLines(cfg), SortByName(cfg.users);
    HeaderBlock(cfg);
    HeaderClean(cfg);
    EntriesClean(sorted);
    FreeConcat(header, EntryLines(sorted), '\n');
    FreeConcat(header, EntryLines(sorted), '\r');
    RenderedLines(header, sorted, header + EntryLines(sorted));
    SortedNamed(cfg.users);
  }

  lemma TerminatedRead(lines: seq<string>)
    requires lines != [] && Free(lines, '\n') && Free(lines, '\r') && lines[|lines| - 1] != ""
    ensures SplitLines(Terminated(lines)) == lines
  {
    TerminatedJoin(lines);
    WriteLinesRead(lines, "\n");
  }

  lemma AppendedBlock(header: seq<string>, users: seq<User>)
    requires BlockStart(header, 0, false) == Some(|header|)
    ensures ParsedLines(header + EntryLines(users)) == SortByName(Named(users))
  {
    var lines := header + EntryLines(users);
    assert lines[..|header|] == header;
    BlockStartStable(header, lines, 0, false);
    EntriesInBlock(users);
    BlockAround(header, EntryLines(users), []);
    assert header + EntryLines(users) + [] == lines;
    EntriesRoundTrip(users);
  }

  lemma AppendedLast(header: seq<string>, users: seq<User>)
    requires BlockStart(header, 0, false) == Some(|header|)
    ensures var lines := header + EntryLines(users); lines != [] && lines[|lines| - 1] != ""
  {
    StartLine(header, 0, false);
  }

  lemma RenderedLines(header: seq<string>, users: seq<User>, lines: seq<string>)
    requires BlockStart(header, 0, false) == Some(|header|)
    requires lines == header + EntryLines(users) && Free(lines, '\n') && Free(lines, '\r')
    ensures ParsedUsers(Terminated(lines)) == SortByName(Named(users))
  {
    AppendedLast(header, users);
    TerminatedRead(lines);
    AppendedBlock(header, users);
  }

  // ---- The order is the names' alone ---------------------------------------

  /** With distinct names every ordered permutation is the same list, so an unstable
      sort gives the same file. */
  lemma {:induction false} SortUnique(a: seq<User>, b: seq<User>)
    requires Sorted(a) && Sorted(b) && multiset(a) == multiset(b)
    requires forall i, j :: 0 <= i < j < |a| ==> a[i].name != a[j].name
    ensures a == b
  {
    assert |multiset(a)| == |a| && |multiset(b)| == |b|;
    if a == [] {
    } else {
      SameHead(a, b);
      TailMultiset(a);
      TailMultiset(b);
      SortUnique(a[1..], b[1..]);
      assert a == [a[0]] + a[1..] && b == [b[0]] + b[1..];
    }
  }

  lemma TailMultiset(a: seq<User>)
    requires a != []
    ensures multiset(a[1..]) == multiset(a) - multiset{a[0]}
  {
    assert a == [a[0]] + a[1..];
  }

  lemma SameHead(a: seq<User>, b: seq<User>)
    requires Sorted(a) && Sorted(b) && multiset(a) == multiset(b) && a != []
    requires forall i, j :: 0 <= i < j < |a| ==> a[i].name != a[j].name
    ensures b != [] && a[0] == b[0]
  {
    assert a[0] in multiset(b);
    assert b[0] in multiset(a);
    var i :| 0 <= i < |a| && a[i] == b[0];
    var j :| 0 <= j < |b| && b[j] == a[0];
    LessTrans(a[0].name, b[0].name, a[0].name);
    LessTrans(a[0].name, a[0].name, a[0].name);
  }
}
