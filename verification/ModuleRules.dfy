/** The blocked-site list: parsing a Shadowrocket module (panel/worker/src/lib/cnrules.ts)
    and translating it to sing-box headless rules (singbox.ts). */
module ModuleRules {
  import opened Text

  /** The rule types a .conf accepts; anything else in a module is dropped. */
  datatype Kind = DomainSuffix | Domain | DomainKeyword | IpCidr | IpCidr6 | IpAsn | GeoIp | UserAgent | UrlRegex

  datatype Rule = Rule(kind: Kind, value: string, flags: seq<string>)

  function KindText(k: Kind): string {
    match k
    case DomainSuffix => "DOMAIN-SUFFIX"
    case Domain => "DOMAIN"
    case DomainKeyword => "DOMAIN-KEYWORD"
    case IpCidr => "IP-CIDR"
    case IpCidr6 => "IP-CIDR6"
    case IpAsn => "IP-ASN"
    case GeoIp => "GEOIP"
    case UserAgent => "USER-AGENT"
    case UrlRegex => "URL-REGEX"
  }

  function KindOf(s: string): (k: Option<Kind>)
    ensures k.Some? ==> KindText(k.value) == s
  {
    if s == "DOMAIN-SUFFIX" then Some(DomainSuffix)
    else if s == "DOMAIN" then Some(Domain)
    else if s == "DOMAIN-KEYWORD" then Some(DomainKeyword)
    else if s == "IP-CIDR" then Some(IpCidr)
    else if s == "IP-CIDR6" then Some(IpCidr6)
    else if s == "IP-ASN" then Some(IpAsn)
    else if s == "GEOIP" then Some(GeoIp)
    else if s == "USER-AGENT" then Some(UserAgent)
    else if s == "URL-REGEX" then Some(UrlRegex)
    else None
  }

  lemma KindReads(k: Kind)
    ensures KindOf(KindText(k)) == Some(k)
  {
  }

  // ---- One line ------------------------------------------------------------

  function LowerChar(c: char): char {
    if 'A' <= c <= 'Z' then (c as int + 32) as char else c
  }

  function Lower(s: string): string {
    if s == "" then "" else [LowerChar(s[0])] + Lower(s[1..])
  }

  predicate NoResolve(flag: string) {
    Lower(flag) == "no-resolve"
  }

  function Flags(parts: seq<string>): (flags: seq<string>)
    ensures forall f :: f in flags ==> f in parts && NoResolve(f)
  {
    if parts == [] then []
    else (if NoResolve(parts[0]) then [parts[0]] else []) + Flags(parts[1..])
  }

  lemma {:induction false} LowerIs(s: string)
    ensures |Lower(s)| == |s| && forall i :: 0 <= i < |s| ==> Lower(s)[i] == LowerChar(s[i])
  {
    if s == "" {
    } else {
      LowerIs(s[1..]);
    }
  }

  /** The one flag that is kept, in whatever case it is written. */
  lemma NoResolveIs(flag: string)
    ensures NoResolve(flag)
            <==> |flag| == 10 && forall i :: 0 <= i < 10 ==> flag[i] == "no-resolve"[i] || flag[i] == "NO-RESOLVE"[i]
  {
    LowerIs(flag);
    if |flag| == 10 {
      forall i | 0 <= i < 10
        ensures LowerChar(flag[i]) == "no-resolve"[i] <==> flag[i] == "no-resolve"[i] || flag[i] == "NO-RESOLVE"[i]
      {
        LetterIs(flag[i], "no-resolve"[i], "NO-RESOLVE"[i]);
      }
    }
  }

  lemma LetterIs(c: char, low: char, high: char)
    requires (low == '-' == high) || ('a' <= low <= 'z' && high as int == low as int - 32)
    ensures LowerChar(c) == low <==> c == low || c == high
  {
  }

  /** The rule types by the names the lists use. */
  lemma KindTable(s: string)
    ensures KindOf(s) == Some(DomainSuffix) <==> s == "DOMAIN-SUFFIX"
    ensures KindOf(s) == Some(Domain) <==> s == "DOMAIN"
    ensures KindOf(s) == Some(DomainKeyword) <==> s == "DOMAIN-KEYWORD"
    ensures (KindOf(s) == Some(IpCidr) <==> s == "IP-CIDR") && (KindOf(s) == Some(IpCidr6) <==> s == "IP-CIDR6")
    ensures (KindOf(s) == Some(IpAsn) <==> s == "IP-ASN") && (KindOf(s) == Some(GeoIp) <==> s == "GEOIP")
    ensures KindOf(s) == Some(UserAgent) <==> s == "USER-AGENT"
    ensures KindOf(s) == Some(UrlRegex) <==> s == "URL-REGEX"
  {
  }

  function TrimAll(parts: seq<string>): (r: seq<string>)
    ensures |r| == |parts| && forall i :: 0 <= i < |r| ==> r[i] == TrimSpace(parts[i])
  {
    if parts == [] then [] else [TrimSpace(parts[0])] + TrimAll(parts[1..])
  }

  function FromParts(parts: seq<string>): Option<Rule>
    requires parts != []
  {
    var kind := KindOf(Upper(parts[0]));
    if kind.None? || |parts| < 2 || parts[1] == "" then None
    else Some(Rule(kind.value, parts[1], Flags(if |parts| < 3 then [] else parts[3..])))
  }

  /** Blank lines, comments and section headers. */
  predicate Skipped(line: string) {
    line == "" || line[0] == '#' || line[0] == '[' || line[0] == ';'
  }

  /** The rule of a line; comments, section headers and unknown types have none. The
      trim also takes the carriage return of a CRLF ending. */
  function FromLine(raw: string): Option<Rule> {
    var line := TrimSpace(raw);
    if Skipped(line) then None
    else FromParts(TrimAll(Split(line, ',')))
  }

  /** Which lines are rules, and of which site. */
  lemma LineIs(raw: string)
    ensures var line := TrimSpace(raw);
            var fields := Split(line, ',');
            && (FromLine(raw).Some?
                <==> && line != "" && line[0] != '#' && line[0] != '[' && line[0] != ';'
                     && |fields| > 1 && KindOf(Upper(TrimSpace(fields[0]))).Some? && TrimSpace(fields[1]) != "")
            && (FromLine(raw).Some? ==>
                  && Some(FromLine(raw).value.kind) == KindOf(Upper(TrimSpace(fields[0])))
                  && FromLine(raw).value.value == TrimSpace(fields[1]))
  {
  }

  function Parts(rule: Rule): seq<string> {
    [KindText(rule.kind), rule.value, "PROXY"] + rule.flags
  }

  function Show(rule: Rule): string {
    Join(Parts(rule), ",")
  }

  // ---- The whole list ------------------------------------------------------

  /** What a line parser finds, line by line. */
  function Collect<T>(f: string -> Option<T>, lines: seq<string>): seq<T> {
    if lines == [] then []
    else Collect(f, lines[..|lines| - 1]) + match f(lines[|lines| - 1]) case None => [] case Some(x) => [x]
  }

  lemma CollectNext<T>(f: string -> Option<T>, lines: seq<string>, i: nat)
    requires i < |lines|
    ensures Collect(f, lines[..i + 1]) == Collect(f, lines[..i]) + match f(lines[i]) case None => [] case Some(x) => [x]
  {
    assert lines[..i + 1][..i] == lines[..i];
  }

  lemma {:induction false} CollectFrom<T>(f: string -> Option<T>, lines: seq<string>, x: T)
    requires x in Collect(f, lines)
    ensures exists i :: 0 <= i < |lines| && f(lines[i]) == Some(x)
  {
    if x in Collect(f, lines[..|lines| - 1]) {
      CollectFrom(f, lines[..|lines| - 1], x);
      var i :| 0 <= i < |lines| - 1 && f(lines[..|lines| - 1][i]) == Some(x);
      assert f(lines[i]) == Some(x);
    } else {
      assert f(lines[|lines| - 1]) == Some(x);
    }
  }

  lemma {:induction false} CollectAll<T>(f: string -> Option<T>, lines: seq<string>, xs: seq<T>)
    requires |lines| == |xs| && forall i :: 0 <= i < |lines| ==> f(lines[i]) == Some(xs[i])
    ensures Collect(f, lines) == xs
  {
    if lines == [] {
    } else {
      CollectAll(f, lines[..|lines| - 1], xs[..|xs| - 1]);
      assert xs == xs[..|xs| - 1] + [xs[|xs| - 1]];
    }
  }

  function FromLines(lines: seq<string>): seq<Rule> {
    Collect(FromLine, lines)
  }

  predicate SameSite(a: Rule, b: Rule) {
    a.kind == b.kind && a.value == b.value
  }

  /** The list has a rule for the same site. */
  predicate Mentions(rules: seq<Rule>, rule: Rule) {
    exists r :: r in rules && SameSite(r, rule)
  }

  /** Each site's first rule, in order. */
  function FirstOnly(rules: seq<Rule>): seq<Rule> {
    if rules == [] then []
    else
      var before, last := FirstOnly(rules[..|rules| - 1]), rules[|rules| - 1];
      if Mentions(before, last) then before else before + [last]
  }

  function ShowAll(rules: seq<Rule>): (lines: seq<string>)
    ensures |lines| == |rules| && forall i :: 0 <= i < |rules| ==> lines[i] == Show(rules[i])
  {
    if rules == [] then [] else ShowAll(rules[..|rules| - 1]) + [Show(rules[|rules| - 1])]
  }

  function Parsed(text: string): seq<Rule> {
    FirstOnly(FromLines(Split(text, '\n')))
  }

  /** The key a rule is remembered under. */
  function Key(rule: Rule): string {
    KindText(rule.kind) + "," + rule.value
  }

  predicate UpperPlain(s: string) {
    forall i :: 0 <= i < |s| ==> 'A' <= s[i] <= 'Z' || s[i] == '-' || s[i] == '6'
  }

  lemma KindShape(k: Kind)
    ensures KindText(k) != "" && UpperPlain(KindText(k))
  {
  }

  lemma {:induction false} NoLower(s: string)
    requires UpperPlain(s)
    ensures Upper(s) == s
  {
    if s == "" {
    } else {
      NoLower(s[1..]);
    }
  }

  lemma UpperPlainShape(s: string)
    requires s != "" && UpperPlain(s)
    ensures ',' !in s && '\n' !in s && Upper(s) == s && Visible(s) && s[0] !in {'#', '[', ';'}
  {
    NoLower(s);
  }

  lemma KindPlain(k: Kind)
    ensures var s := KindText(k);
            && ',' !in s && '\n' !in s && Upper(s) == s && Visible(s) && s[0] !in {'#', '[', ';'}
  {
    KindShape(k);
    UpperPlainShape(KindText(k));
  }

  lemma KeyInjective(a: Rule, b: Rule)
    ensures Key(a) == Key(b) <==> SameSite(a, b)
  {
    var x, y := KindText(a.kind), KindText(b.kind);
    KindPlain(a.kind);
    KindPlain(b.kind);
    if Key(a) == Key(b) {
      SplitHead(x, a.value, ',');
      SplitHead(y, b.value, ',');
      assert Key(a) == x + [','] + a.value && Key(b) == y + [','] + b.value;
      assert x == Split(Key(a), ',')[0] == y;
      assert Key(a)[|x| + 1..] == a.value && Key(b)[|x| + 1..] == b.value;
      KindReads(a.kind);
      KindReads(b.kind);
    }
  }

  ghost predicate Remembers(seen: set<string>, rules: seq<Rule>) {
    && (forall r :: r in rules ==> Key(r) in seen)
    && (forall k :: k in seen ==> exists r :: r in rules && Key(r) == k)
  }

  lemma SeenSite(seen: set<string>, rules: seq<Rule>, rule: Rule)
    requires Remembers(seen, rules)
    ensures Key(rule) in seen <==> Mentions(rules, rule)
  {
    forall r | r in rules ensures Key(r) == Key(rule) <==> SameSite(r, rule) {
      KeyInjective(r, rule);
    }
  }

  lemma FirstOnlyLast(rules: seq<Rule>, rule: Rule)
    ensures FirstOnly(rules + [rule])
            == if Mentions(FirstOnly(rules), rule) then FirstOnly(rules) else FirstOnly(rules) + [rule]
  {
    assert (rules + [rule])[..|rules|] == rules;
  }

  lemma ShowAllLast(rules: seq<Rule>, rule: Rule)
    ensures ShowAll(rules + [rule]) == ShowAll(rules) + [Show(rule)]
  {
    assert (rules + [rule])[..|rules|] == rules;
  }

  /** What one more rule does to the rules kept so far. */
  lemma RuleKept(before: seq<Rule>, rule: Rule, seen: set<string>, kept: seq<Rule>)
    requires kept == FirstOnly(before) && Remembers(seen, kept)
    ensures var next := FirstOnly(before + [rule]);
            if Key(rule) in seen then next == kept
            else && next == kept + [rule] && Remembers(seen + {Key(rule)}, next)
                 && ShowAll(next) == ShowAll(kept) + [Show(rule)]
  {
    SeenSite(seen, kept, rule);
    FirstOnlyLast(before, rule);
    if Key(rule) !in seen {
      RememberMore(seen, kept, rule);
      ShowAllLast(kept, rule);
    }
  }

  /** parseModuleRules. */
  method ParseModuleRules(text: string) returns (out: seq<string>)
    ensures out == ShowAll(Parsed(text))
  {
    out := [];
    var seen: set<string> := {};
    var lines := Split(text, '\n');
    ghost var rules: seq<Rule> := [];
    for i := 0 to |lines|
      invariant rules == FromLines(lines[..i])
      invariant out == ShowAll(FirstOnly(rules)) && Remembers(seen, FirstOnly(rules))
    {
      CollectNext(FromLine, lines, i);
      var parsed := FromLine(lines[i]);
      if parsed.Some? {
        out, seen := AddRule(rules, parsed.value, seen, out);
        rules := rules + [parsed.value];
      }
    }
    assert lines[..|lines|] == lines;
  }

  /** The end of the loop body: a rule is printed unless its key has been seen. */
  method AddRule(ghost rules: seq<Rule>, rule: Rule, seen: set<string>, out: seq<string>)
    returns (more: seq<string>, remembered: set<string>)
    requires out == ShowAll(FirstOnly(rules)) && Remembers(seen, FirstOnly(rules))
    ensures more == ShowAll(FirstOnly(rules + [rule])) && Remembers(remembered, FirstOnly(rules + [rule]))
  {
    RuleKept(rules, rule, seen, FirstOnly(rules));
    if Key(rule) in seen {
      return out, seen;
    }
    return out + [Show(rule)], seen + {Key(rule)};
  }

  lemma RememberMore(seen: set<string>, rules: seq<Rule>, rule: Rule)
    requires Remembers(seen, rules)
    ensures Remembers(seen + {Key(rule)}, rules + [rule])
  {
    assert (rules + [rule])[|rules|] == rule;
    forall r | r in rules ensures r in rules + [rule] {
    }
  }

  // ---- First occurrences ---------------------------------------------------

  ghost predicate IsFirst(rules: seq<Rule>, i: nat) {
    i < |rules| && forall j :: 0 <= j < i ==> !SameSite(rules[j], rules[i])
  }

  /** Positions in increasing order: an ordered selection. */
  predicate Rising(at: seq<nat>) {
    forall i, j :: 0 <= i < j < |at| ==> at[i] < at[j]
  }

  /** The positions FirstOnly keeps. */
  function Firsts(rules: seq<Rule>): seq<nat> {
    if rules == [] then []
    else
      var before := Firsts(rules[..|rules| - 1]);
      if Mentions(FirstOnly(rules[..|rules| - 1]), rules[|rules| - 1]) then before else before + [|rules| - 1]
  }

  lemma {:induction false} FirstOnlySites(rules: seq<Rule>, rule: Rule)
    ensures Mentions(FirstOnly(rules), rule) <==> Mentions(rules, rule)
  {
    if rules == [] {
    } else {
      var before, last := rules[..|rules| - 1], rules[|rules| - 1];
      FirstOnlySites(before, rule);
      FirstOnlySites(before, last);
      MentionsAppend(before, last, rule);
      MentionsAppend(FirstOnly(before), last, rule);
      assert before + [last] == rules;
      if Mentions(FirstOnly(before), last) && SameSite(last, rule) {
        var r :| r in FirstOnly(before) && SameSite(r, last);
        assert SameSite(r, rule);
      }
    }
  }

  lemma MentionsAppend(rules: seq<Rule>, last: Rule, rule: Rule)
    ensures Mentions(rules + [last], rule) <==> Mentions(rules, rule) || SameSite(last, rule)
  {
    assert (rules + [last])[|rules|] == last;
    if Mentions(rules, rule) {
      var r :| r in rules && SameSite(r, rule);
      assert r in rules + [last];
    }
  }

  lemma {:induction false} FirstOnlyIn(rules: seq<Rule>)
    ensures forall r :: r in FirstOnly(rules) ==> r in rules
  {
    if rules == [] {
    } else {
      FirstOnlyIn(rules[..|rules| - 1]);
    }
  }

  lemma IsFirstPrefix(rules: seq<Rule>, i: nat)
    requires i < |rules| - 1
    ensures IsFirst(rules, i) <==> IsFirst(rules[..|rules| - 1], i)
  {
    var before := rules[..|rules| - 1];
    assert forall j :: 0 <= j <= i ==> before[j] == rules[j];
  }

  lemma LastIsFirst(rules: seq<Rule>)
    requires rules != []
    ensures IsFirst(rules, |rules| - 1) <==> !Mentions(FirstOnly(rules[..|rules| - 1]), rules[|rules| - 1])
  {
    var before, last := rules[..|rules| - 1], rules[|rules| - 1];
    FirstOnlySites(before, last);
    if Mentions(before, last) {
      var j :| 0 <= j < |before| && SameSite(before[j], last);
      assert SameSite(rules[j], last);
    } else {
      forall j | 0 <= j < |before| ensures !SameSite(rules[j], last) {
        assert before[j] in before && before[j] == rules[j];
      }
    }
  }

  /** The kept positions are the first occurrences, in the order of the text. */
  lemma {:induction false} FirstsAre(rules: seq<Rule>)
    ensures var at := Firsts(rules);
            && Rising(at)
            && (forall k :: 0 <= k < |at| ==> at[k] < |rules|)
            && (forall i: nat :: i in at <==> IsFirst(rules, i))
  {
    if rules == [] {
    } else {
      var before, last := rules[..|rules| - 1], |rules| - 1;
      FirstsAre(before);
      LastIsFirst(rules);
      forall i: nat ensures i in Firsts(rules) <==> IsFirst(rules, i) {
        if i < last {
          IsFirstPrefix(rules, i);
        }
      }
    }
  }

  /** What is kept is exactly the first rule of each site, in the order of the text. */
  lemma {:induction false} KeepsFirsts(rules: seq<Rule>)
    ensures var at := Firsts(rules);
            && |FirstOnly(rules)| == |at|
            && forall k :: 0 <= k < |at| ==> at[k] < |rules| && FirstOnly(rules)[k] == rules[at[k]]
  {
    if rules == [] {
    } else {
      KeepsFirsts(rules[..|rules| - 1]);
    }
  }

  // ---- Reading its own output ----------------------------------------------

  predicate Visible(s: string) {
    s != "" && !IsSpace(s[0]) && !IsSpace(s[|s| - 1])
  }

  predicate Plain(s: string) {
    ',' !in s && '\n' !in s
  }

  /** The shape of every rule the parser makes. */
  ghost predicate Clean(rule: Rule) {
    && Visible(rule.value) && Plain(rule.value)
    && forall f :: f in rule.flags ==> Visible(f) && Plain(f) && NoResolve(f)
  }

  lemma PartClean(line: string, parts: seq<string>, i: nat)
    requires '\n' !in line && parts == TrimAll(Split(line, ',')) && i < |parts| && parts[i] != ""
    ensures Visible(parts[i]) && Plain(parts[i])
  {
    SplitFree(line, ',');
    var part := Split(line, ',')[i];
    assert part in Split(line, ',');
    TrimmedClean(part);
  }

  lemma TrimmedClean(part: string)
    requires '\n' !in part && ',' !in part && TrimSpace(part) != ""
    ensures Visible(TrimSpace(part)) && Plain(TrimSpace(part))
  {
    TrimShape(part);
  }

  lemma LineClean(raw: string)
    requires '\n' !in raw
    ensures FromLine(raw).Some? ==> Clean(FromLine(raw).value)
  {
    if FromLine(raw).Some? {
      var line := TrimSpace(raw);
      TrimShape(raw);
      var parts := TrimAll(Split(line, ','));
      var rule := FromLine(raw).value;
      PartClean(line, parts, 1);
      forall f | f in rule.flags ensures Visible(f) && Plain(f) && NoResolve(f) {
        var rest := if |parts| < 3 then [] else parts[3..];
        assert f in rest && NoResolve(f);
        var i :| 0 <= i < |rest| && rest[i] == f;
        assert Lower("") == "";
        PartClean(line, parts, i + 3);
      }
    }
  }

  lemma LinesClean(lines: seq<string>)
    requires Free(lines, '\n')
    ensures forall r :: r in FromLines(lines) ==> Clean(r)
  {
    forall r | r in FromLines(lines) ensures Clean(r) {
      CollectFrom(FromLine, lines, r);
      var i :| 0 <= i < |lines| && FromLine(lines[i]) == Some(r);
      LineClean(lines[i]);
    }
  }

  lemma {:induction false} FlagsAll(flags: seq<string>)
    requires forall f :: f in flags ==> NoResolve(f)
    ensures Flags(flags) == flags
  {
    if flags == [] {
    } else {
      FlagsAll(flags[1..]);
    }
  }

  lemma TrimAllVisible(parts: seq<string>)
    requires forall p :: p in parts ==> Visible(p)
    ensures TrimAll(parts) == parts
  {
    forall i | 0 <= i < |parts| ensures TrimSpace(parts[i]) == parts[i] {
      assert parts[i] in parts;
      TrimVisible(parts[i]);
    }
  }

  lemma {:induction false} JoinEnds(parts: seq<string>)
    requires parts != [] && Visible(parts[0]) && forall p :: p in parts ==> Visible(p)
    ensures var j := Join(parts, ","); Visible(j) && j[0] == parts[0][0]
  {
    if |parts| <= 1 {
    } else {
      assert parts[1] in parts;
      JoinEnds(parts[1..]);
    }
  }

  lemma FromVisible(line: string)
    requires Visible(line) && line[0] !in {'#', '[', ';'}
    ensures FromLine(line) == FromParts(TrimAll(Split(line, ',')))
  {
    TrimVisible(line);
  }

  /** A printed rule reads back as itself. */
  lemma ShowReads(rule: Rule)
    requires Clean(rule)
    ensures FromLine(Show(rule)) == Some(rule)
    ensures Split(Show(rule), ',') == [KindText(rule.kind), rule.value, "PROXY"] + rule.flags
  {
    var parts := Parts(rule);
    PartsClean(rule);
    JoinEnds(parts);
    KindPlain(rule.kind);
    FromVisible(Show(rule));
    SplitJoin(parts, ',');
    TrimAllVisible(parts);
    PartsRead(rule);
  }

  lemma PartsRead(rule: Rule)
    requires Clean(rule)
    ensures FromParts(Parts(rule)) == Some(rule)
  {
    KindPlain(rule.kind);
    KindReads(rule.kind);
    assert Parts(rule)[3..] == rule.flags;
    FlagsAll(rule.flags);
  }

  lemma PartsClean(rule: Rule)
    requires Clean(rule)
    ensures forall p :: p in Parts(rule) ==> Visible(p) && Plain(p)
    ensures Free(Parts(rule), ',')
  {
    var parts := Parts(rule);
    KindPlain(rule.kind);
    forall i | 0 <= i < |parts| ensures Visible(parts[i]) && Plain(parts[i]) {
      if i >= 3 {
        assert parts[i] == rule.flags[i - 3] && parts[i] in rule.flags;
      }
    }
  }

  lemma {:induction false} ShowOneLine(parts: seq<string>)
    requires forall p :: p in parts ==> '\n' !in p
    ensures '\n' !in Join(parts, ",")
  {
    if |parts| <= 1 {
    } else {
      ShowOneLine(parts[1..]);
    }
  }

  lemma ShowLine(rule: Rule)
    requires Clean(rule)
    ensures '\n' !in Show(rule)
  {
    PartsClean(rule);
    ShowOneLine(Parts(rule));
  }

  lemma ShownLines(rules: seq<Rule>)
    requires forall r :: r in rules ==> Clean(r)
    ensures FromLines(ShowAll(rules)) == rules
  {
    forall i | 0 <= i < |rules| ensures FromLine(ShowAll(rules)[i]) == Some(rules[i]) {
      assert rules[i] in rules;
      ShowReads(rules[i]);
    }
    CollectAll(FromLine, ShowAll(rules), rules);
  }

  lemma ShownFree(rules: seq<Rule>)
    requires forall r :: r in rules ==> Clean(r)
    ensures Free(ShowAll(rules), '\n')
  {
    forall i | 0 <= i < |rules| ensures '\n' !in ShowAll(rules)[i] {
      assert rules[i] in rules;
      ShowLine(rules[i]);
    }
  }

  lemma {:induction false} FirstOnlyTwice(rules: seq<Rule>)
    ensures FirstOnly(FirstOnly(rules)) == FirstOnly(rules)
  {
    if rules == [] {
    } else {
      var before, last := FirstOnly(rules[..|rules| - 1]), rules[|rules| - 1];
      FirstOnlyTwice(rules[..|rules| - 1]);
      FirstOnlyLast(before, last);
    }
  }

  /** Parsing the parser's own output, joined by newlines, gives it back unchanged, for
      any module text at all. */
  lemma ParseIdempotent(text: string)
    ensures Parsed(Join(ShowAll(Parsed(text)), "\n")) == Parsed(text)
  {
    var lines := Split(text, '\n');
    var rules := Parsed(text);
    SplitFree(text, '\n');
    LinesClean(lines);
    FirstOnlyIn(FromLines(lines));
    ShownLines(rules);
    ShownFree(rules);
    FirstOnlyTwice(FromLines(lines));
    if rules == [] {
      assert Split("", '\n') == [""];
      assert FromLines([""]) == [] by {
        assert [""][..0] == [];
      }
    } else {
      SplitJoin(ShowAll(rules), '\n');
    }
  }

  // ---- The sing-box translation --------------------------------------------

  /** A headless rule: its lists are alternatives. */
  datatype Headless =
    | Names(domain: seq<string>, suffix: seq<string>, keyword: seq<string>)
    | Addresses(cidr: seq<string>)

  /** How a destination meets a value of each type; any matcher will do. */
  datatype Matcher<!D> = Matcher(domain: (string, D) -> bool, suffix: (string, D) -> bool,
                                 keyword: (string, D) -> bool, cidr: (string, D) -> bool)

  predicate RuleMatches<D>(m: Matcher<D>, rule: Rule, d: D) {
    || (rule.kind == Domain && m.domain(rule.value, d))
    || (rule.kind == DomainSuffix && m.suffix(rule.value, d))
    || (rule.kind == DomainKeyword && m.keyword(rule.value, d))
    || (rule.kind in {IpCidr, IpCidr6} && m.cidr(rule.value, d))
  }

  predicate Some1<D>(match1: (string, D) -> bool, values: seq<string>, d: D) {
    exists v :: v in values && match1(v, d)
  }

  predicate HeadlessMatches<D>(m: Matcher<D>, h: Headless, d: D) {
    match h
    case Names(domain, suffix, keyword) =>
      Some1(m.domain, domain, d) || Some1(m.suffix, suffix, d) || Some1(m.keyword, keyword, d)
    case Addresses(cidr) => Some1(m.cidr, cidr, d)
  }

  /** The values of the rules of these types. */
  function ValuesOf(rules: seq<Rule>, kinds: set<Kind>): seq<string> {
    if rules == [] then []
    else ValuesOf(rules[..|rules| - 1], kinds)
         + if rules[|rules| - 1].kind in kinds then [rules[|rules| - 1].value] else []
  }

  /** The four value lists of the translation. */
  datatype Lists = Lists(domain: seq<string>, suffix: seq<string>, keyword: seq<string>, cidr: seq<string>)

  function ListsOf(rules: seq<Rule>): Lists {
    Lists(ValuesOf(rules, {Domain}), ValuesOf(rules, {DomainSuffix}),
          ValuesOf(rules, {DomainKeyword}), ValuesOf(rules, {IpCidr, IpCidr6}))
  }

  function Translated(rules: seq<Rule>): seq<Headless> {
    var l := ListsOf(rules);
    (if l.domain == [] && l.suffix == [] && l.keyword == [] then [] else [Names(l.domain, l.suffix, l.keyword)])
    + if l.cidr == [] then [] else [Addresses(l.cidr)]
  }

  lemma {:induction false} ValuesIn(rules: seq<Rule>, kinds: set<Kind>)
    ensures forall v :: v in ValuesOf(rules, kinds) <==> exists r :: r in rules && r.kind in kinds && r.value == v
  {
    if rules == [] {
    } else {
      var before, last := rules[..|rules| - 1], rules[|rules| - 1];
      ValuesIn(before, kinds);
      assert rules == before + [last];
      forall v ensures v in ValuesOf(rules, kinds) <==> exists r :: r in rules && r.kind in kinds && r.value == v {
        if last.kind in kinds && last.value == v {
          assert last in rules;
        }
        if v in ValuesOf(before, kinds) {
          var r :| r in before && r.kind in kinds && r.value == v;
          assert r in rules;
        }
      }
    }
  }

  /** The first two fields of a printed rule are its type and value. */
  lemma FieldsRead(rule: Rule)
    requires Clean(rule)
    ensures var fields := Split(Show(rule), ',');
            |fields| >= 2 && KindOf(fields[0]) == Some(rule.kind) && fields[1] == rule.value
  {
    PartsClean(rule);
    SplitJoin(Parts(rule), ',');
    KindReads(rule.kind);
  }

  lemma ListsNext(before: seq<Rule>, rule: Rule)
    ensures ListsOf(before + [rule]) == Filed(ListsOf(before), Some(rule.kind), rule.value)
  {
    assert (before + [rule])[..|before|] == before;
  }

  /** The lists with the value of one line added where its type belongs. */
  function Filed(lists: Lists, kind: Option<Kind>, value: string): Lists {
    match kind
    case Some(Domain) => lists.(domain := lists.domain + [value])
    case Some(DomainSuffix) => lists.(suffix := lists.suffix + [value])
    case Some(DomainKeyword) => lists.(keyword := lists.keyword + [value])
    case Some(IpCidr) | Some(IpCidr6) => lists.(cidr := lists.cidr + [value])
    case _ => lists
  }

  /** moduleToHeadlessRules, from the printed lines. */
  method ModuleToHeadlessRules(rules: seq<Rule>, lines: seq<string>) returns (out: seq<Headless>)
    requires lines == ShowAll(rules) && forall r :: r in rules ==> Clean(r)
    ensures out == Translated(rules)
  {
    var lists := ListsOf([]);
    for i := 0 to |lines|
      invariant lists == ListsOf(rules[..i])
    {
      assert rules[..i + 1] == rules[..i] + [rules[i]];
      ListsNext(rules[..i], rules[i]);
      FieldsRead(rules[i]);
      var fields := Split(lines[i], ',');
      lists := Filed(lists, KindOf(fields[0]), fields[1]);
    }
    assert rules[..|rules|] == rules;
    out := [];
    if lists.domain != [] || lists.suffix != [] || lists.keyword != [] {
      out := out + [Names(lists.domain, lists.suffix, lists.keyword)];
    }
    if lists.cidr != [] {
      out := out + [Addresses(lists.cidr)];
    }
  }

  lemma SomeValue<D>(rules: seq<Rule>, kinds: set<Kind>, match1: (string, D) -> bool, d: D)
    ensures Some1(match1, ValuesOf(rules, kinds), d)
            <==> exists r :: r in rules && r.kind in kinds && match1(r.value, d)
  {
    ValuesIn(rules, kinds);
    if r :| r in rules && r.kind in kinds && match1(r.value, d) {
      assert r.value in ValuesOf(rules, kinds);
    }
  }

  /** For every destination and every meaning of the four kinds of match, some rule of
      the module matches exactly when one of the translated sets does; names and
      addresses end up in different sets, and no set is empty. */
  lemma TranslationKeepsMeaning<D>(rules: seq<Rule>, m: Matcher<D>, d: D)
    ensures (exists r :: r in rules && RuleMatches(m, r, d))
            <==> (exists h :: h in Translated(rules) && HeadlessMatches(m, h, d))
    ensures forall h :: h in Translated(rules) ==>
              if h.Names? then h.domain + h.suffix + h.keyword != [] else h.cidr != []
  {
    SomeValue(rules, {Domain}, m.domain, d);
    SomeValue(rules, {DomainSuffix}, m.suffix, d);
    SomeValue(rules, {DomainKeyword}, m.keyword, d);
    SomeValue(rules, {IpCidr, IpCidr6}, m.cidr, d);
    SetsMatch(rules, m, d);
    RulesMatch(rules, m, d);
  }

  lemma SetsMatch<D>(rules: seq<Rule>, m: Matcher<D>, d: D)
    ensures (exists h :: h in Translated(rules) && HeadlessMatches(m, h, d))
            <==> || Some1(m.domain, ValuesOf(rules, {Domain}), d) || Some1(m.suffix, ValuesOf(rules, {DomainSuffix}), d)
                 || Some1(m.keyword, ValuesOf(rules, {DomainKeyword}), d)
                 || Some1(m.cidr, ValuesOf(rules, {IpCidr, IpCidr6}), d)
  {
    var names := Names(ValuesOf(rules, {Domain}), ValuesOf(rules, {DomainSuffix}), ValuesOf(rules, {DomainKeyword}));
    var addresses := Addresses(ValuesOf(rules, {IpCidr, IpCidr6}));
    assert HeadlessMatches(m, names, d) ==> names in Translated(rules);
    assert HeadlessMatches(m, addresses, d) ==> addresses in Translated(rules);
  }

  lemma RulesMatch<D>(rules: seq<Rule>, m: Matcher<D>, d: D)
    ensures (exists r :: r in rules && RuleMatches(m, r, d))
            <==> || (exists r :: r in rules && r.kind in {Domain} && m.domain(r.value, d))
                 || (exists r :: r in rules && r.kind in {DomainSuffix} && m.suffix(r.value, d))
                 || (exists r :: r in rules && r.kind in {DomainKeyword} && m.keyword(r.value, d))
                 || (exists r :: r in rules && r.kind in {IpCidr, IpCidr6} && m.cidr(r.value, d))
  {
  }
}
