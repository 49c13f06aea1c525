/** Percent-encoding as the node (internal/subscription/subscription.go) and the Worker
    (encodeURIComponent) do it: the node works on the UTF-8 bytes, the Worker on the
    characters. RFC 3986 sections 2.1 and 2.3; RFC 3629 for UTF-8. */
module Uri {
  import opened Text

  type Byte = n: int | 0 <= n < 256

  // ---- UTF-8 ---------------------------------------------------------------

  /** A continuation byte. */
  function Tail(n: int): Byte {
    0x80 + n % 64
  }

  function Utf8(c: char): (bytes: seq<Byte>)
    ensures 1 <= |bytes| <= 4
    ensures c as int < 0x80 ==> bytes == [c as int]
    ensures c as int >= 0x80 ==> forall i :: 0 <= i < |bytes| ==> bytes[i] >= 0x80
  {
    var n := c as int;
    if n < 0x80 then [n]
    else if n < 0x800 then [0xC0 + n / 64, Tail(n)]
    else if n < 0x10000 then [0xE0 + n / 64 / 64, Tail(n / 64), Tail(n)]
    else [0xF0 + n / 64 / 64 / 64, Tail(n / 64 / 64), Tail(n / 64), Tail(n)]
  }

  /** The bits of the bytes of a character (RFC 3629, section 3): the first byte starts
      with as many ones as there are bytes, the others with 10, and the rest of the bits
      put together are the code point. */
  lemma Utf8Bits(c: char)
    ensures var n, b := c as int, Utf8(c);
            && (n < 0x80 ==> b == [n])
            && (0x80 <= n < 0x800 ==>
                  && |b| == 2 && b[0] / 0x20 == 0x6 && b[1] / 0x40 == 0x2
                  && n == b[0] as int % 0x20 * 0x40 + b[1] as int % 0x40)
            && (0x800 <= n < 0x10000 ==>
                  && |b| == 3 && b[0] / 0x10 == 0xE && b[1] / 0x40 == b[2] / 0x40 == 0x2
                  && n == (b[0] as int % 0x10 * 0x40 + b[1] as int % 0x40) * 0x40 + b[2] as int % 0x40)
            && (0x10000 <= n ==>
                  && |b| == 4 && b[0] / 0x8 == 0x1E && b[1] / 0x40 == b[2] / 0x40 == b[3] / 0x40 == 0x2
                  && n == ((b[0] as int % 0x8 * 0x40 + b[1] as int % 0x40) * 0x40 + b[2] as int % 0x40) * 0x40
                          + b[3] as int % 0x40)
  {
  }

  function Utf8All(s: string): seq<Byte> {
    if s == "" then [] else Utf8(s[0]) + Utf8All(s[1..])
  }

  /** Scalar values, the range of char. */
  predicate Scalar(n: int) {
    0 <= n < 0xD800 || 0xE000 <= n < 0x110000
  }

  predicate Continues(bytes: seq<Byte>, n: nat) {
    |bytes| > n && forall i :: 1 <= i <= n ==> 0x80 <= bytes[i] < 0xC0
  }

  function Append(n: int, tail: int): int {
    n * 64 + (tail - 0x80)
  }

  /** The first character of a byte string: its code point and length. Overlong forms and
      surrogates are refused. */
  function First(bytes: seq<Byte>): (r: Option<(int, nat)>)
    requires bytes != []
    ensures r.Some? ==> Scalar(r.value.0) && 1 <= r.value.1 <= |bytes|
  {
    var b := bytes[0];
    if b < 0x80 then Some((b, 1))
    else if 0xC0 <= b < 0xE0 && Continues(bytes, 1) then
      var n := Append(b - 0xC0, bytes[1]);
      if n >= 0x80 then Some((n, 2)) else None
    else if 0xE0 <= b < 0xF0 && Continues(bytes, 2) then
      var n := Append(Append(b - 0xE0, bytes[1]), bytes[2]);
      if n >= 0x800 && Scalar(n) then Some((n, 3)) else None
    else if 0xF0 <= b < 0xF8 && Continues(bytes, 3) then
      var n := Append(Append(Append(b - 0xF0, bytes[1]), bytes[2]), bytes[3]);
      if n >= 0x10000 && Scalar(n) then Some((n, 4)) else None
    else None
  }

  function FromUtf8(bytes: seq<Byte>): Option<string> {
    if bytes == [] then Some("")
    else
      match First(bytes)
      case None => None
      case Some(f) =>
        match FromUtf8(bytes[f.1..])
        case None => None
        case Some(rest) => Some([f.0 as char] + rest)
  }

  lemma FirstTwo(q: int, r: int, rest: seq<Byte>)
    requires 2 <= q < 32 && 0 <= r < 64
    ensures First([0xC0 + q, 0x80 + r] + rest) == Some((q * 64 + r, 2))
  {
  }

  lemma FirstThree(q: int, r: int, t: int, rest: seq<Byte>)
    requires 0 <= q < 16 && 0 <= r < 64 && 0 <= t < 64
    requires var n := (q * 64 + r) * 64 + t; n >= 0x800 && Scalar(n)
    ensures First([0xE0 + q, 0x80 + r, 0x80 + t] + rest) == Some(((q * 64 + r) * 64 + t, 3))
  {
  }

  lemma FirstFour(q: int, r: int, t: int, u: int, rest: seq<Byte>)
    requires 0 <= q < 5 && 0 <= r < 64 && 0 <= t < 64 && 0 <= u < 64
    requires var n := ((q * 64 + r) * 64 + t) * 64 + u; n >= 0x10000 && Scalar(n)
    ensures First([0xF0 + q, 0x80 + r, 0x80 + t, 0x80 + u] + rest) == Some((((q * 64 + r) * 64 + t) * 64 + u, 4))
  {
  }

  lemma FirstUtf8(c: char, rest: seq<Byte>)
    ensures First(Utf8(c) + rest) == Some((c as int, |Utf8(c)|))
  {
    var n := c as int;
    var q := n / 64;
    var p := q / 64;
    if n < 0x80 {
    } else if n < 0x800 {
      FirstTwo(q, n % 64, rest);
    } else if n < 0x10000 {
      FirstThree(p, q % 64, n % 64, rest);
    } else {
      FirstFour(p / 64, p % 64, q % 64, n % 64, rest);
    }
  }

  lemma {:induction false} Utf8RoundTrip(s: string)
    ensures FromUtf8(Utf8All(s)) == Some(s)
  {
    if s == "" {
    } else {
      Utf8RoundTrip(s[1..]);
      FirstUtf8(s[0], Utf8All(s[1..]));
      assert Utf8All(s)[|Utf8(s[0])|..] == Utf8All(s[1..]);
      assert [s[0]] + s[1..] == s;
    }
  }

  // ---- Percent-encoding ----------------------------------------------------

  predicate Unreserved(b: Byte) {
    || 0x41 <= b <= 0x5A || 0x61 <= b <= 0x7A || 0x30 <= b <= 0x39
    || b in {0x2D, 0x5F, 0x2E, 0x21, 0x7E, 0x2A, 0x27, 0x28, 0x29}
  }

  function HexDigit(n: int): (c: char)
    requires 0 <= n < 16
  {
    if n < 10 then ('0' as int + n) as char else ('A' as int + n - 10) as char
  }

  function Percent(b: Byte): string {
    ['%', HexDigit(b / 16), HexDigit(b % 16)]
  }

  /** An escaped byte is a percent sign and two capital hex digits, the high one first. */
  lemma PercentIs(b: Byte)
    ensures var hex := "0123456789ABCDEF"; Percent(b) == ['%', hex[b / 16], hex[b % 16]]
  {
    HexIs(b / 16);
    HexIs(b % 16);
  }

  lemma HexIs(n: int)
    requires 0 <= n < 16
    ensures HexDigit(n) == "0123456789ABCDEF"[n]
  {
  }

  /** The characters that stay as they are. */
  lemma UnreservedIs(c: char)
    requires c as int < 0x80
    ensures Unreserved(c as int)
            <==> 'A' <= c <= 'Z' || 'a' <= c <= 'z' || '0' <= c <= '9' || c in "-_.!~*'()"
  {
  }

  function EncodeByte(b: Byte): string {
    if Unreserved(b) then [b as char] else Percent(b)
  }

  function EncodeBytes(bytes: seq<Byte>): string {
    if bytes == [] then "" else EncodeByte(bytes[0]) + EncodeBytes(bytes[1..])
  }

  /** EncodeURIComponent of the node. */
  method EncodeURIComponent(bytes: seq<Byte>) returns (b: string)
    ensures b == EncodeBytes(bytes)
  {
    b := "";
    var rest := bytes;
    while rest != []
      invariant b + EncodeBytes(rest) == EncodeBytes(bytes)
    {
      var c := rest[0];
      var piece := if Unreserved(c) then [c as char] else ['%', HexDigit(c / 16), HexDigit(c % 16)];
      assert EncodeBytes(rest) == piece + EncodeBytes(rest[1..]);
      Regroup(b, piece, EncodeBytes(rest[1..]));
      b := b + piece;
      rest := rest[1..];
    }
  }

  function PercentAll(bytes: seq<Byte>): string {
    if bytes == [] then "" else Percent(bytes[0]) + PercentAll(bytes[1..])
  }

  /** encodeURIComponent of the Worker: a character passes, or its UTF-8 is escaped. */
  function EncodeChar(c: char): string {
    if c as int < 0x80 && Unreserved(c as int) then [c] else PercentAll(Utf8(c))
  }

  function Encode(s: string): string {
    if s == "" then "" else EncodeChar(s[0]) + Encode(s[1..])
  }

  lemma {:induction false} EncodeBytesConcat(a: seq<Byte>, b: seq<Byte>)
    ensures EncodeBytes(a + b) == EncodeBytes(a) + EncodeBytes(b)
  {
    if a == [] {
      assert a + b == b;
    } else {
      EncodeBytesConcat(a[1..], b);
      var whole, head := a + b, EncodeByte(a[0]);
      assert whole[1..] == a[1..] + b;
      Regroup(head, EncodeBytes(a[1..]), EncodeBytes(b));
    }
  }

  lemma {:induction false} HighBytes(bytes: seq<Byte>)
    requires forall i :: 0 <= i < |bytes| ==> bytes[i] >= 0x80
    ensures EncodeBytes(bytes) == PercentAll(bytes)
  {
    if bytes == [] {
    } else {
      HighBytes(bytes[1..]);
      assert !Unreserved(bytes[0]);
    }
  }

  lemma CharMatches(c: char)
    ensures EncodeBytes(Utf8(c)) == EncodeChar(c)
  {
    if c as int < 0x80 {
      assert Utf8(c)[1..] == [];
      assert EncodeBytes([c as int]) == EncodeByte(c as int) + EncodeBytes([]);
      assert PercentAll([c as int]) == Percent(c as int) + PercentAll([]);
    } else {
      HighBytes(Utf8(c));
    }
  }

  /** The node's byte loop and the Worker's character loop encode every text alike. */
  lemma {:induction false} EncodersAgree(s: string)
    ensures EncodeBytes(Utf8All(s)) == Encode(s)
  {
    if s == "" {
    } else {
      EncodersAgree(s[1..]);
      EncodeBytesConcat(Utf8(s[0]), Utf8All(s[1..]));
      CharMatches(s[0]);
    }
  }

  // ---- Decoding ------------------------------------------------------------

  function HexValue(c: char): (n: int)
    ensures -1 <= n < 16
  {
    if '0' <= c <= '9' then c as int - '0' as int
    else if 'A' <= c <= 'F' then c as int - 'A' as int + 10
    else if 'a' <= c <= 'f' then c as int - 'a' as int + 10
    else -1
  }

  function Bytes(s: string): Option<seq<Byte>> {
    if s == "" then Some([])
    else if s[0] == '%' then
      if |s| < 3 || HexValue(s[1]) < 0 || HexValue(s[2]) < 0 then None
      else
        match Bytes(s[3..])
        case None => None
        case Some(rest) => Some([HexValue(s[1]) * 16 + HexValue(s[2])] + rest)
    else
      match Bytes(s[1..])
      case None => None
      case Some(rest) => Some(Utf8(s[0]) + rest)
  }

  /** decodeURIComponent. */
  function Decode(s: string): Option<string> {
    match Bytes(s)
    case None => None
    case Some(bytes) => FromUtf8(bytes)
  }

  lemma BytesEncodeByte(b: Byte, rest: string)
    requires Bytes(rest).Some?
    ensures Bytes(EncodeByte(b) + rest) == Some([b] + Bytes(rest).value)
  {
    if Unreserved(b) {
      BytesPlainByte(b, rest);
    } else {
      HexRead(b / 16);
      HexRead(b % 16);
      BytesPercent(HexDigit(b / 16), HexDigit(b % 16), rest);
    }
  }

  lemma HexRead(n: int)
    requires 0 <= n < 16
    ensures HexValue(HexDigit(n)) == n
  {
  }

  lemma BytesPlainByte(b: Byte, rest: string)
    requires Unreserved(b) && Bytes(rest).Some?
    ensures Bytes([b as char] + rest) == Some([b] + Bytes(rest).value)
  {
    var s := [b as char] + rest;
    assert s[0] == b as char && s[1..] == rest;
    assert Utf8(b as char) == [b];
  }

  lemma BytesPercent(x: char, y: char, rest: string)
    requires HexValue(x) >= 0 && HexValue(y) >= 0 && Bytes(rest).Some?
    ensures Bytes(['%', x, y] + rest) == Some([HexValue(x) * 16 + HexValue(y)] + Bytes(rest).value)
  {
    var s := ['%', x, y] + rest;
    assert s[0] == '%' && s[1] == x && s[2] == y && s[3..] == rest;
  }

  lemma {:induction false} BytesEncode(bytes: seq<Byte>, more: string)
    requires Bytes(more).Some?
    ensures Bytes(EncodeBytes(bytes) + more) == Some(bytes + Bytes(more).value)
  {
    if bytes == [] {
      assert EncodeBytes(bytes) + more == more && bytes + Bytes(more).value == Bytes(more).value;
    } else {
      BytesEncode(bytes[1..], more);
      BytesEncodeByte(bytes[0], EncodeBytes(bytes[1..]) + more);
      Regroup(EncodeByte(bytes[0]), EncodeBytes(bytes[1..]), more);
      Regroup([bytes[0]], bytes[1..], Bytes(more).value);
      assert [bytes[0]] + bytes[1..] == bytes;
    }
  }

  lemma {:induction false} PlainBytes(t: string)
    requires '%' !in t
    ensures Bytes(t) == Some(Utf8All(t))
  {
    if t == "" {
    } else {
      PlainBytes(t[1..]);
    }
  }

  lemma {:induction false} Utf8AllConcat(a: string, b: string)
    ensures Utf8All(a + b) == Utf8All(a) + Utf8All(b)
  {
    if a == "" {
      assert a + b == b;
    } else {
      Utf8AllConcat(a[1..], b);
      var whole := a + b;
      assert whole[1..] == a[1..] + b;
      Regroup(Utf8(a[0]), Utf8All(a[1..]), Utf8All(b));
    }
  }

  /** Decoding an encoded text followed by a plain one gives back both. */
  lemma DecodeEncode(s: string, t: string)
    requires '%' !in t
    ensures Decode(Encode(s) + t) == Some(s + t)
  {
    EncodersAgree(s);
    PlainBytes(t);
    BytesEncode(Utf8All(s), t);
    Utf8AllConcat(s, t);
    Utf8RoundTrip(s + t);
  }

  /** The bytes that start a character. */
  function Leads(bytes: seq<Byte>): nat {
    if bytes == [] then 0 else (if 0x80 <= bytes[0] < 0xC0 then 0 else 1) + Leads(bytes[1..])
  }

  lemma {:induction false} LeadsConcat(a: seq<Byte>, b: seq<Byte>)
    ensures Leads(a + b) == Leads(a) + Leads(b)
  {
    if a == [] {
      assert a + b == b;
    } else {
      LeadsConcat(a[1..], b);
      assert (a + b)[1..] == a[1..] + b;
    }
  }

  lemma {:induction false} LeadsTail(bytes: seq<Byte>, n: nat)
    requires n <= |bytes| && forall i :: 0 <= i < n ==> 0x80 <= bytes[i] < 0xC0
    ensures Leads(bytes) == Leads(bytes[n..])
  {
    if n == 0 {
      assert bytes[0..] == bytes;
    } else {
      LeadsTail(bytes[1..], n - 1);
      assert bytes[1..][n - 1..] == bytes[n..];
    }
  }

  /** A decoded text has one character for each byte that starts one. */
  lemma {:induction false} DecodedLength(bytes: seq<Byte>)
    ensures FromUtf8(bytes).Some? ==> |FromUtf8(bytes).value| == Leads(bytes)
  {
    if bytes == [] {
    } else if First(bytes).Some? {
      var n := First(bytes).value.1;
      DecodedLength(bytes[n..]);
      LeadsTail(bytes[1..], n - 1);
      assert bytes[1..][n - 1..] == bytes[n..];
    }
  }

  lemma {:induction false} BytesAfterHash(x: string, e: string)
    requires Bytes(x + "#" + e).Some? && Bytes(e).Some?
    ensures Leads(Bytes(x + "#" + e).value) > Leads(Bytes(e).value)
  {
    var z := x + "#" + e;
    if x == "" {
      assert z[1..] == e && Utf8('#') == [0x23];
      assert Bytes(z).value == [0x23] + Bytes(e).value;
    } else if x[0] == '%' {
      assert HexValue('#') == -1;
      assert z[|x|] == '#';
      assert z[3..] == x[3..] + "#" + e;
      BytesAfterHash(x[3..], e);
      LeadsConcat([HexValue(z[1]) * 16 + HexValue(z[2])], Bytes(z[3..]).value);
    } else {
      assert z[1..] == x[1..] + "#" + e;
      BytesAfterHash(x[1..], e);
      LeadsConcat(Utf8(x[0]), Bytes(z[1..]).value);
    }
  }

  /** A text before a '#' never decodes away. */
  lemma DecodeAfterHash(x: string, e: string)
    requires Decode(e).Some?
    ensures Decode(x + "#" + e) != Decode(e)
  {
    if Decode(x + "#" + e).Some? {
      BytesAfterHash(x, e);
      DecodedLength(Bytes(x + "#" + e).value);
      DecodedLength(Bytes(e).value);
    }
  }

  lemma {:induction false} BytesLeads(s: string)
    requires Bytes(s).Some?
    ensures Leads(Bytes(s).value) <= |s| && ('%' in s ==> Leads(Bytes(s).value) < |s|)
  {
    if s == "" {
    } else if s[0] == '%' {
      BytesLeads(s[3..]);
      LeadsConcat([HexValue(s[1]) * 16 + HexValue(s[2])], Bytes(s[3..]).value);
    } else {
      BytesLeads(s[1..]);
      LeadsConcat(Utf8(s[0]), Bytes(s[1..]).value);
      OneLead(s[0]);
    }
  }

  lemma OneLead(c: char)
    ensures Leads(Utf8(c)) == 1
  {
    var bytes := Utf8(c);
    LeadsTail(bytes[1..], |bytes| - 1);
  }

  /** Decoding never lengthens a text and shortens one with an escape in it. */
  lemma DecodeShorter(s: string)
    ensures Decode(s).Some? ==> |Decode(s).value| <= |s| && ('%' in s ==> |Decode(s).value| < |s|)
  {
    if Decode(s).Some? {
      BytesLeads(s);
      DecodedLength(Bytes(s).value);
    }
  }

  // ---- Transport paths -----------------------------------------------------

  function EncodeAll(parts: seq<string>): (r: seq<string>)
    ensures |r| == |parts|
  {
    if parts == [] then [] else [Encode(parts[0])] + EncodeAll(parts[1..])
  }

  lemma {:induction false} EncodeAllLast(parts: seq<string>)
    requires parts != []
    ensures EncodeAll(parts) == EncodeAll(parts[..|parts| - 1]) + [Encode(parts[|parts| - 1])]
  {
    if |parts| <= 1 {
    } else {
      EncodeAllLast(parts[1..]);
      assert parts[1..][..|parts| - 2] == parts[..|parts| - 1][1..];
    }
  }

  /** encodeVLESSPath: split at the slashes, encode each segment, join with "%2F". */
  method EncodeVLESSPath(path: string) returns (encoded: string)
    ensures encoded == Encode(path)
  {
    var segments := Split(path, '/');
    var done: seq<string> := [];
    for i := 0 to |segments|
      invariant done == EncodeAll(segments[..i])
    {
      EncodeAllLast(segments[..i + 1]);
      assert segments[..i + 1][..i] == segments[..i];
      EncodersAgree(segments[i]);
      var segment := EncodeURIComponent(Utf8All(segments[i]));
      done := done + [segment];
    }
    assert segments[..|segments|] == segments;
    PathSegments(path);
    return Join(done, "%2F");
  }

  lemma SlashEncodes()
    ensures EncodeChar('/') == "%2F"
  {
    assert Utf8('/') == [0x2F];
    assert PercentAll([0x2F]) == Percent(0x2F) + PercentAll([]);
  }

  /** Encoding the segments of any path and joining them is encoding the path. */
  lemma {:induction false} PathSegments(path: string)
    ensures Join(EncodeAll(Split(path, '/')), "%2F") == Encode(path)
  {
    if path == "" {
      assert EncodeAll([""]) == [""];
    } else {
      PathSegments(path[1..]);
      var rest := Split(path[1..], '/');
      var enc := EncodeAll(rest);
      if path[0] == '/' {
        SlashEncodes();
        assert EncodeAll([""] + rest) == [""] + enc;
        assert ([""] + enc)[1..] == enc;
        assert "" + "%2F" + Join(enc, "%2F") == "%2F" + Join(enc, "%2F");
      } else {
        var first := [path[0]] + rest[0];
        assert first[1..] == rest[0];
        assert Encode(first) == EncodeChar(path[0]) + Encode(rest[0]);
        assert EncodeAll([first] + rest[1..]) == [Encode(first)] + enc[1..];
        FirstPart(EncodeChar(path[0]), enc, "%2F");
      }
    }
  }

  lemma FirstPart(head: string, parts: seq<string>, sep: string)
    requires parts != []
    ensures Join([head + parts[0]] + parts[1..], sep) == head + Join(parts, sep)
  {
    var more := [head + parts[0]] + parts[1..];
    assert more[1..] == parts[1..];
    if |parts| > 1 {
      assert head + (parts[0] + sep + Join(parts[1..], sep)) == head + parts[0] + sep + Join(parts[1..], sep);
    }
  }

  /** What an encoded text is made of. */
  predicate Safe(c: char) {
    c == '%' || (c as int < 0x80 && Unreserved(c as int))
  }

  lemma {:induction false} EncodedPlain(s: string)
    ensures forall c :: c in Encode(s) ==> Safe(c)
    ensures '#' !in Encode(s) && '\n' !in Encode(s)
  {
    if s == "" {
    } else {
      EncodedPlain(s[1..]);
      PercentPlain(Utf8(s[0]));
    }
  }

  lemma {:induction false} PercentPlain(bytes: seq<Byte>)
    ensures forall c :: c in PercentAll(bytes) ==> Safe(c)
  {
    if bytes == [] {
    } else {
      PercentPlain(bytes[1..]);
      HexSafe(bytes[0] / 16);
      HexSafe(bytes[0] % 16);
    }
  }

  lemma HexSafe(n: int)
    requires 0 <= n < 16
    ensures Safe(HexDigit(n))
  {
  }

  lemma EncodeConcat(a: string, b: string)
    ensures Encode(a + b) == Encode(a) + Encode(b)
  {
    EncodersAgree(a);
    EncodersAgree(b);
    EncodersAgree(a + b);
    Utf8AllConcat(a, b);
    EncodeBytesConcat(Utf8All(a), Utf8All(b));
  }

  predicate AllUnreserved(t: string) {
    forall i :: 0 <= i < |t| ==> t[i] as int < 0x80 && Unreserved(t[i] as int)
  }

  lemma {:induction false} EncodeUnreserved(t: string)
    requires AllUnreserved(t)
    ensures Encode(t) == t
  {
    if t == "" {
    } else {
      EncodeUnreserved(t[1..]);
      assert [t[0]] + t[1..] == t;
    }
  }
}
