/** Signed ticket tokens (apps/booking/qr.py): `v1.payload.signature`, both parts
    unpadded base64url (RFC 4648, section 5). */
module QrTokens {
  import opened Seqs

  type Byte = b: int | 0 <= b < 256

  // --- base64url -----------------------------------------------------------

  function Symbol(v: int): char
    requires 0 <= v < 64
  {
    if v < 26 then ('A' as int + v) as char
    else if v < 52 then ('a' as int + v - 26) as char
    else if v < 62 then ('0' as int + v - 52) as char
    else if v == 62 then '-' else '_'
  }

  /** The url-safe alphabet: three runs of neighbours and two marks. */
  lemma SymbolsAreTheAlphabet(v: int)
    requires 0 <= v < 63
    ensures Symbol(0) == 'A' && Symbol(25) == 'Z' && Symbol(26) == 'a' && Symbol(51) == 'z'
    ensures Symbol(52) == '0' && Symbol(61) == '9' && Symbol(62) == '-' && Symbol(63) == '_'
    ensures v !in {25, 51, 61, 62} ==> Symbol(v + 1) as int == Symbol(v) as int + 1
  {
  }

  /** The padding for this many symbols. */
  function Pads(length: nat): string {
    var n: int := length;
    var missing := -n % 4;
    if missing == 0 then "" else if missing == 1 then "=" else if missing == 2 then "==" else "==="
  }

  /** `urlsafe_b64encode`: groups of three bytes as four symbols, and a last
      group of one or two bytes filled up with padding. */
  function Encode(raw: seq<Byte>): string {
    if raw == [] then ""
    else if |raw| <= 2 then Remainder(raw) + Pads(|raw| + 1)
    else Quad(raw[0], raw[1], raw[2]) + Encode(raw[3..])
  }

  function Remainder(raw: seq<Byte>): string
    requires 1 <= |raw| <= 2
  {
    if |raw| == 1 then [Symbol(raw[0] / 4), Symbol(raw[0] % 4 * 16)]
    else [Symbol(raw[0] / 4), Symbol(raw[0] % 4 * 16 + raw[1] / 16), Symbol(raw[1] % 16 * 4)]
  }

  function Quad(a: Byte, b: Byte, c: Byte): string {
    [Symbol(a / 4), Symbol(a % 4 * 16 + b / 16), Symbol(b % 16 * 4 + c / 64), Symbol(c % 64)]
  }

  function Stripped(s: string): string {
    if s != "" && s[|s| - 1] == '=' then Stripped(s[..|s| - 1]) else s
  }

  /** `_b64url_encode`. */
  function Unpadded(raw: seq<Byte>): string {
    Stripped(Encode(raw))
  }

  predicate IsAscii(s: string) {
    forall i :: 0 <= i < |s| ==> s[i] as int < 128
  }

  /** What a character stands for. The url alphabet is translated onto the
      standard one, so both spellings of 62 and 63 are read. */
  function SymbolValue(c: char): Option<int> {
    if 'A' <= c <= 'Z' then Some(c as int - 'A' as int)
    else if 'a' <= c <= 'z' then Some(c as int - 'a' as int + 26)
    else if '0' <= c <= '9' then Some(c as int - '0' as int + 52)
    else if c == '-' || c == '+' then Some(62)
    else if c == '_' || c == '/' then Some(63)
    else None
  }

  function Prepend(b: Byte, rest: Option<seq<Byte>>): Option<seq<Byte>> {
    if rest.Some? then Some([b] + rest.value) else None
  }

  /** The bits carried over after `quad` characters of a group of four. */
  predicate Carries(quad: int, left: int) {
    (quad == 0 && left == 0) || (quad == 1 && 0 <= left < 64) ||
    (quad == 2 && 0 <= left < 16) || (quad == 3 && 0 <= left < 4)
  }

  /** The lenient decoder: a character outside the alphabet is skipped, enough
      padding ends the input, and a group left open is an error. */
  function Scan(text: string, quad: int, left: int, pads: nat): Option<seq<Byte>>
    requires Carries(quad, left)
    decreases |text|
  {
    if text == "" then
      if quad == 0 then Some([]) else None
    else if text[0] == '=' then
      if quad >= 2 && quad + pads + 1 >= 4 then Some([])
      else Scan(text[1..], quad, left, if quad >= 2 then pads + 1 else pads)
    else
      match SymbolValue(text[0])
      case None => Scan(text[1..], quad, left, pads)
      case Some(v) =>
        if quad == 0 then Scan(text[1..], 1, v, 0)
        else if quad == 1 then Prepend(left * 4 + v / 16, Scan(text[1..], 2, v % 16, 0))
        else if quad == 2 then Prepend(left * 16 + v / 4, Scan(text[1..], 3, v % 4, 0))
        else Prepend(left * 64 + v, Scan(text[1..], 0, 0, 0))
  }

  /** `_b64url_decode`. */
  function Decode(data: string): Option<seq<Byte>> {
    if !IsAscii(data) then None else Scan(data + Pads(|data|), 0, 0, 0)
  }

  /** Only letters, digits, `-` and `_` survive the stripping. */
  predicate IsPlain(s: string) {
    forall i :: 0 <= i < |s| ==> SymbolValue(s[i]).Some? && s[i] as int < 128 && s[i] != '.'
  }

  lemma SymbolReadsBack(v: int)
    requires 0 <= v < 64
    ensures SymbolValue(Symbol(v)) == Some(v) && Symbol(v) != '=' && Symbol(v) != '.' && Symbol(v) as int < 128
  {
  }

  lemma {:induction false} StrippedAfter(a: string, b: string)
    requires a != "" && a[|a| - 1] != '='
    ensures Stripped(a + b) == a + Stripped(b)
    decreases |b|
  {
    if b == "" {
      assert a + b == a;
    } else if b[|b| - 1] == '=' {
      assert (a + b)[..|a + b| - 1] == a + b[..|b| - 1];
      StrippedAfter(a, b[..|b| - 1]);
    }
  }

  lemma PadsPeriod(length: nat)
    ensures Pads(4 + length) == Pads(length)
  {
    var n: int := length;
    assert -(4 + n) % 4 == -n % 4;
  }

  lemma PadsAfterQuad(quad: string, rest: string)
    requires |quad| == 4
    ensures quad + rest + Pads(|quad + rest|) == quad + (rest + Pads(|rest|))
  {
    PadsPeriod(|rest|);
    ConcatAssociates(quad, rest, Pads(|rest|));
  }

  lemma StrippedPads(length: nat)
    ensures Stripped(Pads(length)) == ""
  {
    assert Stripped("=") == "" by { assert "="[..0] == ""; }
    assert Stripped("==") == "" by { assert "=="[..1] == "="; }
    assert Stripped("===") == "" by { assert "==="[..2] == "=="; }
  }

  lemma RemainderIsPlain(raw: seq<Byte>)
    requires 1 <= |raw| <= 2
    ensures IsPlain(Remainder(raw)) && |Remainder(raw)| == |raw| + 1
    ensures Remainder(raw)[|raw|] != '='
  {
    SymbolReadsBack(raw[0] / 4);
    if |raw| == 1 {
      SymbolReadsBack(raw[0] % 4 * 16);
    } else {
      SymbolReadsBack(raw[0] % 4 * 16 + raw[1] / 16);
      SymbolReadsBack(raw[1] % 16 * 4);
    }
  }

  lemma QuadIsPlain(a: Byte, b: Byte, c: Byte)
    ensures IsPlain(Quad(a, b, c)) && Quad(a, b, c)[3] != '='
  {
    SymbolReadsBack(a / 4);
    SymbolReadsBack(a % 4 * 16 + b / 16);
    SymbolReadsBack(b % 16 * 4 + c / 64);
    SymbolReadsBack(c % 64);
  }

  lemma UnpaddedRemainder(raw: seq<Byte>)
    requires 1 <= |raw| <= 2
    ensures Unpadded(raw) == Remainder(raw)
  {
    RemainderIsPlain(raw);
    StrippedPads(|raw| + 1);
    StrippedAfter(Remainder(raw), Pads(|raw| + 1));
  }

  lemma UnpaddedQuad(raw: seq<Byte>)
    requires |raw| >= 3
    ensures Unpadded(raw) == Quad(raw[0], raw[1], raw[2]) + Unpadded(raw[3..])
  {
    QuadIsPlain(raw[0], raw[1], raw[2]);
    StrippedAfter(Quad(raw[0], raw[1], raw[2]), Encode(raw[3..]));
  }

  /** Stripping the padding loses nothing: the length tells how much to put back. */
  lemma {:induction false} PaddingComesBack(raw: seq<Byte>)
    ensures Unpadded(raw) + Pads(|Unpadded(raw)|) == Encode(raw)
    decreases |raw|
  {
    if 1 <= |raw| <= 2 {
      UnpaddedRemainder(raw);
      RemainderIsPlain(raw);
    } else if |raw| >= 3 {
      UnpaddedQuad(raw);
      PaddingComesBack(raw[3..]);
      PadsAfterQuad(Quad(raw[0], raw[1], raw[2]), Unpadded(raw[3..]));
    }
  }

  lemma ScanSymbol(v: int, text: string, quad: int, left: int, pads: nat)
    requires 0 <= v < 64 && Carries(quad, left)
    ensures var read := Scan([Symbol(v)] + text, quad, left, pads);
      if quad == 0 then read == Scan(text, 1, v, 0)
      else if quad == 1 then read == Prepend(left * 4 + v / 16, Scan(text, 2, v % 16, 0))
      else if quad == 2 then read == Prepend(left * 16 + v / 4, Scan(text, 3, v % 4, 0))
      else read == Prepend(left * 64 + v, Scan(text, 0, 0, 0))
  {
    SymbolReadsBack(v);
    assert ([Symbol(v)] + text)[1..] == text;
  }

  /** Any four symbols give three bytes. */
  lemma ScanFour(v0: int, v1: int, v2: int, v3: int, text: string)
    requires 0 <= v0 < 64 && 0 <= v1 < 64 && 0 <= v2 < 64 && 0 <= v3 < 64
    ensures Scan([Symbol(v0), Symbol(v1), Symbol(v2), Symbol(v3)] + text, 0, 0, 0) ==
            Prepend(v0 * 4 + v1 / 16, Prepend(v1 % 16 * 16 + v2 / 4, Prepend(v2 % 4 * 64 + v3, Scan(text, 0, 0, 0))))
  {
    var t3 := [Symbol(v3)] + text;
    var t2 := [Symbol(v2)] + t3;
    var t1 := [Symbol(v1)] + t2;
    assert [Symbol(v0), Symbol(v1), Symbol(v2), Symbol(v3)] + text == [Symbol(v0)] + t1;
    ScanSymbol(v0, t1, 0, 0, 0);
    ScanSymbol(v1, t2, 1, v0, 0);
    ScanSymbol(v2, t3, 2, v1 % 16, 0);
    ScanSymbol(v3, text, 3, v2 % 4, 0);
  }

  lemma BitsComeBack(a: Byte, b: Byte, c: Byte)
    ensures 0 <= a / 4 < 64 && 0 <= a % 4 * 16 + b / 16 < 64 && 0 <= b % 16 * 4 + c / 64 < 64 && 0 <= c % 64 < 64
    ensures a / 4 * 4 + (a % 4 * 16 + b / 16) / 16 == a
    ensures (a % 4 * 16 + b / 16) % 16 * 16 + (b % 16 * 4 + c / 64) / 4 == b
    ensures (b % 16 * 4 + c / 64) % 4 * 64 + c % 64 == c
  {
  }

  lemma ScanQuad(a: Byte, b: Byte, c: Byte, text: string)
    ensures Scan(Quad(a, b, c) + text, 0, 0, 0) == Prepend(a, Prepend(b, Prepend(c, Scan(text, 0, 0, 0))))
  {
    BitsComeBack(a, b, c);
    ScanFour(a / 4, a % 4 * 16 + b / 16, b % 16 * 4 + c / 64, c % 64, text);
  }

  lemma ScanOne(a: Byte)
    ensures Scan(Encode([a]), 0, 0, 0) == Some([a])
  {
    var t1 := [Symbol(a % 4 * 16)] + "==";
    assert Encode([a]) == [Symbol(a / 4)] + t1;
    ScanSymbol(a / 4, t1, 0, 0, 0);
    ScanSymbol(a % 4 * 16, "==", 1, a / 4, 0);
    assert "=="[1..] == "=";
    assert a % 4 * 16 % 16 == 0 && a / 4 * 4 + a % 4 * 16 / 16 == a;
    assert Scan("=", 2, 0, 1) == Some([]);
    assert Scan("==", 2, 0, 0) == Some([]);
    assert [a] + [] == [a];
  }

  lemma ScanTwo(a: Byte, b: Byte)
    ensures Scan(Encode([a, b]), 0, 0, 0) == Some([a, b])
  {
    var t2 := [Symbol(b % 16 * 4)] + "=";
    var t1 := [Symbol(a % 4 * 16 + b / 16)] + t2;
    assert Encode([a, b]) == [Symbol(a / 4)] + t1;
    ScanSymbol(a / 4, t1, 0, 0, 0);
    ScanSymbol(a % 4 * 16 + b / 16, t2, 1, a / 4, 0);
    ScanSymbol(b % 16 * 4, "=", 2, b / 16, 0);
    assert b % 16 * 4 % 4 == 0 && b / 16 * 16 + b % 16 * 4 / 4 == b;
    assert (a % 4 * 16 + b / 16) % 16 == b / 16 && a / 4 * 4 + (a % 4 * 16 + b / 16) / 16 == a;
    assert Scan("=", 3, 0, 0) == Some([]);
    assert [a] + ([b] + []) == [a, b];
  }

  lemma {:induction false} ScanReadsBack(raw: seq<Byte>)
    ensures Scan(Encode(raw), 0, 0, 0) == Some(raw)
    decreases |raw|
  {
    if |raw| == 1 {
      ScanOne(raw[0]);
      assert raw == [raw[0]];
    } else if |raw| == 2 {
      ScanTwo(raw[0], raw[1]);
      assert raw == [raw[0], raw[1]];
    } else if |raw| >= 3 {
      ScanQuad(raw[0], raw[1], raw[2], Encode(raw[3..]));
      ScanReadsBack(raw[3..]);
      assert raw == [raw[0]] + ([raw[1]] + ([raw[2]] + raw[3..]));
    }
  }

  lemma {:induction false} UnpaddedIsPlain(raw: seq<Byte>)
    ensures IsPlain(Unpadded(raw))
    decreases |raw|
  {
    if 1 <= |raw| <= 2 {
      UnpaddedRemainder(raw);
      RemainderIsPlain(raw);
    } else if |raw| >= 3 {
      UnpaddedQuad(raw);
      QuadIsPlain(raw[0], raw[1], raw[2]);
      UnpaddedIsPlain(raw[3..]);
    }
  }

  /** Strip-the-padding encoding and re-pad decoding are inverse on every byte
      string, and so the encoding is injective. */
  lemma DecodeUndoesEncode(raw: seq<Byte>)
    ensures Decode(Unpadded(raw)) == Some(raw)
  {
    UnpaddedIsPlain(raw);
    PaddingComesBack(raw);
    ScanReadsBack(raw);
  }

  // --- tokens --------------------------------------------------------------

  function Split(s: string): (parts: seq<string>)
    ensures |parts| >= 1
  {
    if s == "" then [""]
    else
      var rest := Split(s[1..]);
      if s[0] == '.' then [""] + rest else [[s[0]] + rest[0]] + rest[1..]
  }

  function Dotted(parts: seq<string>): string
    requires parts != []
  {
    if |parts| == 1 then parts[0] else parts[0] + "." + Dotted(parts[1..])
  }

  lemma DottedAfterDot(rest: seq<string>)
    requires rest != []
    ensures Dotted([""] + rest) == "." + Dotted(rest)
  {
    assert ([""] + rest)[1..] == rest;
    assert "" + "." == ".";
  }

  lemma DottedAfterChar(c: char, rest: seq<string>)
    requires rest != []
    ensures Dotted([[c] + rest[0]] + rest[1..]) == [c] + Dotted(rest)
  {
    var parts := [[c] + rest[0]] + rest[1..];
    assert parts[1..] == rest[1..];
    if |rest| > 1 {
      ConcatAssociates([c] + rest[0], ".", Dotted(rest[1..]));
      ConcatAssociates([c], rest[0], "." + Dotted(rest[1..]));
      ConcatAssociates(rest[0], ".", Dotted(rest[1..]));
    }
  }

  lemma {:induction false} SplitRejoins(s: string)
    ensures Dotted(Split(s)) == s
    ensures forall i :: 0 <= i < |Split(s)| ==> '.' !in Split(s)[i]
  {
    if s != "" {
      var rest := Split(s[1..]);
      SplitRejoins(s[1..]);
      if s[0] == '.' { DottedAfterDot(rest); } else { DottedAfterChar(s[0], rest); }
      assert s == [s[0]] + s[1..];
    }
  }

  lemma DottedThree(parts: seq<string>)
    requires |parts| == 3
    ensures Dotted(parts) == parts[0] + "." + parts[1] + "." + parts[2]
  {
    assert parts[1..][1..] == [parts[2]];
    assert Dotted(parts[1..]) == parts[1] + "." + parts[2];
  }

  lemma {:induction false} SplitPart(part: string)
    requires '.' !in part
    ensures Split(part) == [part]
  {
    if part != "" {
      SplitPart(part[1..]);
      assert part == [part[0]] + part[1..];
    }
  }

  lemma {:induction false} SplitAtDot(part: string, rest: string)
    requires '.' !in part
    ensures Split(part + "." + rest) == [part] + Split(rest)
  {
    var s := part + "." + rest;
    if part == "" {
      assert s[1..] == rest;
    } else {
      assert s[1..] == part[1..] + "." + rest;
      SplitAtDot(part[1..], rest);
      assert part == [part[0]] + part[1..];
    }
  }

  lemma ThreeParts(a: string, b: string, c: string)
    requires '.' !in a && '.' !in b && '.' !in c
    ensures Split(a + "." + b + "." + c) == [a, b, c]
  {
    assert a + "." + b + "." + c == a + "." + (b + "." + c);
    SplitAtDot(a, b + "." + c);
    SplitAtDot(b, c);
    SplitPart(c);
  }

  datatype Ids = Ids(ticket: string, event: string)

  /** One secret's MAC (RFC 2104, section 2) and the JSON writer and reader. */
  datatype Scheme = Scheme(
    mac: string -> seq<Byte>,
    dumps: Ids -> seq<Byte>,
    loads: seq<Byte> -> Option<Ids>)

  ghost predicate ReadsBack(k: Scheme) {
    forall ids :: k.loads(k.dumps(ids)) == Some(ids)
  }

  datatype Verdict = Accepted(ids: Ids) | Rejected | Raised

  const VERSION := "v1"

  function Signature(k: Scheme, payload: string): string {
    Unpadded(k.mac(payload))
  }

  function Token(k: Scheme, payload: string): string {
    VERSION + "." + payload + "." + Signature(k, payload)
  }

  /** `sign_ticket`. */
  function Sign(k: Scheme, ids: Ids): string {
    Token(k, Unpadded(k.dumps(ids)))
  }

  function IdsIn(k: Scheme, payload: string): Option<Ids> {
    match Decode(payload)
    case None => None
    case Some(raw) => k.loads(raw)
  }

  /** `verify_ticket_token`. The comparison of digests raises on text that is
      not ASCII, and it stands outside the guarded block. */
  function Verify(k: Scheme, token: string): Verdict {
    var parts := Split(token);
    if |parts| != 3 then Rejected
    else if parts[0] != VERSION then Rejected
    else if !IsAscii(parts[2]) then Raised
    else if parts[2] != Signature(k, parts[1]) then Rejected
    else
      match IdsIn(k, parts[1])
      case None => Rejected
      case Some(ids) => Accepted(ids)
  }

  /** Verifying a signed token with the same key returns its ids. */
  lemma SignedVerifies(k: Scheme, ids: Ids)
    requires ReadsBack(k)
    ensures Verify(k, Sign(k, ids)) == Accepted(ids)
  {
    var payload := Unpadded(k.dumps(ids));
    TokenParts(k, payload);
    UnpaddedIsPlain(k.dumps(ids));
    DecodeUndoesEncode(k.dumps(ids));
  }

  lemma TokenParts(k: Scheme, payload: string)
    ensures IsAscii(Signature(k, payload))
    ensures '.' !in payload || IsPlain(payload) ==>
              Split(Token(k, payload)) == [VERSION, payload, Signature(k, payload)]
  {
    UnpaddedIsPlain(k.mac(payload));
    if '.' !in payload || IsPlain(payload) {
      ThreeParts(VERSION, payload, Signature(k, payload));
    }
  }

  /** Exactly the accepted tokens: version, a payload that holds ids, and the
      signature of that very payload. */
  lemma AcceptedExactly(k: Scheme, token: string, ids: Ids)
    ensures Verify(k, token) == Accepted(ids) <==>
            exists payload :: '.' !in payload && token == Token(k, payload) && IdsIn(k, payload) == Some(ids)
  {
    if Verify(k, token) == Accepted(ids) {
      var parts := Split(token);
      SplitRejoins(token);
      DottedThree(parts);
      assert token == Token(k, parts[1]);
    }
    forall payload | '.' !in payload && token == Token(k, payload) && IdsIn(k, payload) == Some(ids)
      ensures Verify(k, token) == Accepted(ids)
    {
      TokenParts(k, payload);
    }
  }

  /** Moving a signature onto another payload is accepted only where the two
      payloads have the same MAC. */
  lemma MovedSignatureNeedsEqualMacs(k: Scheme, signed: string, payload: string)
    requires '.' !in payload
    requires Verify(k, VERSION + "." + payload + "." + Signature(k, signed)).Accepted?
    ensures k.mac(payload) == k.mac(signed)
  {
    UnpaddedIsPlain(k.mac(signed));
    ThreeParts(VERSION, payload, Signature(k, signed));
    DecodeUndoesEncode(k.mac(payload));
    DecodeUndoesEncode(k.mac(signed));
  }

  /** When the check raises instead of answering: three parts, the right version
      and a signature with a character outside ASCII. */
  lemma RaisesExactly(k: Scheme, token: string)
    ensures Verify(k, token) == Raised <==>
            exists payload, signature :: '.' !in payload && '.' !in signature && !IsAscii(signature) &&
                                         token == VERSION + "." + payload + "." + signature
  {
    if Verify(k, token) == Raised {
      var parts := Split(token);
      SplitRejoins(token);
      DottedThree(parts);
      assert token == VERSION + "." + parts[1] + "." + parts[2];
    }
    forall payload, signature | '.' !in payload && '.' !in signature && !IsAscii(signature) &&
                                token == VERSION + "." + payload + "." + signature
      ensures Verify(k, token) == Raised
    {
      ThreeParts(VERSION, payload, signature);
    }
  }

  /** One such token. */
  lemma RaisingToken(k: Scheme)
    ensures Verify(k, "v1..\U{00E9}") == Raised
  {
    var signature := "\U{00E9}";
    assert signature[0] as int >= 128;
    ThreeParts(VERSION, "", signature);
    assert "v1..\U{00E9}" == VERSION + "." + "" + "." + signature;
  }
}
