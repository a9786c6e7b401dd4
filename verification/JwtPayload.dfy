/** Decoding the payload segment of a JSON Web Token in the browser. */
module JwtPayload {
  import opened Text
  import opened Domain

  type Byte = b: int | 0 <= b < 256

  type Sextet = d: int | 0 <= d < 64

  /** The 62 characters both base64 alphabets share. */
  function Letter(d: Sextet): char
    requires d < 62
  {
    if d < 26 then ('A' as int + d) as char
    else if d < 52 then ('a' as int + d - 26) as char
    else ('0' as int + d - 52) as char
  }

  /** The alphabet of section 4 of RFC 4648. */
  function Standard(d: Sextet): char {
    if d == 62 then '+' else if d == 63 then '/' else Letter(d)
  }

  /** The alphabet of section 5 of RFC 4648. */
  function UrlSafe(d: Sextet): char {
    if d == 62 then '-' else if d == 63 then '_' else Letter(d)
  }

  /** The value of a standard character, or -1. */
  function StandardValue(c: char): (v: int)
    ensures -1 <= v < 64
  {
    if 'A' <= c <= 'Z' then c as int - 'A' as int
    else if 'a' <= c <= 'z' then c as int - 'a' as int + 26
    else if '0' <= c <= '9' then c as int - '0' as int + 52
    else if c == '+' then 62
    else if c == '/' then 63
    else -1
  }

  predicate InStandard(c: char) {
    StandardValue(c) >= 0
  }

  predicate InUrlSafe(c: char) {
    c == '-' || c == '_' || (InStandard(c) && c != '+' && c != '/')
  }

  // The bits of neighbouring bytes and six-bit groups.

  function High(a: Byte): Sextet { a / 4 }
  function Middle(a: Byte, b: Byte): Sextet { a % 4 * 16 + b / 16 }
  function Lower(b: Byte, c: Byte): Sextet { b % 16 * 4 + c / 64 }
  function Low(c: Byte): Sextet { c % 64 }

  function First(p: Sextet, q: Sextet): Byte { p * 4 + q / 16 }
  function Second(q: Sextet, r: Sextet): Byte { q % 16 * 16 + r / 4 }
  function Third(r: Sextet, s: Sextet): Byte { r % 4 * 64 + s }

  /** The six-bit groups of a byte string, the last one filled up with zero bits. */
  function Sextets(bytes: seq<Byte>): seq<Sextet> {
    if bytes == [] then []
    else if |bytes| == 1 then [High(bytes[0]), Middle(bytes[0], 0)]
    else if |bytes| == 2 then [High(bytes[0]), Middle(bytes[0], bytes[1]), Lower(bytes[1], 0)]
    else
      [High(bytes[0]), Middle(bytes[0], bytes[1]), Lower(bytes[1], bytes[2]), Low(bytes[2])] + Sextets(bytes[3..])
  }

  /** The bytes of six-bit groups; left-over bits are dropped. */
  function Bytes(ds: seq<Sextet>): seq<Byte> {
    if |ds| < 2 then []
    else if |ds| == 2 then [First(ds[0], ds[1])]
    else if |ds| == 3 then [First(ds[0], ds[1]), Second(ds[1], ds[2])]
    else [First(ds[0], ds[1]), Second(ds[1], ds[2]), Third(ds[2], ds[3])] + Bytes(ds[4..])
  }

  function SpellStandard(ds: seq<Sextet>): (s: string)
    ensures |s| == |ds|
  {
    seq(|ds|, i requires 0 <= i < |ds| => Standard(ds[i]))
  }

  function Equals(n: nat): (s: string)
    ensures |s| == n
  {
    seq(n, _ => '=')
  }

  /** Padded base64, section 4 of RFC 4648. */
  function EncodeStandard(bytes: seq<Byte>): string {
    SpellStandard(Sextets(bytes)) + (if |bytes| % 3 == 1 then "==" else if |bytes| % 3 == 2 then "=" else "")
  }

  /** Unpadded base64url, section 2 of RFC 7515. */
  function EncodeUrl(bytes: seq<Byte>): (s: string)
    ensures |s| == |Sextets(bytes)|
  {
    var ds := Sextets(bytes);
    seq(|ds|, i requires 0 <= i < |ds| => UrlSafe(ds[i]))
  }

  // ---------------------------------------------------------------- decodeJwt

  /** Every dash becomes a plus sign and every underscore a slash. */
  function Normalise(s: string): (r: string)
    ensures |r| == |s|
  {
    seq(|s|, i requires 0 <= i < |s| => if s[i] == '-' then '+' else if s[i] == '_' then '/' else s[i])
  }

  /** How many padding characters complete a group of four. */
  function Missing(n: nat): nat {
    (4 - n % 4) % 4
  }

  /** Equals signs up to the next multiple of four. */
  function Pad(s: string): string {
    s + Equals(Missing(|s|))
  }

  predicate IsSpace(c: char) {
    c == ' ' || c == '\t' || c == '\n' || c == '\r' || c as int == 12
  }

  function WithoutSpaces(s: string): string {
    if s == [] then []
    else (if IsSpace(s[0]) then [] else [s[0]]) + WithoutSpaces(s[1..])
  }

  predicate StandardText(s: string) {
    forall i | 0 <= i < |s| :: InStandard(s[i])
  }

  function Read(s: string): (ds: seq<Sextet>)
    requires StandardText(s)
    ensures |ds| == |s|
  {
    seq(|s|, i requires 0 <= i < |s| => StandardValue(s[i]))
  }

  /** The part of a string that atob decodes: at most two padding characters of a complete string are dropped. */
  function Unpadded(s: string): string {
    if |s| % 4 == 0 && s != [] && s[|s| - 1] == '=' then
      if s[|s| - 2] == '=' then s[..|s| - 2] else s[..|s| - 1]
    else s
  }

  /** atob: forgiving base64 decoding, None where it throws. */
  function Atob(data: string): Option<seq<Byte>> {
    var s := Unpadded(WithoutSpaces(data));
    if |s| % 4 == 1 || !StandardText(s) then None else Some(Bytes(Read(s)))
  }

  /** The bytes `decodeJwt` hands to JSON.parse, or None when it gives up before. */
  function DecodePayload(token: string): Option<seq<Byte>> {
    var parts := Split(token, '.');
    if |parts| < 2 || parts[1] == "" then None
    else Atob(Pad(Normalise(parts[1])))
  }

  // ---------------------------------------------------------------- encoding

  lemma {:induction false} SextetCount(bytes: seq<Byte>)
    ensures |Sextets(bytes)| % 4 == if |bytes| % 3 == 0 then 0 else |bytes| % 3 + 1
  {
    hide High, Middle, Lower, Low;
    if |bytes| < 3 {
    } else {
      SextetCount(bytes[3..]);
      FourMore(|bytes| - 3, |Sextets(bytes[3..])|);
    }
  }

  lemma FourMore(n: nat, m: nat)
    ensures (n + 3) % 3 == n % 3 && (m + 4) % 4 == m % 4
  {
  }

  /** Swapping the two characters turns the url alphabet into the standard one. */
  lemma NormaliseEncoded(bytes: seq<Byte>)
    ensures Normalise(EncodeUrl(bytes)) == SpellStandard(Sextets(bytes))
  {
    hide Sextets;
  }

  lemma PaddingOf(n: nat, m: nat)
    requires m % 4 == if n % 3 == 0 then 0 else n % 3 + 1
    ensures Equals(Missing(m)) == if n % 3 == 1 then "==" else if n % 3 == 2 then "=" else ""
  {
  }

  /** For every byte string, decodeJwt's swap and padding turn base64url into exactly the padded base64. */
  lemma NormalisedIsStandard(bytes: seq<Byte>)
    ensures Pad(Normalise(EncodeUrl(bytes))) == EncodeStandard(bytes)
  {
    hide Sextets, SpellStandard, EncodeUrl, Normalise, Equals, Missing;
    NormaliseEncoded(bytes);
    SextetCount(bytes);
    PaddingOf(|bytes|, |Sextets(bytes)|);
  }

  // ---------------------------------------------------------------- decoding

  lemma BitsOfBytes(a: Byte, b: Byte, c: Byte)
    ensures First(High(a), Middle(a, b)) == a
    ensures Second(Middle(a, b), Lower(b, c)) == b
    ensures Third(Lower(b, c), Low(c)) == c
  {
  }

  lemma {:induction false} BytesOfSextets(bytes: seq<Byte>)
    ensures Bytes(Sextets(bytes)) == bytes
  {
    hide First, Second, Third, High, Middle, Lower, Low;
    if |bytes| >= 1 {
      BitsOfBytes(bytes[0], if |bytes| > 1 then bytes[1] else 0, if |bytes| > 2 then bytes[2] else 0);
    }
    if |bytes| >= 3 {
      BytesOfSextets(bytes[3..]);
      assert Sextets(bytes)[4..] == Sextets(bytes[3..]);
      assert bytes == bytes[..3] + bytes[3..];
    }
  }

  lemma ReadSpelled(ds: seq<Sextet>)
    ensures StandardText(SpellStandard(ds)) && Read(SpellStandard(ds)) == ds
  {
  }

  lemma {:induction false} NoSpaces(s: string)
    requires forall i | 0 <= i < |s| :: !IsSpace(s[i])
    ensures WithoutSpaces(s) == s
  {
    if s == [] {
    } else {
      NoSpaces(s[1..]);
    }
  }

  /** Padding is dropped again, unless three characters of it were needed. */
  lemma UnpaddedPad(s: string)
    requires StandardText(s)
    ensures Missing(|s|) < 3 ==> Unpadded(Pad(s)) == s
    ensures Missing(|s|) == 3 ==> !StandardText(Unpadded(Pad(s)))
  {
    hide Unpadded, StandardText;
    var n := Missing(|s|);
    UnpaddedEquals(s, n);
    if n == 3 {
      assert (s + "=")[|s|] == '=';
      NotStandard(s + "=", |s|);
    }
  }

  lemma UnpaddedEquals(s: string, n: nat)
    requires StandardText(s) && n <= 3 && (|s| + n) % 4 == 0
    ensures Unpadded(s + Equals(n)) == if n == 3 then s + "=" else s
  {
    var p := s + Equals(n);
    if n == 0 {
      assert p == s;
      assert s != [] ==> InStandard(s[|s| - 1]);
    } else if n == 1 {
      assert s != [] && InStandard(s[|s| - 1]) && p[|p| - 2] == s[|s| - 1];
      assert p[..|p| - 1] == s;
    } else {
      assert p[|p| - 1] == p[|p| - 2] == '=';
      assert p[..|p| - 2] == if n == 3 then s + "=" else s;
    }
  }

  lemma NotStandard(s: string, i: nat)
    requires i < |s| && s[i] == '='
    ensures !StandardText(s)
  {
  }

  /** For text in the standard alphabet, atob of the padded text fails exactly when one character is left over. */
  lemma AtobOfPadded(s: string)
    requires StandardText(s)
    ensures Atob(Pad(s)) == if |s| % 4 == 1 then None else Some(Bytes(Read(s)))
  {
    hide Unpadded, WithoutSpaces, Bytes, Read;
    var p := Pad(s);
    assert forall i | 0 <= i < |p| :: p[i] == '=' || (i < |s| && InStandard(s[i]) && p[i] == s[i]);
    NoSpaces(p);
    UnpaddedPad(s);
  }

  /** Decoding the standard encoding gives the bytes back. */
  lemma AtobInvertsEncoding(bytes: seq<Byte>)
    ensures Atob(EncodeStandard(bytes)) == Some(bytes)
  {
    hide Atob, Pad, Normalise, EncodeStandard, EncodeUrl, StandardText, Read, Bytes, SpellStandard;
    NormalisedIsStandard(bytes);
    NormaliseEncoded(bytes);
    ReadSpelled(Sextets(bytes));
    SextetCount(bytes);
    AtobOfPadded(SpellStandard(Sextets(bytes)));
    BytesOfSextets(bytes);
  }

  /** What decodeJwt makes of header.segment.signature. */
  lemma PayloadOf(header: string, segment: string, signature: string)
    requires '.' !in header && '.' !in segment && segment != ""
    ensures DecodePayload(header + "." + segment + "." + signature) == Atob(Pad(Normalise(segment)))
  {
    hide Split, Atob, Pad, Normalise;
    assert header + "." + segment + "." + signature == header + ['.'] + (segment + ['.'] + signature);
    SplitHead(header, segment + ['.'] + signature, '.');
    SplitHead(segment, signature, '.');
  }

  /**
   For every header, payload and signature, decodeJwt recovers exactly the payload bytes; it gives up on an
   empty payload.
   */
  lemma PayloadRoundTrip(header: string, payload: seq<Byte>, signature: string)
    requires '.' !in header
    ensures DecodePayload(header + "." + EncodeUrl(payload) + "." + signature) == if payload == [] then None else Some(payload)
  {
    hide DecodePayload, Atob, Pad, Normalise, EncodeStandard;
    var segment := EncodeUrl(payload);
    if payload == [] {
      EmptyPayload(header, signature);
    } else {
      assert forall i | 0 <= i < |segment| :: segment[i] != '.';
      PayloadOf(header, segment, signature);
      NormalisedIsStandard(payload);
      AtobInvertsEncoding(payload);
    }
  }

  lemma EmptyPayload(header: string, signature: string)
    requires '.' !in header
    ensures DecodePayload(header + "." + "" + "." + signature) == None
  {
    hide Split;
    assert header + "." + "" + "." + signature == header + ['.'] + ("" + ['.'] + signature);
    SplitHead(header, "" + ['.'] + signature, '.');
    SplitHead("", signature, '.');
  }

  /** A segment in the base64url alphabet is decoded exactly when its length does not leave one character over. */
  lemma SegmentAcceptance(header: string, segment: string, signature: string)
    requires '.' !in header && segment != "" && forall i | 0 <= i < |segment| :: InUrlSafe(segment[i])
    ensures DecodePayload(header + "." + segment + "." + signature).Some? <==> |segment| % 4 != 1
  {
    hide DecodePayload, Atob, Pad;
    assert '.' !in segment;
    PayloadOf(header, segment, signature);
    AtobOfPadded(Normalise(segment));
  }

  /** A test vector of section 10 of RFC 4648, and two bytes on whose last characters the alphabets differ. */
  lemma TestVectors()
    ensures EncodeStandard([102, 111, 111, 98, 97]) == "Zm9vYmE=" && EncodeUrl([102, 111, 111, 98, 97]) == "Zm9vYmE"
    ensures EncodeStandard([251, 255]) == "+/8=" && EncodeUrl([251, 255]) == "-_8"
  {
    var bytes: seq<Byte> := [102, 111, 111, 98, 97];
    assert bytes[3..] == [98, 97];
    assert Sextets(bytes) == [25, 38, 61, 47, 24, 38, 4];
    assert Sextets([251, 255]) == [62, 63, 60];
  }
}
