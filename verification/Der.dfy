/** The encoding of an RSA public key for signature checks (src/interceptors/auth.rs:673-709), against
    a decoder written from the standards: RSAPublicKey of RFC 8017 (appendix A.1.1) in the
    distinguished encoding of ITU-T X.690 (sections 8.1.3, 8.3 and 10.1). */
module Der {
  import opened Wrappers

  const INTEGER: Byte := 0x02
  const SEQUENCE: Byte := 0x30

  // ---------------------------------------------------------------- the encoder

  function LengthOctets(len: nat): Bytes {
    if len < 128 then [len]
    else if len < 256 then [0x81, len]
    else [0x82, (len / 256) % 256, len % 256]
  }

  /** The octets of a non-negative integer: a leading zero keeps the top bit from reading as a sign. */
  function Content(bytes: Bytes): Bytes {
    if bytes != [] && bytes[0] >= 128 then [0] + bytes else bytes
  }

  function Integer(bytes: Bytes): Bytes { [INTEGER] + LengthOctets(|Content(bytes)|) + Content(bytes) }

  function PublicKey(n: Bytes, e: Bytes): Bytes {
    [SEQUENCE] + LengthOctets(|Integer(n) + Integer(e)|) + (Integer(n) + Integer(e))
  }

  method EncodeDerLength(out: Bytes, len: nat) returns (out': Bytes)
    ensures out' == out + LengthOctets(len)
  {
    if len < 128 {
      out' := out + [len];
    } else if len < 256 {
      out' := out + [0x81];
      out' := out' + [len];
    } else {
      out' := out + [0x82];
      out' := out' + [(len / 256) % 256];
      out' := out' + [len % 256];
    }
  }

  method EncodeDerInteger(bytes: Bytes) returns (out: Bytes)
    ensures out == Integer(bytes)
  {
    out := [INTEGER];
    var needsLeadingZero := bytes != [] && bytes[0] >= 128;
    var len := |bytes| + if needsLeadingZero then 1 else 0;
    out := EncodeDerLength(out, len);
    if needsLeadingZero { out := out + [0]; }
    out := out + bytes;
  }

  method RsaComponentsToDer(n: Bytes, e: Bytes) returns (key: Bytes)
    ensures key == PublicKey(n, e)
  {
    var intN := EncodeDerInteger(n);
    var intE := EncodeDerInteger(e);
    key := [SEQUENCE];
    key := EncodeDerLength(key, |intN| + |intE|);
    key := key + intN;
    key := key + intE;
  }

  // ---------------------------------------------------------------- the decoder

  function BigEndian(b: Bytes): nat { if b == [] then 0 else BigEndian(b[..|b| - 1]) * 256 + b[|b| - 1] }

  function Power256(k: nat): nat { if k == 0 then 1 else 256 * Power256(k - 1) }

  /** Two's complement. */
  function Signed(b: Bytes): int { if b != [] && b[0] >= 128 then BigEndian(b) - Power256(|b|) else BigEndian(b) }

  /** A definite length in its shortest form, and what follows it. */
  function DecodeLength(s: Bytes): Option<(nat, Bytes)> {
    if s == [] then None
    else if s[0] < 128 then Some((s[0], s[1..]))
    else
      var k := s[0] - 128;
      if k == 0 || k == 127 || |s| < 1 + k then None
      else
        var len := BigEndian(s[1..1 + k]);
        if s[1] == 0 || len < 128 then None else Some((len, s[1 + k..]))
  }

  /** The first nine bits are neither all zero nor all one. */
  predicate Shortest(content: Bytes) {
    |content| >= 2 ==> !(content[0] == 0 && content[1] < 128) && !(content[0] == 255 && content[1] >= 128)
  }

  function DecodeInteger(s: Bytes, shortest: bool): Option<(int, Bytes)> {
    if s == [] || s[0] != INTEGER then None
    else
      var header := DecodeLength(s[1..]);
      if header.None? then None
      else
        var (len, rest) := header.value;
        if len == 0 || len > |rest| || (shortest && !Shortest(rest[..len])) then None
        else Some((Signed(rest[..len]), rest[len..]))
  }

  /** The modulus and the exponent; nothing may follow them. */
  function DecodePair(s: Bytes, shortest: bool): Option<(int, int)> {
    var n := DecodeInteger(s, shortest);
    if n.None? then None
    else
      var e := DecodeInteger(n.value.1, shortest);
      if e.None? || e.value.1 != [] then None else Some((n.value.0, e.value.0))
  }

  function DecodePublicKey(s: Bytes, shortest: bool): Option<(int, int)> {
    if s == [] || s[0] != SEQUENCE then None
    else
      var header := DecodeLength(s[1..]);
      if header.None? || header.value.0 != |header.value.1| then None else DecodePair(header.value.1, shortest)
  }

  // ---------------------------------------------------------------- round trips

  lemma BigEndianOfOneOrTwo(a: Byte, b: Byte)
    ensures BigEndian([a]) == a && BigEndian([a, b]) == a * 256 + b
  {
    assert [a][..0] == [];
    assert [a, b][..1] == [a];
  }

  /** The length read back is the length written up to 65535, in its shortest form; from there on the
      high bits are lost and something else is read, if anything. */
  lemma LengthRoundTripIff(len: nat, rest: Bytes)
    ensures DecodeLength(LengthOctets(len) + rest) == Some((len, rest)) <==> len < 65536
    ensures var header := DecodeLength(LengthOctets(len) + rest);
            len >= 65536 && header.Some? ==> header.value.0 < 65536 && header.value.1 == rest
  {
    var octets := LengthOctets(len);
    var s := octets + rest;
    assert s[|octets|..] == rest;
    if 128 <= len {
      assert s[1..|octets|] == octets[1..];
      BigEndianOfOneOrTwo(len % 256, 0);
      BigEndianOfOneOrTwo((len / 256) % 256, len % 256);
      if len >= 256 {
        assert octets[1..] == [(len / 256) % 256, len % 256];
      } else {
        assert octets[1..] == [len];
      }
    }
  }

  lemma {:induction false} LeadingZero(b: Bytes)
    ensures BigEndian([0] + b) == BigEndian(b)
  {
    if b == [] {
      BigEndianOfOneOrTwo(0, 0);
    } else {
      assert ([0] + b)[..|b|] == [0] + b[..|b| - 1];
      LeadingZero(b[..|b| - 1]);
    }
  }

  lemma ContentIsNonNegative(bytes: Bytes)
    ensures Signed(Content(bytes)) == BigEndian(bytes)
    ensures Content(bytes) == [] <==> bytes == []
  {
    LeadingZero(bytes);
  }

  /** No leading octet that could be dropped. */
  predicate NoSpareZero(bytes: Bytes) { |bytes| >= 2 ==> !(bytes[0] == 0 && bytes[1] < 128) }

  lemma ShortestIff(bytes: Bytes)
    ensures Shortest(Content(bytes)) <==> NoSpareZero(bytes)
  {
    if bytes != [] && bytes[0] >= 128 {
      assert Content(bytes)[1] == bytes[0];
    }
  }

  predicate Encodable(bytes: Bytes, shortest: bool) { bytes != [] && (shortest ==> NoSpareZero(bytes)) }

  lemma IntegerRoundTrip(bytes: Bytes, rest: Bytes, shortest: bool)
    requires |Content(bytes)| < 65536
    ensures DecodeInteger(Integer(bytes) + rest, shortest) ==
              if Encodable(bytes, shortest) then Some((BigEndian(bytes), rest)) else None
  {
    var c := Content(bytes);
    var s := Integer(bytes) + rest;
    assert s[1..] == LengthOctets(|c|) + (c + rest);
    LengthRoundTripIff(|c|, c + rest);
    assert (c + rest)[..|c|] == c && (c + rest)[|c|..] == rest;
    ContentIsNonNegative(bytes);
    ShortestIff(bytes);
  }

  lemma PairRoundTrip(n: Bytes, e: Bytes, shortest: bool)
    requires |Integer(n) + Integer(e)| < 65536
    ensures DecodePair(Integer(n) + Integer(e), shortest) ==
              if Encodable(n, shortest) && Encodable(e, shortest) then Some((BigEndian(n), BigEndian(e))) else None
  {
    IntegerRoundTrip(n, Integer(e), shortest);
    IntegerRoundTrip(e, [], shortest);
    assert Integer(e) + [] == Integer(e);
  }

  lemma EnvelopeRoundTrip(content: Bytes, shortest: bool)
    ensures DecodePublicKey([SEQUENCE] + LengthOctets(|content|) + content, shortest) ==
              if |content| < 65536 then DecodePair(content, shortest) else None
  {
    var s := [SEQUENCE] + LengthOctets(|content|) + content;
    assert s[1..] == LengthOctets(|content|) + content;
    LengthRoundTripIff(|content|, content);
  }

  /** The decoder consumes the whole key and recovers both numbers exactly when neither is empty and
      the content fits two length octets; one that insists on shortest integers, exactly when besides
      neither carries a spare leading zero. Otherwise it refuses the key. */
  lemma PublicKeyRoundTripIff(n: Bytes, e: Bytes, shortest: bool)
    ensures DecodePublicKey(PublicKey(n, e), shortest) ==
              if Encodable(n, shortest) && Encodable(e, shortest) && |Integer(n) + Integer(e)| < 65536
              then Some((BigEndian(n), BigEndian(e))) else None
  {
    EnvelopeRoundTrip(Integer(n) + Integer(e), shortest);
    if |Integer(n) + Integer(e)| < 65536 { PairRoundTrip(n, e, shortest); }
  }

  /** A small key, octet by octet: modulus 128, exponent 65537. */
  lemma SmallKey()
    ensures PublicKey([0x80], [0x01, 0x00, 0x01]) ==
              [0x30, 0x09, 0x02, 0x02, 0x00, 0x80, 0x02, 0x03, 0x01, 0x00, 0x01]
  {
    assert Integer([0x80]) == [0x02, 0x02, 0x00, 0x80];
    assert Integer([0x01, 0x00, 0x01]) == [0x02, 0x03, 0x01, 0x00, 0x01];
  }

  // ---------------------------------------------------------------- telling keys apart

  lemma HeaderTellsContent(c: Bytes, rest: Bytes, c': Bytes, rest': Bytes)
    requires |c| < 65536 && |c'| < 65536
    requires LengthOctets(|c|) + (c + rest) == LengthOctets(|c'|) + (c' + rest')
    ensures c == c' && rest == rest'
  {
    LengthRoundTripIff(|c|, c + rest);
    LengthRoundTripIff(|c'|, c' + rest');
    PrefixesTell(c, rest, c', rest');
  }

  lemma PrefixesTell(c: Bytes, rest: Bytes, c': Bytes, rest': Bytes)
    requires |c| == |c'| && c + rest == c' + rest'
    ensures c == c' && rest == rest'
  {
    assert (c + rest)[..|c|] == c && (c' + rest')[..|c'|] == c';
    assert (c + rest)[|c|..] == rest && (c' + rest')[|c'|..] == rest';
  }

  lemma AfterTag(tag: Byte, octets: Bytes, c: Bytes, rest: Bytes)
    ensures ([tag] + octets + c + rest)[1..] == octets + (c + rest)
  {}

  lemma IntegersTellContents(n: Bytes, rest: Bytes, n': Bytes, rest': Bytes)
    requires |Content(n)| < 65536 && |Content(n')| < 65536
    requires Integer(n) + rest == Integer(n') + rest'
    ensures Content(n) == Content(n') && rest == rest'
  {
    AfterTag(INTEGER, LengthOctets(|Content(n)|), Content(n), rest);
    AfterTag(INTEGER, LengthOctets(|Content(n')|), Content(n'), rest');
    HeaderTellsContent(Content(n), rest, Content(n'), rest');
  }

  lemma KeysTellContents(c: Bytes, c': Bytes)
    requires |c| < 65536
    requires [SEQUENCE] + LengthOctets(|c|) + c == [SEQUENCE] + LengthOctets(|c'|) + c'
    ensures c == c'
  {
    assert |c'| < 65536;
    AfterTag(SEQUENCE, LengthOctets(|c|), c, []);
    AfterTag(SEQUENCE, LengthOctets(|c'|), c', []);
    assert [SEQUENCE] + LengthOctets(|c|) + c + [] == [SEQUENCE] + LengthOctets(|c'|) + c' + [];
    HeaderTellsContent(c, [], c', []);
  }

  /** A key whose content fits two length octets shares its encoding with no other pair of numbers. */
  lemma EncodingIsInjective(n: Bytes, e: Bytes, n': Bytes, e': Bytes)
    requires |Integer(n) + Integer(e)| < 65536
    requires PublicKey(n, e) == PublicKey(n', e')
    ensures BigEndian(n) == BigEndian(n') && BigEndian(e) == BigEndian(e')
  {
    KeysTellContents(Integer(n) + Integer(e), Integer(n') + Integer(e'));
    IntegersTellContents(n, Integer(e), n', Integer(e'));
    assert Integer(e) + [] == Integer(e') + [];
    IntegersTellContents(e, [], e', []);
    ContentIsNonNegative(n);
    ContentIsNonNegative(n');
    ContentIsNonNegative(e);
    ContentIsNonNegative(e');
  }

  lemma {:induction false} LongerIsLarger(a: Bytes, b: Bytes)
    requires BigEndian(a) > 0
    ensures BigEndian(a + b) >= BigEndian(a) && (b != [] ==> BigEndian(a + b) > BigEndian(a))
  {
    if b == [] {
      assert a + b == a;
    } else {
      assert (a + b)[..|a + b| - 1] == a + b[..|b| - 1];
      LongerIsLarger(a, b[..|b| - 1]);
    }
  }

  lemma LengthsWrap(len: nat)
    requires 256 <= len
    ensures LengthOctets(len + 65536) == LengthOctets(len)
  {}

  lemma Regrouped(a: Bytes, b: Bytes, c: Bytes)
    ensures (a + b) + c == a + (b + c)
  {}

  lemma LongInteger(bytes: Bytes, len: nat)
    requires bytes != [] && bytes[0] < 128 && len >= 256 && |bytes| == len + 65536
    ensures Integer(bytes) == ([INTEGER] + LengthOctets(len)) + bytes
  {
    LengthsWrap(len);
  }

  /** Beyond that lengths are reduced modulo 65536, and keys can no longer be told apart: a piece that
      looks like the start of the exponent can be read as part of either number. */
  lemma LongKeysCollide(n: Bytes, e: Bytes, x: Bytes)
    requires |n| >= 256 && |e| >= 256 && |x| == 65532 && n[0] < 128 && e[0] < 128 && x[0] < 128 && BigEndian(n) > 0
    ensures var header := [INTEGER] + LengthOctets(|e|);
            && PublicKey(n + (header + x), e) == PublicKey(n, x + (header + e))
            && BigEndian(n + (header + x)) != BigEndian(n)
  {
    var front, header := [INTEGER] + LengthOctets(|n|), [INTEGER] + LengthOctets(|e|);
    LongInteger(n + (header + x), |n|);
    LongInteger(x + (header + e), |e|);
    Regrouped(front, n, header + x);
    Regrouped(front + n, header + x, header + e);
    Regrouped(header, x, header + e);
    LongerIsLarger(n, header + x);
  }
}
