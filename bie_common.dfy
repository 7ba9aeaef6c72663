/** The shared protocol vocabulary and the token generator of the WebSocket relay
    (bie-common/src/lib.rs). The random bytes that `ring::rand::SystemRandom` fills
    in are a parameter here. */
module BieCommon {
  import opened Common

  /** The messages the server's forwarder matches on. `FileChunk` carries raw
      bytes; the CBOR serialisation of a message is not modelled. */
  datatype BieProtocol =
    | Token(token: string)
    | FileChunk(chunk: seq<byte>)
    | EndOfFile
    | Ping
    | Pong
    | Close

  /** The 62 characters a token may contain, in the order the residues select them. */
  const TokenAlphabet: string := Digits + LowerLetters + UpperLetters
  const Digits: string := "0123456789"
  const LowerLetters: string := "abcdefghijklmnopqrstuvwxyz"
  const UpperLetters: string := "ABCDEFGHIJKLMNOPQRSTUVWXYZ"

  predicate IsAlphanumeric(c: char) {
    '0' <= c <= '9' || 'a' <= c <= 'z' || 'A' <= c <= 'Z'
  }

  /** The position of an alphanumeric character in `TokenAlphabet`. */
  function ResidueOfChar(c: char): (r: nat)
    requires IsAlphanumeric(c)
    ensures r < 62
  {
    if '0' <= c <= '9' then c as int - '0' as int
    else if 'a' <= c <= 'z' then c as int - 'a' as int + 10
    else c as int - 'A' as int + 36
  }

  /** One random byte to one token character: reduce modulo 62, then pick the
      digit, lower-case or upper-case range. The intermediate values are typed
      as bytes, so every arm is checked to stay within `u8`. The character is
      alphanumeric and sits at position `b % 62` of the alphabet. */
  function CharOfByte(b: byte): (c: char)
    ensures IsAlphanumeric(c)
    ensures ResidueOfChar(c) == b % 62
  {
    var r: byte := b % 62;
    if r <= 9 then
      var d: byte := r + '0' as int;
      d as char
    else if r <= 35 then
      var d: byte := r - 10 + 'a' as int;
      d as char
    else
      var d: byte := r - 36 + 'A' as int;
      d as char
  }

  /** The residue picks the character of `TokenAlphabet` at that position. */
  lemma CharOfByteInAlphabet(b: byte)
    ensures CharOfByte(b) == TokenAlphabet[b % 62]
  {
    var r := b % 62;
    if r <= 9 {
      DigitsInAlphabet(r);
    } else if r <= 35 {
      LowerLettersInAlphabet(r);
    } else {
      UpperLettersInAlphabet(r);
    }
  }

  lemma DigitsInAlphabet(r: nat)
    requires r < 10
    ensures TokenAlphabet[r] as int == '0' as int + r
  {
    assert TokenAlphabet[r] == Digits[r];
  }

  lemma LowerLettersInAlphabet(r: nat)
    requires 10 <= r < 36
    ensures TokenAlphabet[r] as int == 'a' as int + (r - 10)
  {
    assert TokenAlphabet[r] == LowerLetters[r - 10];
  }

  lemma UpperLettersInAlphabet(r: nat)
    requires 36 <= r < 62
    ensures TokenAlphabet[r] as int == 'A' as int + (r - 36)
  {
    assert TokenAlphabet[r] == UpperLetters[r - 36];
  }

  /** Two bytes give the same token character exactly when they agree modulo 62. */
  lemma SameCharIffSameResidue(a: byte, b: byte)
    ensures CharOfByte(a) == CharOfByte(b) <==> a % 62 == b % 62
  {
    if CharOfByte(a) == CharOfByte(b) {
      assert ResidueOfChar(CharOfByte(a)) == ResidueOfChar(CharOfByte(b));
    }
  }

  /** `generate_secure_random_string(length)` once its buffer of `length` random
      bytes has been filled: one character per byte, in order. */
  function GenerateSecureRandomString(length: nat, random: seq<byte>): (s: string)
    requires |random| == length
    ensures |s| == length
    ensures forall i :: 0 <= i < length ==> s[i] == CharOfByte(random[i])
  {
    if length == 0 then "" else [CharOfByte(random[0])] + GenerateSecureRandomString(length - 1, random[1..])
  }

  /** The mapping is pointwise: generating from two byte strings one after the
      other gives the concatenation of the two strings. */
  lemma {:induction false} GenerateAppend(a: seq<byte>, b: seq<byte>)
    ensures GenerateSecureRandomString(|a| + |b|, a + b)
         == GenerateSecureRandomString(|a|, a) + GenerateSecureRandomString(|b|, b)
  {
    if a != [] {
      assert (a + b)[1..] == a[1..] + b;
      assert (a + b)[0] == a[0];
      GenerateAppend(a[1..], b);
    }
  }

  /** Two byte buffers agree position by position modulo 62. */
  predicate SameResidues(a: seq<byte>, b: seq<byte>) {
    |a| == |b| && forall i :: 0 <= i < |a| ==> a[i] % 62 == b[i] % 62
  }

  /** Two buffers give the same token exactly when they agree byte by byte modulo 62. */
  lemma SameTokenIffSameResidues(a: seq<byte>, b: seq<byte>)
    requires |a| == |b|
    ensures GenerateSecureRandomString(|a|, a) == GenerateSecureRandomString(|b|, b) <==> SameResidues(a, b)
  {
    var s, t := GenerateSecureRandomString(|a|, a), GenerateSecureRandomString(|b|, b);
    if s == t {
      forall i | 0 <= i < |a| ensures a[i] % 62 == b[i] % 62 {
        assert CharOfByte(a[i]) == CharOfByte(b[i]);
        SameCharIffSameResidue(a[i], b[i]);
      }
    } else {
      var i :| 0 <= i < |a| && s[i] != t[i];
      assert CharOfByte(a[i]) != CharOfByte(b[i]);
      SameCharIffSameResidue(a[i], b[i]);
    }
  }
}
