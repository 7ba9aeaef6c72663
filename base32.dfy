/** Base32 as used for the Go relay's session tokens: the standard alphabet of RFC 4648
    section 6 without `=` padding (`base32.StdEncoding.WithPadding(base32.NoPadding)`).
    The input bytes are read as one bit string, most significant bit first, cut into
    5-bit groups (the last one filled up with zero bits), and each group is written
    as one alphabet character. `Decode` is the inverse used to show that the
    encoding loses nothing. */
module Base32 {
  import opened Common

  /** The 32 characters of the standard base32 alphabet, by value. */
  const Alphabet: string := "ABCDEFGHIJKLMNOPQRSTUVWXYZ" + "234567"

  predicate IsBase32Char(c: char) {
    'A' <= c <= 'Z' || '2' <= c <= '7'
  }

  function Pow2(k: nat): (p: nat)
    ensures p >= 1
  {
    if k == 0 then 1 else 2 * Pow2(k - 1)
  }

  /** The `k` low bits of `v`, most significant first. */
  function BitsOf(v: nat, k: nat): (bits: seq<bool>)
    ensures |bits| == k
  {
    if k == 0 then [] else BitsOf(v / 2, k - 1) + [v % 2 == 1]
  }

  /** The number a bit string denotes, most significant bit first. */
  function ValueOf(bits: seq<bool>): (v: nat)
    ensures v < Pow2(|bits|)
  {
    if bits == [] then 0
    else 2 * ValueOf(bits[..|bits| - 1]) + (if bits[|bits| - 1] then 1 else 0)
  }

  lemma {:induction false} ValueOfBitsOf(v: nat, k: nat)
    requires v < Pow2(k)
    ensures ValueOf(BitsOf(v, k)) == v
  {
    if k > 0 {
      ValueOfBitsOf(v / 2, k - 1);
      var bits := BitsOf(v, k);
      assert bits[..k - 1] == BitsOf(v / 2, k - 1);
    }
  }

  lemma {:induction false} BitsOfValueOf(bits: seq<bool>)
    ensures BitsOf(ValueOf(bits), |bits|) == bits
  {
    if bits != [] {
      var init := bits[..|bits| - 1];
      BitsOfValueOf(init);
      assert bits == init + [bits[|bits| - 1]];
    }
  }

  function Zeros(k: nat): (z: seq<bool>)
    ensures |z| == k && forall i :: 0 <= i < k ==> !z[i]
  {
    seq(k, i => false)
  }

  /** The bits of a byte string, eight per byte, most significant first. */
  function BytesToBits(bytes: seq<byte>): (bits: seq<bool>)
    ensures |bits| == 8 * |bytes|
  {
    if bytes == [] then [] else BitsOf(bytes[0], 8) + BytesToBits(bytes[1..])
  }

  /** A bit string cut into 5-bit values; a short last group is filled with zero bits. */
  function Groups(bits: seq<bool>): (gs: seq<nat>)
    ensures |gs| == (|bits| + 4) / 5
    ensures forall i :: 0 <= i < |gs| ==> gs[i] < 32
    decreases |bits|
  {
    if bits == [] then []
    else if |bits| < 5 then [ValueOf(bits + Zeros(5 - |bits|))]
    else [ValueOf(bits[..5])] + Groups(bits[5..])
  }

  /** The alphabet character of a 5-bit value. */
  function CharOfValue(v: nat): (c: char)
    requires v < 32
    ensures c == Alphabet[v] && IsBase32Char(c)
  {
    if v < 26 then ('A' as int + v) as char else ('2' as int + v - 26) as char
  }

  /** `EncodeToString` of the unpadded standard encoding. */
  function Encode(bytes: seq<byte>): (s: string)
    ensures |s| == (8 * |bytes| + 4) / 5
    ensures forall i :: 0 <= i < |s| ==> IsBase32Char(s[i])
  {
    var gs := Groups(BytesToBits(bytes));
    seq(|gs|, i requires 0 <= i < |gs| => CharOfValue(gs[i]))
  }

  /** The value of a base32 character: its position in `Alphabet`. */
  function ValueOfChar(c: char): (v: nat)
    requires IsBase32Char(c)
    ensures v < 32 && Alphabet[v] == c
  {
    if 'A' <= c <= 'Z' then c as int - 'A' as int else c as int - '2' as int + 26
  }

  lemma CharValueRoundTrip(v: nat)
    requires v < 32
    ensures ValueOfChar(CharOfValue(v)) == v
  {
  }

  /** Five bits per value, in order. */
  function GroupBits(gs: seq<nat>): (bits: seq<bool>)
    ensures |bits| == 5 * |gs|
  {
    if gs == [] then [] else BitsOf(gs[0], 5) + GroupBits(gs[1..])
  }

  /** Eight bits per byte, in order. */
  function BitsToBytes(bits: seq<bool>): (bytes: seq<byte>)
    requires |bits| % 8 == 0
    ensures |bytes| == |bits| / 8
  {
    if bits == [] then []
    else
      var b := ValueOf(bits[..8]);
      assert Pow2(8) == 256;
      [b] + BitsToBytes(bits[8..])
  }

  /** The values of the characters of a base32 string. */
  function Values(s: string): (vs: seq<nat>)
    requires forall i :: 0 <= i < |s| ==> IsBase32Char(s[i])
    ensures |vs| == |s| && forall i :: 0 <= i < |s| ==> vs[i] < 32
  {
    seq(|s|, i requires 0 <= i < |s| => ValueOfChar(s[i]))
  }

  /** The whole bytes at the front of a bit string; trailing bits short of a byte are dropped. */
  function WholeBytes(bits: seq<bool>): (bytes: seq<byte>)
    ensures |bytes| == |bits| / 8
  {
    BitsToBytes(bits[..|bits| / 8 * 8])
  }

  /** The bytes a base32 string stands for, the trailing fill bits dropped;
      `None` for a character outside the alphabet. */
  function Decode(s: string): (r: Option<seq<byte>>)
    ensures r.Some? <==> forall i :: 0 <= i < |s| ==> IsBase32Char(s[i])
    ensures r.Some? ==> |r.value| == 5 * |s| / 8
  {
    if forall i :: 0 <= i < |s| ==> IsBase32Char(s[i]) then Some(WholeBytes(GroupBits(Values(s))))
    else None
  }

  lemma {:induction false} BitsToBytesToBits(bytes: seq<byte>)
    ensures BitsToBytes(BytesToBits(bytes)) == bytes
  {
    if bytes != [] {
      var bits := BytesToBits(bytes);
      assert bits[..8] == BitsOf(bytes[0], 8);
      assert bits[8..] == BytesToBits(bytes[1..]);
      assert Pow2(8) == 256;
      ValueOfBitsOf(bytes[0], 8);
      BitsToBytesToBits(bytes[1..]);
    }
  }

  /** Grouping loses nothing: the groups' bits are the input followed by the fill bits. */
  lemma {:induction false} GroupBitsOfGroups(bits: seq<bool>)
    ensures GroupBits(Groups(bits)) == bits + Zeros(5 * ((|bits| + 4) / 5) - |bits|)
    decreases |bits|
  {
    if bits == [] {
    } else if |bits| < 5 {
      var padded := bits + Zeros(5 - |bits|);
      BitsOfValueOf(padded);
      assert GroupBits(Groups(bits)) == BitsOf(ValueOf(padded), 5) + GroupBits([]);
    } else {
      BitsOfValueOf(bits[..5]);
      GroupBitsOfGroups(bits[5..]);
      var gs := Groups(bits);
      assert gs[1..] == Groups(bits[5..]);
      assert bits == bits[..5] + bits[5..];
      assert 5 * ((|bits| + 4) / 5) - |bits| == 5 * ((|bits[5..]| + 4) / 5) - |bits[5..]|;
    }
  }

  lemma ValuesOfEncode(bytes: seq<byte>)
    ensures Values(Encode(bytes)) == Groups(BytesToBits(bytes))
  {
    var gs := Groups(BytesToBits(bytes));
    forall i | 0 <= i < |gs| ensures Values(Encode(bytes))[i] == gs[i] {
      CharValueRoundTrip(gs[i]);
    }
  }

  lemma WholeBytesOfPadded(bytes: seq<byte>, pad: nat)
    requires pad < 8
    ensures WholeBytes(BytesToBits(bytes) + Zeros(pad)) == bytes
  {
    var bits := BytesToBits(bytes);
    var all := bits + Zeros(pad);
    assert |all| / 8 * 8 == |bits|;
    assert all[..|all| / 8 * 8] == bits;
    BitsToBytesToBits(bytes);
  }

  /** Decoding an encoding gives back the original bytes, so distinct random buffers
      give distinct encodings. */
  lemma DecodeEncode(bytes: seq<byte>)
    ensures Decode(Encode(bytes)) == Some(bytes)
  {
    var bits := BytesToBits(bytes);
    ValuesOfEncode(bytes);
    GroupBitsOfGroups(bits);
    WholeBytesOfPadded(bytes, 5 * ((|bits| + 4) / 5) - |bits|);
  }

  lemma EncodeInjective(a: seq<byte>, b: seq<byte>)
    requires Encode(a) == Encode(b)
    ensures a == b
  {
    DecodeEncode(a);
    DecodeEncode(b);
  }
}
