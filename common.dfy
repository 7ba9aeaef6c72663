/** Small vocabulary shared by the Rust server, the Go relay and the Go logger models:
    an optional value, bytes, and ASCII case folding. */
module Common {

  datatype Option<+T> = None | Some(value: T)

  /** An unsigned 8-bit value (Rust `u8`, Go `byte`). */
  type byte = x: int | 0 <= x < 256

  predicate IsUpperAscii(c: char) {
    'A' <= c <= 'Z'
  }

  /** ASCII lower-casing of one character; every other character is kept. */
  function LowerChar(c: char): (r: char)
    ensures IsUpperAscii(c) ==> r as int == c as int + 32
    ensures !IsUpperAscii(c) ==> r == c
    ensures !IsUpperAscii(r)
  {
    if IsUpperAscii(c) then (c as int + 32) as char else c
  }

  /** Lower-casing of a string, restricted to ASCII (Go's `strings.ToLower` on ASCII input). */
  function Lower(s: string): (r: string)
    ensures |r| == |s|
    ensures forall i :: 0 <= i < |s| ==> r[i] == LowerChar(s[i])
  {
    seq(|s|, i requires 0 <= i < |s| => LowerChar(s[i]))
  }

  predicate IsLowerString(s: string) {
    forall i :: 0 <= i < |s| ==> !IsUpperAscii(s[i])
  }

  lemma LowerIsLower(s: string)
    ensures IsLowerString(Lower(s))
  {
  }

  /** Lower-casing a string that has no upper-case ASCII letter changes nothing. */
  lemma LowerOfLower(s: string)
    requires IsLowerString(s)
    ensures Lower(s) == s
  {
  }

  lemma LowerIdempotent(s: string)
    ensures Lower(Lower(s)) == Lower(s)
  {
    LowerIsLower(s);
    LowerOfLower(Lower(s));
  }

  lemma LowerAppend(a: string, b: string)
    ensures Lower(a + b) == Lower(a) + Lower(b)
  {
  }
}
