/** Bytes, fixed-size byte arrays and UTF-8 well-formedness, shared by the other modules. */
module Bytes {
  type byte = b: int | 0 <= b < 0x100

  const U32_MAX: nat := 0xffff_ffff
  const U64_MAX: nat := 0xffff_ffff_ffff_ffff

  datatype Option<+T> = None | Some(value: T)

  function Min(a: nat, b: nat): nat {
    if a <= b then a else b
  }

  function Zeros(n: nat): (s: seq<byte>)
    ensures |s| == n
  {
    seq(n, _ => 0)
  }

  type Bytes16 = s: seq<byte> | |s| == 16 witness Zeros(16)
  type Bytes32 = s: seq<byte> | |s| == 32 witness Zeros(32)

  predicate HasNonzero(s: seq<byte>) {
    exists i :: 0 <= i < |s| && s[i] != 0
  }

  predicate IsContinuation(b: byte) {
    0x80 <= b < 0xc0
  }

  /** Length in bytes of the UTF-8 character at the front of `s`, 0 when there is none (section 3 of RFC 3629). */
  function CharLength(s: seq<byte>): (n: nat)
    ensures n <= |s|
    ensures n > 1 ==> forall i :: 0 <= i < n ==> s[i] >= 0x80
  {
    if s == [] then 0
    else if s[0] < 0x80 then 1
    else if 0xc2 <= s[0] < 0xe0 then
      if |s| >= 2 && IsContinuation(s[1]) then 2 else 0
    else if 0xe0 <= s[0] < 0xf0 then
      if |s| >= 3 && IsContinuation(s[1]) && IsContinuation(s[2]) &&
         !(s[0] == 0xe0 && s[1] < 0xa0) && !(s[0] == 0xed && s[1] >= 0xa0) then 3 else 0
    else if 0xf0 <= s[0] < 0xf5 then
      if |s| >= 4 && IsContinuation(s[1]) && IsContinuation(s[2]) && IsContinuation(s[3]) &&
         !(s[0] == 0xf0 && s[1] < 0x90) && !(s[0] == 0xf4 && s[1] > 0x8f) then 4 else 0
    else 0
  }

  predicate ValidUtf8(s: seq<byte>) {
    s == [] || (CharLength(s) > 0 && ValidUtf8(s[CharLength(s)..]))
  }

  /** A bounded, nonempty identifier: UTF-8 without NUL. */
  predicate ValidText(s: seq<byte>, maximum: nat) {
    0 < |s| <= maximum && 0 !in s && ValidUtf8(s)
  }
}
