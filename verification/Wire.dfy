/** Little-endian wire primitives: a growing buffer, a bounds-checked cursor, and why they are exact inverses. */
module Wire {
  import opened Bytes

  datatype Parsed<+T> = Malformed | Parsed(value: T, rest: seq<byte>)

  function Bound(width: nat): (n: nat)
    ensures n > 0
  {
    if width == 0 then 1 else 0x100 * Bound(width - 1)
  }

  /** The low `width` bytes of a value, least significant first. */
  function Le(value: nat, width: nat): (s: seq<byte>)
    ensures |s| == width
    decreases width
  {
    if width == 0 then [] else [(value % 0x100) as byte] + Le(value / 0x100, width - 1)
  }

  function Number(s: seq<byte>): nat {
    if s == [] then 0 else s[0] as nat + 0x100 * Number(s[1..])
  }

  function ReadLe(s: seq<byte>, width: nat): Parsed<nat> {
    if |s| < width then Malformed else Parsed(Number(s[..width]), s[width..])
  }

  function ReadBytes(s: seq<byte>, count: nat): Parsed<seq<byte>> {
    if |s| < count then Malformed else Parsed(s[..count], s[count..])
  }

  /** A byte string behind its 32-bit length. */
  function Text(t: seq<byte>): seq<byte> {
    Le(|t|, 4) + t
  }

  function ReadText(s: seq<byte>): Parsed<seq<byte>> {
    match ReadLe(s, 4)
    case Malformed => Malformed
    case Parsed(n, rest) => ReadBytes(rest, n)
  }

  lemma {:induction false} NumberOfLe(value: nat, width: nat)
    requires value < Bound(width)
    ensures Number(Le(value, width)) == value
    decreases width
  {
    if width > 0 {
      assert Bound(width) == 0x100 * Bound(width - 1);
      assert value / 0x100 < Bound(width - 1);
      NumberOfLe(value / 0x100, width - 1);
      assert Le(value, width)[1..] == Le(value / 0x100, width - 1);
    }
  }

  lemma Multiples(divisor: int, d: int)
    requires divisor > 0
    ensures d >= 1 ==> divisor * d >= divisor
    ensures d <= -1 ==> divisor * d <= 0 - divisor
  {
  }

  lemma Remainder(value: nat, divisor: nat, q: nat, r: nat)
    requires value == divisor * q + r && r < divisor
    ensures value % divisor == r
  {
    var d := value / divisor - q;
    assert value % divisor == r - divisor * d;
    Multiples(divisor, d);
  }

  lemma {:induction false} LeOfNumber(s: seq<byte>)
    ensures Number(s) < Bound(|s|) && Le(Number(s), |s|) == s
  {
    if s != [] {
      LeOfNumber(s[1..]);
      assert s == [s[0]] + s[1..];
    }
  }

  /** Reading a number succeeds on exactly the texts that begin with its encoding. */
  lemma LeExact(s: seq<byte>, width: nat, value: nat, rest: seq<byte>)
    ensures ReadLe(s, width) == Parsed(value, rest) <==> value < Bound(width) && s == Le(value, width) + rest
  {
    if ReadLe(s, width) == Parsed(value, rest) {
      LeOfNumber(s[..width]);
      assert s == s[..width] + s[width..];
    }
    if value < Bound(width) && s == Le(value, width) + rest {
      NumberOfLe(value, width);
      assert s[..width] == Le(value, width) && s[width..] == rest;
    }
  }

  lemma BytesExact(s: seq<byte>, count: nat, value: seq<byte>, rest: seq<byte>)
    ensures ReadBytes(s, count) == Parsed(value, rest) <==> |value| == count && s == value + rest
  {
    if ReadBytes(s, count) == Parsed(value, rest) {
      assert s == s[..count] + s[count..];
    }
  }

  lemma TextExact(s: seq<byte>, t: seq<byte>, rest: seq<byte>)
    ensures ReadText(s) == Parsed(t, rest) <==> |t| < Bound(4) && s == Text(t) + rest
  {
    LeExact(s, 4, |t|, t + rest);
    if ReadText(s) == Parsed(t, rest) {
      var n := ReadLe(s, 4);
      LeExact(s, 4, n.value, n.rest);
      BytesExact(n.rest, n.value, t, rest);
    }
    if |t| < Bound(4) && s == Text(t) + rest {
      assert s == Le(|t|, 4) + (t + rest);
      BytesExact(t + rest, |t|, t, rest);
    }
    assert Le(|t|, 4) + (t + rest) == Text(t) + rest;
  }

  lemma FourBytes()
    ensures Bound(1) == 0x100 && Bound(2) == 0x1_0000 && Bound(4) == U32_MAX + 1 && Bound(8) == U64_MAX + 1
  {
    assert Bound(2) == 0x100 * Bound(1);
    assert Bound(3) == 0x100 * Bound(2);
    assert Bound(4) == 0x100 * Bound(3);
    assert Bound(5) == 0x100 * Bound(4);
    assert Bound(6) == 0x100 * Bound(5);
    assert Bound(7) == 0x100 * Bound(6);
  }

  /** The vector an encoder appends to. */
  class Buffer {
    var bytes: seq<byte>

    constructor ()
      ensures bytes == []
    {
      bytes := [];
    }

    method AppendLe(value: nat, width: nat)
      modifies this
      ensures bytes == old(bytes) + Le(value, width)
    {
      var shifted := value;
      for i := 0 to width
        invariant bytes + Le(shifted, width - i) == old(bytes) + Le(value, width)
      {
        bytes := bytes + [(shifted % 0x100) as byte];
        shifted := shifted / 0x100;
      }
    }

    method AppendBytes(s: seq<byte>)
      modifies this
      ensures bytes == old(bytes) + s
    {
      bytes := bytes + s;
    }

    method AppendText(t: seq<byte>)
      modifies this
      ensures bytes == old(bytes) + Text(t)
    {
      AppendLe(|t|, 4);
      AppendBytes(t);
    }
  }

  /** A span with the offset a decoder advances; a refused read leaves the offset alone. */
  class Cursor {
    const data: seq<byte>
    var offset: nat

    ghost predicate Valid()
      reads this
    {
      offset <= |data|
    }

    ghost function Rest(): seq<byte>
      reads this
      requires Valid()
    {
      data[offset..]
    }

    constructor (data: seq<byte>)
      ensures this.data == data && offset == 0 && Valid() && Rest() == data
    {
      this.data := data;
      offset := 0;
    }

    method TakeLe(width: nat) returns (ok: bool, value: nat)
      requires Valid()
      modifies this`offset
      ensures Valid() && old(offset) <= offset
      ensures if ok then Parsed(value, Rest()) == ReadLe(old(Rest()), width)
              else ReadLe(old(Rest()), width).Malformed? && offset == old(offset)
    {
      if width > |data| - offset {
        return false, 0;
      }
      ghost var s := Rest();
      var i: nat := width;
      value := 0;
      while i > 0
        invariant i <= width <= |data| - offset && s == Rest()
        invariant value == Number(data[offset + i..offset + width])
      {
        i := i - 1;
        assert data[offset + i..offset + width][1..] == data[offset + i + 1..offset + width];
        value := data[offset + i] as nat + 0x100 * value;
      }
      offset := offset + width;
      assert s[..width] == data[offset - width..offset] && s[width..] == Rest();
      ok := true;
    }

    method TakeBytes(count: nat) returns (ok: bool, value: seq<byte>)
      requires Valid()
      modifies this`offset
      ensures Valid() && old(offset) <= offset
      ensures ok ==> |value| == count
      ensures if ok then Parsed(value, Rest()) == ReadBytes(old(Rest()), count)
              else ReadBytes(old(Rest()), count).Malformed? && offset == old(offset)
    {
      if count > |data| - offset {
        return false, [];
      }
      ghost var s := Rest();
      value := data[offset..offset + count];
      offset := offset + count;
      assert s[..count] == value && s[count..] == Rest();
      ok := true;
    }

    method TakeText() returns (ok: bool, value: seq<byte>)
      requires Valid()
      modifies this`offset
      ensures Valid() && old(offset) <= offset
      ensures if ok then Parsed(value, Rest()) == ReadText(old(Rest())) else ReadText(old(Rest())).Malformed?
    {
      var count;
      ok, count := TakeLe(4);
      if !ok {
        return false, [];
      }
      ok, value := TakeBytes(count);
    }
  }
}
