/** Byte strings, little-endian integers and the sums the other modules count with. */
module Bytes {

  newtype Byte = x: int | 0 <= x < 256

  type Data = seq<Byte>

  /** 256 to the power `width`: one more than the largest integer `width` bytes hold. */
  function Limit(width: nat): (r: nat)
    ensures r >= 1
  {
    if width == 0 then 1 else 256 * Limit(width - 1)
  }

  /** The four widths the wire uses, spelled out for the solver. */
  lemma {:induction false} Limits()
    ensures Limit(1) == 0x100 && Limit(4) == 0x1_0000_0000 && Limit(8) == 0x1_0000_0000_0000_0000
  {
    assert Limit(2) == 0x1_0000;
    assert Limit(3) == 0x100_0000;
    assert Limit(4) == 0x1_0000_0000;
    assert Limit(5) == 0x100_0000_0000;
    assert Limit(6) == 0x1_0000_0000_0000;
    assert Limit(7) == 0x100_0000_0000_0000;
  }

  /** `n` as `width` bytes, least significant first: struct's "<B", "<I" and "<Q". */
  function Pack(n: nat, width: nat): (r: Data)
    ensures |r| == width
  {
    if width == 0 then [] else [(n % 256) as Byte] + Pack(n / 256, width - 1)
  }

  function Unpack(d: Data): nat {
    if d == [] then 0 else d[0] as nat + 256 * Unpack(d[1..])
  }

  lemma {:induction false} UnpackPack(n: nat, width: nat)
    requires n < Limit(width)
    ensures Unpack(Pack(n, width)) == n
  {
    if width > 0 {
      UnpackPack(n / 256, width - 1);
      assert Pack(n, width)[1..] == Pack(n / 256, width - 1);
    }
  }

  function Min(a: int, b: int): int {
    if a <= b then a else b
  }

  /** Python's `data[from:to]` for non-negative bounds: both ends are clamped to the length. */
  function Slice<T>(data: seq<T>, from: nat, to: nat): seq<T> {
    var stop := Min(to, |data|);
    if from < stop then data[from..stop] else []
  }

  function Flatten<T>(parts: seq<seq<T>>): seq<T> {
    if parts == [] then [] else parts[0] + Flatten(parts[1..])
  }

  lemma {:induction false} FlattenAppend<T>(a: seq<seq<T>>, b: seq<seq<T>>)
    ensures Flatten(a + b) == Flatten(a) + Flatten(b)
  {
    if a == [] {
      assert a + b == b;
    } else {
      assert (a + b)[1..] == a[1..] + b;
      FlattenAppend(a[1..], b);
    }
  }

  lemma {:induction false} FlattenSnoc<T>(a: seq<seq<T>>, x: seq<T>)
    ensures Flatten(a + [x]) == Flatten(a) + x
  {
    FlattenAppend(a, [x]);
    assert Flatten([x]) == x + Flatten<T>([]) == x;
  }

  /** A prefix of `x + y` stops inside `x`, or is `x` and a prefix of `y`. */
  lemma {:induction false} PrefixOfJoin<T>(b: seq<T>, x: seq<T>, y: seq<T>)
    requires b <= x + y
    ensures if |b| < |x| then b <= x
            else b == x + b[|x|..] && b[|x|..] <= y && (b[|x|..] == y <==> b == x + y)
  {
    if |b| < |x| {
      assert b == (x + y)[..|b|] == x[..|b|];
    } else {
      assert b[..|x|] == (x + y)[..|x|] == x;
      assert b[|x|..] == (x + y)[..|b|][|x|..] == y[..|b| - |x|];
    }
  }
}
