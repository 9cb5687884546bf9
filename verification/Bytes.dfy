/** Bytes and the fixed-width big-endian integers that RTP and RTCP put on the wire. */
module Bytes {

  newtype byte = x: int | 0 <= x < 256
  type u16 = x: int | 0 <= x < 0x1_0000
  type u32 = x: int | 0 <= x < 0x1_0000_0000
  type i32 = x: int | -0x8000_0000 <= x < 0x8000_0000
  type bytes = seq<byte>

  datatype Option<+T> = None | Some(value: T)

  function Be16(v: u16): (b: bytes)
    ensures |b| == 2
  {
    [(v / 0x100) as byte, (v % 0x100) as byte]
  }

  function Be32(v: u32): (b: bytes)
    ensures |b| == 4
  {
    Be16(v / 0x1_0000) + Be16(v % 0x1_0000)
  }

  function U16At(b: bytes, p: nat): u16
    requires p + 2 <= |b|
  {
    b[p] as int * 0x100 + b[p + 1] as int
  }

  function U32At(b: bytes, p: nat): u32
    requires p + 4 <= |b|
  {
    U16At(b, p) as int * 0x1_0000 + U16At(b, p + 2)
  }

  /** The bytes b stand in d from position p on. */
  ghost predicate At(d: bytes, p: nat, b: bytes) {
    p + |b| <= |d| && forall k :: 0 <= k < |b| ==> d[p + k] == b[k]
  }

  lemma {:induction false} AtConcat(d: bytes, p: nat, a: bytes, b: bytes)
    ensures At(d, p, a + b) <==> At(d, p, a) && At(d, p + |a|, b)
  {
    if At(d, p, a + b) {
      forall k | 0 <= k < |a|
        ensures d[p + k] == a[k]
      {
        assert (a + b)[k] == a[k];
      }
      forall k | 0 <= k < |b|
        ensures d[p + |a| + k] == b[k]
      {
        assert (a + b)[|a| + k] == b[k];
        assert d[p + (|a| + k)] == (a + b)[|a| + k];
      }
    }
    if At(d, p, a) && At(d, p + |a|, b) {
      forall k | 0 <= k < |a + b|
        ensures d[p + k] == (a + b)[k]
      {
        if k >= |a| {
          assert d[p + |a| + (k - |a|)] == b[k - |a|];
        }
      }
    }
  }

  lemma {:induction false} AtSlice(d: bytes, p: nat, b: bytes)
    requires At(d, p, b)
    ensures d[p..p + |b|] == b
  {
  }

  lemma {:induction false} Read16(d: bytes, p: nat, v: u16)
    requires At(d, p, Be16(v))
    ensures U16At(d, p) == v
  {
    assert d[p + 0] == Be16(v)[0] && d[p + 1] == Be16(v)[1];
  }

  lemma {:induction false} Read32(d: bytes, p: nat, v: u32)
    requires At(d, p, Be32(v))
    ensures U32At(d, p) == v
  {
    AtConcat(d, p, Be16(v / 0x1_0000), Be16(v % 0x1_0000));
    Read16(d, p, v / 0x1_0000);
    Read16(d, p + 2, v % 0x1_0000);
  }

  /** A run of 32-bit words in network byte order. */
  function Words(vs: seq<u32>): (b: bytes)
    ensures |b| == 4 * |vs|
  {
    if vs == [] then [] else Be32(vs[0]) + Words(vs[1..])
  }

  lemma {:induction false} WordsAppend(vs: seq<u32>, v: u32)
    ensures Words(vs + [v]) == Words(vs) + Be32(v)
    decreases |vs|
  {
    if vs == [] {
      assert [] + [v] == [v] && Words([v]) == Be32(v) + Words([]);
    } else {
      assert (vs + [v])[1..] == vs[1..] + [v];
      WordsAppend(vs[1..], v);
    }
  }

  lemma {:induction false} ReadWord(d: bytes, p: nat, ws: seq<u32>, i: nat)
    requires At(d, p, Words(ws)) && i < |ws|
    ensures U32At(d, p + 4 * i) == ws[i]
    decreases i
  {
    AtConcat(d, p, Be32(ws[0]), Words(ws[1..]));
    if i == 0 {
      Read32(d, p, ws[0]);
    } else {
      ReadWord(d, p + 4, ws[1..], i - 1);
      assert p + 4 + 4 * (i - 1) == p + 4 * i;
    }
  }

  /** A list of buffers, written one after the other. */
  function Flatten(bs: seq<bytes>): bytes {
    if bs == [] then [] else bs[0] + Flatten(bs[1..])
  }

  lemma {:induction false} FlattenAppend(bs: seq<bytes>, b: bytes)
    ensures Flatten(bs + [b]) == Flatten(bs) + b
    decreases |bs|
  {
    if bs == [] {
      assert Flatten([b]) == b + Flatten([]);
    } else {
      assert (bs + [b])[1..] == bs[1..] + [b];
      FlattenAppend(bs[1..], b);
    }
  }

  lemma {:induction false} FlattenConcat(a: seq<bytes>, b: seq<bytes>)
    ensures Flatten(a + b) == Flatten(a) + Flatten(b)
    decreases |a|
  {
    if a == [] {
      assert a + b == b;
    } else {
      assert (a + b)[1..] == a[1..] + b;
      FlattenConcat(a[1..], b);
    }
  }

  function Zeros(n: nat): (b: bytes)
    ensures |b| == n && forall i :: 0 <= i < n ==> b[i] == 0
  {
    seq(n, _ => 0)
  }

  /** The number of bytes that bring a length of n to a 32-bit boundary. */
  function PadTo4(n: nat): (r: nat)
    ensures r < 4
  {
    if n % 4 == 0 then 0 else 4 - n % 4
  }

  /**
   memcpy to offset p of a buffer whose bytes from base on belong to the packet being written: the
   packet grows by b, and what stands in front of it stays.
   */
  method Append(buf: array<byte>, ghost base: nat, p: nat, b: bytes)
    requires base <= p && p + |b| <= buf.Length
    modifies buf
    ensures buf[..base] == old(buf[..base])
    ensures buf[base..p + |b|] == old(buf[base..p]) + b
  {
    for i := 0 to |b|
      invariant buf[..base] == old(buf[..base])
      invariant buf[base..p + i] == old(buf[base..p]) + b[..i]
    {
      buf[p + i] := b[i];
      assert buf[base..p + i + 1] == buf[base..p + i] + [b[i]];
      assert b[..i + 1] == b[..i] + [b[i]];
    }
    assert b[..|b|] == b;
  }
}
