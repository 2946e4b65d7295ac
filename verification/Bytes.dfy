// Constants of structs.h, and byte buffers as values: what memcpy, memmove and
// memset do to the contents of a buffer.
module Structs {
  const MAX_FILE_DATA_LEN: nat := 0x1_0000_0000
  const BLOCK_LEN: nat := 256
  const MAX_NUM_FILES: nat := 65536
  const NAME_LEN: nat := 64
  const OFFSET_LEN: nat := 4
  const META_LEN: nat := 72
  const HASH_LEN: nat := 16

  type byte = x: int | 0 <= x < 256
}

module Bytes {
  import opened Structs

  /** The n bytes of s from position at; positions outside s read as null bytes. */
  function Window(s: seq<byte>, at: int, n: nat): (r: seq<byte>)
    ensures |r| == n
    ensures forall k :: 0 <= k < n ==> r[k] == if 0 <= at + k < |s| then s[at + k] else 0
    ensures 0 <= at && at + n <= |s| ==> r == s[at..at + n]
  {
    seq(n, k requires 0 <= k < n => if 0 <= at + k < |s| then s[at + k] else 0)
  }

  /** s with the bytes t copied over it from position at. */
  function Overwrite(s: seq<byte>, at: int, t: seq<byte>): (r: seq<byte>)
    ensures |r| == |s|
    ensures forall k :: 0 <= k < |s| ==> r[k] == if at <= k < at + |t| then t[k - at] else s[k]
  {
    seq(|s|, k requires 0 <= k < |s| => if at <= k < at + |t| then t[k - at] else s[k])
  }

  function Zeros(n: nat): (r: seq<byte>)
    ensures |r| == n && forall k :: 0 <= k < n ==> r[k] == 0
  {
    seq(n, k => 0)
  }

  /** Two buffers of one length agree everywhere outside [lo, hi). */
  ghost predicate SameOutside(s: seq<byte>, t: seq<byte>, lo: int, hi: int) {
    |s| == |t| && forall k :: 0 <= k < |s| && !(lo <= k < hi) ==> t[k] == s[k]
  }

  lemma OverwriteBeside(s: seq<byte>, at: int, t: seq<byte>)
    ensures SameOutside(s, Overwrite(s, at, t), at, at + |t|) && |Overwrite(s, at, t)| == |s|
  {
  }

  lemma WindowOfOverwrite(s: seq<byte>, at: int, t: seq<byte>)
    requires 0 <= at && at + |t| <= |s|
    ensures Window(Overwrite(s, at, t), at, |t|) == t
  {
  }

  lemma WindowBeside(s: seq<byte>, at: int, t: seq<byte>, from: int, n: nat)
    requires from + n <= at || at + |t| <= from
    ensures Window(Overwrite(s, at, t), from, n) == Window(s, from, n)
  {
  }

  lemma WindowSame(s: seq<byte>, t: seq<byte>, lo: int, hi: int, from: int, n: nat)
    requires SameOutside(s, t, lo, hi)
    requires from + n <= lo || hi <= from
    ensures Window(s, from, n) == Window(t, from, n)
  {
  }

  // Little-endian 32-bit words

  /** The low 32 bits of x, as a 4-byte memcpy out of a wider variable stores them. */
  function Le32(x: nat): (r: seq<byte>)
    ensures |r| == 4
  {
    [x % 256, x / 256 % 256, x / 65536 % 256, x / 16777216 % 256]
  }

  function FromLe32(s: seq<byte>): (r: nat)
    requires |s| == 4
    ensures r < MAX_FILE_DATA_LEN
  {
    s[0] as int + 256 * s[1] as int + 65536 * s[2] as int + 16777216 * s[3] as int
  }

  lemma Le32RoundTrip(x: nat)
    ensures FromLe32(Le32(x)) == x % MAX_FILE_DATA_LEN
  {
    var y := x / 256;
    var z := y / 256;
    var u := z / 256;
    assert y / 256 == x / 65536 && z / 256 == x / 16777216;
    assert x == 256 * y + x % 256 && y == 256 * z + y % 256 && z == 256 * u + z % 256 && u == 256 * (u / 256) + u % 256;
    assert x == MAX_FILE_DATA_LEN * (u / 256) + FromLe32(Le32(x));
  }

  /** The 32-bit value of four bytes, the lowest first. */
  function Value(x0: int, x1: int, x2: int, x3: int): int {
    x0 + 0x100 * x1 + 0x1_0000 * x2 + 0x100_0000 * x3
  }

  lemma Le32Bytes(x: nat)
    requires x < 0x1_0000_0000
    ensures var r := Le32(x); Value(r[0], r[1], r[2], r[3]) == x
  {
    hide Le32;
    Le32RoundTrip(x);
  }
}

// The C library calls on buffers
module Memory {
  import opened Structs
  import opened Bytes

  method MemMove(a: array<byte>, to: nat, from: nat, n: nat)
    requires to + n <= a.Length && from + n <= a.Length
    modifies a
    ensures a[..] == Overwrite(old(a[..]), to, Window(old(a[..]), from, n))
  {
    forall k | 0 <= k < n {
      a[to + k] := a[from + k];
    }
  }

  method MemCopy(a: array<byte>, to: nat, s: seq<byte>)
    requires to + |s| <= a.Length
    modifies a
    ensures a[..] == Overwrite(old(a[..]), to, s)
  {
    forall k | 0 <= k < |s| {
      a[to + k] := s[k];
    }
  }

  /** write_null_byte; the bounds below MAX_FILE_DATA_LEN are the source's assertion. */
  method WriteNullByte(a: array<byte>, offset: nat, count: nat) returns (written: nat)
    requires offset + count <= a.Length
    requires count > 0 ==> count < MAX_FILE_DATA_LEN && offset < MAX_FILE_DATA_LEN
    modifies a
    ensures a[..] == Overwrite(old(a[..]), offset, Zeros(count))
    ensures written == count
  {
    if count <= 0 {
      return 0;
    }
    forall k | 0 <= k < count {
      a[offset + k] := 0;
    }
    return count;
  }
}
