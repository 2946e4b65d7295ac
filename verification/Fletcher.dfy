// The checksum of myfilesystem.c: four accumulators modulo 2^32 - 1 over the
// little-endian 32-bit words of a buffer.
module FletcherSum {
  import opened Structs
  import opened Bytes
  import opened Memory

  const MODULUS: nat := 0xFFFF_FFFF
  const HASH_OFFSET_B: nat := 4
  const HASH_OFFSET_C: nat := 8
  const HASH_OFFSET_D: nat := 12

  type uint64 = x: int | 0 <= x < 0x1_0000_0000_0000_0000

  datatype Sums = Sums(a: nat, b: nat, c: nat, d: nat)

  /** The 32-bit words of s, the last one padded with null bytes. */
  function Words(s: seq<byte>): (ws: seq<nat>)
    ensures |ws| == (|s| + 3) / 4
    ensures forall i :: 0 <= i < |ws| ==> ws[i] == FromLe32(Window(s, 4 * i, 4))
  {
    seq((|s| + 3) / 4, i => FromLe32(Window(s, 4 * i, 4)))
  }

  function Absorb(ws: seq<nat>): (r: Sums)
    ensures r.a < MODULUS && r.b < MODULUS && r.c < MODULUS && r.d < MODULUS
  {
    if |ws| == 0 then Sums(0, 0, 0, 0)
    else AbsorbWord(Absorb(ws[..|ws| - 1]), ws[|ws| - 1])
  }

  function Reduce(x: int): (r: nat)
    ensures r < MODULUS
  {
    x % MODULUS
  }

  function AbsorbWord(st: Sums, w: nat): (r: Sums)
    ensures r.a < MODULUS && r.b < MODULUS && r.c < MODULUS && r.d < MODULUS
  {
    var a := Reduce(st.a + w);
    var b := Reduce(st.b + a);
    var c := Reduce(st.c + b);
    var d := Reduce(st.d + c);
    Sums(a, b, c, d)
  }

  function Encode(st: Sums): (r: seq<byte>)
    ensures |r| == HASH_LEN
  {
    Le32(st.a) + Le32(st.b) + Le32(st.c) + Le32(st.d)
  }

  /** The 16 bytes that fletcher stores for a buffer with contents s. */
  function Digest(s: seq<byte>): (r: seq<byte>)
    ensures |r| == HASH_LEN
  {
    Encode(Absorb(Words(s)))
  }

  /** fletcher */
  method Fletcher(buf: array<byte>, from: nat, length: uint64, out: array<byte>, at: nat)
    requires from + length <= buf.Length && at + HASH_LEN <= out.Length
    modifies out
    ensures out[..] == Overwrite(old(out[..]), at, Digest(old(buf[from..from + length])))
  {
    var a, b, c, d := Accumulate(buf, from, length);
    ghost var was := out[..];
    MemCopy(out, at, Le32(a));
    MemCopy(out, at + HASH_OFFSET_B, Le32(b));
    MemCopy(out, at + HASH_OFFSET_C, Le32(c));
    MemCopy(out, at + HASH_OFFSET_D, Le32(d));
    FourCopies(was, at, Le32(a), Le32(b), Le32(c), Le32(d));
  }

  /** The loop of fletcher. Every sum is a 64-bit value before it is reduced, so none wraps. */
  method Accumulate(buf: array<byte>, from: nat, length: uint64)
    returns (a: uint64, b: uint64, c: uint64, d: uint64)
    requires from + length <= buf.Length
    ensures Sums(a, b, c, d) == Absorb(Words(buf[from..from + length]))
    ensures var ws := Words(buf[from..from + length]);
            && Remainder(WeightedSum(ws, 1), a) && Remainder(WeightedSum(ws, 2), b)
            && Remainder(WeightedSum(ws, 3), c) && Remainder(WeightedSum(ws, 4), d)
  {
    hide Reduce, Words, Absorb, WeightedSum, Remainder;
    ghost var s := buf[from..from + length];
    ghost var ws := Words(s);
    var size: uint64 := length / 4;
    var rem: uint64 := length % 4;
    a, b, c, d := 0, 0, 0, 0;
    AbsorbNothing(ws[..0]);
    var i := 0;
    while i < size
      invariant 0 <= i <= size
      invariant Sums(a, b, c, d) == Absorb(ws[..i])
    {
      var w: uint64 := LoadWord(buf, from, length, i);
      AbsorbNext(ws, i);
      var sum: uint64 := a + w;
      a := Reduce(sum);
      sum := b + a;
      b := Reduce(sum);
      sum := c + b;
      c := Reduce(sum);
      sum := d + c;
      d := Reduce(sum);
      i := i + 1;
    }
    if rem != 0 {
      var w: uint64 := LoadWord(buf, from, length, size);
      AbsorbNext(ws, size);
      var sum: uint64 := a + w;
      a := Reduce(sum);
      sum := b + a;
      b := Reduce(sum);
      sum := c + b;
      c := Reduce(sum);
      sum := d + c;
      d := Reduce(sum);
    }
    assert ws[..|ws|] == ws;
    ClosedForm(ws);
  }

  /** A 32-bit read of buff[i], or the memcpy of the rem trailing bytes into a zeroed word. */
  method LoadWord(buf: array<byte>, from: nat, length: uint64, i: nat) returns (w: uint64)
    requires from + length <= buf.Length && 4 * i < length
    ensures w < MAX_FILE_DATA_LEN
    ensures var ws := Words(buf[from..from + length]); i < |ws| && w == ws[i]
  {
    ghost var s := buf[from..from + length];
    var word: seq<byte>;
    if 4 * i + 4 <= length {
      word := buf[from + 4 * i..from + 4 * i + 4];
    } else {
      word := buf[from + 4 * i..from + length] + Zeros(4 * i + 4 - length);
    }
    WordAt(s, i, word);
    w := FromLe32(word);
  }

  lemma WordAt(s: seq<byte>, i: nat, four: seq<byte>)
    requires i < |Words(s)|
    requires if 4 * i + 4 <= |s| then four == s[4 * i..4 * i + 4] else four == s[4 * i..] + Zeros(4 * i + 4 - |s|)
    ensures Words(s)[i] == FromLe32(four)
  {
    assert four == Window(s, 4 * i, 4);
  }

  lemma AbsorbNothing(ws: seq<nat>)
    requires |ws| == 0
    ensures Absorb(ws) == Sums(0, 0, 0, 0)
  {
  }

  lemma {:induction false} AbsorbNext(ws: seq<nat>, i: nat)
    requires i < |ws|
    ensures Absorb(ws[..i + 1]) == AbsorbWord(Absorb(ws[..i]), ws[i])
  {
    assert ws[..i + 1][..i] == ws[..i];
  }

  lemma FourCopies(s: seq<byte>, at: nat, p: seq<byte>, q: seq<byte>, r: seq<byte>, t: seq<byte>)
    requires |p| == |q| == |r| == |t| == 4
    ensures Overwrite(Overwrite(Overwrite(Overwrite(s, at, p), at + 4, q), at + 8, r), at + 12, t)
         == Overwrite(s, at, p + q + r + t)
  {
  }

  // Closed form: each accumulator is a sum of words with binomial weights

  /** The k-th word from the end, as accumulator j counts it. */
  function Weigh(w: int, j: nat, k: nat): int {
    if j <= 1 then w
    else if k == 0 then 0
    else Weigh(w, j, k - 1) + Weigh(w, j - 1, k)
  }

  function WeightedSum(ws: seq<int>, j: nat): int {
    if |ws| == 0 then 0 else Weigh(ws[0], j, |ws|) + WeightedSum(ws[1..], j)
  }

  /** The weights are 1, k, k(k+1)/2 and k(k+1)(k+2)/6. */
  lemma {:induction false} WeightsAreBinomial(w: int, k: nat)
    ensures Weigh(w, 1, k) == w
    ensures Weigh(w, 2, k) == w * k
    ensures 2 * Weigh(w, 3, k) == w * (k * (k + 1))
    ensures 6 * Weigh(w, 4, k) == w * (k * (k + 1) * (k + 2))
  {
    if k > 0 {
      WeightsAreBinomial(w, k - 1);
      BinomialStep(w, k, Weigh(w, 2, k - 1), Weigh(w, 3, k - 1), Weigh(w, 4, k - 1));
      assert Weigh(w, 3, k) == Weigh(w, 3, k - 1) + Weigh(w, 2, k);
      assert Weigh(w, 4, k) == Weigh(w, 4, k - 1) + Weigh(w, 3, k);
    }
  }

  lemma BinomialStep(w: int, k: nat, x: int, y: int, z: int)
    requires k > 0 && x == w * (k - 1) && 2 * y == w * ((k - 1) * k) && 6 * z == w * ((k - 1) * k * (k + 1))
    ensures x + w == w * k
    ensures 2 * (y + (x + w)) == w * (k * (k + 1))
    ensures 6 * (z + (y + (x + w))) == w * (k * (k + 1) * (k + 2))
  {
    assert (k - 1) * k + 2 * k == k * (k + 1);
    assert (k - 1) * k * (k + 1) + 3 * (k * (k + 1)) == k * (k + 1) * (k + 2);
  }

  lemma {:induction false} LastWordWeighsOne(w: int, j: nat)
    requires 1 <= j
    ensures Weigh(w, j, 1) == w
  {
    if j > 1 {
      LastWordWeighsOne(w, j - 1);
      assert Weigh(w, j, 0) == 0;
    }
  }

  lemma {:induction false} WeightedSumAppend(ws: seq<int>, w: int, j: nat)
    requires 1 <= j
    ensures WeightedSum(ws + [w], j) == WeightedSum(ws, j) + if j == 1 then w else WeightedSum(ws + [w], j - 1)
  {
    var t := ws + [w];
    if |ws| == 0 {
      LastWordWeighsOne(w, j);
      if j > 1 {
        LastWordWeighsOne(w, j - 1);
      }
      assert t[1..] == [];
    } else {
      WeightedSumAppend(ws[1..], w, j);
      assert t[1..] == ws[1..] + [w];
    }
  }

  lemma ReduceAddMultiple(x: int, t: int)
    ensures Reduce(x + MODULUS * t) == Reduce(x)
  {
  }

  lemma ReduceAdd(x: int, y: int)
    ensures Reduce(Reduce(x) + y) == Reduce(x + y)
  {
    ReduceAddMultiple(Reduce(x) + y, x / MODULUS);
  }

  lemma AddCongruent(x: int, x': int, y: int, y': int)
    requires Reduce(x) == Reduce(x') && Reduce(y) == Reduce(y')
    ensures Reduce(x + y) == Reduce(x' + y')
  {
    ReduceAddMultiple(x' + y', x / MODULUS - x' / MODULUS + y / MODULUS - y' / MODULUS);
  }

  /** Each accumulator is the weighted sum of the words, reduced modulo 2^32 - 1. */
  lemma {:induction false} ReducedForm(ws: seq<nat>)
    ensures Absorb(ws) == Sums(Reduce(WeightedSum(ws, 1)), Reduce(WeightedSum(ws, 2)),
                               Reduce(WeightedSum(ws, 3)), Reduce(WeightedSum(ws, 4)))
  {
    if |ws| > 0 {
      var init, w := ws[..|ws| - 1], ws[|ws| - 1];
      assert ws == init + [w];
      ReducedForm(init);
      ReducedFormStep(init, w);
    }
  }

  /** r is x modulo 2^32 - 1. */
  predicate Remainder(x: int, r: nat) {
    r < 0xFFFF_FFFF && (x - r) % 0xFFFF_FFFF == 0
  }

  lemma ReduceIsRemainder(x: int)
    ensures Remainder(x, Reduce(x))
  {
  }

  /** Each accumulator lies below 2^32 - 1 and differs from the weighted sum of the words by a multiple of 2^32 - 1. */
  lemma ClosedForm(ws: seq<nat>)
    ensures var r := Absorb(ws);
            && Remainder(WeightedSum(ws, 1), r.a) && Remainder(WeightedSum(ws, 2), r.b)
            && Remainder(WeightedSum(ws, 3), r.c) && Remainder(WeightedSum(ws, 4), r.d)
  {
    hide Absorb, WeightedSum, Reduce, Remainder;
    ReducedForm(ws);
    ReduceIsRemainder(WeightedSum(ws, 1));
    ReduceIsRemainder(WeightedSum(ws, 2));
    ReduceIsRemainder(WeightedSum(ws, 3));
    ReduceIsRemainder(WeightedSum(ws, 4));
  }

  lemma ReducedFormStep(ws: seq<nat>, w: nat)
    ensures AbsorbWord(Sums(Reduce(WeightedSum(ws, 1)), Reduce(WeightedSum(ws, 2)),
                            Reduce(WeightedSum(ws, 3)), Reduce(WeightedSum(ws, 4))), w)
         == Sums(Reduce(WeightedSum(ws + [w], 1)), Reduce(WeightedSum(ws + [w], 2)),
                 Reduce(WeightedSum(ws + [w], 3)), Reduce(WeightedSum(ws + [w], 4)))
  {
    hide WeightedSum, AbsorbWord, Reduce;
    AbsorbReduced(WeightedSum(ws, 1), WeightedSum(ws, 2), WeightedSum(ws, 3), WeightedSum(ws, 4), w);
    WeightedSumAppend(ws, w, 1);
    WeightedSumAppend(ws, w, 2);
    WeightedSumAppend(ws, w, 3);
    WeightedSumAppend(ws, w, 4);
  }

  lemma AbsorbReduced(s1: int, s2: int, s3: int, s4: int, w: nat)
    ensures AbsorbWord(Sums(Reduce(s1), Reduce(s2), Reduce(s3), Reduce(s4)), w)
         == Sums(Reduce(s1 + w), Reduce(s2 + (s1 + w)),
                 Reduce(s3 + (s2 + (s1 + w))), Reduce(s4 + (s3 + (s2 + (s1 + w)))))
  {
    ReduceTwice(s1 + w);
    ReduceTwice(s2 + (s1 + w));
    ReduceTwice(s3 + (s2 + (s1 + w)));
    ReduceAdd(s1, w);
    AddReduced(s2, s1 + w);
    AddReduced(s3, s2 + (s1 + w));
    AddReduced(s4, s3 + (s2 + (s1 + w)));
  }

  lemma ReduceTwice(x: int)
    ensures Reduce(Reduce(x)) == Reduce(x)
  {
  }

  lemma AddReduced(x: int, y: int)
    ensures Reduce(Reduce(x) + Reduce(y)) == Reduce(x + y)
  {
    ReduceTwice(x);
    ReduceTwice(y);
    AddCongruent(Reduce(x), x, Reduce(y), y);
  }

  /** Trailing bytes hash as if padded with null bytes to a whole word. */
  lemma DigestPadsWithNull(s: seq<byte>, pad: nat)
    requires pad < 4 && (|s| + pad) % 4 == 0
    ensures Digest(s + Zeros(pad)) == Digest(s)
  {
    var t := s + Zeros(pad);
    assert |Words(t)| == |Words(s)|;
    forall i | 0 <= i < |Words(s)| ensures Words(t)[i] == Words(s)[i] {
      assert Window(t, 4 * i, 4) == Window(s, 4 * i, 4);
    }
    assert Words(t) == Words(s);
  }

  // Concatenation

  /** The sums of a concatenation are a linear combination of the sums of its parts. */
  lemma {:induction false} WeightedSumConcat(u: seq<int>, v: seq<int>)
    ensures var (a, b, c, d, m) := (WeightedSum(u, 1), WeightedSum(u, 2), WeightedSum(u, 3), WeightedSum(u, 4), |v|);
            && WeightedSum(u + v, 1) == a + WeightedSum(v, 1)
            && WeightedSum(u + v, 2) == b + Weigh(a, 2, m) + WeightedSum(v, 2)
            && WeightedSum(u + v, 3) == c + Weigh(b, 2, m) + Weigh(a, 3, m) + WeightedSum(v, 3)
            && WeightedSum(u + v, 4) == d + Weigh(c, 2, m) + Weigh(b, 3, m) + Weigh(a, 4, m) + WeightedSum(v, 4)
  {
    if |v| == 0 {
      assert u + v == u;
    } else {
      var init, w := v[..|v| - 1], v[|v| - 1];
      assert v == init + [w] && u + v == (u + init) + [w];
      WeightedSumConcat(u, init);
      ConcatStep(u, v, init, w, 1);
      ConcatStep(u, v, init, w, 2);
      ConcatStep(u, v, init, w, 3);
      ConcatStep(u, v, init, w, 4);
    }
  }

  lemma {:induction false} ConcatStep(u: seq<int>, v: seq<int>, init: seq<int>, w: int, j: nat)
    requires 1 <= j && v == init + [w]
    ensures WeightedSum(u + v, j) == WeightedSum(u + init, j) + if j == 1 then w else WeightedSum(u + v, j - 1)
    ensures WeightedSum(v, j) == WeightedSum(init, j) + if j == 1 then w else WeightedSum(v, j - 1)
  {
    assert u + v == (u + init) + [w];
    WeightedSumAppend(u + init, w, j);
    WeightedSumAppend(init, w, j);
  }

  lemma {:induction false} WeighCongruent(x: int, y: int, j: nat, k: nat)
    requires Reduce(x) == Reduce(y)
    ensures Reduce(Weigh(x, j, k)) == Reduce(Weigh(y, j, k))
    decreases j, k
  {
    if j > 1 && k > 0 {
      WeighCongruent(x, y, j, k - 1);
      WeighCongruent(x, y, j - 1, k);
      AddCongruent(Weigh(x, j, k - 1), Weigh(y, j, k - 1), Weigh(x, j - 1, k), Weigh(y, j - 1, k));
    }
  }

  /** The sums after absorbing u + v, from the sums x of u and y of v, for m words in v. */
  function Combine(x: Sums, y: Sums, m: nat): Sums {
    Sums(Reduce(x.a + y.a),
         Reduce(x.b + Weigh(x.a, 2, m) + y.b),
         Reduce(x.c + Weigh(x.b, 2, m) + Weigh(x.a, 3, m) + y.c),
         Reduce(x.d + Weigh(x.c, 2, m) + Weigh(x.b, 3, m) + Weigh(x.a, 4, m) + y.d))
  }

  lemma AddReducedWeigh(x: int, j: nat, m: nat, y: int, y': int)
    requires Reduce(y) == Reduce(y')
    ensures Reduce(y + Weigh(Reduce(x), j, m)) == Reduce(y' + Weigh(x, j, m))
  {
    ReduceTwice(x);
    WeighCongruent(Reduce(x), x, j, m);
    AddCongruent(y, y', Weigh(Reduce(x), j, m), Weigh(x, j, m));
  }

  lemma AddLast(x: int, x': int, y: int)
    requires Reduce(x) == Reduce(x')
    ensures Reduce(x + Reduce(y)) == Reduce(x' + y)
  {
    ReduceTwice(y);
    AddCongruent(x, x', Reduce(y), y);
  }

  lemma CombineB(a: int, b: int, m: nat, y: int)
    ensures Reduce(Reduce(b) + Weigh(Reduce(a), 2, m) + Reduce(y)) == Reduce(b + Weigh(a, 2, m) + y)
  {
    ReduceTwice(b);
    AddReducedWeigh(a, 2, m, Reduce(b), b);
    AddLast(Reduce(b) + Weigh(Reduce(a), 2, m), b + Weigh(a, 2, m), y);
  }

  lemma CombineC(a: int, b: int, c: int, m: nat, y: int)
    ensures Reduce(Reduce(c) + Weigh(Reduce(b), 2, m) + Weigh(Reduce(a), 3, m) + Reduce(y))
         == Reduce(c + Weigh(b, 2, m) + Weigh(a, 3, m) + y)
  {
    ReduceTwice(c);
    var p, p' := Reduce(c) + Weigh(Reduce(b), 2, m), c + Weigh(b, 2, m);
    AddReducedWeigh(b, 2, m, Reduce(c), c);
    AddReducedWeigh(a, 3, m, p, p');
    AddLast(p + Weigh(Reduce(a), 3, m), p' + Weigh(a, 3, m), y);
  }

  lemma CombineD(a: int, b: int, c: int, d: int, m: nat, y: int)
    ensures Reduce(Reduce(d) + Weigh(Reduce(c), 2, m) + Weigh(Reduce(b), 3, m) + Weigh(Reduce(a), 4, m) + Reduce(y))
         == Reduce(d + Weigh(c, 2, m) + Weigh(b, 3, m) + Weigh(a, 4, m) + y)
  {
    ReduceTwice(d);
    var p, p' := Reduce(d) + Weigh(Reduce(c), 2, m), d + Weigh(c, 2, m);
    AddReducedWeigh(c, 2, m, Reduce(d), d);
    var q, q' := p + Weigh(Reduce(b), 3, m), p' + Weigh(b, 3, m);
    AddReducedWeigh(b, 3, m, p, p');
    AddReducedWeigh(a, 4, m, q, q');
    AddLast(q + Weigh(Reduce(a), 4, m), q' + Weigh(a, 4, m), y);
  }

  /** The four sums of ws, reduced. */
  function Reduced(a: int, b: int, c: int, d: int): Sums {
    Sums(Reduce(a), Reduce(b), Reduce(c), Reduce(d))
  }

  lemma CombineReduced(a: int, b: int, c: int, d: int, a': int, b': int, c': int, d': int, m: nat)
    ensures Combine(Reduced(a, b, c, d), Reduced(a', b', c', d'), m)
         == Reduced(a + a', b + Weigh(a, 2, m) + b', c + Weigh(b, 2, m) + Weigh(a, 3, m) + c',
                    d + Weigh(c, 2, m) + Weigh(b, 3, m) + Weigh(a, 4, m) + d')
  {
    hide Reduce, Weigh;
    AddReduced(a, a');
    CombineB(a, b, m, b');
    CombineC(a, b, c, m, c');
    CombineD(a, b, c, d, m, d');
  }

  lemma {:induction false} AbsorbConcat(u: seq<nat>, v: seq<nat>)
    ensures Absorb(u + v) == Combine(Absorb(u), Absorb(v), |v|)
  {
    hide Reduce, Absorb, WeightedSum, Weigh, Combine;
    ReducedForm(u);
    ReducedForm(v);
    ReducedForm(u + v);
    WeightedSumConcat(u, v);
    CombineReduced(WeightedSum(u, 1), WeightedSum(u, 2), WeightedSum(u, 3), WeightedSum(u, 4),
                   WeightedSum(v, 1), WeightedSum(v, 2), WeightedSum(v, 3), WeightedSum(v, 4), |v|);
  }

  lemma WindowOfConcat(s: seq<byte>, t: seq<byte>, at: nat, n: nat)
    ensures at + n <= |s| ==> Window(s + t, at, n) == Window(s, at, n)
    ensures |s| <= at ==> Window(s + t, at, n) == Window(t, at - |s|, n)
  {
  }

  lemma WordOfConcat(s: seq<byte>, t: seq<byte>, i: nat)
    requires |s| % 4 == 0 && i < |Words(s)| + |Words(t)|
    ensures i < |Words(s + t)|
    ensures Words(s + t)[i] == if i < |Words(s)| then Words(s)[i] else Words(t)[i - |Words(s)|]
  {
    WindowOfConcat(s, t, 4 * i, 4);
    assert |Words(s)| == |s| / 4;
  }

  lemma WordsOfConcat(s: seq<byte>, t: seq<byte>)
    requires |s| % 4 == 0
    ensures Words(s + t) == Words(s) + Words(t)
  {
    assert |Words(s + t)| == |Words(s)| + |Words(t)|;
    forall i | 0 <= i < |Words(s)| + |Words(t)| ensures Words(s + t)[i] == (Words(s) + Words(t))[i] {
      WordOfConcat(s, t, i);
    }
  }

  lemma FourParts(p: seq<byte>, q: seq<byte>, r: seq<byte>, t: seq<byte>)
    requires |p| == |q| == |r| == |t| == 4
    ensures var s := p + q + r + t; s[0..4] == p && s[4..8] == q && s[8..12] == r && s[12..16] == t
  {
  }

  /** The sums that a stored checksum holds. */
  function Decode(d: seq<byte>): Sums
    requires |d| == HASH_LEN
  {
    Sums(FromLe32(d[0..4]), FromLe32(d[4..8]), FromLe32(d[8..12]), FromLe32(d[12..16]))
  }

  lemma DecodeEncode(st: Sums)
    requires st.a < MAX_FILE_DATA_LEN && st.b < MAX_FILE_DATA_LEN && st.c < MAX_FILE_DATA_LEN && st.d < MAX_FILE_DATA_LEN
    ensures Decode(Encode(st)) == st
  {
    hide Le32, FromLe32;
    FourParts(Le32(st.a), Le32(st.b), Le32(st.c), Le32(st.d));
    Le32RoundTrip(st.a);
    Le32RoundTrip(st.b);
    Le32RoundTrip(st.c);
    Le32RoundTrip(st.d);
  }

  /** The checksum of s + t from the stored checksums of s and t, when s is a whole number of words. */
  lemma {:induction false} DigestOfConcat(s: seq<byte>, t: seq<byte>)
    requires |s| % 4 == 0
    ensures Digest(s + t) == Encode(Combine(Decode(Digest(s)), Decode(Digest(t)), (|t| + 3) / 4))
  {
    hide Words, Absorb, Encode, Decode, Combine;
    WordsOfConcat(s, t);
    AbsorbConcat(Words(s), Words(t));
    DecodeEncode(Absorb(Words(s)));
    DecodeEncode(Absorb(Words(t)));
  }

  // Sensitivity to a single word

  lemma {:induction false} WeighDifference(x: int, y: int, j: nat, k: nat)
    ensures Weigh(x, j, k) - Weigh(y, j, k) == Weigh(x - y, j, k)
    decreases j, k
  {
    if j > 1 && k > 0 {
      WeighDifference(x, y, j, k - 1);
      WeighDifference(x, y, j - 1, k);
    }
  }

  lemma {:induction false} WeightedSumUpdate(ws: seq<int>, i: nat, x: int, j: nat)
    requires i < |ws|
    ensures WeightedSum(ws[i := x], j) == WeightedSum(ws, j) + Weigh(x - ws[i], j, |ws| - i)
  {
    if i == 0 {
      assert ws[0 := x][1..] == ws[1..];
      WeighDifference(x, ws[0], j, |ws|);
    } else {
      WeightedSumUpdate(ws[1..], i - 1, x, j);
      assert ws[i := x][1..] == ws[1..][i - 1 := x];
    }
  }

  lemma EncodeInjective(x: Sums, y: Sums)
    requires x.a < MODULUS && x.b < MODULUS && x.c < MODULUS && x.d < MODULUS
    requires y.a < MODULUS && y.b < MODULUS && y.c < MODULUS && y.d < MODULUS
    requires Encode(x) == Encode(y)
    ensures x == y
  {
    hide Encode, Decode;
    DecodeEncode(x);
    DecodeEncode(y);
  }

  /** Two different 32-bit words that the checksum cannot tell apart. */
  predicate Confused(v: nat, w: nat) {
    (v == 0 && w == 0xFFFF_FFFF) || (v == 0xFFFF_FFFF && w == 0)
  }

  lemma {:induction false} ConfusedWordsSameSum(ws: seq<int>, i: nat, x: int, j: nat)
    requires i < |ws| && (x == ws[i] + MODULUS || ws[i] == x + MODULUS)
    ensures Reduce(WeightedSum(ws[i := x], j)) == Reduce(WeightedSum(ws, j))
  {
    WeightedSumUpdate(ws, i, x, j);
    ReduceAddMultiple(0, if x > ws[i] then 1 else -1);
    WeighCongruent(x - ws[i], 0, j, |ws| - i);
    WeighZero(j, |ws| - i);
    AddCongruent(WeightedSum(ws, j), WeightedSum(ws, j), Weigh(x - ws[i], j, |ws| - i), 0);
  }

  lemma {:induction false} WeighZero(j: nat, k: nat)
    ensures Weigh(0, j, k) == 0
    decreases j, k
  {
    if j > 1 && k > 0 {
      WeighZero(j, k - 1);
      WeighZero(j - 1, k);
    }
  }

  lemma SmallDifference(x: int, d: int)
    requires -0x1_0000_0000 < d < 0x1_0000_0000
    requires Reduce(x + d) == Reduce(x)
    ensures d == 0 || d == MODULUS || d + MODULUS == 0
  {
  }

  lemma {:induction false} AbsorbWordChange(u: seq<nat>, i: nat, x: nat)
    requires i < |u| && x != u[i] && x < MAX_FILE_DATA_LEN && u[i] < MAX_FILE_DATA_LEN
    ensures Absorb(u[i := x]) == Absorb(u) <==> Confused(u[i], x)
  {
    ReducedForm(u);
    ReducedForm(u[i := x]);
    if Confused(u[i], x) {
      ConfusedWordsSameSum(u, i, x, 1);
      ConfusedWordsSameSum(u, i, x, 2);
      ConfusedWordsSameSum(u, i, x, 3);
      ConfusedWordsSameSum(u, i, x, 4);
    } else if Absorb(u[i := x]) == Absorb(u) {
      WeightedSumUpdate(u, i, x, 1);
      SmallDifference(WeightedSum(u, 1), x - u[i]);
      assert false;
    }
  }

  /** Changing one word changes the checksum, except between 0 and 2^32 - 1, where it never does. */
  lemma {:induction false} DigestOfWordChange(s: seq<byte>, t: seq<byte>, i: nat)
    requires |s| == |t| && i < |Words(s)|
    requires forall k :: 0 <= k < |Words(s)| && k != i ==> Words(t)[k] == Words(s)[k]
    requires Words(t)[i] != Words(s)[i]
    ensures Digest(t) == Digest(s) <==> Confused(Words(s)[i], Words(t)[i])
  {
    var u, v := Words(s), Words(t);
    assert v == u[i := v[i]];
    AbsorbWordChange(u, i, v[i]);
    if Digest(t) == Digest(s) {
      EncodeInjective(Absorb(u), Absorb(v));
    }
  }

  // The bytes of words and checksums

  /** The four accumulators are stored one after the other, each with its lowest byte first. */
  lemma DigestBytes(s: seq<byte>)
    ensures var (r, st) := (Digest(s), Absorb(Words(s)));
            && |r| == 16
            && Value(r[0], r[1], r[2], r[3]) == st.a && Value(r[4], r[5], r[6], r[7]) == st.b
            && Value(r[8], r[9], r[10], r[11]) == st.c && Value(r[12], r[13], r[14], r[15]) == st.d
  {
    hide Le32, Absorb, Words, Value;
    var st := Absorb(Words(s));
    Le32Bytes(st.a);
    Le32Bytes(st.b);
    Le32Bytes(st.c);
    Le32Bytes(st.d);
  }

  function ByteAt(s: seq<byte>, k: nat): int {
    if k < |s| then s[k] else 0
  }

  /** The words that are summed have their lowest byte first, too; the last one is padded with null bytes. */
  lemma WordBytes(s: seq<byte>, i: nat)
    requires 4 * i < |s|
    ensures |Words(s)| > i
    ensures Words(s)[i] == Value(ByteAt(s, 4 * i), ByteAt(s, 4 * i + 1), ByteAt(s, 4 * i + 2), ByteAt(s, 4 * i + 3))
  {
    assert |Words(s)| == (|s| + 3) / 4 > i;
    var w := Window(s, 4 * i, 4);
    assert w[0] == ByteAt(s, 4 * i) && w[1] == ByteAt(s, 4 * i + 1);
    assert w[2] == ByteAt(s, 4 * i + 2) && w[3] == ByteAt(s, 4 * i + 3);
    assert Words(s)[i] == FromLe32(w);
  }

  lemma AbsorbLast(ws: seq<nat>, w: nat)
    ensures Absorb(ws + [w]) == AbsorbWord(Absorb(ws), w)
  {
    hide AbsorbWord;
    assert (ws + [w])[..|ws|] == ws;
  }

  lemma AbsorbTwo(w: nat, x: nat)
    ensures Absorb([w, x]) == AbsorbWord(AbsorbWord(Sums(0, 0, 0, 0), w), x)
  {
    hide AbsorbWord, Absorb;
    AbsorbNothing([]);
    AbsorbLast([], w);
    AbsorbLast([w], x);
    assert [] + [w] == [w] && [w] + [x] == [w, x];
  }

  lemma AbsorbFour(w: nat, x: nat, y: nat, z: nat)
    ensures Absorb([w, x, y, z]) == AbsorbWord(AbsorbWord(AbsorbWord(AbsorbWord(Sums(0, 0, 0, 0), w), x), y), z)
  {
    hide AbsorbWord, Absorb;
    AbsorbTwo(w, x);
    AbsorbLast([w, x], y);
    AbsorbLast([w, x, y], z);
    assert [w, x] + [y] == [w, x, y] && [w, x, y] + [z] == [w, x, y, z];
  }

  lemma FourWords(s: seq<byte>)
    requires 12 < |s| <= 16 && s[..12] == [232, 3, 0, 0, 241, 20, 0, 0, 112, 0, 0, 0]
    ensures |Words(s)| == 4 && Words(s) == [1000, 5361, 112, Words(s)[3]]
  {
    FirstWord(s, 0, 232, 3);
    FirstWord(s, 1, 241, 20);
    FirstWord(s, 2, 112, 0);
    assert |Words(s)| == (|s| + 3) / 4;
  }

  /** One of the words whose two higher bytes are null. */
  lemma FirstWord(s: seq<byte>, i: nat, x0: byte, x1: byte)
    requires i < 3 && 12 < |s| && s[..12][4 * i..4 * i + 4] == [x0, x1, 0, 0]
    ensures |Words(s)| > i && Words(s)[i] == x0 + 0x100 * x1 as int
  {
    hide Words;
    var t := s[..12][4 * i..4 * i + 4];
    assert s[4 * i] == t[0] && s[4 * i + 1] == t[1] && s[4 * i + 2] == t[2] && s[4 * i + 3] == t[3];
    WordBytes(s, i);
  }

  /** Without a reduction. */
  lemma AbsorbSmall(st: Sums, w: nat)
    requires st.a + w < 0xFFFF_FFFF && st.b + st.a + w < 0xFFFF_FFFF && st.c + st.b + st.a + w < 0xFFFF_FFFF
    requires st.d + st.c + st.b + st.a + w < 0xFFFF_FFFF
    ensures AbsorbWord(st, w)
         == Sums(st.a + w, st.b + st.a + w, st.c + st.b + st.a + w, st.d + st.c + st.b + st.a + w)
  {
    hide Reduce;
    ReduceSmall(st.a + w);
    ReduceSmall(st.b + st.a + w);
    ReduceSmall(st.c + st.b + st.a + w);
    ReduceSmall(st.d + st.c + st.b + st.a + w);
  }

  lemma ReduceSmall(x: int)
    requires 0 <= x < 0xFFFF_FFFF
    ensures Reduce(x) == x
  {
  }

  /** The two inputs of the program's own test of fletcher, of 16 and of 13 bytes, and their checksums. */
  lemma KnownChecksums(s: seq<byte>)
    requires s == [232, 3, 0, 0, 241, 20, 0, 0, 112, 0, 0, 0, 32, 79, 0, 0]
    ensures Absorb(Words(s)) == Sums(26729, 40563, 62758, 94314)
    ensures Absorb(Words(s[..13])) == Sums(6505, 20339, 42534, 74090)
  {
    hide Absorb, Words, AbsorbWord;
    LastWords(s);
    AbsorbFour(1000, 5361, 112, 20256);
    AbsorbFour(1000, 5361, 112, 32);
    AbsorbSmall(Sums(0, 0, 0, 0), 1000);
    AbsorbSmall(Sums(1000, 1000, 1000, 1000), 5361);
    AbsorbSmall(Sums(6361, 7361, 8361, 9361), 112);
    AbsorbSmall(Sums(6473, 13834, 22195, 31556), 20256);
    AbsorbSmall(Sums(6473, 13834, 22195, 31556), 32);
  }

  lemma LastWords(s: seq<byte>)
    requires s == [232, 3, 0, 0, 241, 20, 0, 0, 112, 0, 0, 0, 32, 79, 0, 0]
    ensures Words(s) == [1000, 5361, 112, 20256] && Words(s[..13]) == [1000, 5361, 112, 32]
  {
    hide Words;
    assert s[..12] == s[..13][..12] == [232, 3, 0, 0, 241, 20, 0, 0, 112, 0, 0, 0];
    FourWords(s);
    FourWords(s[..13]);
    WordBytes(s, 3);
    WordBytes(s[..13], 3);
  }

  /** A sum that reaches 2^32 - 1. */
  lemma WrappedChecksum(s: seq<byte>)
    requires s == [255, 255, 255, 255, 1, 0, 0, 0]
    ensures Absorb(Words(s)) == Sums(1, 1, 1, 1)
  {
    hide Absorb, Words, AbsorbWord;
    WordBytes(s, 0);
    WordBytes(s, 1);
    TwoWords(s);
    AbsorbTwo(0xFFFF_FFFF, 1);
    LargestWordIsZero();
    AbsorbSmall(Sums(0, 0, 0, 0), 1);
  }

  lemma TwoWords(s: seq<byte>)
    requires |s| == 8
    ensures |Words(s)| == 2 && Words(s) == [Words(s)[0], Words(s)[1]]
  {
  }

  lemma LargestWordIsZero()
    ensures AbsorbWord(Sums(0, 0, 0, 0), 0xFFFF_FFFF) == Sums(0, 0, 0, 0)
  {
  }
}
