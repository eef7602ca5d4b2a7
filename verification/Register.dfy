/**
 * A shift register fed with bytes, over any words for which the laws below hold. Keeping the words abstract keeps the
 * argument about bursts apart from the arithmetic of 32 bits.
 */
module Register {
  import Seqs

  function Iterate<W>(step: W -> W, x: W, n: nat): W
    decreases n
  {
    if n == 0 then x else Iterate(step, step(x), n - 1)
  }

  /**
   * `width` steps are made for each byte; `up` shifts a word by one byte, and `fits(x, k)` says that x is a word of k
   * bytes.
   */
  datatype Machine<!W> = Machine(width: nat, xor: (W, W) -> W, zero: W, step: W -> W, byte: bv8 -> W, up: W -> W,
                                 fits: (W, nat) -> bool) {
    function Feed(x: W, bytes: seq<bv8>): W
      decreases |bytes|
    {
      if bytes == [] then x else Feed(Iterate(step, xor(x, byte(bytes[0])), width), bytes[1..])
    }

    /** Some bytes as one word, the first byte lowest. */
    function Word(w: seq<bv8>): W {
      if w == [] then zero else xor(byte(w[0]), up(Word(w[1..])))
    }
  }

  ghost predicate Associates<W>(m: Machine<W>, a: W, b: W, c: W) {
    m.xor(m.xor(a, b), c) == m.xor(a, m.xor(b, c))
  }

  ghost predicate Cancels<W>(m: Machine<W>, a: W, b: W, c: W) {
    m.xor(a, c) == m.xor(b, c) || m.xor(c, a) == m.xor(c, b) ==> a == b
  }

  ghost predicate Neutral<W>(m: Machine<W>, a: W) {
    m.xor(a, m.zero) == a
  }

  ghost predicate Group<W(!new)>(m: Machine<W>) {
    && (forall a, b, c :: Associates(m, a, b, c))
    && (forall a, b, c :: Cancels(m, a, b, c))
    && (forall a :: Neutral(m, a))
  }

  ghost predicate StepsApart<W>(m: Machine<W>, a: W, b: W) {
    m.step(m.xor(a, b)) == m.xor(m.step(a), m.step(b))
  }

  ghost predicate Linear<W(!new)>(m: Machine<W>) {
    forall a, b :: StepsApart(m, a, b)
  }

  ghost predicate StepsDiffer<W>(m: Machine<W>, a: W, b: W) {
    m.step(a) == m.step(b) ==> a == b
  }

  ghost predicate Invertible<W(!new)>(m: Machine<W>) {
    forall a, b :: StepsDiffer(m, a, b)
  }

  ghost predicate Grows<W>(m: Machine<W>, x: W, k: nat, b: bv8) {
    m.fits(x, k) && k < 3 ==> m.fits(m.xor(m.byte(b), m.up(x)), k + 1)
  }

  /** As many steps take back a shift by one byte. */
  ghost predicate ComesDown<W>(m: Machine<W>, x: W, k: nat) {
    m.fits(x, k) && k <= 3 ==> Iterate(m.step, m.up(x), m.width) == x
  }

  ghost predicate Splits<W>(m: Machine<W>, x: W, y: W, k: nat, a: bv8, b: bv8) {
    (m.fits(x, k) && m.fits(y, k) && k <= 3 && m.xor(m.byte(a), m.up(x)) == m.xor(m.byte(b), m.up(y))) ==>
      a == b && x == y
  }

  ghost predicate Layout<W(!new)>(m: Machine<W>) {
    && m.fits(m.zero, 0)
    && (forall x, k: nat, b :: Grows(m, x, k, b))
    && (forall x, k: nat :: ComesDown(m, x, k))
    && (forall x, y, k: nat, a, b :: Splits(m, x, y, k, a, b))
  }

  // The same laws from the values of the operations, for a machine whose operations are costly to look into.

  lemma AssociatesFrom<W>(m: Machine<W>, a: W, b: W, c: W, ab: W, bc: W, abc: W)
    requires m.xor(a, b) == ab && m.xor(b, c) == bc && m.xor(ab, c) == abc && m.xor(a, bc) == abc
    ensures Associates(m, a, b, c)
  {
  }

  lemma SplitsFrom<W>(m: Machine<W>, x: W, y: W, k: nat, a: bv8, b: bv8, ax: W, yb: W)
    requires m.xor(m.byte(a), m.up(x)) == ax && m.xor(m.byte(b), m.up(y)) == yb
    requires m.fits(x, k) && m.fits(y, k) && k <= 3 && ax == yb ==> a == b && x == y
    ensures Splits(m, x, y, k, a, b)
  {
  }

  lemma StepsApartFrom<W>(m: Machine<W>, a: W, b: W, ab: W, sa: W, sb: W, sab: W)
    requires m.xor(a, b) == ab && m.step(a) == sa && m.step(b) == sb && m.step(ab) == sab && m.xor(sa, sb) == sab
    ensures StepsApart(m, a, b)
  {
  }

  lemma {:induction false} IterateLinear<W(!new)>(m: Machine<W>, x: W, y: W, n: nat)
    requires Linear(m)
    ensures Iterate(m.step, m.xor(x, y), n) == m.xor(Iterate(m.step, x, n), Iterate(m.step, y, n))
    decreases n
  {
    if n > 0 {
      assert StepsApart(m, x, y);
      IterateLinear(m, m.step(x), m.step(y), n - 1);
    }
  }

  lemma {:induction false} IterateInjective<W(!new)>(m: Machine<W>, x: W, y: W, n: nat)
    requires Invertible(m) && Iterate(m.step, x, n) == Iterate(m.step, y, n)
    ensures x == y
    decreases n
  {
    if n > 0 {
      IterateInjective(m, m.step(x), m.step(y), n - 1);
      assert StepsDiffer(m, x, y);
    }
  }

  lemma {:induction false} IterateAdd<W>(step: W -> W, x: W, j: nat, k: nat)
    ensures Iterate(step, Iterate(step, x, j), k) == Iterate(step, x, j + k)
    decreases j
  {
    if j > 0 {
      IterateAdd(step, step(x), j - 1, k);
    }
  }

  lemma {:induction false} WordFits<W(!new)>(m: Machine<W>, w: seq<bv8>)
    requires Layout(m) && |w| <= 3
    ensures m.fits(m.Word(w), |w|)
  {
    if w != [] {
      WordFits(m, w[1..]);
      assert Grows(m, m.Word(w[1..]), |w| - 1, w[0]);
    }
  }

  lemma {:induction false} WordInjective<W(!new)>(m: Machine<W>, v: seq<bv8>, w: seq<bv8>)
    requires Layout(m) && |v| == |w| <= 4 && m.Word(v) == m.Word(w)
    ensures v == w
  {
    if v != [] {
      WordFits(m, v[1..]);
      WordFits(m, w[1..]);
      assert Splits(m, m.Word(v[1..]), m.Word(w[1..]), |v| - 1, v[0], w[0]);
      WordInjective(m, v[1..], w[1..]);
      assert v == [v[0]] + v[1..] && w == [w[0]] + w[1..];
    }
  }

  lemma FeedSteps<W(!new)>(m: Machine<W>, x: W, b: W, shifted: W, rest: W, n: nat, j: nat)
    requires Group(m) && Linear(m) && Iterate(m.step, shifted, n) == rest
    ensures Iterate(m.step, m.xor(Iterate(m.step, m.xor(x, b), n), rest), j)
         == Iterate(m.step, m.xor(x, m.xor(b, shifted)), n + j)
  {
    assert Associates(m, x, b, shifted);
    IterateLinear(m, m.xor(x, b), shifted, n);
    IterateAdd(m.step, m.xor(m.xor(x, b), shifted), n, j);
  }

  lemma FeedByte<W(!new)>(m: Machine<W>, x: W, b: W, rest: W, k: nat)
    requires Group(m) && Linear(m) && Layout(m) && k <= 3 && m.fits(rest, k)
    ensures Iterate(m.step, m.xor(Iterate(m.step, m.xor(x, b), m.width), rest), m.width * k)
         == Iterate(m.step, m.xor(x, m.xor(b, m.up(rest))), m.width * (k + 1))
  {
    assert ComesDown(m, rest, k);
    FeedSteps(m, x, b, m.up(rest), rest, m.width, m.width * k);
  }

  lemma EightSteps<W>(step: W -> W, a: seq<W>)
    requires |a| == 9
    requires step(a[8]) == a[7] && step(a[7]) == a[6] && step(a[6]) == a[5] && step(a[5]) == a[4]
    requires step(a[4]) == a[3] && step(a[3]) == a[2] && step(a[2]) == a[1] && step(a[1]) == a[0]
    ensures Iterate(step, a[8], 8) == a[0]
  {
    assert Iterate(step, a[8], 8) == Iterate(step, a[6], 6);
    assert Iterate(step, a[6], 6) == Iterate(step, a[4], 4);
    assert Iterate(step, a[4], 4) == Iterate(step, a[2], 2);
    assert Iterate(step, a[2], 2) == Iterate(step, a[1], 1) == Iterate(step, a[0], 0);
  }

  /** Feeding up to four bytes is feeding their word at once, because the step is linear. */
  lemma {:induction false} FeedWord<W(!new)>(m: Machine<W>, x: W, w: seq<bv8>)
    requires Group(m) && Linear(m) && Layout(m) && |w| <= 4
    ensures m.Feed(x, w) == Iterate(m.step, m.xor(x, m.Word(w)), m.width * |w|)
    decreases |w|
  {
    if w != [] {
      var b, rest := m.byte(w[0]), m.Word(w[1..]);
      WordFits(m, w[1..]);
      FeedWord(m, Iterate(m.step, m.xor(x, b), m.width), w[1..]);
      FeedByte(m, x, b, rest, |w| - 1);
    } else {
      assert Neutral(m, x);
    }
  }

  lemma {:induction false} FeedAppend<W(!new)>(m: Machine<W>, x: W, a: seq<bv8>, b: seq<bv8>)
    ensures m.Feed(x, a + b) == m.Feed(m.Feed(x, a), b)
    decreases |a|
  {
    if a == [] {
      Seqs.Empty(b);
    } else {
      assert (a + b)[1..] == a[1..] + b;
      FeedAppend(m, Iterate(m.step, m.xor(x, m.byte(a[0])), m.width), a[1..], b);
    }
  }

  /** No bytes make different registers equal, because the step is invertible. */
  lemma {:induction false} FeedInjective<W(!new)>(m: Machine<W>, x: W, y: W, bytes: seq<bv8>)
    requires Group(m) && Invertible(m) && m.Feed(x, bytes) == m.Feed(y, bytes)
    ensures x == y
    decreases |bytes|
  {
    if bytes != [] {
      var b := m.byte(bytes[0]);
      FeedInjective(m, Iterate(m.step, m.xor(x, b), m.width), Iterate(m.step, m.xor(y, b), m.width), bytes[1..]);
      IterateInjective(m, m.xor(x, b), m.xor(y, b), m.width);
      assert Cancels(m, x, y, b);
    }
  }

  lemma WindowDetected<W(!new)>(m: Machine<W>, x: W, v: seq<bv8>, w: seq<bv8>)
    requires Group(m) && Linear(m) && Invertible(m) && Layout(m) && |v| == |w| <= 4
    requires m.Feed(x, v) == m.Feed(x, w)
    ensures v == w
  {
    FeedWord(m, x, v);
    FeedWord(m, x, w);
    IterateInjective(m, m.xor(x, m.Word(v)), m.xor(x, m.Word(w)), m.width * |v|);
    assert Cancels(m, m.Word(v), m.Word(w), x);
    WordInjective(m, v, w);
  }

  /** Two messages that differ, and only inside a window of at most four bytes, leave different registers. */
  lemma BurstDetected<W(!new)>(m: Machine<W>, x: W, front: seq<bv8>, v: seq<bv8>, w: seq<bv8>, back: seq<bv8>)
    requires Group(m) && Linear(m) && Invertible(m) && Layout(m) && |v| == |w| <= 4
    requires m.Feed(x, (front + v) + back) == m.Feed(x, (front + w) + back)
    ensures v == w
  {
    FeedAppend(m, x, front + v, back);
    FeedAppend(m, x, front + w, back);
    FeedInjective(m, m.Feed(x, front + v), m.Feed(x, front + w), back);
    FeedAppend(m, x, front, v);
    FeedAppend(m, x, front, w);
    WindowDetected(m, m.Feed(x, front), v, w);
  }
}
