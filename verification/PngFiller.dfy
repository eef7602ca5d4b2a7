/** A filler chunk that brings an image to an exact size (`pngOfSize` in scripts/clef-parity.ts). */
module PngFiller {
  import opened Register

  // ----- CRC-32 -----

  const POLYNOMIAL: bv32 := 0xedb88320
  const ONES: bv32 := 0xffffffff

  /** One step of the bit loop. */
  function Shift(x: bv32): bv32 {
    (x >> 1) ^ (if x & 1 == 1 then POLYNOMIAL else 0)
  }

  predicate Fits(x: bv32, k: nat) {
    (k == 0 ==> x == 0) && (k <= 1 ==> x < 0x100) && (k <= 2 ==> x < 0x10000) && (k <= 3 ==> x < 0x1000000)
  }

  function Xor(x: bv32, y: bv32): bv32 { x ^ y }

  function Widen(b: bv8): bv32 { b as bv32 }

  function Up(x: bv32): bv32 { x << 8 }

  const MACHINE: Machine<bv32> := Machine(8, Xor, 0, Shift, Widen, Up, Fits)

  /** The CRC of RFC 2083, section 3.4. */
  function Crc(bytes: seq<bv8>): bv32 {
    MACHINE.Feed(ONES, bytes) ^ ONES
  }

  // ----- the bit step is linear and loses nothing -----

  lemma ShiftInjective(x: bv32, y: bv32)
    requires Shift(x) == Shift(y)
    ensures x == y
  {
  }

  lemma HalfLinear(x: bv32, y: bv32)
    ensures (x ^ y) >> 1 == (x >> 1) ^ (y >> 1)
    ensures (x ^ y) & 1 == (x & 1) ^ (y & 1)
    ensures x & 1 == 0 || x & 1 == 1
  {
  }

  lemma XorSwap(a: bv32, b: bv32, c: bv32)
    ensures (a ^ c) ^ b == (a ^ b) ^ c && a ^ (b ^ c) == (a ^ b) ^ c
    ensures (a ^ c) ^ (b ^ c) == a ^ b
    ensures a ^ 0 == a && (a ^ b) ^ 0 == a ^ b
  {
  }

  lemma ShiftLinear(x: bv32, y: bv32)
    ensures Shift(x ^ y) == Shift(x) ^ Shift(y)
  {
    HalfLinear(x, y);
    HalfLinear(y, x);
    XorSwap(x >> 1, y >> 1, POLYNOMIAL);
    XorSwap(x >> 1, y >> 1, 0);
  }

  lemma XorCancels(a: bv32, b: bv32, c: bv32)
    requires a ^ c == b ^ c || c ^ a == c ^ b
    ensures a == b
  {
  }

  lemma Down8(x: bv32)
    requires x < 0x1000000
    ensures Shift(x << 8) == x << 7
  {
  }

  lemma Down7(x: bv32)
    requires x < 0x1000000
    ensures Shift(x << 7) == x << 6
  {
  }

  lemma Down6(x: bv32)
    requires x < 0x1000000
    ensures Shift(x << 6) == x << 5
  {
  }

  lemma Down5(x: bv32)
    requires x < 0x1000000
    ensures Shift(x << 5) == x << 4
  {
  }

  lemma Down4(x: bv32)
    requires x < 0x1000000
    ensures Shift(x << 4) == x << 3
  {
  }

  lemma Down3(x: bv32)
    requires x < 0x1000000
    ensures Shift(x << 3) == x << 2
  {
  }

  lemma Down2(x: bv32)
    requires x < 0x1000000
    ensures Shift(x << 2) == x << 1
  {
  }

  lemma Down1(x: bv32)
    requires x < 0x1000000
    ensures Shift(x << 1) == x
  {
  }

  /** Eight steps take back a shift by one byte. */
  lemma ByteDown(x: bv32)
    requires x < 0x1000000
    ensures Iterate(Shift, x << 8, 8) == x
  {
    Down8(x);
    Down7(x);
    Down6(x);
    Down5(x);
    Down4(x);
    Down3(x);
    Down2(x);
    Down1(x);
    EightSteps(Shift, [x, x << 1, x << 2, x << 3, x << 4, x << 5, x << 6, x << 7, x << 8]);
  }

  lemma ByteFits(x: bv32, k: nat, b: bv8)
    requires Fits(x, k) && k < 3
    ensures Fits((b as bv32) ^ (x << 8), k + 1)
  {
  }

  lemma XorAssociates(a: bv32, b: bv32, c: bv32)
    ensures (a ^ b) ^ c == a ^ (b ^ c)
  {
  }

  lemma XorAt(a: bv32, b: bv32, ab: bv32)
    requires a ^ b == ab
    ensures MACHINE.xor(a, b) == ab
  {
  }

  lemma AssociatesOf(a: bv32, b: bv32, c: bv32, ab: bv32, bc: bv32, abc: bv32)
    requires a ^ b == ab && b ^ c == bc && ab ^ c == abc && a ^ bc == abc
    ensures Associates(MACHINE, a, b, c)
  {
    XorAt(a, b, ab);
    XorAt(b, c, bc);
    XorAt(ab, c, abc);
    XorAt(a, bc, abc);
    AssociatesFrom(MACHINE, a, b, c, ab, bc, abc);
  }

  lemma AssociatesAt(a: bv32, b: bv32, c: bv32)
    ensures Associates(MACHINE, a, b, c)
  {
    XorAssociates(a, b, c);
    AssociatesOf(a, b, c, a ^ b, b ^ c, (a ^ b) ^ c);
  }

  lemma CancelsAt(a: bv32, b: bv32, c: bv32)
    ensures Cancels(MACHINE, a, b, c)
  {
    if MACHINE.xor(a, c) == MACHINE.xor(b, c) || MACHINE.xor(c, a) == MACHINE.xor(c, b) {
      XorCancels(a, b, c);
    }
  }

  lemma NeutralAt(a: bv32)
    ensures Neutral(MACHINE, a)
  {
  }

  lemma MachineGroup()
    ensures Group(MACHINE)
  {
    forall a, b, c
      ensures Associates(MACHINE, a, b, c) && Cancels(MACHINE, a, b, c)
    {
      AssociatesAt(a, b, c);
      CancelsAt(a, b, c);
    }
    forall a
      ensures Neutral(MACHINE, a)
    {
      NeutralAt(a);
    }
  }

  lemma StepAt(a: bv32, sa: bv32)
    requires Shift(a) == sa
    ensures MACHINE.step(a) == sa
  {
  }

  lemma StepsApartOf(a: bv32, b: bv32, ab: bv32, sa: bv32, sb: bv32, sab: bv32)
    requires a ^ b == ab && Shift(a) == sa && Shift(b) == sb && Shift(ab) == sab && sa ^ sb == sab
    ensures StepsApart(MACHINE, a, b)
  {
    XorAt(a, b, ab);
    StepAt(a, sa);
    StepAt(b, sb);
    StepAt(ab, sab);
    XorAt(sa, sb, sab);
    StepsApartFrom(MACHINE, a, b, ab, sa, sb, sab);
  }

  lemma StepLinearAt(a: bv32, b: bv32)
    ensures StepsApart(MACHINE, a, b)
  {
    ShiftLinear(a, b);
    StepsApartOf(a, b, a ^ b, Shift(a), Shift(b), Shift(a ^ b));
  }

  lemma StepInvertibleAt(a: bv32, b: bv32)
    ensures StepsDiffer(MACHINE, a, b)
  {
    if Shift(a) == Shift(b) {
      ShiftInjective(a, b);
    }
  }

  lemma MachineSteps()
    ensures Linear(MACHINE) && Invertible(MACHINE)
  {
    forall a, b
      ensures StepsApart(MACHINE, a, b) && StepsDiffer(MACHINE, a, b)
    {
      StepLinearAt(a, b);
      StepInvertibleAt(a, b);
    }
  }

  lemma GrowsAt(x: bv32, k: nat, b: bv8)
    ensures Grows(MACHINE, x, k, b)
  {
    if Fits(x, k) && k < 3 {
      ByteFits(x, k, b);
    }
  }

  lemma ComesDownAt(x: bv32, k: nat)
    ensures ComesDown(MACHINE, x, k)
  {
    if Fits(x, k) && k <= 3 {
      ByteDown(x);
    }
  }

  lemma FitsAt(x: bv32, k: nat)
    requires MACHINE.fits(x, k) && k <= 3
    ensures x < 0x1000000
  {
  }

  /** Both parts can be read off the joined word. */
  lemma JoinParts(b: bv8, x: bv32, joined: bv32)
    requires x < 0x1000000 && (b as bv32) ^ (x << 8) == joined
    ensures (joined & 0xff) as bv8 == b && joined >> 8 == x
  {
  }

  lemma JoinAt(b: bv8, x: bv32, joined: bv32)
    requires (b as bv32) ^ (x << 8) == joined
    ensures MACHINE.xor(MACHINE.byte(b), MACHINE.up(x)) == joined
  {
  }

  lemma PartsAt(x: bv32, k: nat, b: bv8, joined: bv32)
    requires (b as bv32) ^ (x << 8) == joined
    ensures MACHINE.fits(x, k) && k <= 3 ==> (joined & 0xff) as bv8 == b && joined >> 8 == x
  {
    if MACHINE.fits(x, k) && k <= 3 {
      FitsAt(x, k);
      JoinParts(b, x, joined);
    }
  }

  lemma SplitsAt(x: bv32, y: bv32, k: nat, a: bv8, b: bv8)
    ensures Splits(MACHINE, x, y, k, a, b)
  {
    var ax, yb := (a as bv32) ^ (x << 8), (b as bv32) ^ (y << 8);
    JoinAt(a, x, ax);
    JoinAt(b, y, yb);
    PartsAt(x, k, a, ax);
    PartsAt(y, k, b, yb);
    SplitsFrom(MACHINE, x, y, k, a, b, ax, yb);
  }

  lemma ZeroFits()
    ensures MACHINE.fits(MACHINE.zero, 0)
  {
  }

  lemma MachineLayout()
    ensures Layout(MACHINE)
  {
    forall x, k: nat, b
      ensures Grows(MACHINE, x, k, b)
    {
      GrowsAt(x, k, b);
    }
    forall x, k: nat
      ensures ComesDown(MACHINE, x, k)
    {
      ComesDownAt(x, k);
    }
    forall x, y, k: nat, a, b
      ensures Splits(MACHINE, x, y, k, a, b)
    {
      SplitsAt(x, y, k, a, b);
    }
    ZeroFits();
  }

  lemma MachineLaws()
    ensures Group(MACHINE) && Linear(MACHINE) && Invertible(MACHINE) && Layout(MACHINE)
  {
    MachineGroup();
    MachineSteps();
    MachineLayout();
  }

  /**
   * Two messages that differ, and only inside a window of at most four consecutive bytes, never have the same CRC:
   * the bit step is linear and can be undone.
   */
  lemma BurstDetected(front: seq<bv8>, v: seq<bv8>, w: seq<bv8>, back: seq<bv8>)
    requires |v| == |w| <= 4
    ensures Crc((front + v) + back) == Crc((front + w) + back) <==> v == w
  {
    MachineLaws();
    if Crc((front + v) + back) == Crc((front + w) + back) {
      XorCancels(MACHINE.Feed(ONES, (front + v) + back), MACHINE.Feed(ONES, (front + w) + back), ONES);
      Register.BurstDetected(MACHINE, ONES, front, v, w, back);
    }
  }
}
