/** Numbers below 256 and bytes of eight bits, apart from everything else a proof may know. */
module Octets {
  lemma Halved(k: int, n: int)
    requires 0 <= k && n > 0
    ensures k / n == 2 * (k / n / 2) + k / n % 2
  {
  }

  lemma Quotients(k: int)
    requires 0 <= k < 256
    ensures k / 2 / 2 == k / 4 && k / 4 / 2 == k / 8 && k / 8 / 2 == k / 16 && k / 16 / 2 == k / 32
    ensures k / 32 / 2 == k / 64 && k / 64 / 2 == k / 128 && k / 128 / 2 == 0
  {
  }

  /** The eight binary digits. */
  lemma Digits(k: int)
    requires 0 <= k < 256
    ensures k == 128 * (k / 128 % 2) + 64 * (k / 64 % 2) + 32 * (k / 32 % 2) + 16 * (k / 16 % 2)
               + 8 * (k / 8 % 2) + 4 * (k / 4 % 2) + 2 * (k / 2 % 2) + k % 2
  {
    Quotients(k);
    Halved(k, 1);
    Halved(k, 2);
    Halved(k, 4);
    Halved(k, 8);
    Halved(k, 16);
    Halved(k, 32);
    Halved(k, 64);
    Halved(k, 128);
  }

  lemma ByteOfInt(k: int)
    requires 0 <= k < 256
    ensures (k as bv8) as int == k
  {
    Digits(k);
  }

  lemma IntOfByte(b: bv8)
    ensures (b as int) as bv8 == b && 0 <= b as int < 256
  {
  }
}

/** An image brought to an exact size by one more chunk (`pngOfSize` in scripts/clef-parity.ts). */
module PngSize {
  import opened Text
  import opened Register
  import opened PngFiller
  import opened Octets
  import Seqs

  // ----- chunks (RFC 2083, section 3.2) -----

  datatype Chunk = Chunk(kind: seq<bv8>, data: seq<bv8>)

  /** The largest length a chunk may have. */
  const MAX_LENGTH := 0x7fffffff

  function LengthBytes(n: nat): (s: seq<bv8>)
    requires n <= 0xffffffff
    ensures |s| == 4
  {
    [(n / 0x1000000) as bv8, (n / 0x10000 % 0x100) as bv8, (n / 0x100 % 0x100) as bv8, (n % 0x100) as bv8]
  }

  function LengthOf(s: seq<bv8>): nat
    requires |s| == 4
  {
    (s[0] as int) * 0x1000000 + (s[1] as int) * 0x10000 + (s[2] as int) * 0x100 + (s[3] as int)
  }

  function CrcBytes(x: bv32): (s: seq<bv8>)
    ensures |s| == 4
  {
    [((x >> 24) & 0xff) as bv8, ((x >> 16) & 0xff) as bv8, ((x >> 8) & 0xff) as bv8, (x & 0xff) as bv8]
  }

  function Encode(c: Chunk): seq<bv8>
    requires |c.kind| == 4 && |c.data| <= 0xffffffff
  {
    LengthBytes(|c.data|) + ((c.kind + c.data) + CrcBytes(Crc(c.kind + c.data)))
  }

  datatype Read = Read(chunk: Chunk, rest: seq<bv8>)

  /** The chunk at the front of some bytes, if its length is admitted, it is all there, and its CRC is right. */
  function ParseChunk(s: seq<bv8>): (r: Option<Read>)
    ensures r.Some? ==> |r.value.rest| < |s|
  {
    if |s| < 12 then None
    else
      var n := LengthOf(s[..4]);
      if n > MAX_LENGTH || |s| < 12 + n then None
      else
        var body := s[4..8 + n];
        if s[8 + n..12 + n] != CrcBytes(Crc(body)) then None
        else Some(Read(Chunk(body[..4], body[4..]), s[12 + n..]))
  }

  function Chunks(s: seq<bv8>): Option<seq<Chunk>>
    decreases |s|
  {
    if s == [] then Some([])
    else
      match ParseChunk(s)
      case None => None
      case Some(r) => match Chunks(r.rest) case None => None case Some(cs) => Some([r.chunk] + cs)
  }

  lemma Twice(n: nat)
    ensures n / 0x10000 == n / 0x100 / 0x100 && n / 0x1000000 == n / 0x10000 / 0x100
  {
  }

  lemma LastDigit(m: nat, d: nat)
    requires d < 0x100
    ensures (m * 0x100 + d) / 0x100 == m && (m * 0x100 + d) % 0x100 == d
  {
  }

  lemma DigitsOf(n: nat)
    requires n <= 0xffffffff
    ensures n / 0x1000000 < 0x100
    ensures (n / 0x1000000) * 0x1000000 + (n / 0x10000 % 0x100) * 0x10000 + (n / 0x100 % 0x100) * 0x100 + n % 0x100 == n
  {
    var m, h := n / 0x100, n / 0x10000;
    Twice(n);
    assert n == 0x100 * m + n % 0x100 && m == 0x100 * h + m % 0x100 && h == 0x100 * (h / 0x100) + h % 0x100;
  }

  lemma LengthRoundTrip(n: nat)
    requires n <= 0xffffffff
    ensures LengthOf(LengthBytes(n)) == n
  {
    DigitsOf(n);
    ByteOfInt(n / 0x1000000);
    ByteOfInt(n / 0x10000 % 0x100);
    ByteOfInt(n / 0x100 % 0x100);
    ByteOfInt(n % 0x100);
  }

  lemma DigitsUnique(a: nat, b: nat, c: nat, d: nat)
    requires a < 0x100 && b < 0x100 && c < 0x100 && d < 0x100
    ensures var n := a * 0x1000000 + b * 0x10000 + c * 0x100 + d;
            && n <= 0xffffffff && n / 0x1000000 == a
            && n / 0x10000 % 0x100 == b && n / 0x100 % 0x100 == c && n % 0x100 == d
  {
    var h := a * 0x100 + b;
    var m := h * 0x100 + c;
    Twice(m * 0x100 + d);
    LastDigit(m, d);
    LastDigit(h, c);
    LastDigit(a, b);
  }

  lemma FourBytes(s: seq<bv8>)
    requires |s| == 4
    ensures forall i :: 0 <= i < 4 ==> 0 <= s[i] as int < 0x100
    ensures s == [(s[0] as int) as bv8, (s[1] as int) as bv8, (s[2] as int) as bv8, (s[3] as int) as bv8]
  {
    IntOfByte(s[0]);
    IntOfByte(s[1]);
    IntOfByte(s[2]);
    IntOfByte(s[3]);
  }

  lemma LengthOfDigits(n: nat, a: nat, b: nat, c: nat, d: nat)
    requires a < 0x100 && b < 0x100 && c < 0x100 && d < 0x100 && n <= 0xffffffff
    requires n / 0x1000000 == a && n / 0x10000 % 0x100 == b && n / 0x100 % 0x100 == c && n % 0x100 == d
    ensures LengthBytes(n) == [a as bv8, b as bv8, c as bv8, d as bv8]
  {
  }

  lemma LengthFrom(n: nat, a: nat, b: nat, c: nat, d: nat)
    requires a < 0x100 && b < 0x100 && c < 0x100 && d < 0x100
    requires n == a * 0x1000000 + b * 0x10000 + c * 0x100 + d
    ensures n <= 0xffffffff && LengthBytes(n) == [a as bv8, b as bv8, c as bv8, d as bv8]
  {
    DigitsUnique(a, b, c, d);
    LengthOfDigits(n, a, b, c, d);
  }

  lemma LengthBytesOf(s: seq<bv8>)
    requires |s| == 4
    ensures LengthOf(s) <= 0xffffffff && LengthBytes(LengthOf(s)) == s
  {
    FourBytes(s);
    LengthFrom(LengthOf(s), s[0] as int, s[1] as int, s[2] as int, s[3] as int);
  }

  lemma CutThree<T>(s: seq<T>, i: nat, j: nat, k: nat)
    requires i <= j <= k <= |s|
    ensures s == (s[..i] + (s[i..j] + s[j..k])) + s[k..]
  {
  }

  lemma EncodeParts(c: Chunk, length: seq<bv8>, body: seq<bv8>, crc: seq<bv8>)
    requires |c.kind| == 4 && |c.data| <= 0xffffffff
    requires Seqs.Same(length, LengthBytes(|c.data|)) && Seqs.Same(body, c.kind + c.data)
    requires Seqs.Same(crc, CrcBytes(Crc(body)))
    ensures Seqs.Same(Encode(c), length + (body + crc))
  {
  }

  /** What a chunk that reads is made of. */
  lemma ParseParts(s: seq<bv8>)
    requires ParseChunk(s).Some?
    ensures |s| >= 12 && LengthOf(s[..4]) <= MAX_LENGTH && |s| >= 12 + LengthOf(s[..4])
    ensures var n := LengthOf(s[..4]);
            && ParseChunk(s).value == Read(Chunk(s[4..8 + n][..4], s[4..8 + n][4..]), s[12 + n..])
            && Seqs.Same(s[8 + n..12 + n], CrcBytes(Crc(s[4..8 + n])))
  {
  }

  lemma EncodesPrefix(s: seq<bv8>, n: nat, body: seq<bv8>)
    requires 12 + n <= |s| && n <= MAX_LENGTH && n == LengthOf(s[..4]) && body == s[4..8 + n]
    requires Seqs.Same(s[8 + n..12 + n], CrcBytes(Crc(body)))
    ensures Seqs.Same(s, Encode(Chunk(body[..4], body[4..])) + s[12 + n..])
  {
    LengthBytesOf(s[..4]);
    Seqs.Cut(body, 4);
    EncodeParts(Chunk(body[..4], body[4..]), s[..4], body, s[8 + n..12 + n]);
    CutThree(s, 4, 8 + n, 12 + n);
  }

  /** A chunk that was read is the encoding of what was read. */
  lemma ParseSound(s: seq<bv8>)
    requires ParseChunk(s).Some?
    ensures var r := ParseChunk(s).value;
            && |r.chunk.kind| == 4 && |r.chunk.data| <= MAX_LENGTH
            && s == Encode(r.chunk) + r.rest
  {
    ParseParts(s);
    EncodesPrefix(s, LengthOf(s[..4]), s[4..8 + LengthOf(s[..4])]);
  }

  lemma Layered<T>(a: seq<T>, b: seq<T>, c: seq<T>, d: seq<T>)
    ensures var s := (a + (b + c)) + d;
            && |s| == |a| + |b| + |c| + |d|
            && s[..|a|] == a
            && s[|a|..|a| + |b|] == b
            && s[|a| + |b|..|a| + |b| + |c|] == c
            && s[|a| + |b| + |c|..] == d
  {
  }

  /** The encoding of a chunk reads as that chunk, whatever follows it, exactly when its length is admitted. */
  lemma ParseEncoded(c: Chunk, rest: seq<bv8>)
    requires |c.kind| == 4 && |c.data| <= 0xffffffff
    ensures ParseChunk(Encode(c) + rest) == if |c.data| <= 0x7fffffff then Some(Read(c, rest)) else None
  {
    var n, body := |c.data|, c.kind + c.data;
    var crc := CrcBytes(Crc(body));
    var s := Encode(c) + rest;
    LengthRoundTrip(n);
    Layered(LengthBytes(n), body, crc, rest);
    assert body[..4] == c.kind && body[4..] == c.data;
  }

  // ----- the image -----

  const SIGNATURE_BYTES := 8
  const HEADER_END := 33
  const HEADER_LENGTH := 13

  /** `paDd` */
  function Padding(): seq<bv8> { [0x70, 0x61, 0x44, 0x64] }

  function Zeros(n: nat): (z: seq<bv8>)
    ensures |z| == n
  {
    seq(n, _ => 0)
  }

  /** `subarray(0, 33)` ends where a shorter image does. */
  function HeaderEnd(seed: seq<bv8>): (k: nat)
    ensures k <= |seed|
  {
    if |seed| < HEADER_END then |seed| else HEADER_END
  }

  function Inserted(seed: seq<bv8>, filler: seq<bv8>): seq<bv8> {
    seed[..HeaderEnd(seed)] + (filler + seed[HeaderEnd(seed)..])
  }

  /** A seed: a signature, then chunks of which the first is the image header with its thirteen bytes. */
  predicate IsImage(seed: seq<bv8>) {
    && |seed| >= SIGNATURE_BYTES
    && Chunks(seed[SIGNATURE_BYTES..]).Some?
    && var chunks := Chunks(seed[SIGNATURE_BYTES..]).value;
       chunks != [] && |chunks[0].data| == HEADER_LENGTH
  }

  /**
   * The larger image has the seed's chunks with the padding after the header, exactly when the padding has a length
   * a chunk may have; otherwise its chunks do not read at all.
   */
  predicate PaddedAfterHeader(seed: seq<bv8>, larger: seq<bv8>, n: nat)
    requires IsImage(seed) && |larger| >= 8
  {
    var chunks := Chunks(seed[SIGNATURE_BYTES..]).value;
    && larger[..8] == seed[..8]
    && Chunks(larger[8..])
       == if n <= 0x7fffffff then Some([chunks[0], Chunk([0x70, 0x61, 0x44, 0x64], Zeros(n))] + chunks[1..]) else None
  }

  function Filling(n: nat): seq<bv8>
    requires n <= 0xffffffff
  {
    Encode(Chunk(Padding(), Zeros(n)))
  }

  lemma ChunksFirst(s: seq<bv8>)
    requires s != [] && Chunks(s).Some?
    ensures ParseChunk(s).Some? && Chunks(ParseChunk(s).value.rest).Some?
    ensures Chunks(s).value == [ParseChunk(s).value.chunk] + Chunks(ParseChunk(s).value.rest).value
    ensures Chunks(s).value[1..] == Chunks(ParseChunk(s).value.rest).value
  {
  }

  lemma InsertedAfterHeader(seed: seq<bv8>, header: seq<bv8>, filler: seq<bv8>, rest: seq<bv8>)
    requires |seed| >= HEADER_END && seed[SIGNATURE_BYTES..HEADER_END] == header && seed[HEADER_END..] == rest
    ensures var larger := Inserted(seed, filler);
            && |larger| == |seed| + |filler|
            && larger[..SIGNATURE_BYTES] == seed[..SIGNATURE_BYTES]
            && larger[SIGNATURE_BYTES..] == header + (filler + rest)
  {
  }

  lemma ChunksStep(s: seq<bv8>, c: Chunk, rest: seq<bv8>)
    requires s != []
    ensures ParseChunk(s) == None ==> Chunks(s) == None
    ensures ParseChunk(s) == Some(Read(c, rest)) ==>
              Chunks(s) == match Chunks(rest) case None => None case Some(cs) => Some([c] + cs)
  {
  }

  /** Reading the header, the padding and the rest. */
  lemma ChunksThrough(header: Chunk, n: nat, rest: seq<bv8>)
    requires |header.kind| == 4 && |header.data| <= MAX_LENGTH && n <= 0xffffffff && Chunks(rest).Some?
    ensures Chunks(Encode(header) + (Filling(n) + rest))
         == if n <= MAX_LENGTH then Some([header, Chunk(Padding(), Zeros(n))] + Chunks(rest).value) else None
  {
    var padding := Chunk(Padding(), Zeros(n));
    ParseEncoded(padding, rest);
    ChunksStep(Filling(n) + rest, padding, rest);
    ParseEncoded(header, Filling(n) + rest);
    ChunksStep(Encode(header) + (Filling(n) + rest), header, Filling(n) + rest);
    if n <= MAX_LENGTH {
      assert [header] + ([padding] + Chunks(rest).value) == [header, padding] + Chunks(rest).value;
    }
  }

  lemma HeaderAt(seed: seq<bv8>, header: Chunk, rest: seq<bv8>)
    requires |seed| >= SIGNATURE_BYTES && |header.kind| == 4 && |header.data| == HEADER_LENGTH
    requires seed[SIGNATURE_BYTES..] == Encode(header) + rest
    ensures |seed| >= HEADER_END
    ensures seed[SIGNATURE_BYTES..HEADER_END] == Encode(header) && seed[HEADER_END..] == rest
  {
    assert |Encode(header)| == 25;
    assert seed[SIGNATURE_BYTES..][..25] == Encode(header) && seed[SIGNATURE_BYTES..][25..] == rest;
  }

  lemma InsertedChunks(seed: seq<bv8>, n: nat)
    requires IsImage(seed) && n <= 0xffffffff
    ensures |Inserted(seed, Filling(n))| == |seed| + 12 + n
    ensures PaddedAfterHeader(seed, Inserted(seed, Filling(n)), n)
  {
    var s := seed[SIGNATURE_BYTES..];
    var header := ParseChunk(s).value;
    ParseSound(s);
    HeaderAt(seed, header.chunk, header.rest);
    InsertedAfterHeader(seed, Encode(header.chunk), Filling(n), header.rest);
    ChunksThrough(header.chunk, n, header.rest);
    ChunksFirst(s);
  }

  // ----- the bytes of a known chunk -----

  lemma FedAs(register: bv32, b: bv8, start: bv32, next: bv32)
    requires MACHINE.xor(register, MACHINE.byte(b)) == start && Iterate(Shift, start, 8) == next
    ensures MACHINE.Feed(register, [b]) == next
  {
    assert MACHINE.Feed(next, []) == next;
  }

  lemma FedI()
    ensures MACHINE.Feed(0xffffffff, [0x49]) == 0x22fde946
  {
    XorAt(0xffffffff, 0x49, 0xffffffb6);
    EightSteps(Shift, [0x22fde946, 0x45fbd28c, 0x8bf7a518, 0xcc9e4c71, 0x424d9ea3,
                       0x849b3d46, 0xd2477ccd, 0x7fffffdb, 0xffffffb6]);
    FedAs(0xffffffff, 0x49, 0xffffffb6, 0x22fde946);
  }

  lemma FedE()
    ensures MACHINE.Feed(0x22fde946, [0x45]) == 0x992bac53
  {
    XorAt(0x22fde946, 0x45, 0x22fde903);
    EightSteps(Shift, [0x992bac53, 0xe9265ee7, 0x093dbb8f, 0x127b771e, 0x24f6ee3c,
                       0x49eddc78, 0x93dbb8f0, 0xfcc677a1, 0x22fde903]);
    FedAs(0x22fde946, 0x45, 0x22fde903, 0x992bac53);
  }

  lemma FedN()
    ensures MACHINE.Feed(0x992bac53, [0x4e]) == 0x639f4775
  {
    XorAt(0x992bac53, 0x4e, 0x992bac1d);
    EightSteps(Shift, [0x639f4775, 0xc73e8eea, 0x550c1b95, 0xaa18372a, 0x8f416815,
                       0xc5f3d66b, 0x5096aa97, 0xa12d552e, 0x992bac1d]);
    FedAs(0x992bac53, 0x4e, 0x992bac1d, 0x639f4775);
  }

  lemma FedD()
    ensures MACHINE.Feed(0x639f4775, [0x44]) == 0x51bd9f7d
  {
    XorAt(0x639f4775, 0x44, 0x639f4731);
    EightSteps(Shift, [0x51bd9f7d, 0xa37b3efa, 0x9d877bb5, 0xe07ff12b, 0x1b8ee417,
                       0x371dc82e, 0x6e3b905c, 0xdc7720b8, 0x639f4731]);
    FedAs(0x639f4775, 0x44, 0x639f4731, 0x51bd9f7d);
  }

  /** The twelve bytes of the chunk without data that ends every image (RFC 2083, sections 4.1.4 and 15). */
  lemma EndChunk()
    ensures Encode(Chunk([0x49, 0x45, 0x4e, 0x44], [])) == [0, 0, 0, 0, 0x49, 0x45, 0x4e, 0x44, 0xae, 0x42, 0x60, 0x82]
  {
    FedI();
    FedE();
    FedN();
    FedD();
    FeedAppend(MACHINE, ONES, [0x49], [0x45]);
    FeedAppend(MACHINE, ONES, [0x49, 0x45], [0x4e]);
    FeedAppend(MACHINE, ONES, [0x49, 0x45, 0x4e], [0x44]);
    var kind: seq<bv8> := [0x49, 0x45, 0x4e, 0x44];
    assert [0x49] + [0x45] == [0x49, 0x45] && [0x49, 0x45] + [0x4e] == [0x49, 0x45, 0x4e];
    assert [0x49, 0x45, 0x4e] + [0x44] == kind;
    assert Crc(kind) == 0xae426082;
    assert kind + [] == kind;
  }

  // ----- the loops -----

  method ShiftOnce(crc: bv32) returns (next: bv32)
    ensures next == MACHINE.step(crc)
  {
    next := (crc >> 1) ^ (if crc & 1 == 1 then POLYNOMIAL else 0);
    StepAt(crc, next);
  }

  method FeedByte(register: bv32, b: bv8) returns (crc: bv32)
    ensures crc == Iterate(MACHINE.step, MACHINE.xor(register, MACHINE.byte(b)), 8)
  {
    var start := register ^ (b as bv32);
    XorAt(register, MACHINE.byte(b), start);
    crc := start;
    var bit := 0;
    while bit < 8
      invariant bit <= 8 && Iterate(MACHINE.step, crc, 8 - bit) == Iterate(MACHINE.step, start, 8)
    {
      var next := ShiftOnce(crc);
      crc := next;
      bit := bit + 1;
    }
  }

  method CrcOf(bytes: seq<bv8>) returns (crc: bv32)
    ensures crc == Crc(bytes)
  {
    crc := ONES;
    var i := 0;
    assert bytes[0..] == bytes;
    while i < |bytes|
      invariant i <= |bytes| && MACHINE.Feed(crc, bytes[i..]) == MACHINE.Feed(ONES, bytes)
    {
      Seqs.Tail(bytes, i);
      crc := FeedByte(crc, bytes[i]);
      i := i + 1;
    }
    crc := crc ^ ONES;
  }

  method WriteFour(buffer: array<bv8>, at: nat, bytes: seq<bv8>)
    requires |bytes| == 4 && at + 4 <= buffer.Length
    modifies buffer
    ensures buffer[..] == old(buffer[..])[..at] + bytes + old(buffer[..])[at + 4..]
  {
    buffer[at], buffer[at + 1], buffer[at + 2], buffer[at + 3] := bytes[0], bytes[1], bytes[2], bytes[3];
  }

  /** The two writes at the front. */
  lemma Headed(s1: seq<bv8>, s2: seq<bv8>, n: nat, length: seq<bv8>, kind: seq<bv8>)
    requires n >= 12 && |length| == 4 && |kind| == 4
    requires s1 == Zeros(n)[..0] + length + Zeros(n)[4..]
    requires s2 == s1[..4] + kind + s1[8..]
    ensures |s2| == n && s2[..4] == length && s2[4..n - 4] == kind + Zeros(n - 12)
  {
    forall i | 8 <= i < n
      ensures s2[i] == 0
    {
      assert s2[i] == s1[8..][i - 8] == s1[i] == Zeros(n)[4..][i - 4] == Zeros(n)[i];
    }
    var body := s2[4..n - 4];
    forall i | 0 <= i < |body|
      ensures body[i] == (kind + Zeros(n - 12))[i]
    {
      assert body[i] == s2[i + 4];
    }
  }

  /** The write at the end. */
  lemma Sealed(s2: seq<bv8>, s3: seq<bv8>, n: nat, crc: seq<bv8>)
    requires n >= 12 && |s2| == n && |crc| == 4 && s3 == s2[..n - 4] + crc + s2[n..]
    ensures Seqs.Same(s3, s2[..4] + (s2[4..n - 4] + crc))
  {
    assert s3 == s2[..4] + (s2[4..n - 4] + crc);
  }

  /** The filler, written into a buffer of zeros: length, kind, then the CRC of all that lies between. */
  method Filler(n: nat) returns (filler: seq<bv8>)
    requires 12 <= n && n - 12 <= 0xffffffff
    ensures filler == Filling(n - 12)
  {
    var buffer := new bv8[n](_ => 0);
    ghost var s0 := buffer[..];
    assert s0 == Zeros(n);
    WriteFour(buffer, 0, LengthBytes(n - 12));
    ghost var s1 := buffer[..];
    WriteFour(buffer, 4, Padding());
    ghost var s2 := buffer[..];
    Headed(s1, s2, n, LengthBytes(n - 12), Padding());
    var body := buffer[4..n - 4];
    assert body == s2[4..n - 4];
    var crc := CrcOf(body);
    WriteFour(buffer, n - 4, CrcBytes(crc));
    filler := buffer[..];
    Sealed(s2, filler, n, CrcBytes(crc));
    EncodeParts(Chunk(Padding(), Zeros(n - 12)), s2[..4], body, CrcBytes(crc));
  }

  lemma InsertedLength(seed: seq<bv8>, n: nat)
    requires n <= 0xffffffff
    ensures |Inserted(seed, Filling(n))| == |seed| + 12 + n
  {
  }

  /** The length of the base64 text of `n` bytes. */
  function Base64Length(n: nat): nat {
    4 * ((n + 2) / 3)
  }

  /** No JavaScript engine has longer strings. */
  const LONGEST := 0x7fffffff

  /** A text no longer than that holds no more padding than a chunk may have. */
  lemma TextBoundsPadding(size: nat, n: nat)
    requires n <= size && Base64Length(size) <= LONGEST
    ensures n <= MAX_LENGTH
  {
  }

  lemma Enlarges(seed: seq<bv8>, n: nat)
    requires n <= 0xffffffff
    ensures |Inserted(seed, Filling(n))| == |seed| + 12 + n
    ensures Base64Length(|seed| + 12 + n) <= LONGEST ==> n <= MAX_LENGTH
    ensures IsImage(seed) ==> PaddedAfterHeader(seed, Inserted(seed, Filling(n)), n)
  {
    InsertedLength(seed, n);
    if Base64Length(|seed| + 12 + n) <= LONGEST {
      TextBoundsPadding(|seed| + 12 + n, n);
    }
    if IsImage(seed) {
      InsertedChunks(seed, n);
    }
  }

  /**
   * Exactly the size that was asked for, with one more chunk after the header. A size that leaves no room for an
   * empty chunk, or more than a length field holds, is a range error, and so is one whose base64 text is longer than
   * the engine's strings can be. The result is the bytes of that text; since no string is longer than `LONGEST`, the
   * image always reads with its padding.
   */
  method PngOfSize(seed: seq<bv8>, size: int, longest: nat) returns (r: Result<seq<bv8>>)
    ensures r.Ok? <==> |seed| + 12 <= size <= |seed| + 12 + 0xffffffff && Base64Length(size) <= longest
    ensures r.Ok? ==> |r.value| == size && r.value == Inserted(seed, Filling(size - |seed| - 12))
    ensures r.Ok? && IsImage(seed) ==> PaddedAfterHeader(seed, r.value, size - |seed| - 12)
    ensures r.Ok? && |seed| >= 33 ==> r.value[..33] == seed[..33] && r.value[size - |seed| + 33..] == seed[33..]
    ensures r.Ok? && longest <= 0x7fffffff ==> size - |seed| - 12 <= 0x7fffffff
  {
    var n := size - |seed|;
    if n < 12 || n - 12 > 0xffffffff {
      return Err("RangeError");
    }
    var filler := Filler(n);
    Enlarges(seed, n - 12);
    if Base64Length(size) > longest {
      return Err("RangeError");
    }
    r := Ok(Inserted(seed, filler));
  }
}
