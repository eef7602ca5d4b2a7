/** The bytes that the source inventory feeds to its hash (`source_inputs_sha256` in scripts/package-native.py). */
module SourceInventory {
  import opened Text
  import Seqs

  const MAX_BYTES := 67108864

  /** `algal.native-source-inputs.v1` and a zero byte */
  function Header(): seq<Byte> {
    ([97, 108, 103, 97, 108, 46]
     + ([110, 97, 116, 105, 118, 101, 45]
     + ([115, 111, 117, 114, 99, 101, 45]
     + [105, 110, 112, 117, 116, 115, 46, 118, 49])))
    + [0]
  }

  lemma FirstCodes(word: string)
    requires word == "algal."
    ensures Encode(word) == [97, 108, 103, 97, 108, 46]
  {
    EncodeAscii(word);
  }

  lemma NativeCodes(word: string)
    requires word == "native-"
    ensures Encode(word) == [110, 97, 116, 105, 118, 101, 45]
  {
    EncodeAscii(word);
  }

  lemma SourceCodes(word: string)
    requires word == "source-"
    ensures Encode(word) == [115, 111, 117, 114, 99, 101, 45]
  {
    EncodeAscii(word);
  }

  lemma LastCodes(word: string)
    requires word == "inputs.v1"
    ensures Encode(word) == [105, 110, 112, 117, 116, 115, 46, 118, 49]
  {
    EncodeAscii(word);
  }

  /** The name of the contract, encoded, and a zero byte. */
  lemma HeaderIs(a: string, b: string, c: string, d: string)
    requires a == "algal." && b == "native-" && c == "source-" && d == "inputs.v1"
    ensures Header() == Encode(a + (b + (c + d))) + [0]
  {
    FirstCodes(a);
    NativeCodes(b);
    SourceCodes(c);
    LastCodes(d);
    EncodeAppend(c, d);
    EncodeAppend(b, c + d);
    EncodeAppend(a, b + (c + d));
  }

  /** A file by its path below the root, in UTF-8, and its content. */
  datatype File = File(name: seq<Byte>, content: seq<Byte>)

  // ----- numbers of a fixed width -----

  function Power(k: nat): (p: nat)
    ensures p > 0
  {
    if k == 0 then 1 else 256 * Power(k - 1)
  }

  /** `n.to_bytes(k, "big")` for a number that fits */
  function BigEndian(n: nat, k: nat): (s: seq<Byte>)
    ensures |s| == k
  {
    if k == 0 then [] else BigEndian(n / 256, k - 1) + [n % 256]
  }

  function Number(s: seq<Byte>): nat {
    if s == [] then 0 else 256 * Number(s[..|s| - 1]) + s[|s| - 1]
  }

  lemma {:induction false} NumberOfBytes(n: nat, k: nat)
    requires n < Power(k)
    ensures Number(BigEndian(n, k)) == n
  {
    if k > 0 {
      NumberOfBytes(n / 256, k - 1);
      var s := BigEndian(n, k);
      assert s[..|s| - 1] == BigEndian(n / 256, k - 1);
    }
  }

  // ----- records -----

  const WIDTH := 8
  const LENGTHS := 0x1_0000_0000_0000_0000

  /** A length and that many bytes. */
  function Delimited(data: seq<Byte>): seq<Byte> {
    BigEndian(|data|, WIDTH) + data
  }

  function Record(f: File): seq<Byte> {
    Delimited(f.name) + Delimited(f.content)
  }

  function Records(files: seq<File>): seq<Byte> {
    if files == [] then [] else Record(files[0]) + Records(files[1..])
  }

  /** The bytes of one record, with two lengths of eight bytes each. */
  lemma RecordSample()
    ensures Record(File([97], [7, 9])) == [0, 0, 0, 0, 0, 0, 0, 1, 97, 0, 0, 0, 0, 0, 0, 0, 2, 7, 9]
  {
  }

  datatype Split = Split(data: seq<Byte>, rest: seq<Byte>)

  function Undelimit(s: seq<Byte>): (r: Option<Split>)
    ensures r.Some? ==> |r.value.rest| < |s|
  {
    if |s| < WIDTH then None
    else
      var n := Number(s[..WIDTH]);
      if |s| < WIDTH + n then None else Some(Split(s[WIDTH..WIDTH + n], s[WIDTH + n..]))
  }

  /** The files a stream of records lists. */
  function Decode(s: seq<Byte>): Option<seq<File>>
    decreases |s|
  {
    if s == [] then Some([])
    else
      match Undelimit(s)
      case None => None
      case Some(name) =>
        match Undelimit(name.rest)
        case None => None
        case Some(content) =>
          match Decode(content.rest)
          case None => None
          case Some(files) => Some([File(name.data, content.data)] + files)
  }

  lemma WidthHolds()
    ensures LENGTHS == Power(WIDTH)
  {
    assert Power(2) == 65536;
    assert Power(4) == 65536 * Power(2);
    assert Power(6) == 65536 * Power(4);
    assert Power(8) == 65536 * Power(6);
  }

  lemma UndelimitDelimited(data: seq<Byte>, rest: seq<Byte>)
    requires |data| < LENGTHS
    ensures Undelimit(Delimited(data) + rest) == Some(Split(data, rest))
  {
    var s := Delimited(data) + rest;
    WidthHolds();
    NumberOfBytes(|data|, WIDTH);
    assert s[..WIDTH] == BigEndian(|data|, WIDTH);
    assert s[WIDTH..WIDTH + |data|] == data && s[WIDTH + |data|..] == rest;
  }

  /** Lengths that eight bytes can hold. */
  predicate Encodable(files: seq<File>) {
    forall i :: 0 <= i < |files| ==> |files[i].name| < LENGTHS && |files[i].content| < LENGTHS
  }

  /** The records give back the ordered list of names and contents. */
  lemma {:induction false} DecodeRecords(files: seq<File>)
    requires Encodable(files)
    ensures Decode(Records(files)) == Some(files)
  {
    if files != [] {
      var f, rest := files[0], Records(files[1..]);
      DecodeRecords(files[1..]);
      Seqs.Assoc(Delimited(f.name), Delimited(f.content), rest);
      UndelimitDelimited(f.name, Delimited(f.content) + rest);
      UndelimitDelimited(f.content, rest);
      assert Records(files) != [];
      assert [f] + files[1..] == files;
    }
  }

  /** Different inventories feed different bytes to the hash. */
  lemma InventoriesDiffer(a: seq<File>, b: seq<File>)
    requires Encodable(a) && Encodable(b) && Header() + Records(a) == Header() + Records(b)
    ensures a == b
  {
    Seqs.Concatenation(Header(), Records(a));
    Seqs.Concatenation(Header(), Records(b));
    DecodeRecords(a);
    DecodeRecords(b);
  }

  // ----- the loop -----

  function Total(files: seq<File>): nat {
    if files == [] then 0 else |files[0].content| + Total(files[1..])
  }

  predicate NamesFit(files: seq<File>) {
    forall i :: 0 <= i < |files| ==> |files[i].name| < LENGTHS
  }

  /** `source.read(limit)` */
  function ReadUpTo(content: seq<Byte>, limit: nat): seq<Byte> {
    if limit < |content| then content[..limit] else content
  }

  lemma {:induction false} TotalSplit(files: seq<File>, i: nat)
    requires i < |files|
    ensures Total(files[i..]) == |files[i].content| + Total(files[i + 1..])
    ensures Records(files[i..]) == Record(files[i]) + Records(files[i + 1..])
  {
    Seqs.Tail(files, i);
  }

  /** What was fed after the first i files. */
  predicate Fed(header: seq<Byte>, files: seq<File>, i: nat, total: nat, stream: seq<Byte>) {
    && i <= |files|
    && total <= MAX_BYTES
    && total + Total(files[i..]) == Total(files)
    && Encodable(files[..i])
    && stream + Records(files[i..]) == header + Records(files)
  }

  method FeedOne(header: seq<Byte>, files: seq<File>, i: nat, total: nat, stream: seq<Byte>)
    returns (fed: Option<seq<Byte>>, size: nat)
    requires i < |files| && Fed(header, files, i, total, stream)
    ensures fed.Some? ==> Fed(header, files, i + 1, size, fed.value)
    ensures fed.None? ==> Total(files) > MAX_BYTES || !NamesFit(files)
  {
    TotalSplit(files, i);
    var f := files[i];
    var data := ReadUpTo(f.content, MAX_BYTES + 1 - total);
    size := total + |data|;
    if size > MAX_BYTES || |f.name| >= LENGTHS {
      return None, size;
    }
    Seqs.Assoc(stream, Record(f), Records(files[i + 1..]));
    assert files[..i + 1] == files[..i] + [f];
    fed := Some(stream + (Delimited(f.name) + Delimited(data)));
  }

  method FeedAll(header: seq<Byte>, files: seq<File>) returns (fed: Option<seq<Byte>>)
    ensures fed.Some? <==> Total(files) <= MAX_BYTES && NamesFit(files)
    ensures fed.Some? ==> fed.value == header + Records(files) && Encodable(files)
  {
    var stream, total, i := header, 0, 0;
    assert files[0..] == files;
    while i < |files|
      invariant Fed(header, files, i, total, stream)
    {
      var next, size := FeedOne(header, files, i, total, stream);
      if next.None? {
        return None;
      }
      stream, total, i := next.value, size, i + 1;
    }
    assert files[..i] == files && files[i..] == [];
    Seqs.Empty(stream);
    fed := Some(stream);
  }

  /**
   * The bytes fed to the hash, for files in their order. Every file is fed whole: one that would be cut by the bounded
   * read passes the limit, so it is an error; and the contents together never pass the limit.
   */
  method SourceInputs(files: seq<File>) returns (fed: Result<seq<Byte>>)
    ensures fed.Ok? <==> Total(files) <= 67108864 && NamesFit(files)
    ensures fed.Ok? ==> fed.value == Header() + Records(files) && Encodable(files)
  {
    var all := FeedAll(Header(), files);
    fed := if all.Some? then Ok(all.value) else Err("native build input limit");
  }
}
