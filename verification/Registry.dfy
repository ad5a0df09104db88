/** The registry file of consumed contexts (store.c): format, writer and reader. */
module Registry {
  import opened Bytes
  import opened Identity

  const MAX_CONTEXTS: nat := 4096
  // A 12-byte header, 104 bytes a record, and a 32-byte digest.
  const REGISTRY_MAX: nat := 12 + 4096 * 104 + 32

  // "WCOREG01"
  const MAGIC: seq<Byte> := [87, 67, 79, 82, 69, 71, 48, 49]

  type Hash = seq<Byte> -> Digest

  /** One consumed context and the exclusive sequence boundary reserved for it. */
  datatype Record = Record(identity: Identity, reserved: nat)

  datatype Status = Ok | Invalid | Locked | Corrupt | Full | FreshRequired | Unavailable | Exhausted

  predicate Fits(r: Record) {
    r.reserved < 0x1_0000_0000_0000_0000
  }

  function RecordBytes(r: Record): (bytes: seq<Byte>)
    ensures |bytes| == 104
  {
    r.identity.context + r.identity.senderSpace + r.identity.recipientSpace + ToBytes(r.reserved, 8)
  }

  function ReadRecord(bytes: seq<Byte>): (r: Record)
    requires |bytes| == 104
  {
    Record(Identity(bytes[..32], bytes[32..64], bytes[64..96]), BigEndian(bytes[96..]))
  }

  lemma RecordReadsBack(r: Record)
    requires Fits(r)
    ensures ReadRecord(RecordBytes(r)) == r
  {
    var bytes := RecordBytes(r);
    assert bytes[..32] == r.identity.context;
    assert bytes[32..64] == r.identity.senderSpace;
    assert bytes[64..96] == r.identity.recipientSpace;
    assert bytes[96..] == ToBytes(r.reserved, 8);
    Pow256Values();
    EncodedIntegerReadsBack(r.reserved, 8);
  }

  lemma RecordWritesBack(bytes: seq<Byte>)
    requires |bytes| == 104
    ensures Fits(ReadRecord(bytes)) && RecordBytes(ReadRecord(bytes)) == bytes
  {
    ReadIntegerEncodesBack(bytes[96..]);
    Pow256Values();
    assert bytes == bytes[..32] + bytes[32..64] + bytes[64..96] + bytes[96..];
  }

  function RecordsBytes(records: seq<Record>): (bytes: seq<Byte>)
    ensures |bytes| == 104 * |records|
  {
    if records == [] then [] else RecordsBytes(records[..|records| - 1]) + RecordBytes(records[|records| - 1])
  }

  function ReadRecords(bytes: seq<Byte>, count: nat): (records: seq<Record>)
    requires |bytes| == 104 * count
    ensures |records| == count
  {
    if count == 0 then []
    else
      var cut := |bytes| - 104;
      ReadRecords(bytes[..cut], count - 1) + [ReadRecord(bytes[cut..])]
  }

  lemma {:induction false} RecordsReadBack(records: seq<Record>)
    requires forall r :: r in records ==> Fits(r)
    ensures ReadRecords(RecordsBytes(records), |records|) == records
  {
    hide ReadRecord, RecordBytes, Fits;
    if records != [] {
      var rest, last := records[..|records| - 1], records[|records| - 1];
      var bytes := RecordsBytes(records);
      var cut := |bytes| - 104;
      assert bytes[..cut] == RecordsBytes(rest) && bytes[cut..] == RecordBytes(last);
      RecordsReadBack(rest);
      RecordReadsBack(last);
    }
  }

  lemma {:induction false} RecordsWriteBack(bytes: seq<Byte>, count: nat)
    requires |bytes| == 104 * count
    ensures forall r :: r in ReadRecords(bytes, count) ==> Fits(r)
    ensures RecordsBytes(ReadRecords(bytes, count)) == bytes
  {
    hide ReadRecord, RecordBytes, Fits;
    if count > 0 {
      var cut := |bytes| - 104;
      RecordsWriteBack(bytes[..cut], count - 1);
      RecordWritesBack(bytes[cut..]);
      var records := ReadRecords(bytes, count);
      assert records[..count - 1] == ReadRecords(bytes[..cut], count - 1);
      assert bytes == bytes[..cut] + bytes[cut..];
    }
  }

  /** Record `i` occupies its own slice of the file body. */
  lemma {:induction false} RecordsBytesSlice(records: seq<Record>, i: nat)
    requires i < |records|
    ensures 104 * (i + 1) <= |RecordsBytes(records)|
    ensures RecordsBytes(records)[104 * i..104 * (i + 1)] == RecordBytes(records[i])
  {
    var n := |records| - 1;
    var rest := RecordsBytes(records[..n]);
    if i < n {
      RecordsBytesSlice(records[..n], i);
      assert RecordsBytes(records)[104 * i..104 * (i + 1)]
          == rest[104 * i..104 * (i + 1)];
    }
  }

  /** Everything the checksum covers. */
  function Payload(records: seq<Record>): (bytes: seq<Byte>)
    ensures |bytes| == 12 + 104 * |records|
  {
    MAGIC + ToBytes(|records|, 4) + RecordsBytes(records)
  }

  /** The file `persist` writes. */
  function FileBytes(sha: Hash, records: seq<Record>): seq<Byte> {
    Payload(records) + sha(Payload(records))
  }

  predicate Wellformed(records: seq<Record>) {
    1 <= |records| <= MAX_CONTEXTS && forall r :: r in records ==> Fits(r)
  }

  /** `read_registry` on an existing file. */
  function ReadFile(sha: Hash, bytes: seq<Byte>): Option<seq<Record>> {
    if |bytes| < 12 + 32 || |bytes| > REGISTRY_MAX || bytes[..8] != MAGIC then None
    else
      var count := BigEndian(bytes[8..12]);
      if count == 0 || count > MAX_CONTEXTS || |bytes| != 12 + count * 104 + 32 ||
         sha(bytes[..|bytes| - 32]) != bytes[|bytes| - 32..]
      then None
      else Some(ReadRecords(bytes[12..|bytes| - 32], count))
  }

  /** The reader accepts exactly what the writer produces, and recovers the same records. */
  lemma ReaderAcceptsExactlyWhatIsWritten(sha: Hash, bytes: seq<Byte>, records: seq<Record>)
    ensures ReadFile(sha, bytes) == Some(records)
            <==> Wellformed(records) && bytes == FileBytes(sha, records)
  {
    if ReadFile(sha, bytes) == Some(records) {
      ReadAfterWrite(sha, bytes, records);
    }
    if Wellformed(records) && bytes == FileBytes(sha, records) {
      WriteBeforeRead(sha, bytes, records);
    }
  }

  lemma ReadAfterWrite(sha: Hash, bytes: seq<Byte>, records: seq<Record>)
    requires ReadFile(sha, bytes) == Some(records)
    ensures Wellformed(records) && bytes == FileBytes(sha, records)
  {
    var cut := |bytes| - 32;
    var body := bytes[12..cut];
    var count := BigEndian(bytes[8..12]);
    RecordsWriteBack(body, count);
    assert ToBytes(count, 4) == bytes[8..12] by { ReadIntegerEncodesBack(bytes[8..12]); }
    assert Payload(records) == bytes[..cut] by {
      assert bytes[..cut] == bytes[..8] + bytes[8..12] + body;
    }
    assert bytes == bytes[..cut] + bytes[cut..];
  }

  lemma WriteBeforeRead(sha: Hash, bytes: seq<Byte>, records: seq<Record>)
    requires Wellformed(records) && bytes == FileBytes(sha, records)
    ensures ReadFile(sha, bytes) == Some(records)
  {
    var cut := |bytes| - 32;
    var payload := Payload(records);
    assert bytes[..cut] == payload && bytes[cut..] == sha(payload);
    assert bytes[..8] == MAGIC;
    assert bytes[8..12] == ToBytes(|records|, 4);
    assert bytes[12..cut] == RecordsBytes(records);
    Pow256Values();
    EncodedIntegerReadsBack(|records|, 4);
    RecordsReadBack(records);
  }

  /** The loop of `admit`: first offending record decides. */
  function Screen(records: seq<Record>, identity: Identity): Status {
    if records == [] then Ok
    else if records[0].reserved == 0 || records[0].reserved > SEQUENCE_LIMIT then Corrupt
    else if Overlaps(records[0].identity, identity) then FreshRequired
    else Screen(records[1..], identity)
  }

  /** An identity passes the screen exactly when every record is in bounds and disjoint from it. */
  lemma {:induction false} ScreenIsExact(records: seq<Record>, identity: Identity)
    ensures Screen(records, identity) == Ok <==>
            forall r :: r in records ==> 0 < r.reserved <= SEQUENCE_LIMIT && !Overlaps(r.identity, identity)
  {
    if records != [] {
      ScreenIsExact(records[1..], identity);
      assert records == [records[0]] + records[1..];
    }
  }

  function AdmitStatus(records: seq<Record>, identity: Identity): Status {
    var screened := Screen(records, identity);
    if screened != Ok then screened else if |records| == MAX_CONTEXTS then Full else Ok
  }

  /** Later registries keep every earlier record in place and never lower its boundary. */
  predicate Extends(earlier: seq<Record>, later: seq<Record>) {
    && |earlier| <= |later|
    && forall i :: 0 <= i < |earlier| ==>
         later[i].identity == earlier[i].identity && earlier[i].reserved <= later[i].reserved
  }
}
