/** The gzip member around a diagnostic report (RFC 1952), and how much of the log goes into it. */
module Diagnostics {
  import opened UpdateTypes
  import opened Crc32

  // ----- the gzip member -----

  /** zlib, left open: qCompress at level 9, and raw inflation. */
  const COMPRESS: Bytes -> Bytes
  const INFLATE: Bytes -> Option<Bytes>

  function Compressed(input: Bytes): Bytes {
    COMPRESS(input)
  }

  function Inflated(deflated: Bytes): Option<Bytes> {
    INFLATE(deflated)
  }

  /** The deflate stream: without qCompress's length prefix, zlib header and Adler-32. */
  function Deflated(frame: Bytes): Bytes
    requires |frame| > 10
  {
    frame[6..|frame| - 4]
  }

  /** Inflating undoes compressing; and the two bytes for an empty report inflate to nothing. */
  ghost predicate ZlibIsSound() {
    && (forall x | |Compressed(x)| > 10 :: Inflated(Deflated(Compressed(x))) == Some(x))
    && Inflated([0x03, 0x00]) == Some([])
  }

  const HEADER: Bytes := [0x1f, 0x8b, 0x08, 0x00, 0x00, 0x00, 0x00, 0x00, 0x00, 0xff]

  function LittleEndian(v: bv32): (r: Bytes)
    ensures |r| == 4
  {
    [(v & 0xff) as bv8, ((v >> 8) & 0xff) as bv8, ((v >> 16) & 0xff) as bv8, ((v >> 24) & 0xff) as bv8]
  }

  function FromLittleEndian(s: Bytes): bv32
    requires |s| == 4
  {
    (s[0] as bv32) | ((s[1] as bv32) << 8) | ((s[2] as bv32) << 16) | ((s[3] as bv32) << 24)
  }

  lemma LittleEndianReadsBack(v: bv32)
    ensures FromLittleEndian(LittleEndian(v)) == v
  {
  }

  function SizeMod(input: Bytes): bv32 {
    (|input| % 0x1_0000_0000) as bv32
  }

  /** Nothing if zlib gave nothing usable. */
  method GzipCompress(input: Bytes) returns (output: Bytes)
    ensures output == Gzip(input)
  {
    if input == [] {
      return HEADER + [0x03, 0x00] + [0x00, 0x00, 0x00, 0x00] + [0x00, 0x00, 0x00, 0x00];
    }
    var zlibFrame := Compressed(input);
    if |zlibFrame| < 10 {
      return [];
    }
    var deflateStart, deflateEnd := 6, |zlibFrame| - 4;
    if deflateEnd <= deflateStart {
      return [];
    }
    var crc := Crc32Update(0, input);
    output := HEADER + zlibFrame[deflateStart..deflateEnd];
    output := output + LittleEndian(crc);
    output := output + LittleEndian(SizeMod(input));
  }

  function Gzip(input: Bytes): Bytes {
    if input == [] then HEADER + [0x03, 0x00] + LittleEndian(0) + LittleEndian(0)
    else if |Compressed(input)| <= 10 then []
    else HEADER + Deflated(Compressed(input)) + LittleEndian(Crc(0, input)) + LittleEndian(SizeMod(input))
  }

  /** Reading one gzip member (section 2.3 of RFC 1952): magic, method, no extra fields, and a trailer that fits. */
  function Gunzip(file: Bytes): Option<Bytes> {
    if |file| < 18 || file[..4] != [0x1f, 0x8b, 0x08, 0x00] then None
    else
      var n := |file|;
      match Inflated(file[10..n - 8])
      case None => None
      case Some(data) =>
        if FromLittleEndian(file[n - 8..n - 4]) == Crc(0, data) && FromLittleEndian(file[n - 4..]) == SizeMod(data)
        then Some(data) else None
  }

  lemma PiecesOf(header: Bytes, body: Bytes, crc: Bytes, size: Bytes)
    requires |header| == 10 && |crc| == 4 && |size| == 4
    ensures var file := header + body + crc + size;
            var n := |file|;
            && n == 18 + |body| && file[..4] == header[..4] && file[10..n - 8] == body
            && file[n - 8..n - 4] == crc && file[n - 4..] == size
  {
  }

  /** Every report that is sent reads back as what went in, and its trailer says so. */
  lemma ReportReadsBack(input: Bytes)
    requires ZlibIsSound() && Gzip(input) != []
    ensures Gunzip(Gzip(input)) == Some(input)
  {
    hide LittleEndian, FromLittleEndian, Crc;
    if input == [] {
      EmptyChecksum();
      PiecesOf(HEADER, [0x03, 0x00], LittleEndian(0), LittleEndian(0));
      LittleEndianReadsBack(0);
    } else {
      PiecesOf(HEADER, Deflated(Compressed(input)), LittleEndian(Crc(0, input)), LittleEndian(SizeMod(input)));
      LittleEndianReadsBack(Crc(0, input));
      LittleEndianReadsBack(SizeMod(input));
    }
  }

  lemma EmptyChecksum()
    ensures Crc(0, []) == 0 && SizeMod([]) == 0
  {
    NotNot(0);
  }

  // ----- how much of the log goes in -----

  const LOG_TAIL_CAP: nat := 256 * 1024
  const BUNDLE_CAP: nat := 2 * 1024 * 1024

  /** The report with a note and at most this much of the log, left open. */
  const BUNDLE: (string, nat) -> Bytes

  function Payload(note: string, logByteCap: nat): Bytes {
    Gzip(BUNDLE(note, logByteCap))
  }

  datatype Report = Ready(payload: Bytes) | NotCompressed | TooLarge

  /** What is tried, in order: each time half as much of the log, and none at all in the end. */
  function Tries(logByteCap: nat): (r: seq<nat>)
    ensures |r| > 0 && r[0] == logByteCap && r[|r| - 1] == 0
  {
    if logByteCap == 0 then [0] else [logByteCap] + Tries(logByteCap / 2)
  }

  predicate Fits(payload: Bytes) {
    payload != [] && |payload| <= BUNDLE_CAP
  }

  function Verdict(payload: Bytes): Report {
    if payload == [] then NotCompressed else if |payload| <= BUNDLE_CAP then Ready(payload) else TooLarge
  }

  /** The first try that is not too large decides; if there is none, the last one does. */
  ghost predicate Decided(note: string, tries: seq<nat>, r: Report) {
    exists i | 0 <= i < |tries| ::
      && r == Verdict(Payload(note, tries[i]))
      && (forall j | 0 <= j < i :: Verdict(Payload(note, tries[j])).TooLarge?)
      && (r.TooLarge? ==> i == |tries| - 1)
  }

  lemma DecidedLater(note: string, logByteCap: nat, r: Report)
    requires logByteCap > 0 && Verdict(Payload(note, logByteCap)).TooLarge? && Decided(note, Tries(logByteCap / 2), r)
    ensures Decided(note, Tries(logByteCap), r)
  {
    hide Verdict, Payload;
    var rest := Tries(logByteCap / 2);
    assert Tries(logByteCap) == [logByteCap] + rest;
    LaterIsStillFirst(note, logByteCap, rest, r);
  }

  lemma LaterIsStillFirst(note: string, first: nat, rest: seq<nat>, r: Report)
    requires Verdict(Payload(note, first)).TooLarge? && Decided(note, rest, r)
    ensures Decided(note, [first] + rest, r)
  {
    hide Verdict, Payload;
    var all := [first] + rest;
    var i :| 0 <= i < |rest| && r == Verdict(Payload(note, rest[i]))
             && (forall j | 0 <= j < i :: Verdict(Payload(note, rest[j])).TooLarge?) && (r.TooLarge? ==> i == |rest| - 1);
    assert all[i + 1] == rest[i];
    forall j | 0 <= j < i + 1 ensures Verdict(Payload(note, all[j])).TooLarge? {
      if j > 0 {
        assert all[j] == rest[j - 1];
      }
    }
  }

  lemma DecidedNow(note: string, logByteCap: nat)
    requires Verdict(Payload(note, logByteCap)).TooLarge? ==> logByteCap == 0
    ensures Decided(note, Tries(logByteCap), Verdict(Payload(note, logByteCap)))
  {
    hide Verdict, Payload;
    assert Tries(logByteCap)[0] == logByteCap;
  }

  function PowerOfTwo(k: nat): nat {
    if k == 0 then 1 else 2 * PowerOfTwo(k - 1)
  }

  lemma {:induction false} TriesFromPower(k: nat)
    ensures PowerOfTwo(k) > 0 && |Tries(PowerOfTwo(k))| == k + 2
  {
    if k == 0 {
      assert Tries(1) == [1] + Tries(0);
    } else {
      TriesFromPower(k - 1);
      assert PowerOfTwo(k) / 2 == PowerOfTwo(k - 1);
    }
  }

  /** Twenty tries at most: from 2^18 down to 1, and none. */
  lemma TwentyTries()
    ensures |Tries(LOG_TAIL_CAP)| == 20
  {
    assert PowerOfTwo(6) == 64;
    assert PowerOfTwo(12) == 4096;
    assert PowerOfTwo(18) == LOG_TAIL_CAP;
    hide Tries, PowerOfTwo;
    TriesFromPower(18);
  }

  /** Builds the payload, halving the log's share until the report fits or none of it is left. */
  method BuildReport(note: string) returns (r: Report)
    ensures Decided(note, Tries(LOG_TAIL_CAP), r)
    ensures r.Ready? ==> Fits(r.payload)
  {
    hide Gzip, Tries;
    var logByteCap := LOG_TAIL_CAP;
    var payload := [];
    while true
      invariant forall x :: Decided(note, Tries(logByteCap), x) ==> Decided(note, Tries(LOG_TAIL_CAP), x)
      decreases logByteCap
    {
      var json := BUNDLE(note, logByteCap);
      payload := GzipCompress(json);
      if payload == [] {
        DecidedNow(note, logByteCap);
        return NotCompressed;
      }
      if |payload| <= BUNDLE_CAP {
        DecidedNow(note, logByteCap);
        break;
      }
      if logByteCap == 0 {
        DecidedNow(note, logByteCap);
        break;
      }
      forall x | Decided(note, Tries(logByteCap / 2), x) ensures Decided(note, Tries(logByteCap), x) {
        DecidedLater(note, logByteCap, x);
      }
      logByteCap := logByteCap / 2;
    }
    if |payload| > BUNDLE_CAP {
      return TooLarge;
    }
    return Ready(payload);
  }
}
