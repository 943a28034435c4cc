/** What the artifact transport promises: decoding undoes encoding through any
  * shuffled, timestamped and interleaved log, and succeeds for no log that
  * lacks a record or repeats one. */
module ArtifactLaws {
  import opened Common
  import opened Base64
  import opened ArtifactCodec

  // One record, printed and read back

  lemma ReadNumeral(n: nat, separator: char, rest: string)
    requires !IsDigit(separator)
    ensures ReadNumber(Numeral(n) + ([separator] + rest), separator) == Some((n, rest))
  {
    var run := Numeral(n);
    DigitsOf(run, [separator] + rest);
    NumberNumeral(n);
    assert (run + ([separator] + rest))[|run| + 1..] == rest;
  }

  function Ending(r: Record): string {
    r.header.digest + (" " + r.text)
  }

  lemma EndingParts(r: Record)
    requires IsDigest(r.header.digest)
    ensures Ending(r)[..64] == r.header.digest && Ending(r)[64] == ' ' && Ending(r)[65..] == r.text
  {
  }

  lemma LineBody(r: Record)
    ensures Line(r)[|PREFIX|..]
         == Numeral(r.index) + ("/" + (Numeral(r.header.count) + (" " + (Numeral(r.header.size) + (" " + Ending(r))))))
    ensures StartsWith(Line(r), PREFIX)
  {
  }

  /** A printed record reads back as itself. */
  lemma ReadPrinted(r: Record)
    requires IsDigest(r.header.digest) && r.text != [] && InAlphabet(r.text)
    ensures ReadRecord(Line(r)[|PREFIX|..]) == Some(r)
  {
    LineBody(r);
    EndingParts(r);
    var third := Numeral(r.header.size) + (" " + Ending(r));
    var second := Numeral(r.header.count) + (" " + third);
    ReadNumeral(r.header.size, ' ', Ending(r));
    ReadNumeral(r.header.count, ' ', third);
    ReadNumeral(r.index, '/', second);
  }

  // Timestamps

  lemma MarkedIsBare(line: string)
    requires StartsWith(line, PREFIX)
    ensures Strip(line) == line
  {
    assert line[0] == 'O';
    assert !IsDigit(line[0]);
    assert 0 in {0, 1, 2, 3, 5, 6, 8, 9, 11, 12, 14, 15, 17, 18};
  }

  lemma {:induction false} DigitsStop(run: string, stop: char, rest: string)
    requires !IsDigit(stop)
    ensures |Digits(run + [stop])| == |Digits(run + [stop] + rest)| <= |run|
    decreases |run|
  {
    if run == [] {
      assert [] + [stop] == [stop] && [] + [stop] + rest == [stop] + rest;
    } else {
      DigitsStop(run[1..], stop, rest);
      assert (run + [stop])[1..] == run[1..] + [stop];
      assert (run + [stop] + rest)[1..] == run[1..] + [stop] + rest;
    }
  }

  /** A whole timestamp in front of any line is what is stripped. */
  lemma StampIsStripped(stamp: string, line: string)
    requires StampLength(stamp) == |stamp| > 0
    ensures Strip(stamp + line) == line
  {
    var all := stamp + line;
    assert forall i :: 0 <= i < |stamp| ==> all[i] == stamp[i];
    assert DigitsAt(all, {0, 1, 2, 3, 5, 6, 8, 9, 11, 12, 14, 15, 17, 18}) by {
      forall i | i in {0, 1, 2, 3, 5, 6, 8, 9, 11, 12, 14, 15, 17, 18}
        ensures i < |all| && IsDigit(all[i])
      {
        assert IsDigit(stamp[i]);
      }
    }
    if |stamp| != 21 {
      var n := |stamp|;
      var run := stamp[20..n - 1];
      assert stamp[20..] == run + [stamp[n - 1]];
      assert all[20..] == run + [stamp[n - 1]] + line;
      DigitsStop(run, stamp[n - 1], line);
    }
    assert StampLength(all) == |stamp|;
  }

  // Chunks

  lemma ChunkLength(payload: Bytes, k: nat)
    requires k < ChunkCount(|payload|)
    ensures |Chunk(payload, k)|
         == if k + 1 < ChunkCount(|payload|) then CHUNK else |payload| - CHUNK * (ChunkCount(|payload|) - 1)
    ensures 0 < |Chunk(payload, k)| <= CHUNK
  {
    var n := |payload|;
    assert CHUNK * ChunkCount(n) >= n > CHUNK * (ChunkCount(n) - 1);
  }

  // The first k chunks of a payload
  function Before(payload: Bytes, k: nat): Bytes {
    if CHUNK * k < |payload| then payload[..CHUNK * k] else payload
  }

  lemma ChunkExtends(payload: Bytes, k: nat)
    requires k < ChunkCount(|payload|)
    ensures Before(payload, k) + Chunk(payload, k) == Before(payload, k + 1)
  {
    assert CHUNK * k < |payload|;
  }

  lemma {:induction false} JoinedChunks(payload: Bytes, chunks: map<nat, Bytes>, k: nat)
    requires k <= ChunkCount(|payload|)
    requires forall i: nat :: 1 <= i <= k ==> i in chunks && chunks[i] == Chunk(payload, i - 1)
    ensures Join(chunks, k) == Before(payload, k)
  {
    if k > 0 {
      JoinedChunks(payload, chunks, k - 1);
      ChunkExtends(payload, k - 1);
    }
  }

  // The records of a payload

  lemma RecordReads(env: Env, payload: Bytes, k: nat)
    requires k < ChunkCount(|payload|)
    ensures ReadRecord(EncodeLines(env, payload)[k][|PREFIX|..]) == Some(RecordOf(env, payload, k))
    ensures StartsWith(EncodeLines(env, payload)[k], PREFIX)
    ensures Decode(RecordOf(env, payload, k).text) == Some(Chunk(payload, k))
  {
    var r := RecordOf(env, payload, k);
    ChunkLength(payload, k);
    EncodeLength(Chunk(payload, k));
    EncodeAlphabet(Chunk(payload, k));
    RoundTrip(Chunk(payload, k));
    ReadPrinted(r);
    LineBody(r);
  }

  lemma RecordsAreDistinct(env: Env, payload: Bytes)
    ensures Distinct(EncodeLines(env, payload))
  {
    var lines := EncodeLines(env, payload);
    forall i, j | 0 <= i < j < |lines|
      ensures lines[i] != lines[j]
    {
      RecordReads(env, payload, i);
      RecordReads(env, payload, j);
      assert RecordOf(env, payload, i).index != RecordOf(env, payload, j).index;
    }
  }

  // The lines of a log that matter

  // The marker inside a line
  predicate Stray(line: string) {
    !StartsWith(Strip(line), PREFIX) && Contains(Strip(line), PREFIX)
  }

  /** Every line carries a record from its very start, after an optional timestamp, or no marker at all. */
  predicate WellPlaced(lines: seq<string>) {
    forall i :: 0 <= i < |lines| ==> !Stray(lines[i])
  }

  function Records(lines: seq<string>): seq<string>
    decreases |lines|
  {
    if lines == [] then []
    else
      var stripped := Strip(lines[|lines| - 1]);
      Records(lines[..|lines| - 1]) + (if StartsWith(stripped, PREFIX) then [stripped] else [])
  }

  lemma ReadSnoc(lines: seq<string>, line: string)
    ensures ReadLines(lines + [line])
         == if ReadLines(lines).Failure? then ReadLines(lines) else ReadLine(ReadLines(lines).value, line)
  {
    assert (lines + [line])[..|lines|] == lines;
  }

  /** Timestamps and the other lines change nothing. */
  lemma {:induction false} OnlyRecordsMatter(lines: seq<string>)
    requires WellPlaced(lines)
    ensures ReadLines(lines) == ReadLines(Records(lines))
    decreases |lines|
  {
    if lines != [] {
      var n := |lines| - 1;
      OnlyRecordsMatter(lines[..n]);
      var stripped := Strip(lines[n]);
      if StartsWith(stripped, PREFIX) {
        MarkedIsBare(stripped);
        ReadSnoc(Records(lines[..n]), stripped);
      } else {
        assert Records(lines) == Records(lines[..n]);
      }
    }
  }

  // Reading records of one payload, in any order

  /** The state holds exactly the chunks of the records read. */
  ghost predicate Holds(env: Env, payload: Bytes, records: seq<string>, st: State) {
    HoldsOf(EncodeLines(env, payload), HeaderOf(env, payload), payload, records, st)
  }

  ghost predicate HoldsOf(lines: seq<string>, h: Header, payload: Bytes, records: seq<string>, st: State) {
    && st.header == (if records == [] then None else Some(h))
    && (forall k: nat :: k in st.chunks <==> 1 <= k <= |lines| && lines[k - 1] in records)
    && (forall k: nat :: k in st.chunks && k > 0 ==> st.chunks[k] == Chunk(payload, k - 1))
  }

  lemma HoldsOneMore(lines: seq<string>, h: Header, payload: Bytes, records: seq<string>, st: State, k: nat)
    requires k < |lines| && Distinct(lines) && HoldsOf(lines, h, payload, records, st)
    ensures HoldsOf(lines, h, payload, records + [lines[k]], State(Some(h), st.chunks[k + 1 := Chunk(payload, k)]))
  {
    forall i | 0 <= i < |lines|
      ensures lines[i] in records + [lines[k]] <==> lines[i] in records || i == k
    {
      assert i < k ==> lines[i] != lines[k];
      assert k < i ==> lines[k] != lines[i];
    }
  }

  lemma GoodRecordIsTaken(env: Env, payload: Bytes, st: State, k: nat)
    requires 0 < |payload| <= MAX && k < ChunkCount(|payload|)
    requires st.header == None || st.header == Some(HeaderOf(env, payload))
    requires Decode(RecordOf(env, payload, k).text) == Some(Chunk(payload, k))
    ensures ReadInto(st, RecordOf(env, payload, k))
         == if k + 1 in st.chunks then Failure(DuplicateChunk)
            else Success(State(Some(HeaderOf(env, payload)), st.chunks[k + 1 := Chunk(payload, k)]))
  {
    ChunkLength(payload, k);
  }

  lemma ReadGoodRecord(env: Env, payload: Bytes, st: State, k: nat)
    requires k < ChunkCount(|payload|)
    ensures ReadLine(st, EncodeLines(env, payload)[k]) == ReadInto(st, RecordOf(env, payload, k))
  {
    RecordReads(env, payload, k);
    MarkedIsBare(EncodeLines(env, payload)[k]);
  }

  lemma HeldIsRead(lines: seq<string>, h: Header, payload: Bytes, records: seq<string>, st: State, k: nat)
    requires k < |lines| && HoldsOf(lines, h, payload, records, st)
    ensures k + 1 in st.chunks <==> lines[k] in records
    ensures st.header == None || st.header == Some(h)
  {
    assert lines[k + 1 - 1] == lines[k];
  }

  lemma TakenOrDuplicate(env: Env, payload: Bytes, st: State, k: nat)
    requires 0 < |payload| <= MAX && k < ChunkCount(|payload|)
    requires st.header == None || st.header == Some(HeaderOf(env, payload))
    ensures ReadLine(st, EncodeLines(env, payload)[k])
         == if k + 1 in st.chunks then Failure(DuplicateChunk)
            else Success(State(Some(HeaderOf(env, payload)), st.chunks[k + 1 := Chunk(payload, k)]))
  {
    RecordReads(env, payload, k);
    ReadGoodRecord(env, payload, st, k);
    GoodRecordIsTaken(env, payload, st, k);
  }

  lemma ReadOneMore(env: Env, payload: Bytes, records: seq<string>, st: State, k: nat)
    requires 0 < |payload| <= MAX && k < ChunkCount(|payload|)
    requires Holds(env, payload, records, st)
    ensures
      var line := EncodeLines(env, payload)[k];
      if line in records then ReadLine(st, line).Failure?
      else ReadLine(st, line).Success? && Holds(env, payload, records + [line], ReadLine(st, line).value)
  {
    HeldIsRead(EncodeLines(env, payload), HeaderOf(env, payload), payload, records, st, k);
    TakenOrDuplicate(env, payload, st, k);
    RecordsAreDistinct(env, payload);
    HoldsOneMore(EncodeLines(env, payload), HeaderOf(env, payload), payload, records, st, k);
  }

  lemma DistinctSnoc(lines: seq<string>, line: string)
    ensures Distinct(lines + [line]) <==> Distinct(lines) && line !in lines
  {
    var all := lines + [line];
    assert forall i :: 0 <= i < |lines| ==> all[i] == lines[i];
    if line in lines {
      var i :| 0 <= i < |lines| && lines[i] == line;
      assert all[i] == all[|lines|];
    }
    if !Distinct(lines) {
      var i, j :| 0 <= i < j < |lines| && lines[i] == lines[j];
      assert all[i] == all[j];
    }
  }

  // Records of one payload are read to the last, or refused for a repeated one.
  ghost predicate ReadAsRecords(env: Env, payload: Bytes, records: seq<string>) {
    var r := ReadLines(records);
    if Distinct(records) then r.Success? && Holds(env, payload, records, r.value) else r.Failure?
  }

  lemma ReadOneMoreRecord(env: Env, payload: Bytes, earlier: seq<string>, k: nat)
    requires 0 < |payload| <= MAX && k < ChunkCount(|payload|) && ReadAsRecords(env, payload, earlier)
    ensures ReadAsRecords(env, payload, earlier + [EncodeLines(env, payload)[k]])
  {
    var line := EncodeLines(env, payload)[k];
    ReadSnoc(earlier, line);
    DistinctSnoc(earlier, line);
    if Distinct(earlier) {
      ReadOneMore(env, payload, earlier, ReadLines(earlier).value, k);
    }
  }

  lemma {:induction false} ReadRecords(env: Env, payload: Bytes, records: seq<string>)
    requires 0 < |payload| <= MAX
    requires forall r :: r in records ==> r in EncodeLines(env, payload)
    ensures ReadAsRecords(env, payload, records)
    decreases |records|
  {
    if records != [] {
      var n := |records| - 1;
      var earlier, last := records[..n], records[n];
      assert records == earlier + [last] && last in records;
      ReadRecords(env, payload, earlier);
      var k :| 0 <= k < ChunkCount(|payload|) && EncodeLines(env, payload)[k] == last;
      ReadOneMoreRecord(env, payload, earlier, k);
    }
  }

  /** All the chunks make the payload; with one missing there is none. */
  lemma FinishOf(env: Env, payload: Bytes, records: seq<string>, st: State)
    requires Acceptable(env, payload) && Holds(env, payload, records, st)
    ensures (forall r :: r in EncodeLines(env, payload) ==> r in records) ==> Finish(env, st) == Success(payload)
    ensures !(forall r :: r in EncodeLines(env, payload) ==> r in records) ==> Finish(env, st) == Failure(MissingChunks)
  {
    var lines, count := EncodeLines(env, payload), ChunkCount(|payload|);
    assert count > 0;
    if records == [] {
      assert lines[0] !in records;
    } else {
      AllOrMissing(st);
      if forall r :: r in lines ==> r in records {
        forall k: nat | 1 <= k <= count
          ensures k in st.chunks
        {
          assert lines[k - 1] in lines;
        }
        JoinedChunks(payload, st.chunks, count);
      } else {
        var r :| r in lines && r !in records;
        var k :| 0 <= k < count && lines[k] == r;
        assert k + 1 !in st.chunks;
      }
    }
  }

  // A permutation is a duplicate-free sequence with everything in it

  lemma {:induction false} DistinctCounts(lines: seq<string>)
    ensures Distinct(lines) <==> forall r :: multiset(lines)[r] <= 1
    decreases |lines|
  {
    if lines != [] {
      var n := |lines| - 1;
      var earlier, last := lines[..n], lines[n];
      assert lines == earlier + [last];
      DistinctCounts(earlier);
      DistinctSnoc(earlier, last);
      assert multiset(lines) == multiset(earlier) + multiset{last};
      assert last in earlier <==> last in multiset(earlier);
      if !Distinct(earlier) {
        var r :| multiset(earlier)[r] > 1;
        assert multiset(lines)[r] > 1;
      } else if last in earlier {
        assert multiset(lines)[last] > 1;
      }
    }
  }

  lemma PermutationOf(records: seq<string>, all: seq<string>)
    requires Distinct(all) && forall r :: r in records ==> r in all
    ensures multiset(records) == multiset(all) <==> Distinct(records) && forall r :: r in all ==> r in records
  {
    DistinctCounts(records);
    DistinctCounts(all);
    assert forall r :: r in records <==> r in multiset(records);
    assert forall r :: r in all <==> r in multiset(all);
    if multiset(records) != multiset(all) && Distinct(records) {
      var r :| multiset(records)[r] != multiset(all)[r];
      assert r in all && r !in records;
    }
  }

  /** The law of the transport. A log whose records all belong to one payload decodes to that payload when
    * its records are that payload's, in any order; with any of them missing or repeated it is refused. */
  lemma DecodesExactlyThePermutations(env: Env, payload: Bytes, lines: seq<string>, size: nat)
    requires Acceptable(env, payload) && size <= MAX * 3 && WellPlaced(lines)
    requires forall r :: r in Records(lines) ==> r in EncodeLines(env, payload)
    ensures DecodeLog(env, lines, size) == Success(payload)
       <==> multiset(Records(lines)) == multiset(EncodeLines(env, payload))
    ensures DecodeLog(env, lines, size) == Success(payload) || DecodeLog(env, lines, size).Failure?
  {
    var records := Records(lines);
    OnlyRecordsMatter(lines);
    ReadRecords(env, payload, records);
    RecordsAreDistinct(env, payload);
    PermutationOf(records, EncodeLines(env, payload));
    if Distinct(records) {
      FinishOf(env, payload, records, ReadLines(records).value);
    }
  }

  lemma StrayLineFails(st: State, line: string)
    requires Stray(line)
    ensures ReadLine(st, line).Failure?
  {
  }

  lemma StrayNextFails(lines: seq<string>, i: nat, st: State)
    requires i < |lines| && Stray(lines[i]) && ReadLines(lines[..i]) == Success(st)
    ensures ReadLines(lines[..i + 1]).Failure?
  {
    ReadNext(lines, i, st);
    StrayLineFails(st, lines[i]);
  }

  lemma StrayPrefixFails(lines: seq<string>, i: nat) returns (k: nat)
    requires i < |lines| && Stray(lines[i])
    ensures k <= |lines| && ReadLines(lines[..k]).Failure?
  {
    var before := ReadLines(lines[..i]);
    if before.Success? {
      StrayNextFails(lines, i, before.value);
      k := i + 1;
    } else {
      k := i;
    }
  }

  lemma StrayMarkerFails(lines: seq<string>, i: nat)
    requires i < |lines| && Stray(lines[i])
    ensures ReadLines(lines).Failure?
  {
    var k := StrayPrefixFails(lines, i);
    FailureStays(lines, k);
  }

  /** One marker in the middle of a line spoils the whole log. */
  lemma MisplacedMarkerFails(env: Env, lines: seq<string>, size: nat)
    requires !WellPlaced(lines)
    ensures DecodeLog(env, lines, size).Failure?
  {
    var i :| 0 <= i < |lines| && Stray(lines[i]);
    StrayMarkerFails(lines, i);
  }

  // What the printer prints can be read

  function LogSize(lines: seq<string>): nat
    decreases |lines|
  {
    if lines == [] then 0 else LogSize(lines[..|lines| - 1]) + |lines[|lines| - 1]| + 1
  }

  lemma {:induction false} LogSizeBound(lines: seq<string>, bound: nat)
    requires forall i :: 0 <= i < |lines| ==> |lines[i]| < bound
    ensures LogSize(lines) <= |lines| * bound
    decreases |lines|
  {
    if lines != [] {
      LogSizeBound(lines[..|lines| - 1], bound);
    }
  }

  lemma RecordLength(env: Env, payload: Bytes, k: nat)
    requires |payload| <= MAX && k < ChunkCount(|payload|)
    ensures |EncodeLines(env, payload)[k]| < 2900
  {
    var r := RecordOf(env, payload, k);
    ChunkLength(payload, k);
    EncodeLength(Chunk(payload, k));
    assert Power10(7) == 10000000;
    NumeralLength(r.index, 7, 10000000);
    NumeralLength(r.header.count, 7, 10000000);
    NumeralLength(r.header.size, 7, 10000000);
  }

  lemma {:induction false} RecordsOfRecords(lines: seq<string>)
    requires forall i :: 0 <= i < |lines| ==> StartsWith(lines[i], PREFIX)
    ensures Records(lines) == lines
    decreases |lines|
  {
    if lines != [] {
      var n := |lines| - 1;
      MarkedIsBare(lines[n]);
      RecordsOfRecords(lines[..n]);
      assert lines == lines[..n] + [lines[n]];
    }
  }

  lemma RecordsAreWellPlaced(lines: seq<string>)
    requires forall i :: 0 <= i < |lines| ==> StartsWith(lines[i], PREFIX)
    ensures WellPlaced(lines)
  {
    forall i | 0 <= i < |lines|
      ensures StartsWith(Strip(lines[i]), PREFIX)
    {
      MarkedIsBare(lines[i]);
    }
  }

  /** Decoding undoes encoding: the printed records, one to a line, always fit the size bound of a log and
    * decode to the payload. */
  lemma DecodeUndoesEncode(env: Env, payload: Bytes)
    requires Acceptable(env, payload)
    ensures
      var lines := EncodeLines(env, payload);
      LogSize(lines) <= MAX * 3 && DecodeLog(env, lines, LogSize(lines)) == Success(payload)
  {
    var lines := EncodeLines(env, payload);
    forall i | 0 <= i < |lines|
      ensures StartsWith(lines[i], PREFIX) && |lines[i]| < 2900
    {
      RecordReads(env, payload, i);
      RecordLength(env, payload, i);
    }
    assert |lines| <= 1024;
    LogSizeBound(lines, 2900);
    RecordsOfRecords(lines);
    RecordsAreWellPlaced(lines);
    DecodesExactlyThePermutations(env, payload, lines, LogSize(lines));
  }

  // Nothing else passes the checksum

  /** The line is a record under this header. */
  predicate Carries(line: string, h: Header) {
    && StartsWith(Strip(line), PREFIX)
    && var r := ReadRecord(Strip(line)[|PREFIX|..]);
       r.Some? && r.value.header == h
  }

  lemma HeaderOfLine(st: State, line: string)
    requires ReadLine(st, line).Success? && ReadLine(st, line).value.header.Some?
    ensures st.header == ReadLine(st, line).value.header || Carries(line, ReadLine(st, line).value.header.value)
  {
  }

  lemma {:induction false} HeaderIsRead(lines: seq<string>)
    requires ReadLines(lines).Success? && ReadLines(lines).value.header.Some?
    ensures exists i :: 0 <= i < |lines| && Carries(lines[i], ReadLines(lines).value.header.value)
    decreases |lines|
  {
    var n, h := |lines| - 1, ReadLines(lines).value.header.value;
    HeaderOfLine(ReadLines(lines[..n]).value, lines[n]);
    if !Carries(lines[n], h) {
      HeaderIsRead(lines[..n]);
      var i :| 0 <= i < n && Carries(lines[..n][i], h);
      assert Carries(lines[i], h);
    }
  }

  /** No other bytes have the digest of these. */
  ghost predicate NoCollision(env: Env, sent: Bytes) {
    forall a: Bytes :: env.sha(a) == env.sha(sent) ==> a == sent
  }

  /** Every record of the log names the digest of what was sent. */
  ghost predicate NamesDigestOf(env: Env, lines: seq<string>, sent: Bytes) {
    forall i, h :: 0 <= i < |lines| && Carries(lines[i], h) ==> h.digest == env.sha(sent)
  }

  /** Whatever else happened to the log, when its records name the digest of what was sent and no other
    * bytes share that digest, nothing but what was sent comes out. */
  lemma DamageIsNeverAccepted(env: Env, lines: seq<string>, size: nat, sent: Bytes)
    requires NoCollision(env, sent) && NamesDigestOf(env, lines, sent)
    ensures DecodeLog(env, lines, size).Failure? || DecodeLog(env, lines, size) == Success(sent)
    ensures DecodeLog(env, lines, size).Success? ==> Acceptable(env, sent)
  {
    if DecodeLog(env, lines, size).Success? {
      HeaderIsRead(lines);
    }
  }

  const SENT_DIGEST: Digest := seq(64, _ => '1')
  const OTHER_DIGEST: Digest := seq(64, _ => '0')

  // A hash under which one payload collides with no other
  function Distinguishing(sent: Bytes): Bytes -> Digest {
    (b: Bytes) => if b == sent then SENT_DIGEST else OTHER_DIGEST
  }

  /** What is printed names the digest of the payload on every record. */
  lemma PrintedNamesDigest(env: Env, payload: Bytes)
    ensures NamesDigestOf(env, EncodeLines(env, payload), payload)
  {
    var lines := EncodeLines(env, payload);
    forall i, h | 0 <= i < |lines| && Carries(lines[i], h)
      ensures h.digest == env.sha(payload)
    {
      RecordReads(env, payload, i);
      MarkedIsBare(lines[i]);
    }
  }

  /** The law has instances: every payload of acceptable size can be sent under a hash without a collision
    * for it, and its printed log is then one that decodes to it. */
  lemma DamageLawHasInstances(sent: Bytes)
    requires 0 < |sent| <= MAX
    ensures exists env: Env, lines: seq<string>, size: nat ::
      NoCollision(env, sent) && NamesDigestOf(env, lines, sent) && DecodeLog(env, lines, size) == Success(sent)
  {
    var env := Env(Distinguishing(sent), _ => true);
    assert SENT_DIGEST[0] != OTHER_DIGEST[0];
    assert NoCollision(env, sent);
    var lines := EncodeLines(env, sent);
    PrintedNamesDigest(env, sent);
    DecodeUndoesEncode(env, sent);
    assert DecodeLog(env, lines, LogSize(lines)) == Success(sent);
  }
}
