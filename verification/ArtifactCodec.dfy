/** Transport of a benchmark report through a log: numbered base64 records, read back in any order from
  * among other lines. SHA-256 is an arbitrary function to 64 hexadecimal digits, and whether bytes are an
  * acceptable JSON object is an arbitrary predicate. */
module ArtifactCodec {
  import opened Common
  import opened Base64

  const PREFIX := "OC_BENCHMARK_ARTIFACT_V1 "
  const CHUNK := 2048
  const MAX := 2 * 1024 * 1024

  predicate IsHex(c: char) {
    '0' <= c <= '9' || 'a' <= c <= 'f'
  }

  predicate IsDigest(s: string) {
    |s| == 64 && forall i :: 0 <= i < 64 ==> IsHex(s[i])
  }

  type Digest = s: string | IsDigest(s) witness seq(64, _ => '0')

  datatype Env = Env(sha: Bytes -> Digest, isObject: Bytes -> bool)

  datatype Reason =
    | LogTooLarge | MarkerMisplaced | Malformed | BadIndex | MixedHeaders | DuplicateChunk
    | BadEncoding | BadLength | MissingChunks | ChecksumMismatch | BadReport

  // What load_json accepts
  predicate Acceptable(env: Env, payload: Bytes) {
    0 < |payload| <= MAX && env.isObject(payload)
  }

  // Records

  datatype Header = Header(count: nat, size: nat, digest: string)

  datatype Record = Record(index: nat, header: Header, text: string)

  function ChunkCount(size: nat): nat {
    (size + CHUNK - 1) / CHUNK
  }

  function HeaderOf(env: Env, payload: Bytes): Header {
    Header(ChunkCount(|payload|), |payload|, env.sha(payload))
  }

  // The k-th slice of at most CHUNK bytes, from 0
  function Chunk(payload: Bytes, k: nat): Bytes {
    if CHUNK * k >= |payload| then []
    else if CHUNK * (k + 1) >= |payload| then payload[CHUNK * k..]
    else payload[CHUNK * k..CHUNK * (k + 1)]
  }

  function Line(r: Record): string {
    PREFIX + (Numeral(r.index) + ("/" + (Numeral(r.header.count) + (" " + (Numeral(r.header.size)
    + (" " + (r.header.digest + (" " + r.text))))))))
  }

  function RecordOf(env: Env, payload: Bytes, k: nat): Record {
    Record(k + 1, HeaderOf(env, payload), Encode(Chunk(payload, k)))
  }

  function EncodeLines(env: Env, payload: Bytes): seq<string> {
    seq(ChunkCount(|payload|), k requires 0 <= k < ChunkCount(|payload|) => Line(RecordOf(env, payload, k)))
  }

  // Reading a line

  // A run of digits, then the given separator: the number, and what follows
  function ReadNumber(s: string, separator: char): Option<(nat, string)> {
    var run := Digits(s);
    if run == [] || |run| == |s| || s[|run|] != separator then None
    else Some((Number(run), s[|run| + 1..]))
  }

  function ReadRecord(s: string): Option<Record> {
    var index := ReadNumber(s, '/');
    if index.None? then None else
    var count := ReadNumber(index.value.1, ' ');
    if count.None? then None else
    var size := ReadNumber(count.value.1, ' ');
    if size.None? then None else
    var rest := size.value.1;
    if |rest| < 66 || !IsDigest(rest[..64]) || rest[64] != ' ' || !InAlphabet(rest[65..]) then None
    else Some(Record(index.value.0, Header(count.value.0, size.value.0, rest[..64]), rest[65..]))
  }

  predicate DigitsAt(s: string, positions: set<nat>) {
    forall i | i in positions :: i < |s| && IsDigit(s[i])
  }

  /** The length of the timestamp a line begins with, the blank after it included; 0 for none. */
  function StampLength(line: string): (n: nat)
    ensures n <= |line|
  {
    if |line| < 21 || !DigitsAt(line, {0, 1, 2, 3, 5, 6, 8, 9, 11, 12, 14, 15, 17, 18})
       || line[4] != '-' || line[7] != '-' || line[10] != 'T' || line[13] != ':' || line[16] != ':' then 0
    else if line[19] == 'Z' && line[20] == ' ' then 21
    else
      var fraction := |Digits(line[20..])|;
      if line[19] == '.' && fraction > 0 && 22 + fraction <= |line|
         && line[20 + fraction] == 'Z' && line[21 + fraction] == ' ' then 22 + fraction
      else 0
  }

  function Strip(line: string): string {
    line[StampLength(line)..]
  }

  predicate StartsWith(s: string, prefix: string) {
    prefix <= s
  }

  predicate Contains(s: string, part: string) {
    exists i :: 0 <= i <= |s| && StartsWith(s[i..], part)
  }

  // Reading a log

  datatype State = State(header: Option<Header>, chunks: map<nat, Bytes>)

  function ReadInto(st: State, r: Record): Result<State, Reason> {
    var h := r.header;
    if !(0 < h.size <= MAX) || h.count != ChunkCount(h.size) || !(1 <= r.index <= h.count) then Failure(BadIndex)
    else if st.header.Some? && st.header.value != h then Failure(MixedHeaders)
    else if r.index in st.chunks then Failure(DuplicateChunk)
    else
      var chunk := Decode(r.text);
      if chunk.None? then Failure(BadEncoding)
      else if |chunk.value| != (if r.index < h.count then CHUNK else h.size - CHUNK * (h.count - 1)) then Failure(BadLength)
      else Success(State(Some(h), st.chunks[r.index := chunk.value]))
  }

  function ReadLine(st: State, line: string): Result<State, Reason> {
    var stripped := Strip(line);
    if !StartsWith(stripped, PREFIX) then
      if Contains(stripped, PREFIX) then Failure(MarkerMisplaced) else Success(st)
    else
      var r := ReadRecord(stripped[|PREFIX|..]);
      if r.None? then Failure(Malformed) else ReadInto(st, r.value)
  }

  function ReadLines(lines: seq<string>): Result<State, Reason>
    decreases |lines|
  {
    if lines == [] then Success(State(None, map[]))
    else
      var st := ReadLines(lines[..|lines| - 1]);
      if st.Failure? then st else ReadLine(st.value, lines[|lines| - 1])
  }

  function Join(chunks: map<nat, Bytes>, count: nat): Bytes {
    if count == 0 then []
    else Join(chunks, count - 1) + (if count in chunks then chunks[count] else [])
  }

  function Finish(env: Env, st: State): Result<Bytes, Reason> {
    if st.header.None? || |st.chunks| != st.header.value.count then Failure(MissingChunks)
    else
      var h := st.header.value;
      var payload := Join(st.chunks, h.count);
      if |payload| != h.size || env.sha(payload) != h.digest then Failure(ChecksumMismatch)
      else if !Acceptable(env, payload) then Failure(BadReport)
      else Success(payload)
  }

  /** Decoding a log of these lines, `size` bytes long. */
  function DecodeLog(env: Env, lines: seq<string>, size: nat): Result<Bytes, Reason> {
    if size > MAX * 3 then Failure(LogTooLarge)
    else
      var st := ReadLines(lines);
      if st.Failure? then Failure(st.error) else Finish(env, st.value)
  }

  // The loop keeps one header, and only chunks of numbers that header allows
  ghost predicate Sound(st: State) {
    && (st.header.None? ==> st.chunks == map[])
    && (st.header.Some? ==> forall k :: k in st.chunks ==> 1 <= k <= st.header.value.count)
  }

  lemma ReadIntoSound(st: State, r: Record)
    requires Sound(st)
    ensures ReadInto(st, r).Success? ==> Sound(ReadInto(st, r).value)
  {
  }

  lemma ReadLineSound(st: State, line: string)
    requires Sound(st)
    ensures ReadLine(st, line).Success? ==> Sound(ReadLine(st, line).value)
  {
    if StartsWith(Strip(line), PREFIX) {
      var r := ReadRecord(Strip(line)[|PREFIX|..]);
      if r.Some? {
        ReadIntoSound(st, r.value);
      }
    }
  }

  lemma {:induction false} ReadLinesSound(lines: seq<string>)
    ensures ReadLines(lines).Success? ==> Sound(ReadLines(lines).value)
    decreases |lines|
  {
    if lines != [] {
      ReadLinesSound(lines[..|lines| - 1]);
      if ReadLines(lines[..|lines| - 1]).Success? {
        ReadLineSound(ReadLines(lines[..|lines| - 1]).value, lines[|lines| - 1]);
      }
    }
  }

  function UpTo(n: nat): (s: set<nat>)
    ensures forall k: nat :: k in s <==> 1 <= k <= n
    ensures |s| == n
  {
    if n == 0 then {} else UpTo(n - 1) + {n}
  }

  lemma AllOrMissing(st: State)
    requires Sound(st) && st.header.Some?
    ensures |st.chunks| == st.header.value.count <==> forall k: nat :: 1 <= k <= st.header.value.count ==> k in st.chunks
  {
    var all := UpTo(st.header.value.count);
    assert |st.chunks| == |st.chunks.Keys|;
    assert st.chunks.Keys <= all;
    if all <= st.chunks.Keys {
      assert st.chunks.Keys == all;
    }
    if |st.chunks.Keys| == |all| {
      SameSize(st.chunks.Keys, all);
    }
  }

  lemma SameSize<T>(small: set<T>, large: set<T>)
    requires small <= large && |small| == |large|
    ensures small == large
  {
    assert |large - small| == 0;
  }

  lemma LastLine(lines: seq<string>, st: State)
    requires lines != [] && ReadLines(lines[..|lines| - 1]) == Success(st)
    ensures ReadLines(lines) == ReadLine(st, lines[|lines| - 1])
  {
  }

  lemma ReadNext(lines: seq<string>, i: nat, st: State)
    requires i < |lines| && ReadLines(lines[..i]) == Success(st)
    ensures ReadLines(lines[..i + 1]) == ReadLine(st, lines[i])
  {
    var read := lines[..i + 1];
    assert read[..i] == lines[..i];
    LastLine(read, st);
  }

  method DecodeArtifact(env: Env, lines: seq<string>, size: nat) returns (r: Result<Bytes, Reason>)
    ensures r == DecodeLog(env, lines, size)
  {
    if size > MAX * 3 {
      return Failure(LogTooLarge);
    }
    var header: Option<Header> := None;
    var chunks: map<nat, Bytes> := map[];
    for i := 0 to |lines|
      invariant ReadLines(lines[..i]) == Success(State(header, chunks))
    {
      ReadNext(lines, i, State(header, chunks));
      FailureStays(lines, i + 1);
      var line := Strip(lines[i]);
      if !StartsWith(line, PREFIX) {
        if Contains(line, PREFIX) {
          return Failure(MarkerMisplaced);
        }
        continue;
      }
      var matched := ReadRecord(line[|PREFIX|..]);
      if matched.None? {
        return Failure(Malformed);
      }
      var current, index := matched.value.header, matched.value.index;
      if !(0 < current.size <= MAX) || current.count != ChunkCount(current.size) || !(1 <= index <= current.count) {
        return Failure(BadIndex);
      }
      if header.Some? && header.value != current {
        return Failure(MixedHeaders);
      }
      if index in chunks {
        return Failure(DuplicateChunk);
      }
      var chunk := Decode(matched.value.text);
      if chunk.None? {
        return Failure(BadEncoding);
      }
      var expected := if index < current.count then CHUNK else current.size - CHUNK * (current.count - 1);
      if |chunk.value| != expected {
        return Failure(BadLength);
      }
      header := Some(current);
      chunks := chunks[index := chunk.value];
    }
    assert lines[..|lines|] == lines;
    ReadLinesSound(lines);
    if header.None? || |chunks| != header.value.count {
      return Failure(MissingChunks);
    }
    AllOrMissing(State(header, chunks));
    var payload: Bytes := [];
    for index := 1 to header.value.count + 1
      invariant payload == Join(chunks, index - 1)
    {
      payload := payload + chunks[index];
    }
    if |payload| != header.value.size || env.sha(payload) != header.value.digest {
      return Failure(ChecksumMismatch);
    }
    if !Acceptable(env, payload) {
      return Failure(BadReport);
    }
    return Success(payload);
  }

  lemma {:induction false} FailureStays(lines: seq<string>, i: nat)
    requires i <= |lines|
    ensures ReadLines(lines[..i]).Failure? ==> ReadLines(lines) == ReadLines(lines[..i])
    decreases |lines|
  {
    if i == |lines| {
      assert lines[..i] == lines;
    } else {
      assert lines[..|lines| - 1][..i] == lines[..i];
      FailureStays(lines[..|lines| - 1], i);
    }
  }
}
