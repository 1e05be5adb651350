// A buffer that keeps a bounded prefix, and a reader that checks a digest.
module Streams {
  import opened Options

  type Bytes = seq<bv8>

  // --- The bounded buffer ---------------------------------------------------------

  function Prefix(b: Bytes, limit: nat): Bytes { if |b| <= limit then b else b[..limit] }

  class LimitedBuffer {
    var buffer: Bytes
    var truncated: bool
    const limit: nat
    ghost var written: Bytes

    constructor (limit: nat)
      ensures Valid() && written == [] && this.limit == limit
    {
      buffer, truncated, written := [], false, [];
      this.limit := limit;
    }

    // The first bytes of all that was written, and whether there was more.
    ghost predicate Valid()
      reads this
    {
      buffer == Prefix(written, limit) && (truncated <==> |written| > limit)
    }

    method Write(value: Bytes) returns (n: int)
      requires Valid()
      modifies this
      ensures Valid() && written == old(written) + value && n == |value|
    {
      var remaining := limit - |buffer|;
      if remaining > 0 {
        var taken := |value|;
        if taken > remaining {
          taken := remaining;
        }
        buffer := buffer + value[..taken];
      }
      if |value| > remaining {
        truncated := true;
      }
      written := written + value;
      n := |value|;
    }
  }

  function Concat(chunks: seq<Bytes>): Bytes { if chunks == [] then [] else Concat(chunks[..|chunks| - 1]) + chunks[|chunks| - 1] }

  // runBounded: the whole output, or an error if it is over the limit, however
  // the output was cut into writes.
  method RunBounded(limit: nat, chunks: seq<Bytes>) returns (result: Option<Bytes>)
    ensures result == if |Concat(chunks)| <= limit then Some(Concat(chunks)) else None
  {
    var output := new LimitedBuffer(limit);
    for n := 0 to |chunks|
      invariant output.Valid() && output.limit == limit && fresh(output) && output.written == Concat(chunks[..n])
    {
      assert chunks[..n + 1][..n] == chunks[..n];
      var _ := output.Write(chunks[n]);
    }
    assert chunks[..|chunks|] == chunks;
    if output.truncated {
      return None;
    }
    return Some(output.buffer);
  }

  // --- The checked reader -----------------------------------------------------------

  // What one read of the body reports besides its bytes.
  datatype Report = More | EndOfFile | Failure(text: string)

  datatype Outcome = Continue | Eof | Mismatch | Failed(text: string)

  predicate IsVerdict(o: Outcome) { o == Eof || o == Mismatch }

  // What a caller of the reader gets.
  datatype Reading = Reading(bytes: Bytes, outcome: Outcome)

  class ChecksumReader {
    var digested: Bytes
    var finished: bool
    var result: Outcome
    const hash: Bytes -> string
    const expected: string
    ghost var delivered: Bytes

    constructor (hash: Bytes -> string, expected: string)
      ensures Valid() && !finished && delivered == [] && this.hash == hash && this.expected == expected
    {
      digested, finished, result, delivered := [], false, Continue, [];
      this.hash, this.expected := hash, expected;
    }

    // The verdict is on the bytes handed to the caller, all of them.
    ghost predicate Valid()
      reads this
    {
      digested == delivered && (finished ==> result == if hash(delivered) == expected then Eof else Mismatch)
    }

    method Read(bytes: Bytes, report: Report) returns (reading: Reading)
      requires Valid()
      modifies this
      ensures Valid()
      ensures old(finished) ==> reading == Reading([], old(result)) && finished && result == old(result)
      ensures !old(finished) ==> reading.bytes == bytes && finished == (report == EndOfFile)
      ensures delivered == old(delivered) + reading.bytes
      ensures reading.outcome == Eof ==> hash(delivered) == expected
      ensures reading.outcome == Mismatch ==> hash(delivered) != expected
      ensures !old(finished) && report == EndOfFile ==> IsVerdict(reading.outcome)
      ensures IsVerdict(reading.outcome) ==> finished && result == reading.outcome
      ensures !old(finished) && report == More ==> reading.outcome == Continue
      ensures !old(finished) && report.Failure? ==> reading.outcome == Failed(report.text)
    {
      if finished {
        return Reading([], result);
      }
      digested := digested + bytes;
      delivered := delivered + bytes;
      if report == EndOfFile {
        finished := true;
        result := Eof;
        if hash(digested) != expected {
          result := Mismatch;
        }
        return Reading(bytes, result);
      }
      return Reading(bytes, if report.Failure? then Failed(report.text) else Continue);
    }
  }

  function Delivered(readings: seq<Reading>): Bytes {
    if readings == [] then [] else Delivered(readings[..|readings| - 1]) + readings[|readings| - 1].bytes
  }

  // The last of these readings gives the verdict on all bytes they delivered.
  ghost predicate Truthful(hash: Bytes -> string, expected: string, readings: seq<Reading>)
    requires readings != []
  {
    var outcome := readings[|readings| - 1].outcome;
    && (outcome == Eof ==> hash(Delivered(readings)) == expected)
    && (outcome == Mismatch ==> hash(Delivered(readings)) != expected)
  }

  ghost predicate AllTruthful(hash: Bytes -> string, expected: string, readings: seq<Reading>) {
    forall n | 0 < n <= |readings| :: Truthful(hash, expected, readings[..n])
  }

  lemma NextIsTruthful(hash: Bytes -> string, expected: string, readings: seq<Reading>, reading: Reading)
    requires AllTruthful(hash, expected, readings) && Truthful(hash, expected, readings + [reading])
    ensures AllTruthful(hash, expected, readings + [reading])
  {
    var all := readings + [reading];
    forall n | 0 < n <= |all| ensures Truthful(hash, expected, all[..n]) {
      assert all[..n] == if n <= |readings| then readings[..n] else all;
    }
  }

  // A verdict is repeated by every later reading, which delivers nothing.
  predicate Final(readings: seq<Reading>) {
    forall m, n | 0 <= m < n < |readings| && IsVerdict(readings[m].outcome) :: readings[n] == Reading([], readings[m].outcome)
  }

  // A reading hands on what the body reported, until the body has ended.
  predicate HandsOn(body: (Bytes, Report), reading: Reading) {
    reading.bytes == body.0 &&
    match body.1
    case More => reading.outcome == Continue
    case Failure(text) => reading.outcome == Failed(text)
    case EndOfFile => IsVerdict(reading.outcome)
  }

  predicate Ended(body: seq<(Bytes, Report)>) { exists b | b in body :: b.1 == EndOfFile }

  ghost predicate AllHandedOn(body: seq<(Bytes, Report)>, readings: seq<Reading>) {
    |readings| <= |body| && forall n | 0 <= n < |readings| && !Ended(body[..n]) :: HandsOn(body[n], readings[n])
  }

  lemma NextHandedOn(body: seq<(Bytes, Report)>, readings: seq<Reading>, reading: Reading)
    requires AllHandedOn(body, readings) && |readings| < |body|
    requires !Ended(body[..|readings|]) ==> HandsOn(body[|readings|], reading)
    ensures AllHandedOn(body, readings + [reading])
  {
  }

  lemma EndedNext(body: seq<(Bytes, Report)>, n: nat)
    requires n < |body|
    ensures Ended(body[..n + 1]) <==> Ended(body[..n]) || body[n].1 == EndOfFile
  {
    assert body[..n + 1] == body[..n] + [body[n]];
  }

  // Any sequence of reads: end of file is reported only once the bytes delivered
  // hash to the expected digest, and then for ever.
  method ReadAll(hash: Bytes -> string, expected: string, body: seq<(Bytes, Report)>) returns (readings: seq<Reading>)
    ensures |readings| == |body| && Final(readings)
    ensures AllTruthful(hash, expected, readings)
    ensures AllHandedOn(body, readings)
  {
    var reader := new ChecksumReader(hash, expected);
    readings := [];
    for n := 0 to |body|
      invariant reader.Valid() && fresh(reader) && reader.hash == hash && reader.expected == expected
      invariant |readings| == n && reader.delivered == Delivered(readings) && Final(readings)
      invariant AllTruthful(hash, expected, readings)
      invariant reader.finished <==> Ended(body[..n])
      invariant AllHandedOn(body, readings)
      invariant forall m | 0 <= m < n && IsVerdict(readings[m].outcome) :: reader.finished && reader.result == readings[m].outcome
    {
      EndedNext(body, n);
      var reading := reader.Read(body[n].0, body[n].1);
      NextHandedOn(body, readings, reading);
      assert (readings + [reading])[..n] == readings;
      NextIsTruthful(hash, expected, readings, reading);
      readings := readings + [reading];
    }
  }
}
