/** `AudioDecoder::Load`: the loop that accumulates the 16-bit PCM the source
    reader delivers into a growable buffer of shorts.

    The Media Foundation reader is replaced by the sequence of results its
    `ReadSample` calls produce, and the allocator by an allocation budget:
    an allocation of `n` bytes fails exactly when `n` exceeds the budget. */
module Decoder {
  import opened Bytes
  import opened Options

  /** Shorts allocated before the first read. */
  const INITIAL_CAPACITY: nat := 4096
  /** Reading stops once more than this many shorts are held. */
  const MAX_DECODED: nat := 15_000_000
  /** The format the reader is assumed to deliver when it does not say. */
  const DEFAULT_RATE: nat := 44100
  const DEFAULT_CHANNELS: nat := 2

  /** One `ReadSample` call, as the accumulation loop sees it. */
  datatype ReadResult =
    | Stop                    // the call failed, or flagged an error or the end of the stream
    | NoData                  // no sample, or its buffer could not be made contiguous or locked
    | Data(bytes: seq<byte>)  // the locked buffer's bytes

  /** What the decoding backend makes of a path. */
  datatype MediaFile =
    | Unreadable  // missing or empty, or the reader cannot open it or convert it to 16-bit PCM
    | Stream(rateAttr: Option<nat>, channelsAttr: Option<nat>, results: seq<ReadResult>)

  /** The backend never reports a zero rate or a zero channel count. */
  predicate WellFormed(f: MediaFile) {
    f.Stream? ==>
      (f.rateAttr.Some? ==> f.rateAttr.value > 0) &&
      (f.channelsAttr.Some? ==> f.channelsAttr.value > 0)
  }

  /** A successful decode: interleaved samples, rate and channel count. */
  datatype Decoded = Decoded(pcm: seq<int>, rate: nat, channels: nat)

  /** The accumulation state: the shorts held, the buffer's capacity in
      shorts, and whether a growth was refused (the buffer is then freed). */
  datatype Acc = Acc(pcm: seq<int>, capacity: nat, failed: bool)

  /** The shorts one read delivers. */
  function Shorts(r: ReadResult): seq<int> {
    if r.Data? then BytesToShorts(r.bytes) else []
  }

  /** The shorts a stream delivers up to its first `Stop`. */
  function StreamPcm(results: seq<ReadResult>): seq<int> {
    if results == [] || results[0].Stop? then []
    else Shorts(results[0]) + StreamPcm(results[1..])
  }

  /** The capacity after taking `newShorts` more shorts. */
  function Grown(capacity: nat, count: nat, newShorts: nat): (r: nat)
    requires count <= capacity
    ensures count + newShorts <= r
    ensures capacity <= r
  {
    if count + newShorts > capacity then (capacity + newShorts) * 2 else capacity
  }

  /** Takes one locked buffer: its bytes, rounded down to an even count, are
      appended as shorts, growing the buffer first when they do not fit. */
  function Append(a: Acc, bytes: seq<byte>, allocLimit: nat): (r: Acc)
    requires !a.failed && |a.pcm| <= a.capacity
    ensures |r.pcm| <= r.capacity
    ensures !r.failed ==> r.pcm == a.pcm + BytesToShorts(bytes)
    ensures !r.failed ==> |r.pcm| == |a.pcm| + |bytes| / 2
    ensures r.failed <==> r.capacity != a.capacity && 2 * r.capacity > allocLimit
  {
    var more := BytesToShorts(bytes);
    var cap := Grown(a.capacity, |a.pcm|, |more|);
    if cap != a.capacity && 2 * cap > allocLimit then Acc(a.pcm, cap, true)
    else Acc(a.pcm + more, cap, false)
  }

  /** The reading loop from state `a` over the remaining results. */
  function Accumulate(a: Acc, results: seq<ReadResult>, allocLimit: nat): (r: Acc)
    requires !a.failed && |a.pcm| <= a.capacity
    decreases |results|
  {
    if results == [] then a
    else match results[0]
      case Stop => a
      case NoData => Accumulate(a, results[1..], allocLimit)
      case Data(b) =>
        var n := Append(a, b, allocLimit);
        if n.failed || |n.pcm| > MAX_DECODED then n else Accumulate(n, results[1..], allocLimit)
  }

  function Start(): Acc {
    Acc([], INITIAL_CAPACITY, false)
  }

  /** What `Load` returns for a file. */
  function Decode(f: MediaFile, allocLimit: nat): Option<Decoded> {
    if f.Unreadable? || 2 * INITIAL_CAPACITY > allocLimit then None
    else
      var r := Accumulate(Start(), f.results, allocLimit);
      if r.failed || r.pcm == [] then None
      else Some(Decoded(r.pcm, f.rateAttr.GetOr(DEFAULT_RATE), f.channelsAttr.GetOr(DEFAULT_CHANNELS)))
  }

  /** The buffer never holds more shorts than its capacity. */
  lemma {:induction false} AccumulateWithinCapacity(a: Acc, results: seq<ReadResult>, allocLimit: nat)
    requires !a.failed && |a.pcm| <= a.capacity
    ensures var r := Accumulate(a, results, allocLimit);
      |r.pcm| <= r.capacity && a.capacity <= r.capacity
    decreases |results|
  {
    if results != [] {
      match results[0]
      case Stop =>
      case NoData => AccumulateWithinCapacity(a, results[1..], allocLimit);
      case Data(b) =>
        var n := Append(a, b, allocLimit);
        if !n.failed && |n.pcm| <= MAX_DECODED {
          AccumulateWithinCapacity(n, results[1..], allocLimit);
        }
    }
  }

  /** Long streams are truncated, not failed: what is read is a prefix of the
      stream, and all of it when it stays within the cap. */
  lemma {:induction false} AccumulateReadsPrefix(a: Acc, results: seq<ReadResult>, allocLimit: nat)
    requires !a.failed && |a.pcm| <= a.capacity
    ensures var r := Accumulate(a, results, allocLimit);
      !r.failed ==>
        && a.pcm <= r.pcm <= a.pcm + StreamPcm(results)
        && (|r.pcm| <= MAX_DECODED ==> r.pcm == a.pcm + StreamPcm(results))
    decreases |results|
  {
    if results != [] {
      var rest := results[1..];
      var r := Accumulate(a, results, allocLimit);
      match results[0]
      case Stop =>
      case NoData =>
        assert r == Accumulate(a, rest, allocLimit);
        assert StreamPcm(results) == StreamPcm(rest);
        AccumulateReadsPrefix(a, rest, allocLimit);
      case Data(b) =>
        var n := Append(a, b, allocLimit);
        if !n.failed {
          AccumulateRead(a, results, allocLimit);
          var whole := a.pcm + StreamPcm(results);
          assert whole == n.pcm + StreamPcm(rest);
          if |n.pcm| > MAX_DECODED {
            assert r == n;
            PrefixOfJoin(n.pcm, StreamPcm(rest));
          } else {
            assert r == Accumulate(n, rest, allocLimit);
            AccumulateReadsPrefix(n, rest, allocLimit);
            if !r.failed {
              PrefixTrans(a.pcm, n.pcm, r.pcm);
            }
          }
        }
    }
  }

  /** One `Data` read that is taken: its shorts join the held ones. */
  lemma AccumulateRead(a: Acc, results: seq<ReadResult>, allocLimit: nat)
    requires !a.failed && |a.pcm| <= a.capacity
    requires results != [] && results[0].Data?
    requires !Append(a, results[0].bytes, allocLimit).failed
    ensures var n := Append(a, results[0].bytes, allocLimit);
      && a.pcm + StreamPcm(results) == n.pcm + StreamPcm(results[1..])
      && a.pcm <= n.pcm
  {
    var more := BytesToShorts(results[0].bytes);
    assert StreamPcm(results) == more + StreamPcm(results[1..]);
    PrefixOfJoin(a.pcm, more);
  }

  lemma PrefixOfJoin(x: seq<int>, y: seq<int>)
    ensures x <= x + y
  {
    assert (x + y)[..|x|] == x;
  }

  lemma PrefixTrans(x: seq<int>, y: seq<int>, z: seq<int>)
    requires x <= y && y <= z
    ensures x <= z
  {
    assert z[..|y|] == y;
    assert z[..|x|] == y[..|x|];
  }

  /** When reading goes past the cap, it stopped with the first read that
      went past it: the result is the stream of some prefix whose prefix one
      shorter still lay within the cap. */
  lemma {:induction false} AccumulateStopsPastCap(a: Acc, results: seq<ReadResult>, allocLimit: nat)
    requires !a.failed && |a.pcm| <= a.capacity && |a.pcm| <= MAX_DECODED
    ensures var r := Accumulate(a, results, allocLimit);
      !r.failed && |r.pcm| > MAX_DECODED ==>
        exists k :: 0 < k <= |results| && r.pcm == a.pcm + StreamPcm(results[..k])
                    && |a.pcm + StreamPcm(results[..k - 1])| <= MAX_DECODED
    decreases |results|
  {
    var r := Accumulate(a, results, allocLimit);
    if results != [] && !results[0].Stop? && !r.failed && |r.pcm| > MAX_DECODED {
      var n := if results[0].Data? then Append(a, results[0].bytes, allocLimit) else a;
      assert n.pcm == a.pcm + Shorts(results[0]);
      if |n.pcm| > MAX_DECODED {
        PrefixStep(results, 0);
        assert results[..0] == [];
        assert r.pcm == a.pcm + StreamPcm(results[..1]);
      } else {
        assert r == Accumulate(n, results[1..], allocLimit);
        var k := StopsPastCapStep(a, n, results, allocLimit);
        assert r.pcm == a.pcm + StreamPcm(results[..k]);
      }
    }
  }

  /** The inductive step of `AccumulateStopsPastCap`, for a first read that
      takes `a` to `n`. */
  lemma {:induction false} StopsPastCapStep(a: Acc, n: Acc, results: seq<ReadResult>, allocLimit: nat)
    returns (k: nat)
    requires results != [] && !results[0].Stop?
    requires !n.failed && |n.pcm| <= n.capacity && |n.pcm| <= MAX_DECODED
    requires n.pcm == a.pcm + Shorts(results[0])
    requires var r := Accumulate(n, results[1..], allocLimit); !r.failed && |r.pcm| > MAX_DECODED
    ensures 0 < k <= |results|
    ensures Accumulate(n, results[1..], allocLimit).pcm == a.pcm + StreamPcm(results[..k])
    ensures |a.pcm + StreamPcm(results[..k - 1])| <= MAX_DECODED
    decreases |results|, 0
  {
    var rest := results[1..];
    var r := Accumulate(n, rest, allocLimit);
    AccumulateStopsPastCap(n, rest, allocLimit);
    var j :| 0 < j <= |rest| && r.pcm == n.pcm + StreamPcm(rest[..j])
             && |n.pcm + StreamPcm(rest[..j - 1])| <= MAX_DECODED;
    var lead := Shorts(results[0]);
    PrefixStep(results, j);
    PrefixStep(results, j - 1);
    var upTo, before := StreamPcm(rest[..j]), StreamPcm(rest[..j - 1]);
    ConcatAssoc(a.pcm, lead, upTo);
    k := j + 1;
  }

  lemma ConcatAssoc(x: seq<int>, y: seq<int>, z: seq<int>)
    ensures x + (y + z) == (x + y) + z
  {
  }

  /** The stream of a prefix one longer, read from its first result. */
  lemma PrefixStep(results: seq<ReadResult>, k: nat)
    requires k < |results| && !results[0].Stop?
    ensures StreamPcm(results[..k + 1]) == Shorts(results[0]) + StreamPcm(results[1..][..k])
  {
    assert results[..k + 1][1..] == results[1..][..k];
  }

  /** `Load` fails exactly for an unreadable file, a refused allocation, or a
      stream that yields no shorts; otherwise it returns the stream's shorts,
      truncated just past the cap. */
  lemma DecodeOutcome(f: MediaFile, allocLimit: nat)
    ensures Decode(f, allocLimit).None? <==>
      || f.Unreadable?
      || 2 * INITIAL_CAPACITY > allocLimit
      || Accumulate(Start(), f.results, allocLimit).failed
      || StreamPcm(f.results) == []
    ensures Decode(f, allocLimit).Some? ==>
      var d := Decode(f, allocLimit).value;
      && 0 < |d.pcm|
      && d.pcm <= StreamPcm(f.results)
      && (|d.pcm| <= MAX_DECODED ==> d.pcm == StreamPcm(f.results))
  {
    if f.Stream? {
      AccumulateReadsPrefix(Start(), f.results, allocLimit);
    }
  }

  /** Every value the stream delivers is a short. */
  lemma {:induction false} StreamPcmShorts(results: seq<ReadResult>)
    ensures AllShorts(StreamPcm(results))
  {
    if results != [] && !results[0].Stop? {
      StreamPcmShorts(results[1..]);
      var head, tail := Shorts(results[0]), StreamPcm(results[1..]);
      assert StreamPcm(results) == head + tail;
      assert forall i :: 0 <= i < |head| ==> (head + tail)[i] == head[i];
      assert forall i :: |head| <= i < |head| + |tail| ==> (head + tail)[i] == tail[i - |head|];
    }
  }

  /** A successful decode of a well-formed file holds at least one short,
      only shorts, and a positive rate and channel count. */
  lemma DecodedShape(f: MediaFile, allocLimit: nat)
    requires WellFormed(f) && Decode(f, allocLimit).Some?
    ensures var d := Decode(f, allocLimit).value;
      && 0 < |d.pcm| && AllShorts(d.pcm) && d.rate > 0 && d.channels > 0
  {
    DecodeOutcome(f, allocLimit);
    StreamPcmShorts(f.results);
    var d := Decode(f, allocLimit).value;
    assert forall i :: 0 <= i < |d.pcm| ==> d.pcm[i] == StreamPcm(f.results)[i];
  }

  /** `realloc`: a fresh buffer of `newCap` shorts starting with the first
      `count` of the old one. */
  method Grow(buffer: array<int>, count: nat, newCap: nat) returns (r: array<int>)
    requires count <= buffer.Length <= newCap
    ensures fresh(r) && r.Length == newCap
    ensures r[..count] == buffer[..count]
  {
    r := new int[newCap];
    var j := 0;
    while j < count
      invariant 0 <= j <= count
      invariant r[..j] == buffer[..j]
    {
      r[j] := buffer[j];
      j := j + 1;
    }
  }

  /** `memcpy(buffer + count, data, len & ~1)`. */
  method CopyShorts(buffer: array<int>, count: nat, bytes: seq<byte>)
    requires count + |bytes| / 2 <= buffer.Length
    modifies buffer
    ensures buffer[..count + |bytes| / 2] == old(buffer[..count]) + BytesToShorts(bytes)
  {
    var n := |bytes| / 2;
    var j := 0;
    while j < n
      invariant 0 <= j <= n
      invariant buffer[..count + j] == old(buffer[..count]) + BytesToShorts(bytes)[..j]
    {
      BytesToShortsAt(bytes, j);
      buffer[count + j] := ShortAt(bytes, 2 * j);
      assert BytesToShorts(bytes)[..j + 1] == BytesToShorts(bytes)[..j] + [ShortAt(bytes, 2 * j)];
      assert buffer[..count + j + 1] == buffer[..count + j] + [buffer[count + j]];
      j := j + 1;
    }
    assert BytesToShorts(bytes)[..n] == BytesToShorts(bytes);
  }

  /** One locked buffer taken into `buffer`: the possibly reallocated buffer
      and the new count, or `failed` when the growth was refused. */
  method TakeData(buffer: array<int>, count: nat, bytes: seq<byte>, allocLimit: nat)
    returns (r: array<int>, newCount: nat, failed: bool)
    requires count <= buffer.Length
    modifies buffer
    ensures var n := Append(Acc(old(buffer[..count]), buffer.Length, false), bytes, allocLimit);
      && failed == n.failed
      && (!failed ==> (fresh(r) || r == buffer) && r.Length == n.capacity
                      && newCount == |n.pcm| && r[..newCount] == n.pcm)
  {
    var newShorts := |bytes| / 2;
    r, newCount, failed := buffer, count, false;
    if count + newShorts > buffer.Length {
      var newCap := (buffer.Length + newShorts) * 2;
      if 2 * newCap > allocLimit {
        failed := true;
        return;
      }
      r := Grow(buffer, count, newCap);
    }
    CopyShorts(r, count, bytes);
    newCount := count + newShorts;
  }

  /** `AudioDecoder::Load`: NULL with zeroed outputs on failure, otherwise a
      fresh buffer whose first `outSamples` shorts are the decoded PCM. */
  method Load(file: MediaFile, allocLimit: nat)
    returns (buffer: array?<int>, outSamples: nat, outRate: nat, outChannels: nat)
    ensures Decode(file, allocLimit).None? ==>
      buffer == null && outSamples == 0 && outRate == 0 && outChannels == 0
    ensures Decode(file, allocLimit).Some? ==>
      var d := Decode(file, allocLimit).value;
      && buffer != null && fresh(buffer)
      && outSamples == |d.pcm| <= buffer.Length
      && buffer[..outSamples] == d.pcm
      && outRate == d.rate && outChannels == d.channels
  {
    buffer, outSamples, outRate, outChannels := null, 0, 0, 0;
    if file.Unreadable? || 2 * INITIAL_CAPACITY > allocLimit {
      return;
    }
    var results := file.results;
    ghost var goal := Accumulate(Start(), results, allocLimit);
    var count: nat := 0;
    var buf := new int[INITIAL_CAPACITY];
    assert buf[..count] == [];
    var failed := false;
    var stop := false;
    var i := 0;
    while !stop && i < |results|
      invariant 0 <= i <= |results|
      invariant fresh(buf) && count <= buf.Length
      invariant count <= MAX_DECODED || stop
      invariant failed ==> stop
      invariant !stop ==> Accumulate(Acc(buf[..count], buf.Length, false), results[i..], allocLimit) == goal
      invariant stop ==> goal.failed == failed && (!failed ==> goal.pcm == buf[..count])
      decreases |results| - i, !stop
    {
      assert results[i..][1..] == results[i + 1..];
      match results[i]
      case Stop =>
        stop := true;
      case NoData =>
        i := i + 1;
      case Data(bytes) =>
        var grown, newCount, refused := TakeData(buf, count, bytes, allocLimit);
        if refused {
          failed, stop := true, true;
        } else {
          buf, count := grown, newCount;
          i := i + 1;
          if count > MAX_DECODED {
            stop := true;
          }
        }
    }
    if failed || count == 0 {
      return;
    }
    buffer := buf;
    outSamples := count;
    outRate := file.rateAttr.GetOr(DEFAULT_RATE);
    outChannels := file.channelsAttr.GetOr(DEFAULT_CHANNELS);
  }
}
