/** The program's global state and the operations on it that the window
    procedure triggers: committing a decoded file, scanning a folder,
    recomputing the world bounds, reloading a folder, and building the WAV
    image to play. Drawing, input handling and the view transform are not
    part of this model. */
module App {
  import opened Bytes
  import opened CArith
  import opened Decoder
  import opened Features
  import opened Colour
  import opened Catalog
  import opened Bounds
  import opened Wav
  import IndexSort

  /** The fields of the global `AppState` this model keeps. */
  class AppState {
    var samples: array<Sample>
    var count: nat
    var sortedIndices: array<int>
    var minX: real
    var maxX: real
    var minY: real
    var maxY: real
    /** The WAV image being played, or null. */
    var audioMem: array?<byte>

    ghost predicate Valid()
      reads this
    {
      samples.Length == MAX_FILES && sortedIndices.Length == MAX_FILES && count <= MAX_FILES
    }

    /** The catalog the table and count hold. */
    function Snapshot(): (t: Table)
      reads this, samples
      requires Valid()
      ensures Fits(t) && t.count == count && t.slots == samples[..]
    {
      Table(samples[..], count)
    }

    /** `AppState app = {0}`. */
    constructor ()
      ensures Valid() && fresh(samples) && fresh(sortedIndices)
      ensures count == 0 && audioMem == null
      ensures samples[..] == seq(MAX_FILES, _ => Blank)
      ensures sortedIndices[..] == seq(MAX_FILES, _ => 0)
      ensures minX == 0.0 && maxX == 0.0 && minY == 0.0 && maxY == 0.0
    {
      samples := new Sample[MAX_FILES](_ => Blank);
      sortedIndices := new int[MAX_FILES](_ => 0);
      count := 0;
      minX, maxX, minY, maxY := 0.0, 0.0, 0.0, 0.0;
      audioMem := null;
    }

    /** The record `ProcessFile` builds for the `n` decoded samples in `raw`:
        the sample loop, then the metadata and the colour. */
    static method Describe(path: string, raw: array<int>, n: nat, rate: nat, ch: nat, slot: nat, m: FloatMaths)
      returns (s: Sample)
      requires 0 < n <= raw.Length && rate > 0 && ch > 0
      ensures s == SampleOf(path, Decoded(raw[..n], rate, ch), slot, m)
    {
      var crossings, preview := Extract(raw, n);
      var rawZcr := m.sqrt(crossings as real / n as real);
      var frames := n / ch;
      s := Sample(
        FileName(path), path, preview,
        (m.spread(rawZcr) + m.jitterX(slot)) * 5.0,
        (m.spread(m.rawRms(raw[..n])) + m.jitterY(slot)) * 5.0,
        SAMPLE_BITS, frames, rate, ch,
        frames as real / rate as real, n * 2, SampleColour(rawZcr));
    }

    /** `ProcessFile`: decode the file at `path`; on success fill slot
        `count` with its record and bump `count`. */
    method ProcessFile(path: string, fs: string -> MediaFile, m: FloatMaths, allocLimit: nat)
      requires Valid() && count < MAX_FILES && WellFormed(fs(path))
      modifies this`count, samples
      ensures Valid()
      ensures Snapshot() == Processed(old(Snapshot()), path, fs, m, allocLimit)
    {
      ghost var before := Snapshot();
      var raw, numSamples, rate, ch := Load(fs(path), allocLimit);
      assert Snapshot() == before;
      if raw == null {
        assert Decode(fs(path), allocLimit).None?;
        return;
      }
      ghost var d := Decode(fs(path), allocLimit).value;
      DecodedShape(fs(path), allocLimit);
      assert raw[..numSamples] == d.pcm;
      assert d == Decoded(raw[..numSamples], rate, ch);
      var s := Describe(path, raw, numSamples, rate, ch, count, m);
      ProcessedTakes(before, path, fs, m, allocLimit);
      samples[count] := s;
      count := count + 1;
    }

    /** One search's `do ... while (FindNextFileA(...))` loop. */
    method ScanNames(folder: string, names: seq<string>, fs: string -> MediaFile, m: FloatMaths, allocLimit: nat)
      requires Valid() && Sound(fs)
      modifies this`count, samples
      ensures Valid()
      ensures Snapshot() == Run(old(Snapshot()), folder, names, fs, m, allocLimit)
    {
      ghost var start := Snapshot();
      var k := 0;
      while k < |names|
        invariant 0 <= k <= |names| && Valid()
        invariant Run(start, folder, names, fs, m, allocLimit)
          == Run(Snapshot(), folder, names[k..], fs, m, allocLimit)
      {
        if count >= MAX_FILES {
          RunFull(Snapshot(), folder, names[k..], fs, m, allocLimit);
          return;
        }
        assert names[k..][0] == names[k] && names[k..][1..] == names[k + 1..];
        if !IsDot(names[k]) {
          ProcessFile(Path(folder, names[k]), fs, m, allocLimit);
        }
        k := k + 1;
      }
    }

    /** The names the first `e` searches return. */
    ghost function Searched(folder: string, find: string -> seq<string>, e: nat): seq<string>
      requires e <= |EXTENSIONS|
    {
      if e == 0 then [] else Searched(folder, find, e - 1) + find(Pattern(folder, EXTENSIONS[e - 1]))
    }

    /** The three searches of `ScanDirectory`, one extension after another. */
    method ScanListing(folder: string, find: string -> seq<string>, fs: string -> MediaFile, m: FloatMaths, allocLimit: nat)
      requires Valid() && Sound(fs)
      modifies this`count, samples
      ensures Valid()
      ensures Snapshot() == Run(old(Snapshot()), folder, Listing(folder, find), fs, m, allocLimit)
    {
      ghost var start := Snapshot();
      var e := 0;
      while e < |EXTENSIONS|
        invariant 0 <= e <= |EXTENSIONS| && Valid()
        invariant Snapshot() == Run(start, folder, Searched(folder, find, e), fs, m, allocLimit)
      {
        var names := find(Pattern(folder, EXTENSIONS[e]));
        RunAppend(start, folder, Searched(folder, find, e), names, fs, m, allocLimit);
        ScanNames(folder, names, fs, m, allocLimit);
        e := e + 1;
      }
      assert Searched(folder, find, 1) == find(Pattern(folder, EXTENSIONS[0]));
      assert Searched(folder, find, |EXTENSIONS|) == Listing(folder, find);
    }

    /** The rescale loop of `ScanDirectory`. */
    method Rescale(factor: real)
      requires Valid()
      modifies samples
      ensures Valid()
      ensures Snapshot() == Rescaled(old(Snapshot()), factor)
    {
      ghost var loaded := Snapshot();
      var i := 0;
      while i < count
        invariant 0 <= i <= count
        invariant forall k :: 0 <= k < MAX_FILES ==>
          samples[k] == if k < i then Rescaled(loaded, factor).slots[k] else loaded.slots[k]
      {
        samples[i] := Scale(samples[i], factor);
        i := i + 1;
      }
      assert samples[..] == Rescaled(loaded, factor).slots;
    }

    /** `ScanDirectory`: the three searches with the capacity guard, the
        rescale of every committed record, and `SortSamples`. */
    method ScanDirectory(folder: string, find: string -> seq<string>, fs: string -> MediaFile, m: FloatMaths, allocLimit: nat)
      requires Valid() && Sound(fs)
      modifies this`count, samples, sortedIndices
      ensures Valid()
      ensures Snapshot() == Scanned(old(Snapshot()), folder, find, fs, m, allocLimit)
      ensures IndexSort.SortedBy(sortedIndices[..count], Colours(Snapshot()))
      ensures multiset(sortedIndices[..count]) == multiset(IndexSort.Identity(count))
      ensures sortedIndices[count..] == old(sortedIndices[..])[count..]
    {
      ghost var start := Snapshot();
      ScanListing(folder, find, fs, m, allocLimit);
      ghost var loaded := Snapshot();
      assert loaded == Run(start, folder, Listing(folder, find), fs, m, allocLimit);
      var density := count as real;
      var factor := 1.0;
      if density > DENSE_COUNT as real {
        factor := m.log(density) * 2.5;
      }
      assert factor == ScaleFactor(loaded.count, m.log);
      Rescale(factor);
      ghost var scaled := Snapshot();
      assert scaled == Scanned(start, folder, find, fs, m, allocLimit);
      IndexSort.SortSamples(sortedIndices, Colours(Snapshot()), count);
      assert Snapshot() == scaled;
    }

    /** `UpdateBounds`: the min/max scan over the committed records, then
        the widening of any span below 0.001. */
    method UpdateBounds()
      requires Valid()
      modifies this`minX, this`maxX, this`minY, this`maxY
      ensures Range(minX, maxX) == AxisBounds(Xs(Snapshot()))
      ensures Range(minY, maxY) == AxisBounds(Ys(Snapshot()))
    {
      ghost var xs, ys := Xs(Snapshot()), Ys(Snapshot());
      minX, maxX, minY, maxY := FLT_MAX, -FLT_MAX, FLT_MAX, -FLT_MAX;
      var i := 0;
      while i < count
        invariant 0 <= i <= count
        invariant minX == MinOf(xs, i) && maxX == MaxOf(xs, i)
        invariant minY == MinOf(ys, i) && maxY == MaxOf(ys, i)
      {
        var x, y := samples[i].zcr, samples[i].rms;
        assert x == xs[i] && y == ys[i];
        if x < minX { minX := x; }
        if x > maxX { maxX := x; }
        if y < minY { minY := y; }
        if y > maxY { maxY := y; }
        assert minX == MinOf(xs, i + 1) && maxX == MaxOf(xs, i + 1);
        assert minY == MinOf(ys, i + 1) && maxY == MaxOf(ys, i + 1);
        i := i + 1;
      }
      if maxX - minX < MIN_SPAN { maxX := minX + WIDE_SPAN; }
      if maxY - minY < MIN_SPAN { maxY := minY + WIDE_SPAN; }
    }

    /** The "open folder" command: the catalog is emptied and the folder
        scanned; the bounds are recomputed when something was loaded. */
    method OpenFolder(folder: string, find: string -> seq<string>, fs: string -> MediaFile, m: FloatMaths, allocLimit: nat)
      requires Valid() && Sound(fs)
      modifies this`count, samples, sortedIndices, this`minX, this`maxX, this`minY, this`maxY
      ensures Valid()
      ensures Snapshot() == Scanned(Table(old(samples[..]), 0), folder, find, fs, m, allocLimit)
      ensures IndexSort.SortedBy(sortedIndices[..count], Colours(Snapshot()))
      ensures multiset(sortedIndices[..count]) == multiset(IndexSort.Identity(count))
      ensures sortedIndices[count..] == old(sortedIndices[..])[count..]
      ensures count > 0 ==>
        Range(minX, maxX) == AxisBounds(Xs(Snapshot())) && Range(minY, maxY) == AxisBounds(Ys(Snapshot()))
      ensures count == 0 ==> minX == old(minX) && maxX == old(maxX) && minY == old(minY) && maxY == old(maxY)
    {
      count := 0;
      ScanDirectory(folder, find, fs, m, allocLimit);
      if count > 0 {
        UpdateBounds();
      }
    }

    /** `PlayAudio`: for a valid index, the previous image is released, the
        file decoded again, its samples halved in place, and a fresh image of
        header and samples built, unless decoding or the allocation fails. */
    method PlayAudio(index: int, fs: string -> MediaFile, allocLimit: nat)
      requires Valid()
      modifies this`audioMem
      ensures !(0 <= index < count) ==> audioMem == old(audioMem)
      ensures 0 <= index < count ==>
        var played := Decode(fs(samples[index].fullpath), allocLimit);
        && (played.None? ==> audioMem == null)
        && (played.Some? ==>
              var d := played.value;
              if HEADER_SIZE + 2 * |d.pcm| > allocLimit then audioMem == null
              else (audioMem != null && fresh(audioMem)
                    && audioMem[..] == Image(d.channels, d.rate, Quieted(d.pcm))))
    {
      if index < 0 || index >= count {
        return;
      }
      audioMem := null;
      var pcm, n, rate, ch := Load(fs(samples[index].fullpath), allocLimit);
      if pcm == null {
        return;
      }
      HalveVolume(pcm, n);
      var dataSize := n * 2;
      var totalSize := HEADER_SIZE + dataSize;
      if totalSize > allocLimit {
        return;
      }
      var mem := new byte[totalSize];
      Build(mem, ch, rate, pcm, n);
      audioMem := mem;
    }
  }
}
