/** The catalog as a value: the fixed table of `MAX_FILES` sample records
    with the number committed, and what `ProcessFile` and the file loop and
    rescale of `ScanDirectory` make of it. The class in `App` performs these
    steps in place and is proved against the functions here. */
module Catalog {
  import opened Decoder
  import opened Features
  import opened Colour

  const MAX_FILES: nat := 2000
  /** Catalogs with more samples than this are spread out. */
  const DENSE_COUNT: nat := 50
  /** Every decoded file is 16-bit PCM. */
  const SAMPLE_BITS: nat := 16
  /** The extensions searched, in order. */
  const EXTENSIONS: seq<string> := ["wav", "mp3", "flac"]

  /** One catalog record. */
  datatype Sample = Sample(
    filename: string, fullpath: string, preview: seq<real>,
    zcr: real, rms: real,
    bitsPerSample: nat, numSamples: nat, sampleRate: nat, channels: nat,
    duration: real, fileSize: nat, color: int)

  /** A record of the zero-initialised table. */
  const Blank: Sample := Sample("", "", [], 0.0, 0.0, 0, 0, 0, 0, 0.0, 0, 0)

  /** A square root is never negative. */
  type NonNegative = x: real | x >= 0.0

  /** The floating-point steps that stay outside the model: `sqrt` of the
      crossing rate, the RMS of the samples, `powf(x, 0.33f)`, `logf`, and
      the two `rand()` offsets drawn for the file committed into each slot. */
  datatype FloatMaths = FloatMaths(
    sqrt: real -> NonNegative, rawRms: seq<int> -> real, spread: real -> real,
    log: real -> real, jitterX: nat -> real, jitterY: nat -> real)

  /** The table and the number of committed records. */
  datatype Table = Table(slots: seq<Sample>, count: nat)

  predicate Fits(c: Table) {
    |c.slots| == MAX_FILES && c.count <= MAX_FILES
  }

  /** The backend never reports a zero rate or channel count. */
  ghost predicate Sound(fs: string -> Decoder.MediaFile) {
    forall p :: WellFormed(fs(p))
  }

  /** `sprintf(fullPath, "%s\\%s", folder, name)`. */
  function Path(folder: string, name: string): string {
    folder + "\\" + name
  }

  /** `sprintf(searchPath, "%s\\*.%s", folder, ext)`. */
  function Pattern(folder: string, ext: string): string {
    folder + "\\*." + ext
  }

  predicate IsDot(name: string) {
    name == "." || name == ".."
  }

  /** The names the three searches return, one extension after the other. */
  function Listing(folder: string, find: string -> seq<string>): seq<string> {
    find(Pattern(folder, EXTENSIONS[0])) + find(Pattern(folder, EXTENSIONS[1]))
    + find(Pattern(folder, EXTENSIONS[2]))
  }

  /** The raw zero-crossing rate, `sqrt(crossings / numSamples)`. */
  function RawZcr(pcm: seq<int>, m: FloatMaths): (r: real)
    requires |pcm| > 0
    ensures r >= 0.0
  {
    m.sqrt(CrossingsIn(pcm, |pcm|) as real / |pcm| as real)
  }

  /** The record `ProcessFile` commits into slot `slot` for a decoded file. */
  function SampleOf(path: string, d: Decoded, slot: nat, m: FloatMaths): Sample
    requires |d.pcm| > 0 && d.channels > 0 && d.rate > 0
  {
    var raw := RawZcr(d.pcm, m);
    var frames := |d.pcm| / d.channels;
    Sample(
      FileName(path), path, Preview(d.pcm),
      (m.spread(raw) + m.jitterX(slot)) * 5.0,
      (m.spread(m.rawRms(d.pcm)) + m.jitterY(slot)) * 5.0,
      SAMPLE_BITS, frames, d.rate, d.channels,
      frames as real / d.rate as real, 2 * |d.pcm|, SampleColour(raw))
  }

  /** A record's metadata: whole frames of interleaved samples, a duration
      of frames over rate, two bytes per sample, the 64-slot preview, the
      name after the last backslash, and a colour whose channels lie in
      [155, 255]. */
  lemma SampleOfMetadata(path: string, d: Decoded, slot: nat, m: FloatMaths)
    requires |d.pcm| > 0 && d.channels > 0 && d.rate > 0
    ensures var s := SampleOf(path, d, slot, m);
      && s.numSamples * s.channels <= |d.pcm| < (s.numSamples + 1) * s.channels
      && s.duration * s.sampleRate as real == s.numSamples as real
      && s.fileSize == 2 * |d.pcm| && s.bitsPerSample == 16
      && |s.preview| == WAVEFORM_RES
      && s.fullpath == path && path == path[..|path| - |s.filename|] + s.filename
      && '\\' !in s.filename
      && (|s.filename| < |path| ==> path[|path| - |s.filename| - 1] == '\\')
      && var rgb := Blend(Gradient(RawZcr(d.pcm, m)));
         && InRange(rgb, 155, 255) && s.color == rgb.r + 256 * rgb.g + 65536 * rgb.b
  {
    SampleFrames(path, d, slot, m);
    SampleNames(path, d, slot, m);
    SampleTint(path, d, slot, m);
  }

  /** The frame count, duration, size and width of a record. */
  lemma SampleFrames(path: string, d: Decoded, slot: nat, m: FloatMaths)
    requires |d.pcm| > 0 && d.channels > 0 && d.rate > 0
    ensures var s := SampleOf(path, d, slot, m);
      && s.numSamples * s.channels <= |d.pcm| < (s.numSamples + 1) * s.channels
      && s.duration * s.sampleRate as real == s.numSamples as real
      && s.fileSize == 2 * |d.pcm| && s.bitsPerSample == 16
  {
    SampleFrameCount(path, d, slot, m);
    SampleDuration(path, d, slot, m);
  }

  lemma SampleFrameCount(path: string, d: Decoded, slot: nat, m: FloatMaths)
    requires |d.pcm| > 0 && d.channels > 0 && d.rate > 0
    ensures var s := SampleOf(path, d, slot, m);
      s.numSamples * s.channels <= |d.pcm| < (s.numSamples + 1) * s.channels
  {
    var s := SampleOf(path, d, slot, m);
    WholeFrames(s.numSamples, |d.pcm|, s.channels);
  }

  lemma SampleDuration(path: string, d: Decoded, slot: nat, m: FloatMaths)
    requires |d.pcm| > 0 && d.channels > 0 && d.rate > 0
    ensures var s := SampleOf(path, d, slot, m);
      s.duration * s.sampleRate as real == s.numSamples as real
  {
    var s := SampleOf(path, d, slot, m);
    Duration(s.duration, s.numSamples, s.sampleRate);
  }

  /** The preview and the names of a record. */
  lemma SampleNames(path: string, d: Decoded, slot: nat, m: FloatMaths)
    requires |d.pcm| > 0 && d.channels > 0 && d.rate > 0
    ensures var s := SampleOf(path, d, slot, m);
      && |s.preview| == WAVEFORM_RES
      && s.fullpath == path && path == path[..|path| - |s.filename|] + s.filename
      && '\\' !in s.filename
      && (|s.filename| < |path| ==> path[|path| - |s.filename| - 1] == '\\')
  {
    var s := SampleOf(path, d, slot, m);
    assert s.filename == FileName(path);
  }

  /** The colour of a record. */
  lemma SampleTint(path: string, d: Decoded, slot: nat, m: FloatMaths)
    requires |d.pcm| > 0 && d.channels > 0 && d.rate > 0
    ensures var s := SampleOf(path, d, slot, m);
      var rgb := Blend(Gradient(RawZcr(d.pcm, m)));
      && InRange(rgb, 155, 255) && s.color == rgb.r + 256 * rgb.g + 65536 * rgb.b
  {
    var s := SampleOf(path, d, slot, m);
    var raw := RawZcr(d.pcm, m);
    assert s.color == SampleColour(raw);
    SampleColourRange(raw);
    PackExact(Blend(Gradient(raw)));
  }

  /** A duration of `frames / rate` seconds spans `frames` frames. */
  lemma Duration(duration: real, frames: nat, rate: nat)
    requires rate > 0 && duration == frames as real / rate as real
    ensures duration * rate as real == frames as real
  {
  }

  /** `n / ch` whole frames use at most `n` samples, with fewer than one
      frame left over. */
  lemma WholeFrames(frames: nat, n: nat, ch: nat)
    requires ch > 0 && frames == n / ch
    ensures frames * ch <= n < (frames + 1) * ch
  {
    assert n == frames * ch + n % ch;
    assert (frames + 1) * ch == frames * ch + ch;
  }

  /** `ProcessFile` on the catalog: a decoded file becomes the record in
      slot `count` and `count` grows by one; a file that fails to decode
      changes nothing. */
  function Processed(c: Table, path: string, fs: string -> MediaFile, m: FloatMaths, allocLimit: nat): (r: Table)
    requires Fits(c) && c.count < MAX_FILES && WellFormed(fs(path))
    ensures Fits(r)
    ensures Decode(fs(path), allocLimit).None? ==> r == c
    ensures Decode(fs(path), allocLimit).Some? ==>
      && r.count == c.count + 1
      && (forall i :: 0 <= i < MAX_FILES && i != c.count ==> r.slots[i] == c.slots[i])
  {
    match Decode(fs(path), allocLimit)
    case None => c
    case Some(d) =>
      DecodedShape(fs(path), allocLimit);
      Table(c.slots[c.count := SampleOf(path, d, c.count, m)], c.count + 1)
  }

  /** A file that decodes becomes the record in slot `count`. */
  lemma ProcessedTakes(c: Table, path: string, fs: string -> MediaFile, m: FloatMaths, allocLimit: nat)
    requires Fits(c) && c.count < MAX_FILES && WellFormed(fs(path))
    requires Decode(fs(path), allocLimit).Some?
    ensures var d := Decode(fs(path), allocLimit).value;
      && |d.pcm| > 0 && d.channels > 0 && d.rate > 0
      && Processed(c, path, fs, m, allocLimit) == Table(c.slots[c.count := SampleOf(path, d, c.count, m)], c.count + 1)
  {
    DecodedShape(fs(path), allocLimit);
  }

  /** `s` is the record of the file at `path` decoded as `d`: the path it
      was read from, its last path component as the name, the file's format,
      whole frames of its samples, two bytes per sample and its preview. */
  predicate RecordFor(s: Sample, path: string, d: Decoded) {
    && s.fullpath == path && |s.filename| <= |path| && path == path[..|path| - |s.filename|] + s.filename
    && '\\' !in s.filename
    && (|s.filename| < |path| ==> path[|path| - |s.filename| - 1] == '\\')
    && s.channels == d.channels && s.sampleRate == d.rate
    && s.numSamples * s.channels <= |d.pcm| < (s.numSamples + 1) * s.channels
    && s.fileSize == 2 * |d.pcm| && s.bitsPerSample == 16
    && s.preview == Preview(d.pcm)
  }

  /** A file that decodes fills slot `count` with its own record. */
  lemma ProcessedRecord(c: Table, path: string, fs: string -> MediaFile, m: FloatMaths, allocLimit: nat, d: Decoded)
    requires Fits(c) && c.count < MAX_FILES && WellFormed(fs(path))
    requires Decode(fs(path), allocLimit) == Options.Some(d)
    ensures RecordFor(Processed(c, path, fs, m, allocLimit).slots[c.count], path, d)
  {
    ProcessedTakes(c, path, fs, m, allocLimit);
    var s := SampleOf(path, d, c.count, m);
    assert Processed(c, path, fs, m, allocLimit).slots[c.count] == s;
    RecordOf(path, d, c.count, m, s);
  }

  lemma RecordOf(path: string, d: Decoded, slot: nat, m: FloatMaths, s: Sample)
    requires |d.pcm| > 0 && d.channels > 0 && d.rate > 0
    requires s == SampleOf(path, d, slot, m)
    ensures RecordFor(s, path, d)
  {
    SampleNames(path, d, slot, m);
    SampleFrameCount(path, d, slot, m);
  }

  /** The file loop over `names`: once `MAX_FILES` records are committed
      nothing more is read, `.` and `..` are skipped, and every other name is
      processed under the folder. */
  function Run(c: Table, folder: string, names: seq<string>, fs: string -> MediaFile, m: FloatMaths, allocLimit: nat): (r: Table)
    requires Fits(c) && Sound(fs)
    ensures Fits(r)
    decreases |names|
  {
    if names == [] then c
    else
      var next := if c.count >= MAX_FILES || IsDot(names[0]) then c
        else Processed(c, Path(folder, names[0]), fs, m, allocLimit);
      Run(next, folder, names[1..], fs, m, allocLimit)
  }

  /** The name decodes, and is not `.` or `..`. */
  predicate Loads(folder: string, name: string, fs: string -> MediaFile, allocLimit: nat) {
    !IsDot(name) && Decode(fs(Path(folder, name)), allocLimit).Some?
  }

  /** The number of names that would be committed without the cap. */
  function Successes(folder: string, names: seq<string>, fs: string -> MediaFile, allocLimit: nat): (r: nat)
    ensures r <= |names|
  {
    if names == [] then 0
    else (if Loads(folder, names[0], fs, allocLimit) then 1 else 0) + Successes(folder, names[1..], fs, allocLimit)
  }

  /** The records those names would make, committed from slot `from` on. */
  function Committed(folder: string, names: seq<string>, fs: string -> MediaFile, m: FloatMaths, allocLimit: nat, from: nat): (r: seq<Sample>)
    requires Sound(fs)
    ensures |r| == Successes(folder, names, fs, allocLimit)
  {
    if names == [] then []
    else if Loads(folder, names[0], fs, allocLimit) then
      var path := Path(folder, names[0]);
      DecodedShape(fs(path), allocLimit);
      [SampleOf(path, Decode(fs(path), allocLimit).value, from, m)]
      + Committed(folder, names[1..], fs, m, allocLimit, from + 1)
    else Committed(folder, names[1..], fs, m, allocLimit, from)
  }

  function Min(a: nat, b: nat): nat {
    if a < b then a else b
  }

  /** The file loop commits one record per name that decodes, in order,
      until the table is full: `count` ends at the smaller of `MAX_FILES` and
      the old count plus the successes, the new records are the first of
      those the names make, and every other slot is untouched. */
  lemma RunOutcome(c: Table, folder: string, names: seq<string>, fs: string -> MediaFile, m: FloatMaths, allocLimit: nat)
    requires Fits(c) && Sound(fs)
    ensures var r := Run(c, folder, names, fs, m, allocLimit);
      && r.count == Min(MAX_FILES, c.count + Successes(folder, names, fs, allocLimit))
      && (forall i :: 0 <= i < c.count ==> r.slots[i] == c.slots[i])
      && (forall i :: r.count <= i < MAX_FILES ==> r.slots[i] == c.slots[i])
      && (forall i :: c.count <= i < r.count ==>
            r.slots[i] == Committed(folder, names, fs, m, allocLimit, c.count)[i - c.count])
  {
    RunOutcomeHolds(c, folder, names, fs, m, allocLimit);
  }

  /** The four facts of `RunOutcome` about the result `r` of a loop from `c`. */
  predicate Outcome(c: Table, r: Table, folder: string, names: seq<string>, fs: string -> MediaFile, m: FloatMaths, allocLimit: nat)
    requires Fits(c) && Fits(r) && Sound(fs)
  {
    Extends(c, r, Successes(folder, names, fs, allocLimit), Committed(folder, names, fs, m, allocLimit, c.count))
  }

  /** `r` is `c` with as many of the records `made` appended as fit. */
  predicate Extends(c: Table, r: Table, successes: nat, made: seq<Sample>)
    requires Fits(c) && Fits(r)
  {
    && r.count == Min(MAX_FILES, c.count + successes)
    && (forall i :: 0 <= i < c.count ==> r.slots[i] == c.slots[i])
    && (forall i :: r.count <= i < MAX_FILES ==> r.slots[i] == c.slots[i])
    && r.count - c.count <= |made|
    && (forall i :: c.count <= i < r.count ==> r.slots[i] == made[i - c.count])
  }

  /** Extending `next`, which is `c` plus one record, extends `c` by that
      record and then the rest. */
  lemma ExtendsShift(c: Table, next: Table, r: Table, successes: nat, later: seq<Sample>)
    requires Fits(c) && Fits(next) && Fits(r) && c.count < MAX_FILES
    requires next.count == c.count + 1
    requires forall i :: 0 <= i < MAX_FILES && i != c.count ==> next.slots[i] == c.slots[i]
    requires Extends(next, r, successes, later)
    ensures Extends(c, r, successes + 1, [next.slots[c.count]] + later)
  {
    var made := [next.slots[c.count]] + later;
    forall i | c.count <= i < r.count
      ensures r.slots[i] == made[i - c.count]
    {
      if i > c.count {
        assert made[i - c.count] == later[i - next.count];
      }
    }
  }

  lemma {:induction false} RunOutcomeHolds(c: Table, folder: string, names: seq<string>, fs: string -> MediaFile, m: FloatMaths, allocLimit: nat)
    requires Fits(c) && Sound(fs)
    ensures Outcome(c, Run(c, folder, names, fs, m, allocLimit), folder, names, fs, m, allocLimit)
    decreases |names|
  {
    if names == [] {
    } else if c.count >= MAX_FILES {
      RunFull(c, folder, names, fs, m, allocLimit);
      FullOutcome(c, folder, names, fs, m, allocLimit);
    } else if !Loads(folder, names[0], fs, allocLimit) {
      RunOutcomeHolds(c, folder, names[1..], fs, m, allocLimit);
      SkipOutcome(c, folder, names, fs, m, allocLimit);
    } else {
      var next := Processed(c, Path(folder, names[0]), fs, m, allocLimit);
      RunOutcomeHolds(next, folder, names[1..], fs, m, allocLimit);
      TakeOutcome(c, folder, names, fs, m, allocLimit);
    }
  }

  /** A full table: nothing changes and the count stays at the cap. */
  lemma FullOutcome(c: Table, folder: string, names: seq<string>, fs: string -> MediaFile, m: FloatMaths, allocLimit: nat)
    requires Fits(c) && Sound(fs) && c.count >= MAX_FILES
    ensures Outcome(c, c, folder, names, fs, m, allocLimit)
  {
  }

  /** A first name that does not load leaves the table to the rest. */
  lemma SkipOutcome(c: Table, folder: string, names: seq<string>, fs: string -> MediaFile, m: FloatMaths, allocLimit: nat)
    requires Fits(c) && Sound(fs) && c.count < MAX_FILES
    requires names != [] && !Loads(folder, names[0], fs, allocLimit)
    requires Outcome(c, Run(c, folder, names[1..], fs, m, allocLimit), folder, names[1..], fs, m, allocLimit)
    ensures Outcome(c, Run(c, folder, names, fs, m, allocLimit), folder, names, fs, m, allocLimit)
  {
    var next := if IsDot(names[0]) then c else Processed(c, Path(folder, names[0]), fs, m, allocLimit);
    assert next == c;
    assert Run(c, folder, names, fs, m, allocLimit) == Run(c, folder, names[1..], fs, m, allocLimit);
    assert Successes(folder, names, fs, allocLimit) == Successes(folder, names[1..], fs, allocLimit);
    assert Committed(folder, names, fs, m, allocLimit, c.count) == Committed(folder, names[1..], fs, m, allocLimit, c.count);
  }

  /** A first name that loads fills slot `c.count`; the rest follow it. */
  lemma TakeOutcome(c: Table, folder: string, names: seq<string>, fs: string -> MediaFile, m: FloatMaths, allocLimit: nat)
    requires Fits(c) && Sound(fs) && c.count < MAX_FILES
    requires names != [] && Loads(folder, names[0], fs, allocLimit)
    requires var next := Processed(c, Path(folder, names[0]), fs, m, allocLimit);
      Outcome(next, Run(next, folder, names[1..], fs, m, allocLimit), folder, names[1..], fs, m, allocLimit)
    ensures Outcome(c, Run(c, folder, names, fs, m, allocLimit), folder, names, fs, m, allocLimit)
  {
    var rest := names[1..];
    var next := Processed(c, Path(folder, names[0]), fs, m, allocLimit);
    var r := Run(c, folder, names, fs, m, allocLimit);
    assert r == Run(next, folder, rest, fs, m, allocLimit);
    RunTakes(c, folder, names, fs, m, allocLimit);
    ExtendsShift(c, next, r, Successes(folder, rest, fs, allocLimit),
                 Committed(folder, rest, fs, m, allocLimit, c.count + 1));
  }

  /** The first name of the loop decodes into slot `c.count`: the count,
      the successes and the committed records each grow by that record. */
  lemma RunTakes(c: Table, folder: string, names: seq<string>, fs: string -> MediaFile, m: FloatMaths, allocLimit: nat)
    requires Fits(c) && Sound(fs) && c.count < MAX_FILES
    requires names != [] && Loads(folder, names[0], fs, allocLimit)
    ensures var next := Processed(c, Path(folder, names[0]), fs, m, allocLimit);
      && next.count == c.count + 1
      && (forall i :: 0 <= i < MAX_FILES && i != c.count ==> next.slots[i] == c.slots[i])
      && Successes(folder, names, fs, allocLimit) == 1 + Successes(folder, names[1..], fs, allocLimit)
      && Committed(folder, names, fs, m, allocLimit, c.count)
         == [next.slots[c.count]] + Committed(folder, names[1..], fs, m, allocLimit, c.count + 1)
  {
    var path := Path(folder, names[0]);
    DecodedShape(fs(path), allocLimit);
    var head := SampleOf(path, Decode(fs(path), allocLimit).value, c.count, m);
    var next := Processed(c, path, fs, m, allocLimit);
    assert next.slots[c.count] == head;
  }

  /** A full table stays as it is. */
  lemma {:induction false} RunFull(c: Table, folder: string, names: seq<string>, fs: string -> MediaFile, m: FloatMaths, allocLimit: nat)
    requires Fits(c) && Sound(fs) && c.count >= MAX_FILES
    ensures Run(c, folder, names, fs, m, allocLimit) == c
    decreases |names|
  {
    if names != [] {
      RunFull(c, folder, names[1..], fs, m, allocLimit);
    }
  }

  /** The loop over a listing is the loop over its parts, one after another. */
  lemma {:induction false} RunAppend(c: Table, folder: string, a: seq<string>, b: seq<string>, fs: string -> MediaFile, m: FloatMaths, allocLimit: nat)
    requires Fits(c) && Sound(fs)
    ensures Run(c, folder, a + b, fs, m, allocLimit)
      == Run(Run(c, folder, a, fs, m, allocLimit), folder, b, fs, m, allocLimit)
    decreases |a|
  {
    if a == [] {
      assert a + b == b;
    } else {
      assert (a + b)[0] == a[0];
      assert (a + b)[1..] == a[1..] + b;
      var next := if c.count >= MAX_FILES || IsDot(a[0]) then c
        else Processed(c, Path(folder, a[0]), fs, m, allocLimit);
      RunAppend(next, folder, a[1..], b, fs, m, allocLimit);
    }
  }

  /** The spread factor: `logf(count) * 2.5f` for a dense catalog, else 1. */
  function ScaleFactor(count: nat, log: real -> real): real {
    if count as real > DENSE_COUNT as real then log(count as real) * 2.5 else 1.0
  }

  /** A record with both map coordinates multiplied by `f`. */
  function Scale(s: Sample, f: real): Sample
  {
    s.(zcr := s.zcr * f, rms := s.rms * f)
  }

  /** The rescale loop: the map coordinates of every committed record times `f`. */
  function Rescaled(c: Table, f: real): (r: Table)
    requires Fits(c)
    ensures Fits(r) && r.count == c.count
  {
    Table(seq(|c.slots|, i requires 0 <= i < |c.slots| =>
      if i < c.count then Scale(c.slots[i], f)
      else c.slots[i]), c.count)
  }

  /** A catalog of at most 50 samples is left as it is; any rescale keeps
      every record's colour and the zcr-to-rms proportion of a point. */
  lemma RescaleKeeps(c: Table, log: real -> real, f: real)
    requires Fits(c)
    ensures c.count <= DENSE_COUNT ==> Rescaled(c, ScaleFactor(c.count, log)) == c
    ensures forall i :: 0 <= i < MAX_FILES ==>
      && Rescaled(c, f).slots[i].color == c.slots[i].color
      && Rescaled(c, f).slots[i].zcr * c.slots[i].rms == Rescaled(c, f).slots[i].rms * c.slots[i].zcr
  {
    if c.count <= DENSE_COUNT {
      assert Rescaled(c, 1.0).slots == c.slots;
    }
  }

  /** What `ScanDirectory` leaves, before sorting: the file loop over the
      listing, then the rescale by the factor for the new count. */
  function Scanned(c: Table, folder: string, find: string -> seq<string>, fs: string -> MediaFile, m: FloatMaths, allocLimit: nat): (r: Table)
    requires Fits(c) && Sound(fs)
    ensures Fits(r)
  {
    var loaded := Run(c, folder, Listing(folder, find), fs, m, allocLimit);
    Rescaled(loaded, ScaleFactor(loaded.count, m.log))
  }

  /** The file loop and rescale of `ScanDirectory`: the count reaches the
      smaller of `MAX_FILES` and the old count plus the names that decode;
      every committed record, old or new, has both coordinates multiplied by
      the same factor; the new records are those the names make, in order;
      the slots past the count are untouched. */
  lemma ScannedOutcome(c: Table, folder: string, find: string -> seq<string>, fs: string -> MediaFile, m: FloatMaths, allocLimit: nat)
    requires Fits(c) && Sound(fs)
    ensures var r := Scanned(c, folder, find, fs, m, allocLimit);
      var names := Listing(folder, find);
      var f := ScaleFactor(r.count, m.log);
      var made := Committed(folder, names, fs, m, allocLimit, c.count);
      && r.count == Min(MAX_FILES, c.count + Successes(folder, names, fs, allocLimit))
      && (forall i :: 0 <= i < c.count ==>
            r.slots[i] == Scale(c.slots[i], f))
      && (forall i :: c.count <= i < r.count ==>
            r.slots[i] == Scale(made[i - c.count], f))
      && (forall i :: r.count <= i < MAX_FILES ==> r.slots[i] == c.slots[i])
  {
    var names := Listing(folder, find);
    var loaded := Run(c, folder, names, fs, m, allocLimit);
    var f := ScaleFactor(loaded.count, m.log);
    var r := Scanned(c, folder, find, fs, m, allocLimit);
    assert r == Rescaled(loaded, f) && r.count == loaded.count;
    RunOutcomeHolds(c, folder, names, fs, m, allocLimit);
    RescaledExtends(c, loaded, r, Successes(folder, names, fs, allocLimit),
                    Committed(folder, names, fs, m, allocLimit, c.count), f);
  }

  /** Rescaling a table that extends `c` by `made` scales the old records
      and the new ones alike, and leaves the slots past the count alone. */
  lemma RescaledExtends(c: Table, loaded: Table, r: Table, successes: nat, made: seq<Sample>, f: real)
    requires Fits(c) && Fits(loaded) && Extends(c, loaded, successes, made)
    requires r == Rescaled(loaded, f)
    ensures
      && r.count == Min(MAX_FILES, c.count + successes)
      && (forall i :: 0 <= i < c.count ==>
            r.slots[i] == Scale(c.slots[i], f))
      && (forall i :: c.count <= i < r.count ==>
            r.slots[i] == Scale(made[i - c.count], f))
      && (forall i :: r.count <= i < MAX_FILES ==> r.slots[i] == c.slots[i])
  {
  }

  /** The colours of the committed records, as `SortSamples` compares them. */
  function Colours(c: Table): seq<int>
    requires Fits(c)
  {
    seq(c.count, i requires 0 <= i < c.count => c.slots[i].color)
  }

  /** The x (zcr) and y (rms) coordinates of the committed records. */
  function Xs(c: Table): seq<real>
    requires Fits(c)
  {
    seq(c.count, i requires 0 <= i < c.count => c.slots[i].zcr)
  }

  function Ys(c: Table): seq<real>
    requires Fits(c)
  {
    seq(c.count, i requires 0 <= i < c.count => c.slots[i].rms)
  }
}
