/**
 * FOVTool: the command-line entry point. doMain checks the parsed
 * arguments in a fixed order, convert resolves which series of the input
 * become which FOVs, and convertOne runs one conversion and, when it
 * succeeds, writes that FOV's JSON and registers the FOV.
 *
 * Bio-Formats, the image converter and the file system are inputs: the
 * dataset by its plate, well and series counts and the reader positioned at
 * each series; each conversion by its success; the disk by which paths
 * exist and what they hash to.
 */
module FovTool {
  import opened Wrappers
  import opened JavaFormat
  import opened Naming
  import opened Json
  import opened Errors
  import FW = FovWriter
  import EW = ExperimentWriter

  /** The fields args4j fills in. */
  datatype Options = Options(fov: int, out: string, codebook: string, naming: Scheme, series: int, input: string)

  /** The options given only -o and the input: -f 0, -c codebook.json, -n standard, -s -1. */
  function Defaults(out: string, input: string): (o: Options)
    ensures o.fov == 0 && o.series == -1 && o.naming == Standard && o.codebook == "codebook.json"
    ensures o.out == out && o.input == input
  {
    Options(0, out, "codebook.json", Standard, -1, input)
  }

  /** The input fileset as Bio-Formats presents it after setId. */
  datatype Dataset = Dataset(
    plateCount: int,
    /** getWellCount(0); only read when there is exactly one plate. */
    wellCount: int,
    seriesCount: int,
    /** The sizes and plane indexing of series s; its series field is not read (see SeriesReader). */
    reader: int -> FW.Reader,
    meta: FW.Metadata)
  {
    /**
     * The reader after setSeries(s): getSeries() is then s, so the FOV
     * writer looks up the metadata of image s. SeriesReader(0) is also the
     * reader before any setSeries.
     */
    function SeriesReader(s: int): (r: FW.Reader)
      ensures r.series == s
    {
      reader(s).(series := s)
    }
  }

  /** How doMain ends. */
  datatype Exit =
    | Returned(rc: int)
    /** reader.setSeries(series) throws: the chosen series does not exist. */
    | SeriesOutOfRange

  /** What convert returns and leaves behind: the converter commands run and the files written, in order. */
  datatype Conversion = Conversion(exit: Exit, commands: seq<seq<string>>, files: seq<(string, Json)>)

  /** A whole run: also whether doMain created the output directory. */
  datatype Run = Run(exit: Exit, madeOutput: bool, commands: seq<seq<string>>, files: seq<(string, Json)>)

  // ---------------------------------------------------------------------------
  // doMain

  /** The outcome of doMain's checks: a return code, or the options convert runs with. */
  datatype Checked = Rejected(rc: int, madeOutput: bool) | Accepted(opts: Options)

  /**
   * doMain's checks, in order: arguments that do not parse give 2, a
   * missing input 1, an existing output 3; otherwise the output directory
   * is created, and then a negative FOV gives 5.
   */
  function Check(parsed: Option<Options>, disk: FW.FileSystem): Checked
  {
    match parsed
    case None => Rejected(2, false)
    case Some(o) =>
      if !disk.present(o.input) then Rejected(1, false)
      else if disk.present(o.out) then Rejected(3, false)
      else if o.fov < 0 then Rejected(5, true)
      else Accepted(o)
  }

  /** The run doMain performs. */
  function MainSpec(parsed: Option<Options>, disk: FW.FileSystem, data: Dataset, names: EW.ManifestNaming,
                    outcome: nat -> bool, converted: FW.FileSystem): Run
  {
    match Check(parsed, disk)
    case Rejected(rc, made) => Run(Returned(rc), made, [], [])
    case Accepted(o) =>
      var c := ConvertSpec(o, data, names, outcome, converted);
      Run(c.exit, true, c.commands, c.files)
  }

  /**
   * doMain. parsed is what parseArgument produced (None: it threw a
   * CmdLineException); disk is the file system before the run; outcome(k)
   * is whether the k-th conversion succeeds; converted is the file system
   * the FOV writers hash tiles from.
   */
  method DoMain(parsed: Option<Options>, disk: FW.FileSystem, data: Dataset, names: EW.ManifestNaming,
                outcome: nat -> bool, converted: FW.FileSystem) returns (run: Run)
    ensures run == MainSpec(parsed, disk, data, names, outcome, converted)
  {
    var checked := Check(parsed, disk);
    if checked.Rejected? {
      return Run(Returned(checked.rc), checked.madeOutput, [], []);
    }
    var c := Convert(checked.opts, data, names, outcome, converted);
    run := Run(c.exit, true, c.commands, c.files);
  }

  // ---------------------------------------------------------------------------
  // convert

  /** Which conversions convert runs, once the counts are known. */
  datatype Plan =
    | Fail(rc: int)
    /** One plate with one well: every series in turn, series i as FOV i. */
    | EachSeries(count: int)
    /** One conversion as FOV fov, after setSeries(s) when series is Some(s). */
    | One(series: Option<int>, fov: int)

  /**
   * convert's branch tests: more than one plate gives 6 before the wells
   * are looked at; one plate with other than one well gives 7; without
   * plates, several series and no -s give 4.
   */
  function Resolve(opts: Options, data: Dataset): Plan
  {
    if data.plateCount > 0 then
      if data.plateCount > 1 then Fail(6)
      else if data.wellCount != 1 then Fail(7)
      else EachSeries(data.seriesCount)
    else if data.seriesCount > 1 then
      if opts.series < 0 then Fail(4) else One(Some(opts.series), opts.fov)
    else One(None, opts.fov)
  }

  /** The number of leading conversions that succeed among the first n. */
  function Successes(outcome: nat -> bool, n: nat): (m: nat)
    ensures m <= n
    ensures forall i :: 0 <= i < m ==> outcome(i)
    ensures m < n ==> !outcome(m)
  {
    if n == 0 then 0
    else
      var m := Successes(outcome, n - 1);
      if m < n - 1 then m else if outcome(n - 1) then n else n - 1
  }

  /** The converter command for an FOV: companion and TIFF pattern inside the output directory. */
  function Command(opts: Options, fov: int): seq<string>
  {
    ["-option", "ometiff.companion", Path(opts.out, opts.naming.CompanionFilename(fov)),
     "-validate", opts.input, Path(opts.out, opts.naming.TiffPattern(fov))]
  }

  /** f(0), ..., f(n-1). */
  function Upto<A>(f: nat -> A, n: nat): (r: seq<A>)
    ensures |r| == n && forall i :: 0 <= i < n ==> r[i] == f(i)
  {
    if n == 0 then [] else Upto(f, n - 1) + [f(n - 1)]
  }

  /** The command of each FOV. */
  function CommandOf(opts: Options): nat -> seq<string>
  {
    fov => Command(opts, fov)
  }

  /** The FOV JSON file convertOne writes after a successful conversion. */
  function FovFile(opts: Options, reader: FW.Reader, meta: FW.Metadata, fov: int, converted: FW.FileSystem): (string, Json)
  {
    var w := FW.FovWriter(reader, meta, opts.naming, fov, opts.out);
    (w.DocumentPath(), w.Document(converted))
  }

  /** The FOV file of each series of a plate, series i as FOV i. */
  function PlateFileOf(opts: Options, data: Dataset, converted: FW.FileSystem): nat -> (string, Json)
  {
    i => FovFile(opts, data.SeriesReader(i), data.meta, i, converted)
  }

  /** The FOV indices 0 .. n-1. */
  function Range(n: nat): (r: seq<int>)
    ensures |r| == n && forall i :: 0 <= i < n ==> r[i] == i
  {
    if n == 0 then [] else Range(n - 1) + [n - 1]
  }

  /**
   * The plate branch: every series in turn as the FOV of the same index,
   * stopping at the first failed conversion with code 1 and without writing
   * the experiment; after n successes the experiment lists FOVs 0 .. n-1.
   */
  function PlateSpec(opts: Options, data: Dataset, names: EW.ManifestNaming, outcome: nat -> bool,
                     converted: FW.FileSystem): Conversion
  {
    var n := FW.Count(data.seriesCount);
    var m := Successes(outcome, n);
    if m < n then
      Conversion(Returned(1), Upto(CommandOf(opts), m + 1), Upto(PlateFileOf(opts, data, converted), m))
    else
      Conversion(Returned(0), Upto(CommandOf(opts), n),
                 Upto(PlateFileOf(opts, data, converted), n) + EW.Files(opts.naming, names, opts.out, Range(n)))
  }

  /**
   * One conversion of the reader as FOV fov; the experiment is written
   * whether or not it succeeds, listing the FOV only when it does.
   */
  function SingleSpec(opts: Options, reader: FW.Reader, meta: FW.Metadata, fov: int, names: EW.ManifestNaming,
                      succeeds: bool, converted: FW.FileSystem): Conversion
  {
    var cmd := Command(opts, fov);
    if succeeds then
      Conversion(Returned(0), [cmd], [FovFile(opts, reader, meta, fov, converted)] + EW.Files(opts.naming, names, opts.out, [fov]))
    else
      Conversion(Returned(1), [cmd], EW.Files(opts.naming, names, opts.out, []))
  }

  /** What convert does, given the per-call conversion outcomes. */
  function ConvertSpec(opts: Options, data: Dataset, names: EW.ManifestNaming, outcome: nat -> bool,
                       converted: FW.FileSystem): Conversion
  {
    match Resolve(opts, data)
    case Fail(rc) => Conversion(Returned(rc), [], [])
    case EachSeries(_) => PlateSpec(opts, data, names, outcome, converted)
    case One(series, fov) =>
      if series.Some? && series.value >= data.seriesCount then Conversion(SeriesOutOfRange, [], [])
      else
        var reader := if series.Some? then data.SeriesReader(series.value) else data.SeriesReader(0);
        SingleSpec(opts, reader, data.meta, fov, names, outcome(0), converted)
  }

  /**
   * convertOne: runs the converter; on failure returns 1 and registers
   * nothing; on success writes the FOV's JSON, registers the FOV once and
   * returns 0.
   */
  method ConvertOne(opts: Options, reader: FW.Reader, meta: FW.Metadata, writer: EW.ExperimentWriter, fov: int,
                    succeeds: bool, converted: FW.FileSystem) returns (rv: int, cmd: seq<string>, files: seq<(string, Json)>)
    modifies writer
    ensures cmd == Command(opts, fov)
    ensures succeeds ==> rv == 0 && writer.fovs == old(writer.fovs) + [fov] && files == [FovFile(opts, reader, meta, fov, converted)]
    ensures !succeeds ==> rv == 1 && writer.fovs == old(writer.fovs) && files == []
  {
    var companion := Path(opts.out, opts.naming.CompanionFilename(fov));
    var tiffs := Path(opts.out, opts.naming.TiffPattern(fov));
    cmd := ["-option", "ometiff.companion", companion, "-validate", opts.input, tiffs];
    if !succeeds {
      return 1, cmd, [];
    }
    var w := FW.FovWriter(reader, meta, opts.naming, fov, opts.out);
    var path, doc := w.Write(converted);
    writer.AddFov(fov);
    rv, files := 0, [(path, doc)];
  }

  /**
   * convert: resolves plates, wells and series, then converts either every
   * series of the single well, stopping at the first failure, or the one
   * chosen series.
   */
  method Convert(opts: Options, data: Dataset, names: EW.ManifestNaming, outcome: nat -> bool,
                 converted: FW.FileSystem) returns (result: Conversion)
    ensures result == ConvertSpec(opts, data, names, outcome, converted)
  {
    var writer := new EW.ExperimentWriter(opts.naming, opts.out, names);
    if data.plateCount > 0 {
      if data.plateCount > 1 {
        return Conversion(Returned(6), [], []);
      }
      if data.wellCount != 1 {
        return Conversion(Returned(7), [], []);
      }
      result := ConvertPlate(opts, data, names, outcome, converted, writer);
    } else {
      var reader := data.SeriesReader(0);
      if data.seriesCount > 1 {
        if opts.series < 0 {
          return Conversion(Returned(4), [], []);
        }
        if opts.series >= data.seriesCount {
          return Conversion(SeriesOutOfRange, [], []);
        }
        reader := data.SeriesReader(opts.series);
      }
      var fov := opts.fov;
      result := ConvertSingle(opts, reader, data.meta, fov, names, outcome(0), converted, writer);
    }
  }

  /** The plate branch of convert, with the fresh experiment writer. */
  method ConvertPlate(opts: Options, data: Dataset, names: EW.ManifestNaming, outcome: nat -> bool,
                      converted: FW.FileSystem, writer: EW.ExperimentWriter) returns (result: Conversion)
    requires writer.fovs == [] && writer.naming == opts.naming && writer.out == opts.out
    requires writer.names.fovKey == names.fovKey && writer.names.manifestFilename == names.manifestFilename
    modifies writer
    ensures result == PlateSpec(opts, data, names, outcome, converted)
  {
    ghost var n := FW.Count(data.seriesCount);
    var commands: seq<seq<string>> := [];
    var files: seq<(string, Json)> := [];
    var i := 0;
    while i < data.seriesCount
      invariant 0 <= i <= n
      invariant Successes(outcome, i) == i
      invariant writer.fovs == Range(i)
      invariant commands == Upto(CommandOf(opts), i)
      invariant files == Upto(PlateFileOf(opts, data, converted), i)
    {
      var reader := data.SeriesReader(i);
      var rv, cmd, written := ConvertOne(opts, reader, data.meta, writer, i, outcome(i), converted);
      assert cmd == CommandOf(opts)(i);
      commands := commands + [cmd];
      assert written == if rv == 0 then [PlateFileOf(opts, data, converted)(i)] else [];
      files := files + written;
      if rv != 0 {
        FirstFailure(outcome, i, n);
        return Conversion(Returned(rv), commands, files);
      }
      i := i + 1;
    }
    var docs := writer.Write();
    assert names == writer.names;
    result := Conversion(Returned(0), commands, files + docs);
  }

  /** The single-image branch of convert: one conversion, then the experiment is written. */
  method ConvertSingle(opts: Options, reader: FW.Reader, meta: FW.Metadata, fov: int, names: EW.ManifestNaming,
                       succeeds: bool, converted: FW.FileSystem, writer: EW.ExperimentWriter) returns (result: Conversion)
    requires writer.fovs == [] && writer.naming == opts.naming && writer.out == opts.out
    requires writer.names.fovKey == names.fovKey && writer.names.manifestFilename == names.manifestFilename
    modifies writer
    ensures result == SingleSpec(opts, reader, meta, fov, names, succeeds, converted)
  {
    var rv, cmd, written := ConvertOne(opts, reader, meta, writer, fov, succeeds, converted);
    var docs := writer.Write();
    assert names == writer.names;
    result := Conversion(Returned(rv), [cmd], written + docs);
  }

  /** A failure after i successes caps the successes of any longer run at i. */
  lemma {:induction false} FirstFailure(outcome: nat -> bool, i: nat, n: nat)
    requires i < n && Successes(outcome, i) == i && !outcome(i)
    ensures Successes(outcome, n) == i
    decreases n
  {
    if n > i + 1 {
      FirstFailure(outcome, i, n - 1);
    }
  }

  /** When the first i conversions succeed, so many succeed. */
  lemma AllSucceed(outcome: nat -> bool, i: nat)
    requires forall k :: 0 <= k < i ==> outcome(k)
    ensures Successes(outcome, i) == i
  {
  }

  /** Sequences built from functions that agree are equal. */
  lemma {:induction false} UptoPointwise<A>(f: nat -> A, g: nat -> A, n: nat)
    requires forall i :: 0 <= i < n ==> f(i) == g(i)
    ensures Upto(f, n) == Upto(g, n)
  {
    if n > 0 {
      UptoPointwise(f, g, n - 1);
    }
  }

  // ---------------------------------------------------------------------------
  // Properties of a run

  /**
   * doMain's checks decide in order: unparsable arguments 2, then a missing
   * input 1, then an existing output 3, then a negative FOV 5. The output
   * directory is created exactly when the input exists and the output does
   * not, so also for a negative FOV; a run that does not create it neither
   * converts nor writes anything.
   */
  lemma ChecksInOrder(parsed: Option<Options>, disk: FW.FileSystem, data: Dataset, names: EW.ManifestNaming,
                      outcome: nat -> bool, converted: FW.FileSystem)
    ensures var run := MainSpec(parsed, disk, data, names, outcome, converted);
            && (parsed.None? ==> run.exit == Returned(2))
            && (parsed.Some? && !disk.present(parsed.value.input) ==> run.exit == Returned(1))
            && (parsed.Some? && disk.present(parsed.value.input) && disk.present(parsed.value.out) ==> run.exit == Returned(3))
            && (parsed.Some? && disk.present(parsed.value.input) && !disk.present(parsed.value.out) && parsed.value.fov < 0
                ==> run.exit == Returned(5))
            && (run.madeOutput <==> parsed.Some? && disk.present(parsed.value.input) && !disk.present(parsed.value.out))
            && (!run.madeOutput || Check(parsed, disk).Rejected? ==> run.commands == [] && run.files == [])
  {
  }

  /**
   * Every code doMain returns is 0 or the code of a row of the error table
   * (1 to 7); the only other end is the exception of a chosen series that
   * does not exist.
   */
  lemma ExitCodesAreErrorCodes(parsed: Option<Options>, disk: FW.FileSystem, data: Dataset, names: EW.ManifestNaming,
                               outcome: nat -> bool, converted: FW.FileSystem)
    ensures var run := MainSpec(parsed, disk, data, names, outcome, converted);
            run.exit.Returned? ==> 0 <= run.exit.rc <= 7 && (run.exit.rc != 0 ==> FromRc(run.exit.rc).Some?)
  {
  }

  /**
   * convert's own rejections: more than one plate 6, one plate without
   * exactly one well 7, several series and no -s 4, a chosen series past
   * the last an exception. None of them runs the converter or writes a
   * file.
   */
  lemma ConvertRejections(opts: Options, data: Dataset, names: EW.ManifestNaming, outcome: nat -> bool, converted: FW.FileSystem)
    ensures var c := ConvertSpec(opts, data, names, outcome, converted);
            && (data.plateCount > 1 ==> c.exit == Returned(6))
            && (data.plateCount == 1 && data.wellCount != 1 ==> c.exit == Returned(7))
            && (data.plateCount <= 0 && data.seriesCount > 1 && opts.series < 0 ==> c.exit == Returned(4))
            && (data.plateCount <= 0 && data.seriesCount > 1 && opts.series >= data.seriesCount ==> c.exit == SeriesOutOfRange)
            && (c.exit in {Returned(4), Returned(6), Returned(7), SeriesOutOfRange} ==> c.commands == [] && c.files == [])
  {
  }

  /**
   * A plate whose conversions all succeed: series i is converted and
   * written as FOV i, in order, and then the experiment lists FOVs 0 .. n-1.
   */
  lemma PlateConvertsEverySeries(opts: Options, data: Dataset, names: EW.ManifestNaming, outcome: nat -> bool,
                                 converted: FW.FileSystem)
    requires data.plateCount == 1 && data.wellCount == 1
    requires forall k :: 0 <= k < data.seriesCount ==> outcome(k)
    ensures var n := FW.Count(data.seriesCount); var c := ConvertSpec(opts, data, names, outcome, converted);
            && c.exit == Returned(0) && |c.commands| == n && |c.files| == n + 3
            && (forall i :: 0 <= i < n ==> c.commands[i] == Command(opts, i))
            && (forall i :: 0 <= i < n ==> c.files[i] == FovFile(opts, data.SeriesReader(i), data.meta, i, converted))
            && c.files[n..] == EW.Files(opts.naming, names, opts.out, Range(n))
  {
    var n := FW.Count(data.seriesCount);
    AllSucceed(outcome, n);
    var c := ConvertSpec(opts, data, names, outcome, converted);
    var head := Upto(PlateFileOf(opts, data, converted), n);
    assert c.files == head + EW.Files(opts.naming, names, opts.out, Range(n));
    assert c.files[n..] == EW.Files(opts.naming, names, opts.out, Range(n));
    forall i | 0 <= i < n ensures c.files[i] == FovFile(opts, data.SeriesReader(i), data.meta, i, converted) {
      assert c.files[i] == head[i];
    }
  }

  /**
   * A plate stops at its first failed conversion: code 1, no later series
   * converted, only the earlier FOVs' files written and no experiment.
   */
  lemma PlateStopsAtFirstFailure(opts: Options, data: Dataset, names: EW.ManifestNaming, outcome: nat -> bool,
                                 converted: FW.FileSystem, j: nat)
    requires data.plateCount == 1 && data.wellCount == 1
    requires j < data.seriesCount && !outcome(j) && forall k :: 0 <= k < j ==> outcome(k)
    ensures var c := ConvertSpec(opts, data, names, outcome, converted);
            && c.exit == Returned(1) && |c.commands| == j + 1 && c.commands[j] == Command(opts, j)
            && c.files == Upto(PlateFileOf(opts, data, converted), j)
  {
    AllSucceed(outcome, j);
    FirstFailure(outcome, j, FW.Count(data.seriesCount));
  }

  /** With a plate, -f and -s have no effect: series i is always FOV i. */
  lemma PlateIgnoresFovAndSeries(opts: Options, data: Dataset, names: EW.ManifestNaming, outcome: nat -> bool,
                                 converted: FW.FileSystem, fov: int, series: int)
    requires data.plateCount > 0
    ensures ConvertSpec(opts, data, names, outcome, converted)
         == ConvertSpec(opts.(fov := fov, series := series), data, names, outcome, converted)
  {
    PlateSpecAgrees(opts, opts.(fov := fov, series := series), data, names, outcome, converted);
  }

  /** The plate branch reads only the output, the naming and the input of the options. */
  lemma PlateSpecAgrees(opts: Options, other: Options, data: Dataset, names: EW.ManifestNaming, outcome: nat -> bool,
                        converted: FW.FileSystem)
    requires other.out == opts.out && other.naming == opts.naming && other.input == opts.input
    ensures PlateSpec(opts, data, names, outcome, converted) == PlateSpec(other, data, names, outcome, converted)
  {
    var n := FW.Count(data.seriesCount);
    forall i: nat ensures CommandOf(opts)(i) == CommandOf(other)(i) {
      assert Command(opts, i) == Command(other, i);
    }
    forall i: nat ensures PlateFileOf(opts, data, converted)(i) == PlateFileOf(other, data, converted)(i) {
      assert FW.FovWriter(data.SeriesReader(i), data.meta, opts.naming, i, opts.out)
          == FW.FovWriter(data.SeriesReader(i), data.meta, other.naming, i, other.out);
    }
    UptoPointwise(CommandOf(opts), CommandOf(other), n);
    UptoPointwise(CommandOf(opts), CommandOf(other), Successes(outcome, n) + 1);
    UptoPointwise(PlateFileOf(opts, data, converted), PlateFileOf(other, data, converted), n);
    UptoPointwise(PlateFileOf(opts, data, converted), PlateFileOf(other, data, converted), Successes(outcome, n));
  }

  /**
   * Without a plate, and with the series chosen when there are several,
   * the selected image is converted once as the -f FOV; the code is 0
   * exactly when that conversion succeeds, and the experiment is written
   * either way, listing the FOV only on success.
   */
  lemma SingleImageConvertsOnce(opts: Options, data: Dataset, names: EW.ManifestNaming, outcome: nat -> bool,
                                converted: FW.FileSystem)
    requires data.plateCount <= 0 && (data.seriesCount <= 1 || 0 <= opts.series < data.seriesCount)
    ensures var c := ConvertSpec(opts, data, names, outcome, converted);
            var reader := if data.seriesCount > 1 then data.SeriesReader(opts.series) else data.SeriesReader(0);
            && c.commands == [Command(opts, opts.fov)]
            && (c.exit == Returned(0) <==> outcome(0))
            && (!outcome(0) ==> c.exit == Returned(1))
            && |c.files| >= 3
            && c.files[|c.files| - 3..] == EW.Files(opts.naming, names, opts.out, if outcome(0) then [opts.fov] else [])
            && (outcome(0) ==> c.files[0] == FovFile(opts, reader, data.meta, opts.fov, converted))
  {
    var c := ConvertSpec(opts, data, names, outcome, converted);
    var files := EW.Files(opts.naming, names, opts.out, if outcome(0) then [opts.fov] else []);
    assert c.files[|c.files| - 3..] == files;
  }

  /** The conclusion of ZeroExitMeansConverted. */
  ghost predicate ConvertedAll(opts: Options, names: EW.ManifestNaming, outcome: nat -> bool, c: Conversion)
  {
    && (forall k :: 0 <= k < |c.commands| ==> outcome(k))
    && |c.files| >= 3
    && exists fovs :: |fovs| == |c.commands| && c.files[|c.files| - 3..] == EW.Files(opts.naming, names, opts.out, fovs)
  }

  /**
   * A zero exit of convert means every conversion it ran succeeded and the
   * experiment was written last, listing one FOV per conversion.
   */
  lemma ZeroExitMeansConverted(opts: Options, data: Dataset, names: EW.ManifestNaming, outcome: nat -> bool,
                               converted: FW.FileSystem)
    requires ConvertSpec(opts, data, names, outcome, converted).exit == Returned(0)
    ensures ConvertedAll(opts, names, outcome, ConvertSpec(opts, data, names, outcome, converted))
  {
    if Resolve(opts, data).EachSeries? {
      PlateZeroExit(opts, data, names, outcome, converted);
    } else {
      SingleZeroExit(opts, data, names, outcome, converted);
    }
  }

  lemma PlateZeroExit(opts: Options, data: Dataset, names: EW.ManifestNaming, outcome: nat -> bool, converted: FW.FileSystem)
    requires Resolve(opts, data).EachSeries?
    requires ConvertSpec(opts, data, names, outcome, converted).exit == Returned(0)
    ensures ConvertedAll(opts, names, outcome, ConvertSpec(opts, data, names, outcome, converted))
  {
    var c := ConvertSpec(opts, data, names, outcome, converted);
    var n := FW.Count(data.seriesCount);
    assert Successes(outcome, n) == n;
    PlateConvertsEverySeries(opts, data, names, outcome, converted);
    assert |Range(n)| == |c.commands| && c.files[|c.files| - 3..] == EW.Files(opts.naming, names, opts.out, Range(n));
  }

  lemma SingleZeroExit(opts: Options, data: Dataset, names: EW.ManifestNaming, outcome: nat -> bool, converted: FW.FileSystem)
    requires Resolve(opts, data).One?
    requires ConvertSpec(opts, data, names, outcome, converted).exit == Returned(0)
    ensures ConvertedAll(opts, names, outcome, ConvertSpec(opts, data, names, outcome, converted))
  {
    var c := ConvertSpec(opts, data, names, outcome, converted);
    SingleImageConvertsOnce(opts, data, names, outcome, converted);
    assert outcome(0);
    assert |[opts.fov]| == |c.commands| && c.files[|c.files| - 3..] == EW.Files(opts.naming, names, opts.out, [opts.fov]);
  }

  /** A zero exit of doMain means the arguments passed every check and convert exited with zero. */
  lemma ZeroExitPassedChecks(parsed: Option<Options>, disk: FW.FileSystem, data: Dataset, names: EW.ManifestNaming,
                             outcome: nat -> bool, converted: FW.FileSystem)
    requires MainSpec(parsed, disk, data, names, outcome, converted).exit == Returned(0)
    ensures Check(parsed, disk) == Accepted(parsed.value)
    ensures var run := MainSpec(parsed, disk, data, names, outcome, converted);
            var c := ConvertSpec(parsed.value, data, names, outcome, converted);
            && run.madeOutput && c.exit == Returned(0) && run.commands == c.commands && run.files == c.files
  {
  }

  /** Different FOVs get different converter commands: their companion files differ. */
  lemma CommandsDiffer(opts: Options, a: int, b: int)
    requires a != b
    ensures Command(opts, a) != Command(opts, b)
  {
    if Command(opts, a) == Command(opts, b) {
      assert Command(opts, a)[2] == Command(opts, b)[2];
      PathInjective(opts.out, opts.naming.CompanionFilename(a), opts.naming.CompanionFilename(b));
      CompanionFilenameInjective(opts.naming, a, b);
    }
  }

  /** The series of a plate write their FOV JSON to different paths. */
  lemma PlateFilesDistinct(opts: Options, data: Dataset, converted: FW.FileSystem, i: nat, j: nat)
    requires i != j
    ensures PlateFileOf(opts, data, converted)(i).0 != PlateFileOf(opts, data, converted)(j).0
  {
    var wi := FW.FovWriter(data.SeriesReader(i), data.meta, opts.naming, i, opts.out);
    var wj := FW.FovWriter(data.SeriesReader(j), data.meta, opts.naming, j, opts.out);
    if wi.DocumentPath() == wj.DocumentPath() {
      PathInjective(opts.out, opts.naming.JsonFilename(i), opts.naming.JsonFilename(j));
      JsonFilenameInjective(opts.naming, i, j);
    }
  }

  // ---------------------------------------------------------------------------
  // Messages

  /** The templates doMain and convert format, by code, for the UsageExceptions they throw. */
  function InlineTemplate(rc: int): (t: Option<string>)
    ensures t.Some? <==> rc in {1, 3, 4, 5, 6, 7}
  {
    if rc == 1 then Some("input does not exist (" + "%s" + ")")
    else if rc == 3 then Some("output folder already exists! (" + "%s" + ")")
    else if rc == 4 then Some("%s" + " contains multiple images (count=" + "%d" + "). Please choose one.")
    else if rc == 5 then Some("FOV must be a greater than or equal to 0 (" + "%d" + ")")
    else if rc == 6 then Some("Too many plates found (count=" + "%d" + ")")
    else if rc == 7 then Some("Too many wells found (count=" + "%d" + ")")
    else None
  }

  /**
   * Every code doMain returns other than 0 and 2 has an inline template:
   * doMain's and convert's rejections throw UsageExceptions with those
   * codes, and a failed conversion returns 1, the code of the missing input.
   * Code 2, the CmdLineException of arguments that do not parse, has none.
   */
  lemma ReturnedCodesHaveTemplates(parsed: Option<Options>, disk: FW.FileSystem, data: Dataset, names: EW.ManifestNaming,
                                   outcome: nat -> bool, converted: FW.FileSystem)
    ensures var run := MainSpec(parsed, disk, data, names, outcome, converted);
            run.exit.Returned? && run.exit.rc != 0 && run.exit.rc != 2 ==> InlineTemplate(run.exit.rc).Some?
    ensures InlineTemplate(0).None? && InlineTemplate(2).None?
    ensures Check(parsed, disk).Rejected? ==> (InlineTemplate(Check(parsed, disk).rc).Some? <==> parsed.Some?)
    ensures parsed.Some? && Resolve(parsed.value, data).Fail? ==> InlineTemplate(Resolve(parsed.value, data).rc).Some?
  {
    ExitCodesAreErrorCodes(parsed, disk, data, names, outcome, converted);
  }

  /**
   * The codes FOVTool throws are those of the error table, and so are the
   * templates, except for code 3: "output folder" where the table says
   * "output location".
   */
  lemma InlineTemplatesFollowErrors(rc: int)
    requires InlineTemplate(rc).Some?
    ensures FromRc(rc).Some?
    ensures rc != 3 ==> InlineTemplate(rc) == Some(FromRc(rc).value.Msg())
    ensures rc == 3 ==> InlineTemplate(rc) != Some(FromRc(rc).value.Msg())
  {
    if rc == 3 {
      assert InlineTemplate(3).value[7] == 'f';
      assert OutputExists.Msg()[7] == 'l';
    }
  }

  // ---------------------------------------------------------------------------
  // The command-line scenarios of the tool's tests

  /** Disk where the input exists and the output does not. */
  predicate Fresh(disk: FW.FileSystem, out: string, input: string)
  {
    disk.present(input) && !disk.present(out)
  }

  /**
   * Only -o and the input, on a single image whose conversion succeeds:
   * the default -f 0 and the standard naming put the FOV's JSON at
   * primary_image-fov_000.json, and the experiment lists FOV 0.
   */
  lemma DefaultOptionsScenario(out: string, input: string, disk: FW.FileSystem, data: Dataset, names: EW.ManifestNaming,
                               outcome: nat -> bool, converted: FW.FileSystem)
    requires Fresh(disk, out, input) && data.plateCount == 0 && data.seriesCount == 1 && outcome(0)
    ensures var opts := Defaults(out, input);
            var run := MainSpec(Some(opts), disk, data, names, outcome, converted);
            && run.exit == Returned(0)
            && run.commands == [Command(opts, 0)]
            && |run.files| == 4
            && run.files[0].0 == Path(out, "primary_image-fov_000.json")
            && run.files[1..] == EW.Files(Standard, names, out, [0])
  {
    var opts := Defaults(out, input);
    SingleImageConvertsOnce(opts, data, names, outcome, converted);
    FovZeroIsPadded();
    var c := ConvertSpec(opts, data, names, outcome, converted);
    assert c.files[1..] == c.files[|c.files| - 3..];
  }

  /** A missing input gives 1; an existing output 3; -f -1 gives 5 after the output is made. */
  lemma BadArgumentScenarios(out: string, input: string, disk: FW.FileSystem, data: Dataset, names: EW.ManifestNaming,
                             outcome: nat -> bool, converted: FW.FileSystem)
    ensures !disk.present(input) ==> MainSpec(Some(Defaults(out, input)), disk, data, names, outcome, converted).exit == Returned(1)
    ensures disk.present(input) && disk.present(out) ==> MainSpec(Some(Defaults(out, input)), disk, data, names, outcome, converted).exit == Returned(3)
    ensures Fresh(disk, out, input) ==>
              var run := MainSpec(Some(Defaults(out, input).(fov := -1)), disk, data, names, outcome, converted);
              run.exit == Returned(5) && run.madeOutput
  {
    ChecksInOrder(Some(Defaults(out, input)), disk, data, names, outcome, converted);
    ChecksInOrder(Some(Defaults(out, input).(fov := -1)), disk, data, names, outcome, converted);
  }

  /** Two series and no -s give 4; with -s 0 the first series is converted as FOV 0. */
  lemma MultipleSeriesScenarios(out: string, input: string, disk: FW.FileSystem, data: Dataset, names: EW.ManifestNaming,
                                outcome: nat -> bool, converted: FW.FileSystem)
    requires Fresh(disk, out, input) && data.plateCount == 0 && data.seriesCount == 2
    ensures MainSpec(Some(Defaults(out, input)), disk, data, names, outcome, converted).exit == Returned(4)
    ensures var opts := Defaults(out, input).(series := 0);
            var run := MainSpec(Some(opts), disk, data, names, outcome, converted);
            && run.commands == [Command(opts, 0)]
            && (outcome(0) ==> run.exit == Returned(0) && run.files[0] == FovFile(opts, data.SeriesReader(0), data.meta, 0, converted))
  {
    var opts := Defaults(out, input).(series := 0);
    SingleImageConvertsOnce(opts, data, names, outcome, converted);
  }

  /**
   * -f 001 on a single image: the converter is told to write FOV 1's tiles,
   * whose first is primary_image-fov_001_Z0_T0_C0.ome.tiff, and the FOV's
   * JSON goes to primary_image-fov_001.json.
   */
  lemma NonDefaultFovScenario(out: string, input: string, disk: FW.FileSystem, data: Dataset, names: EW.ManifestNaming,
                              outcome: nat -> bool, converted: FW.FileSystem)
    requires Fresh(disk, out, input) && data.plateCount == 0 && data.seriesCount == 1 && outcome(0)
    ensures var run := MainSpec(Some(Defaults(out, input).(fov := 1)), disk, data, names, outcome, converted);
            && run.exit == Returned(0)
            && |run.commands| == 1
            && run.commands[0][5] == Path(out, Standard.TiffPattern(1))
            && Instantiate(Standard.TiffPattern(1), 0, 0, 0) == "primary_image-fov_001_Z0_T0_C0.ome.tiff"
            && run.files[0].0 == Path(out, "primary_image-fov_001.json")
  {
    var opts := Defaults(out, input).(fov := 1);
    SingleImageConvertsOnce(opts, data, names, outcome, converted);
    TiffPatternInstantiates(Standard, 1, 0, 0, 0);
    FovOneIsPadded();
  }

  /** More than one plate gives 6; one plate with two wells gives 7. */
  lemma HcsRejectionScenarios(out: string, input: string, disk: FW.FileSystem, data: Dataset, names: EW.ManifestNaming,
                              outcome: nat -> bool, converted: FW.FileSystem)
    requires Fresh(disk, out, input)
    ensures data.plateCount == 2 ==> MainSpec(Some(Defaults(out, input)), disk, data, names, outcome, converted).exit == Returned(6)
    ensures data.plateCount == 1 && data.wellCount == 2 ==> MainSpec(Some(Defaults(out, input)), disk, data, names, outcome, converted).exit == Returned(7)
  {
    ConvertRejections(Defaults(out, input), data, names, outcome, converted);
  }

  /**
   * One plate, one well, two fields: both fields are converted as FOVs 0
   * and 1, their JSON is written, and then the manifest, experiment.json
   * and codebook.json.
   */
  lemma HcsAllFieldsOfOneWellScenario(out: string, input: string, disk: FW.FileSystem, data: Dataset, names: EW.ManifestNaming,
                                      outcome: nat -> bool, converted: FW.FileSystem)
    requires Fresh(disk, out, input) && data.plateCount == 1 && data.wellCount == 1 && data.seriesCount == 2
    requires outcome(0) && outcome(1)
    ensures var run := MainSpec(Some(Defaults(out, input)), disk, data, names, outcome, converted);
            && run.exit == Returned(0)
            && |run.files| == 5
            && run.files[0].0 == Path(out, Standard.JsonFilename(0))
            && run.files[1].0 == Path(out, "primary_image-fov_001.json")
            && run.files[2].0 == Path(out, names.manifestFilename)
            && run.files[3].0 == Path(out, "experiment.json")
            && run.files[4].0 == Path(out, "codebook.json")
  {
    var opts := Defaults(out, input);
    PlateConvertsEverySeries(opts, data, names, outcome, converted);
    FovOneIsPadded();
    var c := ConvertSpec(opts, data, names, outcome, converted);
    assert c.files[2..] == EW.Files(opts.naming, names, opts.out, Range(2));
    assert c.files[2] == c.files[2..][0];
    assert c.files[3] == c.files[2..][1];
    assert c.files[4] == c.files[2..][2];
  }
}
