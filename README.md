# spacetx-writer, modelled in Dafny

spacetx-writer converts a microscopy dataset into a SpaceTx fileset indexed
by field of view (FOV). Each FOV gets:

- one OME-TIFF per (z, t, c) plane;
- an OME-XML companion file;
- a JSON document describing its tiles.

The experiment as a whole gets a primary-image manifest, an experiment
descriptor and a placeholder codebook. Image decoding, TIFF writing, hashing
and JSON serialisation are done by libraries. This project models, and proves
properties of, the deterministic layer around them:

- the file-naming scheme;
- the FOV tile document;
- the experiment assembler;
- the command-line decision procedure;
- the error table.

One Dafny module follows each Java source file:

| file | module | models |
|---|---|---|
| `wrappers.dfy` | `Wrappers` | `Option` |
| `java_format.dfy` | `JavaFormat` | the part of `String.format` the sources use (`%%`, `%s`, `%d`, `%0Nd`), decimal printing and parsing, paths `"%s/%s"` |
| `naming.dfy` | `Naming` | `Naming.java`: the `standard` strategy's four names |
| `errors.dfy` | `Errors` | `Errors.java`: the eleven variants, their codes and templates, `raise` |
| `json.dfy` | `Json` | Jackson object and array nodes as values; `put`/`set` replace in place or append |
| `fov_writer.dfy` | `FovWriter` | `FOVWriter.java`: `getPosition` and `write` (the triple z/t/c loop) |
| `experiment_writer.dfy` | `ExperimentWriter` | `ExperimentWriter.java`: a class whose `fovs` sequence grows through `AddFov`; `write` loops over it |
| `fov_tool.dfy` | `FovTool` | `FOVTool.java`: `doMain`, `convert` (plate loop with early return, single-image branch) and `convertOne` |

Each name is tied to `JavaFormat.Format` applied to the source's own template.
The Format template is written split at its conversions and grouped from the
right, so `"%s" + ("_" + ("%03d" + ".json"))` stands for `"%s_%03d.json"`. The
error table's templates are written split at their conversions in the same
way.

Bio-Formats, the converter and the disk appear as inputs:

- `FovTool.Dataset`: the plate, well and series counts, and the sizes and plane indexing of each series; `Dataset.SeriesReader(s)` is the reader after `setSeries(s)`, whose current series is `s`;
- `outcome: nat -> bool`: the result of the k-th converter call;
- `FovWriter.FileSystem`: which paths exist and their SHA-256 digests;
- `FovWriter.Metadata`: plane positions, unit convertibility and the micrometre value;
- `FovWriter.Reader.planeIndex`: `FormatTools.getIndex`.

The two naming methods that `Naming.java` does not define, `getFOV` and
`getManifestFilename`, are the record `ExperimentWriter.ManifestNaming`. Their
formats are left open.

`FOVWriter.write` (`FovWriter.FovWriter.Write`) and `ExperimentWriter.write`
(`ExperimentWriter.ExperimentWriter.Write`) both return the documents they
build. They do not serialise them. `fov_tool.dfy` collects every file written
during a run, as a `(path, document)` pair, in writing order.

### Behaviour of the code worth knowing

- **Plate FOVs.** Plate FOVs are numbered by series index: series `i` is written as FOV `i`, and `-f` and `-s` are ignored. See `FovTool.PlateIgnoresFovAndSeries`.
- **Plate exit code.** The first conversion that fails ends the plate loop, and its code 1 is the exit code. See `FovTool.PlateStopsAtFirstFailure`.
- **Experiment files.** They are written once, at the end of `convert`, not after every FOV. The plate branch does not write them when a conversion fails. The single-image branch writes them even then, with an empty manifest. See `FovTool.SingleImageConvertsOnce`.
- **One input, one thread.** `doMain` takes a single input file and converts its FOVs one after another. No code path returns code 8, `singleScreening` in the table.
- **Output directory.** It is created before the FOV is checked, so a run rejected with code 5 still leaves the directory behind. See `FovTool.ChecksInOrder`.
- **Code 3 message.** The inline message is "output folder already exists! (%s)", while the table's is "output location already exists! (%s)". See `FovTool.InlineTemplatesFollowErrors`.
- **Out-of-range series.** Without a plate, an `-s` past the last series makes `reader.setSeries` throw. This exception is not a `UsageException`, so it is not a return code; the model's exit `SeriesOutOfRange` stands for it.

## Model

| member | source | states |
|---|---|---|
| JavaFormat.PadIntRoundTrip | src/main/java/spacetx/Naming.java:21 | what `%0Nd` prints is a decimal numeral that parses back to the number, negatives included |
| JavaFormat.IntToStringRoundTrip | src/main/java/spacetx/Naming.java:21 | what `%d` prints parses back to the number |
| JavaFormat.Pad3Width | src/main/java/spacetx/Naming.java:21 | for 0..999, `%03d` prints exactly three digits whose value is the number |
| JavaFormat.FormatRendered | src/main/java/spacetx/Naming.java:16-30 | formatting a template built from text pieces and conversions fills the conversions left to right, and fails on a missing or non-int argument |
| JavaFormat.PathIsFormatted | src/main/java/spacetx/FOVTool.java:212-213 | the path is what `String.format("%s/%s", dir, name)` prints |
| JavaFormat.PathInjective | src/main/java/spacetx/FOVTool.java:212 | within one directory, different names give different paths |
| JavaFormat.FixedNameInDirectory | src/main/java/spacetx/ExperimentWriter.java:62 | `String.format("%s/" + name, dir)` is the path of name in dir |
| Naming.TiffPatternIsFormatted | src/main/java/spacetx/Naming.java:16-18 | the tile pattern is `String.format("%s_%03d_Z%%z_T%%t_C%%c.ome.tiff", root, fov)`: each `%%` yields one `%` |
| Naming.TiffFilenameIsFormatted | src/main/java/spacetx/Naming.java:20-22 | the tile name is `String.format("%s_%03d_Z%d_T%d_C%d.ome.tiff", root, fov, z, t, c)` |
| Naming.JsonFilenameIsFormatted | src/main/java/spacetx/Naming.java:24-26 | the JSON name is `String.format("%s_%03d.json", root, fov)` |
| Naming.CompanionFilenameIsFormatted | src/main/java/spacetx/Naming.java:28-30 | the companion name is `String.format("%s_%03d.companion.ome", root, fov)` |
| Naming.TiffFilenameRoundTrip | src/main/java/spacetx/Naming.java:20-22 | parsing a tile name gives back exactly its (fov, z, t, c) |
| Naming.TiffFilenameInjective | src/main/java/spacetx/Naming.java:20-22 | distinct (fov, z, t, c) give distinct tile names, negative values included |
| Naming.TiffPatternInstantiates | src/main/java/spacetx/Naming.java:16-22 | replacing `%z`, `%t`, `%c` in the FOV's pattern with decimal z, t, c gives exactly that tile's name |
| Naming.FovFieldIsThreeDigits | src/main/java/spacetx/Naming.java:21 | for 0 <= fov <= 999 the FOV field is three digits, leading zeros included, whose value is fov |
| Naming.FovOneIsPadded | src/test/java/spacetx/tests/ToolTest.java:127-132 | FOV 1 is written `001`; its JSON name is `primary_image-fov_001.json` and its first tile `primary_image-fov_001_Z0_T0_C0.ome.tiff` |
| Naming.FovZeroIsPadded | src/main/java/spacetx/Naming.java:24-26 | FOV 0 is written `000`; its JSON name is `primary_image-fov_000.json` |
| Naming.LastTileOfFiveDimensionalImage | src/test/java/spacetx/tests/ToolTest.java:113-119 | FOV 0, z 4, t 3, c 2 is named `primary_image-fov_000_Z4_T3_C2.ome.tiff` |
| Naming.FovFilesSharePrefix | src/main/java/spacetx/Naming.java:20-30 | the JSON, companion and tile names of an FOV start with `root_pad3(fov)` and differ only after it |
| Naming.FovPrefixRoundTrip | src/main/java/spacetx/Naming.java:24-26 | the FOV can be read back from the prefix |
| Naming.JsonFilenameInjective | src/main/java/spacetx/Naming.java:24-26 | distinct FOVs get distinct JSON names |
| Naming.CompanionFilenameInjective | src/main/java/spacetx/Naming.java:28-30 | distinct FOVs get distinct companion names |
| Naming.FileKindsAreDistinct | src/main/java/spacetx/Naming.java:20-30 | a tile, a JSON and a companion name never coincide, whatever the FOVs |
| Errors.Error.Raise | src/main/java/spacetx/Errors.java:35-37 | the code of the UsageException raise throws is between 1 and 11 and names the raising variant back (`FromRc`), so a caller can tell which error it caught; the message is the variant's template formatted with the arguments |
| Errors.FromRc | src/main/java/spacetx/Errors.java:14-24 | exactly the codes 1..11 belong to a variant, and the variant found has that code |
| Errors.RcIdentifiesVariant | src/main/java/spacetx/Errors.java:14-24 | a variant's code leads back to the variant |
| Errors.ValuesAreNumbered | src/main/java/spacetx/Errors.java:14-24 | eleven variants, each listed once, the i-th with code i + 1 |
| Errors.RcInjective | src/main/java/spacetx/Errors.java:14-24 | distinct variants have distinct codes |
| Errors.UsageIsDefaultFailure | src/main/java/spacetx/Errors.java:15 | usage has code 2 and always throws "DEFAULT FAILURE CODE" |
| Errors.RaiseDoesNotExist | src/main/java/spacetx/Errors.java:14 | doesNotExist's message for any argument list, and the formatter's exception without arguments |
| Errors.RaiseUsage | src/main/java/spacetx/Errors.java:15 | usage's message ignores the arguments |
| Errors.RaiseOutputExists | src/main/java/spacetx/Errors.java:16 | outputExists's message for any argument list |
| Errors.RaiseMultipleImages | src/main/java/spacetx/Errors.java:17 | multipleImages needs a value and an int; its message for them |
| Errors.RaiseFovIsPositive | src/main/java/spacetx/Errors.java:18 | fovIsPositive needs an int; its message for it |
| Errors.RaiseTooManyPlates | src/main/java/spacetx/Errors.java:19 | tooManyPlates needs an int; its message for it |
| Errors.RaiseTooManyWells | src/main/java/spacetx/Errors.java:20 | tooManyWells needs an int; its message for it |
| Errors.RaiseSingleScreening | src/main/java/spacetx/Errors.java:21 | singleScreening's fixed message |
| Errors.RaisePatternFiles | src/main/java/spacetx/Errors.java:22 | patternFiles's fixed message |
| Errors.RaiseNeedAction | src/main/java/spacetx/Errors.java:23 | needAction's fixed message |
| Errors.RaiseUnknownFormat | src/main/java/spacetx/Errors.java:24 | unknownFormat's message for any argument list |
| Errors.RaiseThrowsUsageException | src/main/java/spacetx/Errors.java:35-37 | for every variant, raise throws a UsageException with the variant's code exactly when the arguments conform to the template's conversions; it never returns normally |
| Json.Put | src/main/java/spacetx/ExperimentWriter.java:45-46 | after a put the key holds the value; the key list is unchanged if the key was there, else extended by the key |
| Json.GetFindsKeys | src/main/java/spacetx/ExperimentWriter.java:45-46 | a key is found exactly when it is one of the node's keys |
| Json.PutOther | src/main/java/spacetx/ExperimentWriter.java:45-46 | a put leaves every other key's value alone |
| Json.PutSameValue | src/main/java/spacetx/ExperimentWriter.java:45-46 | putting a key's current value changes nothing |
| Json.PutNewKey | src/main/java/spacetx/FOVWriter.java:104 | putting a new key appends a field at the end |
| FovWriter.FovWriter.DocumentPathIsFormatted | src/main/java/spacetx/FOVWriter.java:129 | the document goes to `String.format("%s/%s", out, jsonName(fov))` |
| FovWriter.FovWriter.CoordinatesNode | src/main/java/spacetx/FOVWriter.java:91-105 | the coordinate loop builds the xc, yc, zc object that `Coordinates` defines |
| FovWriter.FovWriter.TileNode | src/main/java/spacetx/FOVWriter.java:90-122 | the loop body builds the tile descriptor that `Tile` defines |
| FovWriter.FovWriter.Write | src/main/java/spacetx/FOVWriter.java:53-131 | write builds exactly the document `Document` defines and names its path |
| FovWriter.FovWriter.TileNodes | src/main/java/spacetx/FOVWriter.java:86-126 | the triple loop appends exactly the tiles `Tiles` lists, in z, t, c order with c fastest |
| FovWriter.FovWriter.TileCount | src/main/java/spacetx/FOVWriter.java:86-127 | the tiles array has sizeZ * sizeT * sizeC entries, none when a size is not positive |
| FovWriter.FovWriter.TilePosition | src/main/java/spacetx/FOVWriter.java:87-123 | tile (z, t, c) is at index (z * sizeT + t) * sizeC + c |
| FovWriter.FovWriter.TileOrder | src/main/java/spacetx/FOVWriter.java:87-89 | tile k is the one of z = k / (sizeT * sizeC), t = (k / sizeC) % sizeT, c = k % sizeC, all in range |
| FovWriter.FovWriter.TileDescribesItsPlane | src/main/java/spacetx/FOVWriter.java:106-122 | a tile's file is its plane's tile name, its indices are {c, r = t, z}, its sha256 is the file's hash or "does-not-exist", its format TIFF and its shape [sizeX, sizeY] |
| FovWriter.FovWriter.TileFile | src/main/java/spacetx/FOVWriter.java:107-108 | a tile's file field is its plane's tile name |
| FovWriter.FovWriter.TileFilesDistinct | src/main/java/spacetx/FOVWriter.java:107-108 | no two tiles of a document name the same file |
| FovWriter.FovWriter.CoordinatesArePairs | src/main/java/spacetx/FOVWriter.java:92-104 | each of xc, yc, zc is [v, v] with v the plane's position in micrometres, or [0.0000, 0.0000] when the metadata has no position or its unit does not convert to micrometres (where `getPosition`, lines 137-164, returns null) |
| FovWriter.FovWriter.PositionOfFieldScenario | src/test/java/spacetx/tests/ToolTest.java:157-172 | a plane at X = 444 µm gives the first tile xc = [444.0, 444.0] |
| FovWriter.FovWriter.DocumentFields | src/main/java/spacetx/FOVWriter.java:58-128 | the document's default_tile_format, dimensions, extras, shape {c, r = t, z}, tiles and version 1.0.0; it has no default_tile_shape |
| FovWriter.FovWriter.ExtrasNameCompanion | src/main/java/spacetx/FOVWriter.java:76-78 | extras.OME is the FOV's companion name |
| ExperimentWriter.ExperimentWriter.constructor | src/main/java/spacetx/ExperimentWriter.java:26-31 | a new writer has no FOVs |
| ExperimentWriter.ExperimentWriter.AddFov | src/main/java/spacetx/ExperimentWriter.java:33-35 | addFOV appends the FOV to the list; nothing else changes |
| ExperimentWriter.ExperimentWriter.Write | src/main/java/spacetx/ExperimentWriter.java:37-76 | write loops over the FOVs into the manifest contents and returns the three documents, leaving the writer unchanged, so a second call gives the same documents |
| ExperimentWriter.ContentsKeysDistinct | src/main/java/spacetx/ExperimentWriter.java:43-47 | the manifest contents never list a key twice |
| ExperimentWriter.ContentsHasEveryKey | src/main/java/spacetx/ExperimentWriter.java:44-47 | every added FOV's key is in the contents |
| ExperimentWriter.ContentsHasOnlyFovKeys | src/main/java/spacetx/ExperimentWriter.java:44-47 | every key in the contents is the key of an added FOV |
| ExperimentWriter.ContentsLastWins | src/main/java/spacetx/ExperimentWriter.java:44-47 | a key holds the value of the last FOV added under it (in the manifest, that FOV's JSON name, `JsonName`) |
| ExperimentWriter.ContentsMapsEachFov | src/main/java/spacetx/ExperimentWriter.java:44-47 | with one-to-one keys, each added FOV maps to its own value (its JSON name in the manifest) |
| ExperimentWriter.ReaddingLeavesContents | src/main/java/spacetx/ExperimentWriter.java:44-47 | with one-to-one keys, adding a listed FOV again leaves the contents unchanged |
| ExperimentWriter.ManifestFields | src/main/java/spacetx/ExperimentWriter.java:48-50 | the manifest holds the contents, extras null and version 0.0.0 |
| ExperimentWriter.ExperimentFields | src/main/java/spacetx/ExperimentWriter.java:54-60 | version 5.0.0, extras {}, images.primary the manifest name, codebook "codebook.json", whatever the FOVs |
| ExperimentWriter.FilesGoToOut | src/main/java/spacetx/ExperimentWriter.java:51-75 | the manifest, experiment.json and codebook.json go to out, in that order; the last two do not depend on the FOVs |
| ExperimentWriter.FilePathsAreFormatted | src/main/java/spacetx/ExperimentWriter.java:51-75 | the manifest path is what `"%s/%s"` prints for out and the manifest name; the experiment and codebook paths are what `"%s/experiment.json"` and `"%s/codebook.json"` print |
| FovTool.DefaultOptionsScenario | src/main/java/spacetx/FOVTool.java:43-87 | with only -o and the input (`Defaults`: -f 0, -n standard, -s -1), a single image whose conversion succeeds exits 0, converts FOV 0, writes primary_image-fov_000.json and then the experiment files listing FOV 0 |
| FovTool.DoMain | src/main/java/spacetx/FOVTool.java:93-127 | doMain's result is the run `MainSpec` defines: `Check`'s checks, then `ConvertSpec` |
| FovTool.ChecksInOrder | src/main/java/spacetx/FOVTool.java:97-125 | unparsable arguments 2, then missing input 1, then existing output 3, then negative FOV 5; the output is created exactly when the input exists and the output does not; a rejected run writes nothing |
| FovTool.ExitCodesAreErrorCodes | src/main/java/spacetx/FOVTool.java:93-208 | every code returned is 0 or a code of the error table between 1 and 7 |
| FovTool.ZeroExitPassedChecks | src/main/java/spacetx/FOVTool.java:97-115 | a zero exit means every check passed and convert returned 0 |
| FovTool.Successes | src/main/java/spacetx/FOVTool.java:183-189 | the number of leading successful conversions: all before it succeed, the one at it fails |
| FovTool.FirstFailure | src/main/java/spacetx/FOVTool.java:186-188 | once a conversion fails, no longer run counts more successes |
| FovTool.ConvertOne | src/main/java/spacetx/FOVTool.java:210-230 | the command names the companion and the tile pattern inside out; on failure it returns 1 and registers nothing; on success it writes the FOV's JSON, registers the FOV once and returns 0 |
| FovTool.Convert | src/main/java/spacetx/FOVTool.java:139-208 | convert's branches and loop produce exactly the exit, commands and files `ConvertSpec` defines |
| FovTool.ConvertPlate | src/main/java/spacetx/FOVTool.java:183-191 | the plate loop converts series 0, 1, … as FOVs 0, 1, …, returns at the first failure, and otherwise writes the experiment with FOVs 0..n-1 |
| FovTool.ConvertSingle | src/main/java/spacetx/FOVTool.java:204-206 | one conversion, then the experiment is written, and the conversion's code is returned |
| FovTool.ConvertRejections | src/main/java/spacetx/FOVTool.java:168-201 | more than one plate 6, before the wells are looked at; one plate without exactly one well 7; several series and no -s 4; a series past the last throws; none of these converts or writes |
| FovTool.PlateConvertsEverySeries | src/main/java/spacetx/FOVTool.java:183-191 | when all succeed: code 0, series i converted and written as FOV i in order, then the experiment listing FOVs 0..n-1 |
| FovTool.PlateStopsAtFirstFailure | src/main/java/spacetx/FOVTool.java:183-189 | the first failing series j returns 1; series after j are not converted, only FOVs before j are written, and no experiment |
| FovTool.PlateIgnoresFovAndSeries | src/main/java/spacetx/FOVTool.java:183-191 | with a plate, the run does not depend on -f or -s |
| FovTool.SingleImageConvertsOnce | src/main/java/spacetx/FOVTool.java:192-207 | one conversion as the -f FOV of the chosen series; 0 exactly when it succeeds; the experiment is written either way, listing the FOV only on success |
| FovTool.ZeroExitMeansConverted | src/main/java/spacetx/FOVTool.java:139-208 | a zero exit means every conversion run succeeded and the experiment was written last, listing one FOV per conversion |
| FovTool.CommandsDiffer | src/main/java/spacetx/FOVTool.java:212-219 | different FOVs get different converter commands |
| FovTool.PlateFilesDistinct | src/main/java/spacetx/FOVTool.java:183-185 | the series of a plate write their JSON to different paths |
| FovTool.ReturnedCodesHaveTemplates | src/main/java/spacetx/FOVTool.java:97-222 | every non-zero code doMain returns other than 2 has an inline message template (`InlineTemplate`); every rejection of `Check` but the unparsable arguments' 2, and every rejection of `Resolve`, has one; 0 and 2 have none |
| FovTool.InlineTemplatesFollowErrors | src/main/java/spacetx/FOVTool.java:99-199 | the inline codes belong to the error table and the templates match it, except code 3's ("output folder" against "output location") |
| FovTool.BadArgumentScenarios | src/test/java/spacetx/tests/ToolTest.java:87-125 | the missing-input, existing-output and negative-FOV tests give 1, 3 and 5 |
| FovTool.MultipleSeriesScenarios | src/test/java/spacetx/tests/ToolTest.java:101-111 | two series without -s give 4; with -s 0 series 0 is converted as FOV 0 and its JSON written |
| FovTool.NonDefaultFovScenario | src/test/java/spacetx/tests/ToolTest.java:127-132 | `-f 001` converts FOV 1, whose first tile is primary_image-fov_001_Z0_T0_C0.ome.tiff, and writes primary_image-fov_001.json |
| FovTool.HcsRejectionScenarios | src/test/java/spacetx/tests/ToolTest.java:134-144 | two plates give 6; one plate with two wells gives 7 |
| FovTool.HcsAllFieldsOfOneWellScenario | src/test/java/spacetx/tests/ToolTest.java:146-155 | one well with two fields writes FOV 0's and FOV 1's JSON, then the manifest, experiment.json and codebook.json |

## Left out

- Bio-Formats reading, metadata population and the OME-XML service (`FOVTool.convert`, the lines before the counts; all of `FOVParser.java`): foreign library calls. The counts, the reader at each series and the metadata are inputs.
- The image converter, its reflective construction and the instrumented `OMETiffWriter` subclass: foreign calls, wall-clock timing and console output. Each conversion is modelled by its success only. Its effect on the disk is the separate input `converted` that the FOV writer hashes from.
- SHA-256 hashing and file existence: an uninterpreted function and a predicate.
- `FormatTools.getIndex`, the micrometre conversion and the `double` it yields: uninterpreted functions. Positions are reals, with no floating-point rounding; the `0.0000` placeholder is a scale-4 decimal zero.
- Jackson serialisation, the pretty printer (`createPrinter`) and the file writes: documents are Dafny values, and the bytes on disk are not modelled. Unlike Jackson, the model does not share nodes: a tile's `tile_shape` is a copy of the same `[sizeX, sizeY]` array, and `images` is stored with its final contents.
- `getFOV`, `getManifestFilename` and `createPrinter` are not part of this model. `Naming.java` does not define them, so the first two are parameters whose formats are left open.
- args4j parsing mechanics, the usage text on stderr, logging setup, the "Conversion failed!" line and `System.exit`. Parsing is reduced to its result: the options, or a failure.
- I/O exceptions (`IOException`, `FormatException`) from the libraries: the model assumes those calls succeed.
- The `RuntimeException` branch of `getPosition`: it is unreachable here, since the axis is a closed type with the three keys the loop uses.
- The `-c` codebook option: the code never reads it beyond its default. The experiment always names "codebook.json".
- Concurrency and runs over several inputs: the code has neither.
- `String.format` and `%d` print with the default Locale; the model assumes that Locale uses ASCII digits and the ASCII minus sign.
- FovTool.ExitCodesAreErrorCodes: states the codes of the model's `Returned` exits only; the throwing `setSeries` is the separate exit `SeriesOutOfRange`.
