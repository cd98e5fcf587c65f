# SPMFWrapper in Dafny

A model of `weka.associations.SPMFWrapper`, the Weka associator that runs one
algorithm of the SPMF pattern-mining library. The wrapper keeps three pieces
of state:

- the index of the chosen algorithm in the 39-entry catalog `TAGS_SELECTION`;
- a space-separated parameter string;
- the text of the last result.

The model covers the following:

- **Options.** Reading and writing the Weka options `-M` (the algorithm, by
  catalog name or by index) and `-P` (the parameters).
- **The SPMF command line.** How a build turns the parameter string into
  SPMF's command line. Each token that names an existing file is replaced by
  the bare name of a copy placed beside the input file.
- **The result text.** The text a build keeps and `toString` returns.

Files and modules:

| file | module | contents |
|---|---|---|
| `results.dfy` | `Results` | `Option`, `Result` and `Outcome` (an operation that may throw) |
| `java_lang.dfy` | `JavaLang` | `Integer.parseInt`, `String.split(" ")`, `File.getName` and the directory part of a path, and `BufferedReader.readLine` |
| `weka_utils.dfy` | `WekaUtils` | `Utils.getOption` and the capability test |
| `catalog.dfy` | `Catalog` | `Tag`, `TAGS_SELECTION`, Weka's `SelectedTag` |
| `spmf_wrapper.dfy` | `SpmfWrapper` | the `SPMFWrapper` class, its specification functions and the lemmas about them |

The class `SPMFWrapper` has the fields `algorithm`, `params` and `spmfOutput`
and a ghost field `lastRun`, which records the build whose text `spmfOutput`
holds. Its invariant `Valid()` says two things:

- `0 <= algorithm < 39`;
- `spmfOutput` is the result text of `lastRun`, or "" when no build has
  completed.

The methods are proved against specification functions:

- `SetOptions` changes the settings as `ApplyOptions` of the old settings;
- `BuildAssociations` changes the result as `Invocation` and `ResultText` say;
- `GetOptions`, which changes nothing, returns `OptionsOf` the settings.

The lemmas then prove what the source promises about those functions.

Where the source throws, the model returns `Fail`:

- `Utils.getOption` throws on a flag with no value.
- The `SelectedTag` constructor throws on an id no tag has.
- `testWithFail` throws on unsupported attributes.
- Reading a missing output file throws.

The model keeps whatever state the Java code would have changed before each
throw. A `-P` flag with no value therefore leaves the new algorithm in place
and the old parameters (`ParamsValueMissing`).

On a numeric `-M` value outside the catalog, `new SelectedTag(n,
TAGS_SELECTION)` throws `IllegalArgumentException`. That is not the
`NumberFormatException` that `setOptions` catches, so it escapes before the
parameters are set. The model follows the code: `NoSuchTag(n)` is returned
and nothing changes.

The file system, the UUID generator and SPMF are given to the model as an
`Environment` value:

- `tmpDir` is the temporary directory;
- `uuid(0)` names the input file and `uuid(i + 1)` names the copy of
  parameter token i; the oracle is indexed by token, not by draw;
- `isFile` is `File.isFile`;
- `spmf` maps a command line to the lines SPMF writes to the output file, or
  to `None` when there is no output file to read.

## Model

| member | source | states |
|---|---|---|
| JavaLang.ParseInt | src/main/java/weka/associations/SPMFWrapper.java:286 | `Integer.parseInt` as a definition; characterised by `ParseIntShape`, `LetterLedIsNotInt` and `ParseDecimal` |
| JavaLang.ParseIntShape | src/main/java/weka/associations/SPMFWrapper.java:286 | `Integer.parseInt` accepts only a sign or a digit first, and only values in the 32-bit range |
| JavaLang.LetterLedIsNotInt | src/main/java/weka/associations/SPMFWrapper.java:286 | a string that starts with a letter makes `parseInt` throw |
| JavaLang.ParseDecimal | src/main/java/weka/associations/SPMFWrapper.java:286 | `parseInt` reads back the decimal form of every non-negative int |
| JavaLang.Split | src/main/java/weka/associations/SPMFWrapper.java:183 | `split(" ")` as a definition; characterised by `SplitJoin`, `SplitHasNoSpaces` and `SplitEmptyIffAllSpaces` |
| JavaLang.SplitJoin | src/main/java/weka/associations/SPMFWrapper.java:183 | joining the pieces of `split(" ")` with single spaces gives back the string without its trailing spaces |
| JavaLang.SplitHasNoSpaces | src/main/java/weka/associations/SPMFWrapper.java:183 | no piece of `split(" ")` contains a space |
| JavaLang.SplitEmptyIffAllSpaces | src/main/java/weka/associations/SPMFWrapper.java:183 | `split(" ")` yields no token exactly when the string is one or more spaces |
| JavaLang.BaseName | src/main/java/weka/associations/SPMFWrapper.java:194 | `File.getName()`: the result contains no '/'; with `DirPrefixThenBaseName` and `AppendName` it is the part of the path after the last '/' |
| JavaLang.AppendName | src/main/java/weka/associations/SPMFWrapper.java:194 | appending a name with no separator keeps the directory and extends `getName()` |
| JavaLang.DirPrefixThenBaseName | src/main/java/weka/associations/SPMFWrapper.java:194 | a path is its directory part followed by `getName()` |
| WekaUtils.Handles | src/main/java/weka/associations/SPMFWrapper.java:129-152 | the capability test as a definition: every attribute, class included, is nominal; `SpmfWrapper.SPMFWrapper.BuildAssociations` fails with a capability violation exactly when it does not hold |
| WekaUtils.GetOption | src/main/java/weka/associations/SPMFWrapper.java:279 | `Utils.getOption` fails exactly when the flag's first occurrence is the last entry; otherwise the list keeps its length |
| WekaUtils.GetOptionAbsent | src/main/java/weka/associations/SPMFWrapper.java:312 | an absent flag yields "" and consumes nothing |
| WekaUtils.GetOptionFirst | src/main/java/weka/associations/SPMFWrapper.java:279 | the value after the first occurrence of the flag is returned, and both entries are blanked |
| Catalog.TagsSelection | src/main/java/weka/associations/SPMFWrapper.java:55-95 | the catalog as a constant; characterised by `CatalogIds`, `NamesDistinct` and `NamesNotNumeric` |
| Catalog.CatalogIds | src/main/java/weka/associations/SPMFWrapper.java:55-95 | the catalog has 39 entries, and the entry at position i has id i |
| Catalog.NamesDistinct | src/main/java/weka/associations/SPMFWrapper.java:55-95 | no two catalog entries share a name |
| Catalog.NamesNotNumeric | src/main/java/weka/associations/SPMFWrapper.java:55-95 | no catalog name parses as an integer |
| Catalog.FindName | src/main/java/weka/associations/SPMFWrapper.java:299-305 | the search returns the first position whose name matches, or none when no name matches |
| Catalog.NameFoundAt | src/main/java/weka/associations/SPMFWrapper.java:299-305 | the search for the name of entry i stops at i |
| Catalog.NewSelectedTag | src/main/java/weka/associations/SPMFWrapper.java:287 | `new SelectedTag(id, tags)` selects a tag with that id, and fails only when no tag has it |
| Catalog.SelectCatalogEntry | src/main/java/weka/associations/SPMFWrapper.java:287 | a catalog tag can be selected by id exactly when 0 <= id < 39, and it is then the entry at that position |
| Catalog.CatalogTag | src/main/java/weka/associations/SPMFWrapper.java:98 | `new SelectedTag(i, TAGS_SELECTION)` is valid and selects `TAGS_SELECTION[i]` |
| SpmfWrapper.SelectAlgorithm | src/main/java/weka/associations/SPMFWrapper.java:101-105 | a tag of `TAGS_SELECTION` sets the index to its position; a tag of another array leaves the index unchanged; the result always lies in the catalog |
| SpmfWrapper.AlgorithmTag | src/main/java/weka/associations/SPMFWrapper.java:279-310 | every tag the `-M` value resolves to is a valid tag of `TAGS_SELECTION` |
| SpmfWrapper.ApplyOptions | src/main/java/weka/associations/SPMFWrapper.java:277-316 | `setOptions` keeps the index within the catalog, and a rejected index leaves the settings unchanged |
| SpmfWrapper.NameSelectsEntry | src/main/java/weka/associations/SPMFWrapper.java:295-305 | every catalog name given as `-M` selects its own entry |
| SpmfWrapper.SelectedEntryComesFromValue | src/main/java/weka/associations/SPMFWrapper.java:286-309 | an entry other than 0 is selected only by its name or by its index |
| SpmfWrapper.OptionsOf | src/main/java/weka/associations/SPMFWrapper.java:318-327 | `getOptions` as a definition; `OptionsRoundTrip` proves that `setOptions` reads it back |
| SpmfWrapper.OptionsRoundTrip | src/main/java/weka/associations/SPMFWrapper.java:277-327 | feeding the `getOptions` list to `setOptions` restores the settings from any prior state, and does not throw |
| SpmfWrapper.SetByNumber | src/main/java/weka/associations/SPMFWrapper.java:286-287 | every `-M` value `Integer.parseInt` reads as a catalog index ("7", "+7", "007") selects that entry, and `-P` sets the parameters |
| SpmfWrapper.SetByIndex | src/main/java/weka/associations/SPMFWrapper.java:286-287 | in particular, `-M` with a catalog index written in decimal selects that entry |
| SpmfWrapper.OutOfRangeIndexRejected | src/main/java/weka/associations/SPMFWrapper.java:286-287 | a numeric `-M` value outside 0..38 throws and leaves the settings unchanged |
| SpmfWrapper.UnknownNameSelectsFirst | src/main/java/weka/associations/SPMFWrapper.java:295-309 | an empty or unknown name selects entry 0 without an error, and `-P` still sets the parameters |
| SpmfWrapper.ParamsFlagAbsent | src/main/java/weka/associations/SPMFWrapper.java:279-314 | when `-P` is absent and `setOptions` does not throw, the parameters become "" whatever `-M` selects |
| SpmfWrapper.ParamsValueMissing | src/main/java/weka/associations/SPMFWrapper.java:279-314 | for `-M m -P` with a resolving m, the algorithm m selects is set, the parameters are unchanged, and `getOption` throws for `-P` |
| SpmfWrapper.TnrWithoutParamsValue | src/main/java/weka/associations/SPMFWrapper.java:279-314 | `-M TNR -P` selects entry 38, keeps the parameters and throws for `-P` |
| SpmfWrapper.NoFlagsSelectDefaults | src/main/java/weka/associations/SPMFWrapper.java:279-314 | with neither flag, the settings become entry 0 and "" |
| SpmfWrapper.RewriteParams | src/main/java/weka/associations/SPMFWrapper.java:183-196 | the token rewrite as a definition; characterised by `InvocationLayout`, `CopiedParamResolvesBesideInput` and `PlainParamsPassThrough` |
| SpmfWrapper.Invocation | src/main/java/weka/associations/SPMFWrapper.java:198-206 | the `cmdString` as a definition; characterised by `InvocationLayout` and `OutputBesideInput` |
| SpmfWrapper.InvocationLayout | src/main/java/weka/associations/SPMFWrapper.java:198-206 | the command is "run", the name, the input, the input plus ".out", then one entry per token in order; a file token is replaced by its copy's name, any other token is passed unchanged |
| SpmfWrapper.CopyNameResolves | src/main/java/weka/associations/SPMFWrapper.java:187-194 | a copy lies in the input file's directory, and its bare name resolved there is the copy |
| SpmfWrapper.CopiedParamResolvesBesideInput | src/main/java/weka/associations/SPMFWrapper.java:183-196 | a file token in the command is a bare name; resolved in the input's directory, it is that token's copy |
| SpmfWrapper.OutputBesideInput | src/main/java/weka/associations/SPMFWrapper.java:202 | the output file lies in the input's directory and is named after it plus ".out" |
| SpmfWrapper.PlainParamsPassThrough | src/main/java/weka/associations/SPMFWrapper.java:183-206 | when no token names a file, the command's tokens joined by spaces are the parameter string without its trailing spaces |
| SpmfWrapper.ResultText | src/main/java/weka/associations/SPMFWrapper.java:212-226 | the result text is never empty |
| SpmfWrapper.LinesAppend | src/main/java/weka/associations/SPMFWrapper.java:219-222 | appending one more line adds that line and "\n" at the end |
| SpmfWrapper.LinesConcat | src/main/java/weka/associations/SPMFWrapper.java:212-222 | the text of two groups of lines is the first group's text followed by the second's |
| SpmfWrapper.ResultTextLayout | src/main/java/weka/associations/SPMFWrapper.java:212-226 | the text is "Algorithm: name\n", "Parameters: params\n" and "\n", then each output line followed by "\n" |
| JavaLang.ReadLines | src/main/java/weka/associations/SPMFWrapper.java:217-222 | `BufferedReader.readLine` in a loop, as a definition; `LinesReadBack` and `ResultTextReadsBack` show it splits written lines back apart |
| SpmfWrapper.LinesReadBack | src/main/java/weka/associations/SPMFWrapper.java:217-222 | reading text written line by line gives back the lines, when no line contains a line break |
| SpmfWrapper.ResultTextReadsBack | src/main/java/weka/associations/SPMFWrapper.java:212-226 | reading the result text line by line gives the three header lines, then SPMF's lines |
| SpmfWrapper.RewriteFileParams | src/main/java/weka/associations/SPMFWrapper.java:183-196 | the in-place loop leaves exactly the rewritten tokens in the array |
| SpmfWrapper.BuildCommand | src/main/java/weka/associations/SPMFWrapper.java:198-206 | `cmdString` has 4 + n entries: "run", the name, the input, the input plus ".out", then the tokens |
| SpmfWrapper.FormatResult | src/main/java/weka/associations/SPMFWrapper.java:212-226 | the `StringBuilder` loop produces exactly the result text |
| SpmfWrapper.SPMFWrapper.constructor | src/main/java/weka/associations/SPMFWrapper.java:41-53 | a new wrapper has entry 0 and "0.4", has no result, and `toString` returns "" |
| SpmfWrapper.SPMFWrapper.ResetOptions | src/main/java/weka/associations/SPMFWrapper.java:50-53 | resets the settings to entry 0 and "0.4", and leaves the result alone |
| SpmfWrapper.SPMFWrapper.GetAlgorithm | src/main/java/weka/associations/SPMFWrapper.java:97-99 | returns a valid tag of `TAGS_SELECTION` that selects the current entry |
| SpmfWrapper.SPMFWrapper.SetAlgorithm | src/main/java/weka/associations/SPMFWrapper.java:101-105 | the index changes only for a tag of `TAGS_SELECTION`, and stays within the catalog |
| SpmfWrapper.SPMFWrapper.GetParams | src/main/java/weka/associations/SPMFWrapper.java:111-113 | returns the stored parameters; `SetParams` ensures that `GetParams()` is then the string given |
| SpmfWrapper.SPMFWrapper.SetParams | src/main/java/weka/associations/SPMFWrapper.java:115-117 | the parameters become the given string |
| SpmfWrapper.FindAlgorithm | src/main/java/weka/associations/SPMFWrapper.java:298-305 | the search loop, with its flag and `break`, finds the first entry with the given name, or none |
| SpmfWrapper.SPMFWrapper.SetAlgorithmFromValue | src/main/java/weka/associations/SPMFWrapper.java:279-310 | the `-M` value selects as `AlgorithmTag` says, or is rejected with nothing changed |
| SpmfWrapper.SPMFWrapper.SetOptions | src/main/java/weka/associations/SPMFWrapper.java:277-316 | the new settings and the outcome are `ApplyOptions` of the old settings |
| SpmfWrapper.SPMFWrapper.GetOptions | src/main/java/weka/associations/SPMFWrapper.java:318-327 | returns exactly four entries: "-M", the current entry's name, "-P", the parameters |
| SpmfWrapper.SPMFWrapper.BuildAssociations | src/main/java/weka/associations/SPMFWrapper.java:149-231 | unsupported data, or no output, throws and leaves the result unchanged; otherwise the result becomes the text for the selected name, the unrewritten parameters and SPMF's lines for `Invocation` |
| SpmfWrapper.SPMFWrapper.ToString | src/main/java/weka/associations/SPMFWrapper.java:233-236 | returns "" exactly when no build has completed, and otherwise the last build's result text |
| SpmfWrapper.SetReadBackAndReapply | src/test/java/weka/associations/SPMFWrapperTest.java:96-103 | the test sets an algorithm by name and reads the options back; the model then feeds those options in again, and the settings are that algorithm and those parameters, with the options naming it |

## Left out

- `ArffSaver` and `Files.copy` are not modelled; the model assumes writing the data set and copying a parameter file always succeed. Their I/O failures are not modelled either.
- `deleteOnExit`, `FileReader.close`, and the `System.out` printing in `buildAssociations` are left out.
- `Main.processCommandLineArguments` (SPMF) is not part of this model. Its effect is the `spmf` oracle, which maps a command line to the output file's lines.
- `UUID.randomUUID()` is modelled as an oracle indexed by token, not by draw. The source draws a UUID only for tokens that name a file, so with tokens ["0.5", "MIS.txt"] the copy gets the second draw while the model uses `uuid(2)`. No property depends on this, because the oracle is unconstrained. The UUIDs are not claimed to be fresh or distinct.
- `System.getProperty("java.io.tmpdir")` is the `tmpDir` field of the environment.
- JavaLang.BaseName: paths use '/' as the only separator. `File`'s normalisation (a trailing separator, Windows separators) is not modelled.
- JavaLang.ReadLines: `BufferedReader.readLine` is modelled for '\n' endings only; '\r' and "\r\n" are not modelled.
- WekaUtils.Handles: `Capabilities.testWithFail` is reduced to "every attribute, class included, is nominal", so a data set with no attributes passes. Weka's generic checks ("No attributes!", fewer than the minimum number of instances) are not modelled. Missing values are allowed and are not represented.
- WekaUtils.GetOption: does not model Weka's "--" terminator, nor the exception a lone "-" or a null entry would raise.
- SpmfWrapper.SPMFWrapper.SetOptions: takes the options as a value. The blanking that `Utils.getOption` does in the caller's array is therefore not visible to the caller.
- Catalog.NewSelectedTag: does not model `SelectedTag`'s check for duplicate ids in the tag array.
- JavaLang.ParseInt: accepts ASCII digits only. `Integer.parseInt` also accepts digits from other Unicode scripts.
- Not modelled because they are constant help or citation text, fixed stubs, or an entry point: `getTechnicalInformation`, `globalInfo`, `algorithmTipText`, `paramsTipText`, `listOptions`, `getAssociationRules`, `getRuleMetricNames`, `canProduceRules`, `getCapabilities` (except the capability test above), and `main`.
