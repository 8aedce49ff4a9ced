# DMAV merger — a Dafny model of `Merger.run`

The DMAV merger combines the themed INTERLIS transfer files (XTF "baskets")
of one cadastral survey number (`fosnr`) into a single file
`DMAV.<fosnr>.xtf`. It reads a key → location configuration and resolves the
`${fosnr}` token in every location. It then stages one file per theme in a
temporary directory. Each of the sixteen DMAV models first gets its packaged
empty basket; any configured file replaces it. Finally it runs one XSLT pass
that stitches the staged files into a skeleton document, and it deletes the
temporary directory.

The model is functional:

- `outcomes.dfy` — `Option` and `Result`.
- `java_strings.dfy` (`JavaStrings`) — Java's `trim`, `startsWith`, `indexOf`
  and `replace` on `seq<char>`. `Split`/`Join` describe what `replace` does
  independently of how it scans.
- `resolution.dfy` (`Resolution`) — the trimming and `${fosnr}` substitution
  loop.
- `staging.dfy` (`Staging`) — the temporary directory as `map<string, bytes>`.
  The seed pass and the override pass are folds over the theme list and over
  the configuration's iteration order. Each fold has an order-free reference:
  the fetched files laid over the placeholders with right-biased map union.
- `transform_driver.dfy` (`TransformDriver`) — loading the stylesheet and the
  skeleton, and the Saxon lifecycle with its `finally { trans.close() }`.
- `merger.dfy` (`Merger`) — the sixteen model names and `run` as a fail-fast
  pipeline returning a `Report`. `Report.result` is the boolean `run` returns.

Everything `run` cannot decide by itself is an oracle in `Merger.Env`:

- the configuration parser's result (`None` when it throws);
- the iteration order of the configuration `HashMap`;
- whether a temporary directory can be created;
- the class-path resources;
- what the network and the local disk deliver for a location;
- which of the three Saxon calls that throw `SaxonApiException` fail;
- whether the temporary directory can be deleted.

The theme list is a parameter of `Run`. The program passes `Models`, and
`Merger.ModelsArePlain` discharges the one assumption the staging lemmas
make about it.

Two behaviours of the code are worth stating plainly:

- A failed run never deletes the temporary directory. Only the success path
  reaches `Utils.deleteDirectory` (`Merger.java` lines 137-143); every
  earlier failure returns `false` first.
- Keys are not re-trimmed by the model. The code's trimming of keys only
  works when a key is already trimmed, so `Resolution.KeysTrimmed` is a
  precondition.

## Model

| member | source | states |
|---|---|---|
| JavaStrings.Trim | src/main/java/ch/so/agi/dmav/Merger.java:58-59 | the trimmed value is the input with only chars up to U+0020 removed from both ends, neither of its ends is such a char, and an already trimmed value is unchanged |
| JavaStrings.IndexOf | src/main/java/ch/so/agi/dmav/Merger.java:60 | the scan `replace` builds on finds the leftmost occurrence of the target, and finds none exactly when the target does not occur |
| JavaStrings.Split | src/main/java/ch/so/agi/dmav/Merger.java:60 | the cut at the matched tokens re-joins to the input, every piece but the last ends at the first match, and the last piece holds no match |
| JavaStrings.ReplaceJoinsSplit | src/main/java/ch/so/agi/dmav/Merger.java:60 | `replace` is the input cut at every left-to-right match and re-joined with the replacement, so every matched occurrence is replaced and nothing else changes |
| Resolution.ResolveValue | src/main/java/ch/so/agi/dmav/Merger.java:59-60 | a value resolves to its trimmed self cut at every `${fosnr}` and re-joined with the survey number; a value without the token resolves to its trimmed self |
| Resolution.Resolve | src/main/java/ch/so/agi/dmav/Merger.java:53-62 | resolution keeps exactly the configured keys, and each value becomes its trimmed self cut at every `${fosnr}` and re-joined with the survey number (unchanged after trimming when it has no token) |
| Resolution.ResolveReplacesEveryToken | src/main/java/ch/so/agi/dmav/Merger.java:57-62 | a resolved value is the trimmed value with every `${fosnr}` replaced by the survey number and nothing else changed; without the token it is the trimmed value |
| Staging.SeedNameOfPlainTheme | src/main/java/ch/so/agi/dmav/Merger.java:148-158 | renaming `<model>.empty.xtf` by replacing `empty` yields `<model>.<fosnr>.xtf` when the model name has no `y` |
| Staging.StagedNameInjective | src/main/java/ch/so/agi/dmav/Merger.java:87-93 | distinct configuration keys are staged under distinct file names |
| Staging.Seed | src/main/java/ch/so/agi/dmav/Merger.java:148-162 | the seed pass succeeds iff every `<theme>.empty.xtf` resource exists, a failure names a missing resource, and on success it adds the seed names and changes no other file |
| Staging.SeedOfPlainThemes | src/main/java/ch/so/agi/dmav/Merger.java:77-79 | after the seed pass each theme's `<theme>.<fosnr>.xtf` holds exactly its `<theme>.empty.xtf` resource content |
| Staging.Fetch | src/main/java/ch/so/agi/dmav/Merger.java:85-95 | a location is read from the network iff it starts with `http`, otherwise from the disk; an unreadable URL is SourceUnavailable and a missing path SourceNotFound |
| Staging.FetchRouting | src/main/java/ch/so/agi/dmav/Merger.java:85-95 | a URL's content never depends on the disk and a path's never on the network |
| Staging.Override | src/main/java/ch/so/agi/dmav/Merger.java:81-96 | the override pass succeeds iff every visited source is readable; then each key's `<key>.<fosnr>.xtf` holds its source content, and files named by no key keep their content |
| Staging.OverrideSpec | src/main/java/ch/so/agi/dmav/Merger.java:81-96 | the override pass equals the order-free reference: the fetched files laid over the directory with REPLACE_EXISTING semantics |
| Staging.OverrideOrderIndependent | src/main/java/ch/so/agi/dmav/Merger.java:81-96 | the success of the override pass and the directory it leaves do not depend on the map's iteration order |
| Staging.Stage | src/main/java/ch/so/agi/dmav/Merger.java:70-100 | staging succeeds iff all placeholders exist and all sources are readable, and a missing placeholder is the error whenever one is missing |
| Staging.StageInvariant | src/main/java/ch/so/agi/dmav/Merger.java:74-96 | after staging, every theme and every configured key has exactly one file; a configured file wins over the placeholder; unconfigured themes keep their placeholder; nothing else is present |
| Staging.StageOrderIndependent | src/main/java/ch/so/agi/dmav/Merger.java:77-96 | the staging outcome and the staged directory do not depend on the configuration's iteration order |
| Staging.StageWithoutConfiguration | src/main/java/ch/so/agi/dmav/Merger.java:74-79 | with an empty configuration the directory holds exactly one renamed placeholder per theme |
| TransformDriver.LoadFile | src/main/java/ch/so/agi/dmav/Merger.java:108 | loading a resource succeeds iff it is packaged, writes it under its own name and leaves every other file alone |
| TransformDriver.LoadResources | src/main/java/ch/so/agi/dmav/Merger.java:104-113 | the stylesheet is loaded before the skeleton, the first missing one is the error, and on success both sit beside the untouched staged files |
| TransformDriver.ResourcesNeverClobberStaged | src/main/java/ch/so/agi/dmav/Merger.java:106-109 | no staged `<key>.<fosnr>.xtf` can be named `merge.xsl` or `DMAV_Skeleton.xtf` |
| TransformDriver.Transform | src/main/java/ch/so/agi/dmav/Merger.java:115-135 | the block succeeds iff compile, build and transform all succeed; the transformer is closed exactly once, last, iff it was loaded; `fosnr` is the only parameter bound and its value is the survey number; output exists only on success |
| Merger.ModelsArePlain | src/main/java/ch/so/agi/dmav/Merger.java:30-47 | no model name contains `y`, so every model's placeholder is staged as `<model>.<fosnr>.xtf` |
| Merger.Finish | src/main/java/ch/so/agi/dmav/Merger.java:102-145 | after staging, the run returns true iff both resources exist, the engine succeeds and the directory is deleted; cleanup is attempted iff an output was written |
| Merger.StageThenFinish | src/main/java/ch/so/agi/dmav/Merger.java:77-145 | inside the created temporary directory the run returns true iff all placeholders are packaged, every source is readable, both resources exist, the engine succeeds and the directory is deleted; the directory remains exactly on failure |
| Merger.Run | src/main/java/ch/so/agi/dmav/Merger.java:49-146 | `run` returns true iff every step succeeds; a failure leaves a created temporary directory undeleted; output goes to `<outputDir>/DMAV.<fosnr>.xtf` with `fosnr` bound to the survey number; the transformer is closed iff it was loaded |
| Merger.StagingFailureStopsRun | src/main/java/ch/so/agi/dmav/Merger.java:97-99 | a staging failure returns false with no engine call, no output and no cleanup, and a missing placeholder is reported as such |
| Merger.StagedDirectoryInvariant | src/main/java/ch/so/agi/dmav/Merger.java:68-113 | the directory handed to the transformation holds each theme's file (configured content or placeholder), each key's file, the stylesheet and the skeleton, and nothing else |
| Merger.RunOrderIndependent | src/main/java/ch/so/agi/dmav/Merger.java:81-96 | the configuration's iteration order changes neither the result, the staged directory, the engine calls nor the output |
| Merger.EmptyConfigurationMerge | src/main/java/ch/so/agi/dmav/Merger.java:49-146 | with no configured files and every step succeeding, `run` returns true, writes `DMAV.<fosnr>.xtf` from the placeholders, stylesheet and skeleton, and removes the temporary directory |
| Merger.RunMergerStagesEveryModel | src/main/java/ch/so/agi/dmav/Merger.java:30-47 | in the program's own run over its sixteen models, once every step up to the transformation succeeds, each model has its `<model>.<fosnr>.xtf` in the directory the transformation reads, holding its placeholder unless the model is configured |

## Left out

- Parsing of the configuration file (`ConfigParser.read`) is not part of this model. Its outcome is the `Env.config` oracle.
- The bodies of `Utils.loadFile` and `Utils.deleteDirectory` are not part of this model. `loadFile` is assumed to copy the named resource into the temporary directory under the same name and to fail when the resource is absent. `deleteDirectory` is the `Env.deleteSucceeds` oracle.
- Network and file I/O are not modelled. They become the `Sources` maps; a location missing from its map is a read failure. A failure part-way through a copy is the same as a failure before it, because both abort the run.
- The Saxon XSLT engine is opaque. Its output is the symbolic `Document` built from the stylesheet, the skeleton, the staged directory and the bound parameter. Only compile, document build and transform can fail, the three calls that declare `SaxonApiException`. Unchecked exceptions escaping `run` are not modelled.
- A partially written output file after a failed transformation is not modelled. The model records no output, and the program makes no promise about one.
- Temporary-directory creation and the uniqueness of its name are a platform guarantee. Creation is the `Env.tempDirCreated` oracle.
- Untrimmed configuration keys are excluded by the precondition `Resolution.KeysTrimmed`. Trimming such a key would insert a new key into the `HashMap` during iteration.
- `printStackTrace` logging is not modelled. The `Failure` value in the report stands in for it.
- Paths are strings. `Path.resolve` is modelled as joining with `/`.
- Staging.StagedNameInjective: file names are compared as exact strings, as on a case-sensitive file system where every key is a plain file name. Keys or survey numbers that contain `/`, and keys that name the same file after path normalisation or case folding (`./a` and `a`, `A` and `a`), are not modelled; for them the lemma and the order-independence lemmas built on it do not describe the program.
- Merger.Run: writes into the temporary directory are assumed to succeed. A failed copy of a placeholder or a configured file (lines 90, 94 and 160), including the copy into a missing sub-directory that a key with `/` asks for, would make `run` return `false`, but `Run` reports `true` whenever the resources, the sources, the engine and the deletion succeed.
- TransformDriver.LoadFile: copying a packaged resource is assumed to succeed whenever the resource exists.
- JavaStrings.Replace: modelled only for a non-empty target. Java's empty-target case is never used here, since `run` only replaces `${fosnr}` and `empty`.
- The staging lemmas assume theme names without a `y`. `Merger.ModelsArePlain` proves this for the sixteen fixed models.
- Running the pipeline twice with identical inputs gives identical reports, because `Run` is a function. No separate lemma states this.
