/**
  `Merger.run` as a fail-fast pipeline: read and resolve the configuration,
  create the temporary directory, stage the theme files, load the stylesheet
  and skeleton, run the transformation into `<outputDir>/DMAV.<fosnr>.xtf`,
  and delete the temporary directory. Every step the program cannot see
  (parsing, the file system, the network, the XSLT engine) is an oracle in
  `Env`; the result is a `Report` whose `result` is the boolean `run` returns.
 */
module Merger {
  import opened Outcomes
  import opened JavaStrings
  import opened Resolution
  import opened Staging
  import opened TransformDriver

  /** The sixteen models (themes) every merged file carries a basket for. */
  const Models: seq<string> := [
    "DMAVSUP_UntereinheitGrundbuch_V1_0",
    "DMAV_Toleranzstufen_V1_0",
    "DMAV_PLZ_Ortschaft_V1_0",
    "DMAV_HoheitsgrenzenLV_V1_0",
    "DMAV_HoheitsgrenzenAV_V1_0",
    "DMAV_FixpunkteLV_V1_0",
    "DMAV_Nomenklatur_V1_0",
    "DMAV_Gebaeudeadressen_V1_0",
    "DMAV_Dienstbarkeitsgrenzen_V1_0",
    "DMAV_Einzelobjekte_V1_0",
    "DMAV_FixpunkteAVKategorie3_V1_0",
    "DMAV_Bodenbedeckung_V1_0",
    "DMAV_Rohrleitungen_V1_0",
    "DMAV_Grundstuecke_V1_0",
    "DMAV_FixpunkteAVKategorie2_V1_0",
    "DMAV_DauerndeBodenverschiebungen_V1_0"
  ]

  // The check that no model name contains a `y` is split in pairs so that
  // each proof stays small.
  lemma ModelsHaveNoY0()
    ensures forall i :: 0 <= i < 2 ==> IsPlainTheme(Models[i])
  {
    assert IsPlainTheme(Models[0]);
    assert IsPlainTheme(Models[1]);
  }

  lemma ModelsHaveNoY1()
    ensures forall i :: 2 <= i < 4 ==> IsPlainTheme(Models[i])
  {
    assert IsPlainTheme(Models[2]);
    assert IsPlainTheme(Models[3]);
  }

  lemma ModelsHaveNoY2()
    ensures forall i :: 4 <= i < 6 ==> IsPlainTheme(Models[i])
  {
    assert IsPlainTheme(Models[4]);
    assert IsPlainTheme(Models[5]);
  }

  lemma ModelsHaveNoY3()
    ensures forall i :: 6 <= i < 8 ==> IsPlainTheme(Models[i])
  {
    assert IsPlainTheme(Models[6]);
    assert IsPlainTheme(Models[7]);
  }

  lemma ModelsHaveNoY4()
    ensures forall i :: 8 <= i < 10 ==> IsPlainTheme(Models[i])
  {
    assert IsPlainTheme(Models[8]);
    assert IsPlainTheme(Models[9]);
  }

  lemma ModelsHaveNoY5()
    ensures forall i :: 10 <= i < 12 ==> IsPlainTheme(Models[i])
  {
    assert IsPlainTheme(Models[10]);
    assert IsPlainTheme(Models[11]);
  }

  lemma ModelsHaveNoY6()
    ensures forall i :: 12 <= i < 14 ==> IsPlainTheme(Models[i])
  {
    assert IsPlainTheme(Models[12]);
    assert IsPlainTheme(Models[13]);
  }

  lemma ModelsHaveNoY7()
    ensures forall i :: 14 <= i < 16 ==> IsPlainTheme(Models[i])
  {
    assert IsPlainTheme(Models[14]);
    assert IsPlainTheme(Models[15]);
  }

  /** No model name contains a `y`, so each placeholder is renamed to exactly
      `<model>.<fosnr>.xtf`, the name a configured key for it overrides. */
  lemma ModelsArePlain(fosnr: string)
    ensures AllPlain(Models)
    ensures forall m :: m in Models ==> SeedName(m, fosnr) == StagedName(m, fosnr)
  {
    ModelsHaveNoY0();
    ModelsHaveNoY1();
    ModelsHaveNoY2();
    ModelsHaveNoY3();
    ModelsHaveNoY4();
    ModelsHaveNoY5();
    ModelsHaveNoY6();
    ModelsHaveNoY7();
    assert |Models| == 16;
    forall m | m in Models ensures IsPlainTheme(m) && SeedName(m, fosnr) == StagedName(m, fosnr) {
      var i :| 0 <= i < |Models| && Models[i] == m;
      SeedNameOfPlainTheme(m, fosnr);
    }
  }

  /** `outputDir.resolve("DMAV." + fosnr + ".xtf")`. */
  function OutputPath(outputDir: string, fosnr: string): string {
    outputDir + "/DMAV." + fosnr + ".xtf"
  }

  /** Everything `run` consults that lies outside the merger. */
  datatype Env = Env(
    config: Option<Config>,   // what the configuration parser returns; None: it threw
    order: seq<string>,       // the iteration order of the configuration map
    tempDirCreated: bool,     // whether a temporary directory could be created
    resources: Store,         // the class-path resources
    sources: Sources,         // what the network and the local disk deliver
    engine: Engine,           // which XSLT calls fail
    deleteSucceeds: bool)     // whether the temporary directory can be deleted

  /** What `run` can be called with: keys already trimmed, and an iteration
      order that lists the configuration's keys. */
  predicate WellFormed(env: Env) {
    env.config.Some? ==> KeysTrimmed(env.config.value) && Enumerates(env.order, env.config.value)
  }

  /** Why a run fails; `run` itself collapses all of them to `false`. */
  datatype Failure =
    | ConfigUnreadable
    | TempDirUnavailable
    | StagingFailed(cause: StageError)
    | LoadFailed(resource: string)
    | TransformFailed
    | CleanupFailed

  datatype OutputFile = OutputFile(path: string, content: Document)

  /** What one run did. `staged` is the temporary directory as handed to the
      transformation, `calls` the engine calls made, `tempDirRemains` whether a
      created temporary directory is left behind. */
  datatype Report = Report(
    result: bool,
    failure: Option<Failure>,
    staged: Option<Dir>,
    calls: seq<Call>,
    output: Option<OutputFile>,
    cleanupAttempted: bool,
    tempDirRemains: bool)

  function Failed(f: Failure, tempDirRemains: bool): Report {
    Report(false, Some(f), None, [], None, false, tempDirRemains)
  }

  /** Every step of `run` succeeds. */
  predicate AllStepsSucceed(themes: seq<string>, env: Env, fosnr: string)
    requires WellFormed(env)
  {
    && env.config.Some?
    && env.tempDirCreated
    && PlaceholdersPackaged(themes, env.resources)
    && AllAvailable(Resolve(env.config.value, fosnr), env.sources)
    && StylesheetResource in env.resources
    && SkeletonResource in env.resources
    && !env.engine.compileFails && !env.engine.buildFails && !env.engine.transformFails
    && env.deleteSucceeds
  }

  /** The part of `run` after staging succeeded into `dir`: load the
      stylesheet and skeleton, transform, delete the temporary directory. */
  function Finish(env: Env, fosnr: string, outputDir: string, dir: Dir): (rep: Report)
    ensures rep.result <==> && StylesheetResource in env.resources && SkeletonResource in env.resources
                            && !env.engine.compileFails && !env.engine.buildFails && !env.engine.transformFails
                            && env.deleteSucceeds
    ensures rep.result <==> rep.failure.None?
    ensures rep.tempDirRemains <==> !rep.result
    ensures rep.cleanupAttempted <==> rep.output.Some?
    ensures rep.result ==> rep.output.Some?
    ensures rep.output.Some? ==> rep.output.value.path == OutputPath(outputDir, fosnr)
    ensures rep.output.Some? ==> rep.output.value.content.parameterName == "fosnr"
                                 && rep.output.value.content.parameterValue == fosnr
    ensures rep.calls != [] ==> rep.staged.Some?
    ensures CloseTransformer in rep.calls <==> LoadTransformer in rep.calls
  {
    match LoadResources(env.resources, dir)
    case Err(name) => Failed(LoadFailed(name), true)
    case Ok(ready) =>
      var outPath := OutputPath(outputDir, fosnr);
      var t := Transform(env.engine, ready, outPath, fosnr);
      if !t.ok then
        Report(false, Some(TransformFailed), Some(ready), t.calls, None, false, true)
      else
        var out := Some(OutputFile(outPath, t.output.value));
        if env.deleteSucceeds then
          Report(true, None, Some(ready), t.calls, out, true, false)
        else
          Report(false, Some(CleanupFailed), Some(ready), t.calls, out, true, true)
  }

  /** The part of `run` inside the created temporary directory: stage the
      theme files, then finish; a staging failure leaves the directory. */
  function StageThenFinish(themes: seq<string>, env: Env, resolved: Config, fosnr: string, outputDir: string)
    : (rep: Report)
    requires Enumerates(env.order, resolved)
    ensures rep.result <==> && PlaceholdersPackaged(themes, env.resources)
                            && AllAvailable(resolved, env.sources)
                            && StylesheetResource in env.resources && SkeletonResource in env.resources
                            && !env.engine.compileFails && !env.engine.buildFails && !env.engine.transformFails
                            && env.deleteSucceeds
    ensures rep.result <==> rep.failure.None?
    ensures rep.tempDirRemains <==> !rep.result
    ensures rep.cleanupAttempted <==> rep.output.Some?
    ensures rep.result ==> rep.output.Some?
    ensures rep.output.Some? ==> rep.output.value.path == OutputPath(outputDir, fosnr)
    ensures rep.output.Some? ==> rep.output.value.content.parameterName == "fosnr"
                                 && rep.output.value.content.parameterValue == fosnr
    ensures rep.calls != [] ==> rep.staged.Some?
    ensures CloseTransformer in rep.calls <==> LoadTransformer in rep.calls
  {
    match Stage(themes, env.resources, env.order, resolved, fosnr, env.sources)
    case Err(e) => Failed(StagingFailed(e), true)
    case Ok(dir) => Finish(env, fosnr, outputDir, dir)
  }

  /** `Merger.run(configFile, fosnr, outputDir)`, over the theme list
      `themes`; the program passes `Models`. */
  function Run(themes: seq<string>, env: Env, fosnr: string, outputDir: string): (rep: Report)
    requires WellFormed(env)
    ensures rep.result <==> AllStepsSucceed(themes, env, fosnr)
    ensures rep.result <==> rep.failure.None?
    ensures rep.result ==> !rep.tempDirRemains
    ensures !rep.result ==> (rep.tempDirRemains <==> env.config.Some? && env.tempDirCreated)
    ensures rep.cleanupAttempted <==> rep.output.Some?
    ensures rep.result ==> rep.output.Some?
    ensures rep.output.Some? ==> rep.output.value.path == OutputPath(outputDir, fosnr)
    ensures rep.output.Some? ==> rep.output.value.content.parameterName == "fosnr"
                                 && rep.output.value.content.parameterValue == fosnr
    ensures rep.calls != [] ==> rep.staged.Some?
    ensures CloseTransformer in rep.calls <==> LoadTransformer in rep.calls
  {
    match env.config
    case None => Failed(ConfigUnreadable, false)
    case Some(files) =>
      var resolved := Resolve(files, fosnr);
      if !env.tempDirCreated then
        Failed(TempDirUnavailable, false)
      else
        StageThenFinish(themes, env, resolved, fosnr, outputDir)
  }

  /** The run as the program makes it, over its sixteen models. */
  function RunMerger(env: Env, fosnr: string, outputDir: string): Report
    requires WellFormed(env)
  {
    Run(Models, env, fosnr, outputDir)
  }

  /** A staging failure (a missing placeholder, an unreadable source) stops
      the run there: no engine call, no output, no cleanup, and the
      temporary directory stays. A missing placeholder is what is reported
      whenever one is missing. */
  lemma StagingFailureStopsRun(themes: seq<string>, env: Env, fosnr: string, outputDir: string)
    requires WellFormed(env)
    requires env.config.Some? && env.tempDirCreated
    requires !PlaceholdersPackaged(themes, env.resources)
          || !AllAvailable(Resolve(env.config.value, fosnr), env.sources)
    ensures var rep := Run(themes, env, fosnr, outputDir);
      && !rep.result
      && rep.failure.Some? && rep.failure.value.StagingFailed?
      && (!PlaceholdersPackaged(themes, env.resources) ==>
            rep.failure.value.cause.ResourceMissing?)
      && rep.calls == [] && rep.output.None? && !rep.cleanupAttempted && rep.tempDirRemains
  {
  }

  /** Once staging and loading succeed, the transformation reads the staged
      directory with the stylesheet and the skeleton written beside it. */
  lemma RunLoadsBesideStaged(themes: seq<string>, env: Env, fosnr: string, outputDir: string)
    requires WellFormed(env)
    requires env.config.Some? && env.tempDirCreated
    requires PlaceholdersPackaged(themes, env.resources)
    requires AllAvailable(Resolve(env.config.value, fosnr), env.sources)
    requires StylesheetResource in env.resources && SkeletonResource in env.resources
    ensures var staged := Stage(themes, env.resources, env.order, Resolve(env.config.value, fosnr), fosnr, env.sources);
      && staged.Ok?
      && Run(themes, env, fosnr, outputDir).staged
         == Some(staged.value[StylesheetResource := env.resources[StylesheetResource]]
                             [SkeletonResource := env.resources[SkeletonResource]])
  {
    var resolved := Resolve(env.config.value, fosnr);
    var staged := Stage(themes, env.resources, env.order, resolved, fosnr, env.sources);
    assert staged.Ok?;
    assert Run(themes, env, fosnr, outputDir) == Finish(env, fosnr, outputDir, staged.value);
  }

  /**
    What the transformation reads: every model has its file, holding the
    configured source when the model is configured and its placeholder
    otherwise; every configured key has its file; and next to them the
    packaged stylesheet and skeleton. Nothing else is in the directory.
   */
  lemma StagedDirectoryInvariant(themes: seq<string>, env: Env, fosnr: string, outputDir: string)
    requires AllPlain(themes)
    requires WellFormed(env)
    requires env.config.Some? && env.tempDirCreated
    requires PlaceholdersPackaged(themes, env.resources)
    requires AllAvailable(Resolve(env.config.value, fosnr), env.sources)
    requires StylesheetResource in env.resources && SkeletonResource in env.resources
    ensures Run(themes, env, fosnr, outputDir).staged.Some?
    ensures var dir := Run(themes, env, fosnr, outputDir).staged.value;
      var resolved := Resolve(env.config.value, fosnr);
      && dir.Keys == StagedNames(Listed(themes), fosnr) + StagedNames(resolved.Keys, fosnr)
                     + {StylesheetResource, SkeletonResource}
      && (forall m :: m in themes && m !in resolved ==> dir[StagedName(m, fosnr)] == env.resources[EmptyName(m)])
      && (forall k :: k in resolved ==> dir[StagedName(k, fosnr)] == Fetch(k, resolved[k], env.sources).value)
      && dir[StylesheetResource] == env.resources[StylesheetResource]
      && dir[SkeletonResource] == env.resources[SkeletonResource]
  {
    var resolved := Resolve(env.config.value, fosnr);
    StageInvariant(themes, env.resources, env.order, resolved, fosnr, env.sources);
    RunLoadsBesideStaged(themes, env, fosnr, outputDir);
    forall k | k in themes || k in resolved
      ensures StagedName(k, fosnr) != StylesheetResource && StagedName(k, fosnr) != SkeletonResource
    {
      ResourcesNeverClobberStaged(k, fosnr);
    }
  }

  /** The iteration order of the configuration map changes neither the
      outcome of the run, nor the directory handed to the transformation,
      nor the output file. */
  lemma RunOrderIndependent(themes: seq<string>, env: Env, order: seq<string>, fosnr: string, outputDir: string)
    requires WellFormed(env)
    requires env.config.Some? ==> Enumerates(order, env.config.value)
    ensures var r1 := Run(themes, env, fosnr, outputDir);
      var r2 := Run(themes, env.(order := order), fosnr, outputDir);
      && r1.result == r2.result
      && r1.staged == r2.staged
      && r1.output == r2.output
      && r1.calls == r2.calls
  {
    if env.config.Some? && env.tempDirCreated {
      StageOrderIndependent(themes, env.resources, env.order, order, Resolve(env.config.value, fosnr),
                            fosnr, env.sources);
    }
  }

  /** With an empty configuration and every step succeeding, the run returns
      `true`, writes `DMAV.<fosnr>.xtf` from a directory holding exactly the
      placeholders of all themes, the stylesheet and the skeleton, and removes the
      temporary directory. */
  lemma EmptyConfigurationMerge(themes: seq<string>, env: Env, fosnr: string, outputDir: string)
    requires AllPlain(themes)
    requires env.config == Some(map[])
    requires env.order == []
    requires env.tempDirCreated && env.deleteSucceeds
    requires PlaceholdersPackaged(themes, env.resources)
    requires StylesheetResource in env.resources && SkeletonResource in env.resources
    requires env.engine == Engine(false, false, false)
    ensures var rep := Run(themes, env, fosnr, outputDir);
      && rep.result
      && !rep.tempDirRemains
      && rep.output.Some? && rep.output.value.path == outputDir + "/DMAV." + fosnr + ".xtf"
      && rep.staged == Some(Renamed(Placeholders(themes, env.resources), fosnr)
                            [StylesheetResource := env.resources[StylesheetResource]]
                            [SkeletonResource := env.resources[SkeletonResource]])
  {
    assert WellFormed(env);
    assert Resolve(map[], fosnr) == map[];
    StageWithoutConfiguration(themes, env.resources, fosnr, env.sources);
    var seeded := Renamed(Placeholders(themes, env.resources), fosnr);
    assert Run(themes, env, fosnr, outputDir) == Finish(env, fosnr, outputDir, seeded);
    var ready := seeded[StylesheetResource := env.resources[StylesheetResource]]
                       [SkeletonResource := env.resources[SkeletonResource]];
    assert LoadResources(env.resources, seeded) == Ok(ready);
    assert Finish(env, fosnr, outputDir, seeded).staged == Some(ready);
  }

  /** The program's own run over its sixteen models: once every step up to
      the transformation succeeds, each model has its file in the directory
      the transformation reads, holding the placeholder unless the model is
      configured. */
  lemma RunMergerStagesEveryModel(env: Env, fosnr: string, outputDir: string)
    requires WellFormed(env)
    requires env.config.Some? && env.tempDirCreated
    requires PlaceholdersPackaged(Models, env.resources)
    requires AllAvailable(Resolve(env.config.value, fosnr), env.sources)
    requires StylesheetResource in env.resources && SkeletonResource in env.resources
    ensures RunMerger(env, fosnr, outputDir).staged.Some?
    ensures var dir := RunMerger(env, fosnr, outputDir).staged.value;
      var resolved := Resolve(env.config.value, fosnr);
      && (forall m :: m in Models ==> StagedName(m, fosnr) in dir)
      && (forall m :: m in Models && m !in resolved ==> dir[StagedName(m, fosnr)] == env.resources[EmptyName(m)])
  {
    ModelsArePlain(fosnr);
    StagedDirectoryInvariant(Models, env, fosnr, outputDir);
  }
}
