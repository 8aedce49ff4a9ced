/**
  The transformation step: the stylesheet and the skeleton are copied from the
  resources into the temporary directory, then the XSLT engine is driven
  through its compile / build / load / configure / transform lifecycle with
  the survey number bound to the parameter `fosnr`, and the transformer is
  closed on every exit once it exists. The engine itself is opaque: it is
  described by which of its fallible calls fail, and its output document by
  what it was computed from.
 */
module TransformDriver {
  import opened Outcomes
  import opened JavaStrings
  import opened Staging

  /** The packaged stylesheet and skeleton document. */
  const StylesheetResource: string := "merge.xsl"
  const SkeletonResource: string := "DMAV_Skeleton.xtf"

  /** The name of the stylesheet parameter that receives the survey number. */
  const ParameterName: string := "fosnr"

  /** Copying one packaged resource into the temporary directory under its
      own name; an absent resource is an error naming it. */
  function LoadFile(name: string, res: Store, dir: Dir): (r: Result<Dir, string>)
    ensures r.Ok? <==> name in res
    ensures r.Err? ==> r.error == name
    ensures r.Ok? ==> r.value.Keys == dir.Keys + {name} && r.value[name] == res[name]
    ensures r.Ok? ==> forall n :: n in dir && n != name ==> r.value[n] == dir[n]
  {
    if name in res then Ok(dir[name := res[name]]) else Err(name)
  }

  /** The stylesheet, then the skeleton; the first absent one aborts. */
  function LoadResources(res: Store, dir: Dir): (r: Result<Dir, string>)
    ensures r.Ok? <==> StylesheetResource in res && SkeletonResource in res
    ensures r.Err? ==> r.error == (if StylesheetResource !in res then StylesheetResource else SkeletonResource)
    ensures r.Ok? ==> r.value.Keys == dir.Keys + {StylesheetResource, SkeletonResource}
    ensures r.Ok? ==> r.value[StylesheetResource] == res[StylesheetResource]
                      && r.value[SkeletonResource] == res[SkeletonResource]
    ensures r.Ok? ==> forall n :: n in dir && n != StylesheetResource && n != SkeletonResource ==> r.value[n] == dir[n]
  {
    match LoadFile(StylesheetResource, res, dir)
    case Err(e) => Err(e)
    case Ok(d) => LoadFile(SkeletonResource, res, d)
  }

  /** No staged theme file is ever named like the stylesheet or the skeleton,
      so loading them overwrites nothing the staging produced. */
  lemma ResourcesNeverClobberStaged(key: string, fosnr: string)
    ensures StagedName(key, fosnr) != StylesheetResource
    ensures StagedName(key, fosnr) != SkeletonResource
  {
    var s := StagedName(key, fosnr);
    assert s[|s| - 1] == 'f';
    if |s| == |StylesheetResource| {
      assert s[|s| - 1] != StylesheetResource[|s| - 1];
    }
    if |s| == |SkeletonResource| {
      assert s[|key|] == '.';
      assert forall i :: 0 <= i < |SkeletonResource| - 4 ==> SkeletonResource[i] != '.';
      assert s[|key|] != SkeletonResource[|key|];
    }
  }

  /** The engine calls the merger makes, in program order. */
  datatype Call =
    | Compile
    | BuildContext
    | OpenSerializer(path: string)
    | LoadTransformer
    | SetContextNode
    | SetDestination
    | SetParameter(name: string, value: string)
    | RunTransform
    | CloseTransformer

  /** The engine as an oracle: which of the three calls that can raise
      `SaxonApiException` (compiling the stylesheet, building the context
      document, running the transformation) fail on this run. */
  datatype Engine = Engine(compileFails: bool, buildFails: bool, transformFails: bool)

  /** The document the transformation writes, described by its inputs: the
      stylesheet, the skeleton as context node, the directory the stylesheet
      reads the staged themes from, and the bound parameter. */
  datatype Document = Merged(stylesheet: Bytes, skeleton: Bytes, staged: Dir, parameterName: string, parameterValue: string)

  /** The calls made, whether the block completed, and what it wrote. */
  datatype TransformRun = TransformRun(calls: seq<Call>, ok: bool, output: Option<Document>)

  /** The `try` part of the transformation block: the calls made up to the
      first failing one, whether all succeeded, and whether a transformer
      object was created along the way. */
  datatype Attempt = Attempt(calls: seq<Call>, ok: bool, created: bool)

  function TryTransform(engine: Engine, outPath: string, fosnr: string): (a: Attempt)
    ensures a.ok <==> !engine.compileFails && !engine.buildFails && !engine.transformFails
    ensures a.ok ==> a.created
    ensures a.created <==> LoadTransformer in a.calls
    ensures |a.calls| > 0 && a.calls[0] == Compile && CloseTransformer !in a.calls
    ensures RunTransform in a.calls ==> SetParameter(ParameterName, fosnr) in a.calls && OpenSerializer(outPath) in a.calls
    ensures forall c :: c in a.calls && c.SetParameter? ==> c == SetParameter(ParameterName, fosnr)
  {
    if engine.compileFails then Attempt([Compile], false, false)
    else if engine.buildFails then Attempt([Compile, BuildContext], false, false)
    else
      var calls := [Compile, BuildContext, OpenSerializer(outPath), LoadTransformer,
                    SetContextNode, SetDestination, SetParameter(ParameterName, fosnr), RunTransform];
      Attempt(calls, !engine.transformFails, true)
  }

  /** The transformation block with its `finally`: the transformer, once
      created, is closed whatever the outcome. */
  function Transform(engine: Engine, staged: Dir, outPath: string, fosnr: string): (t: TransformRun)
    requires StylesheetResource in staged && SkeletonResource in staged
    ensures t.ok <==> !engine.compileFails && !engine.buildFails && !engine.transformFails
    ensures t.output.Some? <==> t.ok
    ensures t.ok ==> t.output.value == Merged(staged[StylesheetResource], staged[SkeletonResource], staged,
                                              ParameterName, fosnr)
    ensures |t.calls| > 0 && t.calls[0] == Compile
    ensures CloseTransformer in t.calls <==> LoadTransformer in t.calls
    ensures CloseTransformer in t.calls ==>
      t.calls[|t.calls| - 1] == CloseTransformer && CloseTransformer !in t.calls[..|t.calls| - 1]
    ensures RunTransform in t.calls ==>
      SetParameter(ParameterName, fosnr) in t.calls && OpenSerializer(outPath) in t.calls
    ensures forall c :: c in t.calls && c.SetParameter? ==> c == SetParameter(ParameterName, fosnr)
  {
    var a := TryTransform(engine, outPath, fosnr);
    var closed := if a.created then a.calls + [CloseTransformer] else a.calls;
    var output := if a.ok then Some(Merged(staged[StylesheetResource], staged[SkeletonResource], staged,
                                         ParameterName, fosnr))
                  else None;
    TransformRun(closed, a.ok, output)
  }
}
