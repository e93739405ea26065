/**
 * The two pieces of logic in archi/src/shader.rs: the name under which
 * `Preprocessor::new` registers a header (the path after its last `/`), and
 * how `compile_stages` compiles every present stage and then reports the
 * first failure.
 */
module Shader {
  import opened Wrappers

  /** `str::rfind`: the position of the last occurrence of c, if any. */
  function RFind(s: string, c: char): (r: Option<nat>)
    ensures r.Some? ==> r.value < |s| && s[r.value] == c && forall j | r.value < j < |s| :: s[j] != c
    ensures r.None? ==> forall j | 0 <= j < |s| :: s[j] != c
  {
    if |s| == 0 then None
    else if s[|s| - 1] == c then Some(|s| - 1)
    else RFind(s[..|s| - 1], c)
  }

  /**
   * `add_source!`: the registered name starts one past the last `/`, or at
   * 0 when there is none. It is a suffix of the path without any `/`, and
   * the longest such: either the whole path or the part right after a `/`.
   */
  function Basename(path: string): (name: string)
    ensures |name| <= |path| && name == path[|path| - |name|..]
    ensures forall j | 0 <= j < |name| :: name[j] != '/'
    ensures |name| == |path| || path[|path| - |name| - 1] == '/'
  {
    var i := match RFind(path, '/')
      case Some(i) => i + 1
      case None => 0;
    path[i..]
  }

  /** A path without `/` is its own name; otherwise the name is what follows the last `/`. */
  lemma BasenameCases(path: string, dir: string, file: string)
    ensures (forall j | 0 <= j < |path| :: path[j] != '/') ==> Basename(path) == path
    ensures (forall j | 0 <= j < |file| :: file[j] != '/') ==> Basename(dir + "/" + file) == file
  {
    if forall j | 0 <= j < |file| :: file[j] != '/' {
      var p := dir + "/" + file;
      assert p[|dir|] == '/';
      assert forall j | |dir| < j < |p| :: p[j] == file[j - |dir| - 1];
      assert RFind(p, '/') == Some(|dir|);
      assert p[|dir| + 1..] == file;
    }
  }

  datatype StageType = TessellationControl | TessellationEvaluation | Vertex | Geometry | Fragment

  datatype ShaderSource = ShaderSource(name: string, body: string)

  /** The compiled stages of a program: the optional tessellation pair, vertex, the optional geometry, fragment. */
  datatype Stages<S> = Stages(tess: Option<(S, S)>, vert: S, geom: Option<S>, frag: S)

  /** The compilations a program needs, in the order `compile_stages` runs them; absent stages have none. */
  function Jobs(tess: Option<(ShaderSource, ShaderSource)>, vert: ShaderSource, geom: Option<ShaderSource>, frag: ShaderSource): (r: seq<(StageType, ShaderSource)>)
    ensures |r| == 2 + (if tess.Some? then 2 else 0) + (if geom.Some? then 1 else 0)
  {
    (if tess.Some? then [(TessellationControl, tess.value.0), (TessellationEvaluation, tess.value.1)] else [])
    + [(Vertex, vert)]
    + (if geom.Some? then [(Geometry, geom.value)] else [])
    + [(Fragment, frag)]
  }

  /** The error of the first job, in order, whose compilation fails; None when all succeed. */
  function FirstFailure<S, E>(compile: (StageType, ShaderSource) -> Result<S, E>, jobs: seq<(StageType, ShaderSource)>): (r: Option<E>)
    ensures r.None? <==> forall k | 0 <= k < |jobs| :: compile(jobs[k].0, jobs[k].1).Ok?
    decreases |jobs|
  {
    if |jobs| == 0 then None
    else
      var first := compile(jobs[0].0, jobs[0].1);
      if first.Err? then Some(first.error) else FirstFailure(compile, jobs[1..])
  }

  /** The first failure is the error of some job all of whose predecessors compiled. */
  lemma {:induction false} FirstFailureIsFirst<S, E>(compile: (StageType, ShaderSource) -> Result<S, E>, jobs: seq<(StageType, ShaderSource)>)
    requires FirstFailure(compile, jobs).Some?
    ensures exists k | 0 <= k < |jobs| ::
      compile(jobs[k].0, jobs[k].1) == Err(FirstFailure(compile, jobs).value) &&
      forall m | 0 <= m < k :: compile(jobs[m].0, jobs[m].1).Ok?
    decreases |jobs|
  {
    if compile(jobs[0].0, jobs[0].1).Ok? {
      FirstFailureIsFirst(compile, jobs[1..]);
      var k :| 0 <= k < |jobs[1..]| &&
        compile(jobs[1..][k].0, jobs[1..][k].1) == Err(FirstFailure(compile, jobs[1..]).value) &&
        forall m | 0 <= m < k :: compile(jobs[1..][m].0, jobs[1..][m].1).Ok?;
      assert forall m | 0 <= m < k + 1 :: compile(jobs[m].0, jobs[m].1).Ok? by {
        forall m | 0 <= m < k + 1
          ensures compile(jobs[m].0, jobs[m].1).Ok?
        {
          if m > 0 {
            assert jobs[m] == jobs[1..][m - 1];
          }
        }
      }
      assert compile(jobs[k + 1].0, jobs[k + 1].1) == Err(FirstFailure(compile, jobs).value);
    } else {
      assert compile(jobs[0].0, jobs[0].1) == Err(FirstFailure(compile, jobs).value);
    }
  }

  /**
   * `compile_stages`: compile every present stage, in order, before looking
   * at any result (so a failing tessellation stage does not keep the vertex
   * shader from being compiled), then report the first error in that order,
   * or all stages. `compiled` lists the compilations made.
   */
  method CompileStages<S, E>(compile: (StageType, ShaderSource) -> Result<S, E>,
                             tess: Option<(ShaderSource, ShaderSource)>, vert: ShaderSource,
                             geom: Option<ShaderSource>, frag: ShaderSource)
    returns (r: Result<Stages<S>, E>, compiled: seq<(StageType, ShaderSource)>)
    ensures compiled == Jobs(tess, vert, geom, frag)
    ensures r.Err? <==> FirstFailure(compile, compiled).Some?
    ensures r.Err? ==> r.error == FirstFailure(compile, compiled).value
    ensures r.Ok? ==> (r.value.tess.Some? <==> tess.Some?) && (r.value.geom.Some? <==> geom.Some?)
    ensures r.Ok? ==> forall k | 0 <= k < |compiled| :: Ok(StageOf(r.value, compiled[k].0)) == compile(compiled[k].0, compiled[k].1)
  {
    compiled := [];
    var tessStages: Result<Option<(S, S)>, E> := Ok(None);
    if tess.Some? {
      var tcs := compile(TessellationControl, tess.value.0);
      var tes := compile(TessellationEvaluation, tess.value.1);
      compiled := compiled + [(TessellationControl, tess.value.0), (TessellationEvaluation, tess.value.1)];
      tessStages := if tcs.Err? then Err(tcs.error) else if tes.Err? then Err(tes.error) else Ok(Some((tcs.value, tes.value)));
    }
    var vertStage := compile(Vertex, vert);
    compiled := compiled + [(Vertex, vert)];
    var geomStage: Result<Option<S>, E> := Ok(None);
    if geom.Some? {
      var g := compile(Geometry, geom.value);
      compiled := compiled + [(Geometry, geom.value)];
      geomStage := if g.Err? then Err(g.error) else Ok(Some(g.value));
    }
    var fragStage := compile(Fragment, frag);
    compiled := compiled + [(Fragment, frag)];
    FirstFailureSplit(compile, compiled, tess, vert, geom, frag);
    if tessStages.Err? {
      r := Err(tessStages.error);
    } else if vertStage.Err? {
      r := Err(vertStage.error);
    } else if geomStage.Err? {
      r := Err(geomStage.error);
    } else if fragStage.Err? {
      r := Err(fragStage.error);
    } else {
      r := Ok(Stages(tessStages.value, vertStage.value, geomStage.value, fragStage.value));
    }
  }

  /** The stage of a compiled program that a job produced (when the program has it). */
  function StageOf<S>(stages: Stages<S>, ty: StageType): S
    requires ty == TessellationControl || ty == TessellationEvaluation ==> stages.tess.Some?
    requires ty == Geometry ==> stages.geom.Some?
  {
    match ty
    case TessellationControl => stages.tess.value.0
    case TessellationEvaluation => stages.tess.value.1
    case Vertex => stages.vert
    case Geometry => stages.geom.value
    case Fragment => stages.frag
  }

  /** FirstFailure over the jobs of a program, written out group by group. */
  lemma FirstFailureSplit<S, E>(compile: (StageType, ShaderSource) -> Result<S, E>, jobs: seq<(StageType, ShaderSource)>,
                                tess: Option<(ShaderSource, ShaderSource)>, vert: ShaderSource,
                                geom: Option<ShaderSource>, frag: ShaderSource)
    requires jobs == Jobs(tess, vert, geom, frag)
    ensures FirstFailure(compile, jobs) ==
      if tess.Some? && compile(TessellationControl, tess.value.0).Err? then Some(compile(TessellationControl, tess.value.0).error)
      else if tess.Some? && compile(TessellationEvaluation, tess.value.1).Err? then Some(compile(TessellationEvaluation, tess.value.1).error)
      else if compile(Vertex, vert).Err? then Some(compile(Vertex, vert).error)
      else if geom.Some? && compile(Geometry, geom.value).Err? then Some(compile(Geometry, geom.value).error)
      else if compile(Fragment, frag).Err? then Some(compile(Fragment, frag).error)
      else None
  {
    var t := if tess.Some? then [(TessellationControl, tess.value.0), (TessellationEvaluation, tess.value.1)] else [];
    var g := if geom.Some? then [(Geometry, geom.value)] else [];
    FirstFailureAppend(compile, t + [(Vertex, vert)] + g, [(Fragment, frag)]);
    FirstFailureAppend(compile, t + [(Vertex, vert)], g);
    FirstFailureAppend(compile, t, [(Vertex, vert)]);
    if tess.Some? {
      assert t[1..] == [(TessellationEvaluation, tess.value.1)];
    }
  }

  /** The first failure of a concatenation is the first failure of its front part, else of its back part. */
  lemma {:induction false} FirstFailureAppend<S, E>(compile: (StageType, ShaderSource) -> Result<S, E>, a: seq<(StageType, ShaderSource)>, b: seq<(StageType, ShaderSource)>)
    ensures FirstFailure(compile, a + b) == if FirstFailure(compile, a).Some? then FirstFailure(compile, a) else FirstFailure(compile, b)
    decreases |a|
  {
    if |a| == 0 {
      assert a + b == b;
    } else {
      FirstFailureAppend(compile, a[1..], b);
      assert (a + b)[1..] == a[1..] + b;
      assert (a + b)[0] == a[0];
    }
  }
}
