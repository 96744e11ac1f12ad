/** `CrShader` and `Shader`: compiling two GL shaders and linking them into a program, and
    releasing the handles again. The WebGL context is an abstract `GL` whose outcomes are
    fixed by oracle constants and whose effects are a set of live handles and a call log. */
module Shaders {
  import opened Options
  import opened Eithers

  type Handle = nat

  datatype ShaderKind = VertexShader | FragmentShader

  /** The GL calls this code makes, in the order made. */
  datatype GLCall =
    | CreateShader(kind: ShaderKind)
    | ShaderSource(shader: Handle, source: string)
    | CompileShader(shader: Handle)
    | GetShaderParameter(shader: Handle)
    | GetShaderInfoLog(shader: Handle)
    | DeleteShader(shader: Handle)
    | CreateProgram
    | AttachShader(program: Handle, shader: Handle)
    | LinkProgram(program: Handle)
    | GetProgramParameter(program: Handle)
    | GetProgramInfoLog(program: Handle)
    | DeleteProgram(program: Handle)

  class GL {
    /** Whether `createShader(kind)` yields a handle rather than `null`. */
    const shaderAvailable: ShaderKind -> bool
    /** `getShaderParameter(s, COMPILE_STATUS)` for a shader of this kind and source. */
    const compiles: (ShaderKind, string) -> bool
    /** `getShaderInfoLog(s)` for a shader of this kind and source. */
    const shaderLog: (ShaderKind, string) -> Nullable<string>
    /** Whether `createProgram()` yields a handle rather than `null`. */
    const programAvailable: bool
    /** Whether the value returned by `linkProgram(p)` is truthy. WebGL's `linkProgram`
        returns `undefined`, so on a real context this is false. */
    const linkTruthy: bool
    /** `getProgramParameter(p, LINK_STATUS)`: whether linking succeeded. */
    const linkStatus: bool
    /** `getProgramInfoLog(p)`. */
    const programLog: Nullable<string>

    /** The next handle to hand out. */
    var next: Handle
    /** Handles created and not yet deleted. */
    var live: set<Handle>
    var calls: seq<GLCall>
    /** Kind and attached source of every shader handle created. */
    var kindOf: map<Handle, ShaderKind>
    var sourceOf: map<Handle, string>

    ghost predicate Valid()
      reads this
    {
      (forall h :: h in live ==> h < next) && (forall h :: h in kindOf ==> h < next)
    }

    constructor (shaderAvailable: ShaderKind -> bool, compiles: (ShaderKind, string) -> bool,
                 shaderLog: (ShaderKind, string) -> Nullable<string>, programAvailable: bool,
                 linkTruthy: bool, linkStatus: bool, programLog: Nullable<string>)
      ensures Valid() && live == {} && calls == [] && kindOf == map[] && sourceOf == map[]
      ensures this.shaderAvailable == shaderAvailable && this.compiles == compiles
      ensures this.shaderLog == shaderLog && this.programAvailable == programAvailable
      ensures this.linkTruthy == linkTruthy && this.linkStatus == linkStatus && this.programLog == programLog
    {
      this.shaderAvailable := shaderAvailable;
      this.compiles := compiles;
      this.shaderLog := shaderLog;
      this.programAvailable := programAvailable;
      this.linkTruthy := linkTruthy;
      this.linkStatus := linkStatus;
      this.programLog := programLog;
      next := 0;
      live := {};
      calls := [];
      kindOf := map[];
      sourceOf := map[];
    }

    method CreateShader(kind: ShaderKind) returns (h: Nullable<Handle>)
      requires Valid()
      modifies this
      ensures Valid() && calls == old(calls) + [GLCall.CreateShader(kind)] && sourceOf == old(sourceOf)
      ensures shaderAvailable(kind) ==>
                h == Val(old(next)) && old(next) !in old(live) && live == old(live) + {old(next)} &&
                next == old(next) + 1 && kindOf == old(kindOf)[old(next) := kind]
      ensures !shaderAvailable(kind) ==>
                h == Null && live == old(live) && next == old(next) && kindOf == old(kindOf)
    {
      calls := calls + [GLCall.CreateShader(kind)];
      if shaderAvailable(kind) {
        h := Val(next);
        live := live + {next};
        kindOf := kindOf[next := kind];
        next := next + 1;
      } else {
        h := Null;
      }
    }

    method ShaderSource(h: Handle, source: string)
      modifies this
      ensures calls == old(calls) + [GLCall.ShaderSource(h, source)] && sourceOf == old(sourceOf)[h := source]
      ensures live == old(live) && next == old(next) && kindOf == old(kindOf)
    {
      calls := calls + [GLCall.ShaderSource(h, source)];
      sourceOf := sourceOf[h := source];
    }

    method CompileShader(h: Handle)
      modifies this
      ensures calls == old(calls) + [GLCall.CompileShader(h)]
      ensures live == old(live) && next == old(next) && kindOf == old(kindOf) && sourceOf == old(sourceOf)
    {
      calls := calls + [GLCall.CompileShader(h)];
    }

    /** The compile status of `h`: false for a handle that never got a kind and a source. */
    method GetShaderParameter(h: Handle) returns (ok: bool)
      modifies this
      ensures calls == old(calls) + [GLCall.GetShaderParameter(h)]
      ensures live == old(live) && next == old(next) && kindOf == old(kindOf) && sourceOf == old(sourceOf)
      ensures ok <==> h in kindOf && h in sourceOf && compiles(kindOf[h], sourceOf[h])
    {
      calls := calls + [GLCall.GetShaderParameter(h)];
      ok := h in kindOf && h in sourceOf && compiles(kindOf[h], sourceOf[h]);
    }

    method GetShaderInfoLog(h: Handle) returns (log: Nullable<string>)
      modifies this
      ensures calls == old(calls) + [GLCall.GetShaderInfoLog(h)]
      ensures live == old(live) && next == old(next) && kindOf == old(kindOf) && sourceOf == old(sourceOf)
      ensures h in kindOf && h in sourceOf ==> log == shaderLog(kindOf[h], sourceOf[h])
      ensures !(h in kindOf && h in sourceOf) ==> log == Null
    {
      calls := calls + [GLCall.GetShaderInfoLog(h)];
      log := if h in kindOf && h in sourceOf then shaderLog(kindOf[h], sourceOf[h]) else Null;
    }

    method DeleteShader(h: Handle)
      modifies this
      ensures calls == old(calls) + [GLCall.DeleteShader(h)] && live == old(live) - {h}
      ensures next == old(next) && kindOf == old(kindOf) && sourceOf == old(sourceOf)
    {
      calls := calls + [GLCall.DeleteShader(h)];
      live := live - {h};
    }

    method CreateProgram() returns (p: Nullable<Handle>)
      requires Valid()
      modifies this
      ensures Valid() && calls == old(calls) + [GLCall.CreateProgram]
      ensures kindOf == old(kindOf) && sourceOf == old(sourceOf)
      ensures programAvailable ==>
                p == Val(old(next)) && old(next) !in old(live) && live == old(live) + {old(next)} &&
                next == old(next) + 1
      ensures !programAvailable ==> p == Null && live == old(live) && next == old(next)
    {
      calls := calls + [GLCall.CreateProgram];
      if programAvailable {
        p := Val(next);
        live := live + {next};
        next := next + 1;
      } else {
        p := Null;
      }
    }

    method AttachShader(p: Handle, s: Handle)
      modifies this
      ensures calls == old(calls) + [GLCall.AttachShader(p, s)]
      ensures live == old(live) && next == old(next) && kindOf == old(kindOf) && sourceOf == old(sourceOf)
    {
      calls := calls + [GLCall.AttachShader(p, s)];
    }

    /** `linkProgram(p)`, returning the truthiness of whatever the context returns. */
    method LinkProgram(p: Handle) returns (truthy: bool)
      modifies this
      ensures calls == old(calls) + [GLCall.LinkProgram(p)] && truthy == linkTruthy
      ensures live == old(live) && next == old(next) && kindOf == old(kindOf) && sourceOf == old(sourceOf)
    {
      calls := calls + [GLCall.LinkProgram(p)];
      truthy := linkTruthy;
    }

    method GetProgramParameter(p: Handle) returns (ok: bool)
      modifies this
      ensures calls == old(calls) + [GLCall.GetProgramParameter(p)] && ok == linkStatus
      ensures live == old(live) && next == old(next) && kindOf == old(kindOf) && sourceOf == old(sourceOf)
    {
      calls := calls + [GLCall.GetProgramParameter(p)];
      ok := linkStatus;
    }

    method GetProgramInfoLog(p: Handle) returns (log: Nullable<string>)
      modifies this
      ensures calls == old(calls) + [GLCall.GetProgramInfoLog(p)] && log == programLog
      ensures live == old(live) && next == old(next) && kindOf == old(kindOf) && sourceOf == old(sourceOf)
    {
      calls := calls + [GLCall.GetProgramInfoLog(p)];
      log := programLog;
    }

    method DeleteProgram(p: Handle)
      modifies this
      ensures calls == old(calls) + [GLCall.DeleteProgram(p)] && live == old(live) - {p}
      ensures next == old(next) && kindOf == old(kindOf) && sourceOf == old(sourceOf)
    {
      calls := calls + [GLCall.DeleteProgram(p)];
      live := live - {p};
    }
  }

  const NoShader := "Error requesting new WebGLShader"
  const UnknownCompileError := "Unknown error on shader compilation"
  const NoProgram := "Error requesting new WebGLProgram"
  const UnknownLinkError := "Unknown error on program linking"
  const Deleted := "Deleted"
  const CompileHeader := "Error on shader compilation: \n"
  /** The indentation the message's template literal carries on its continuation lines. */
  const Indent := "                "

  /** The handles an outcome holds: its handle if it is `Right`, none otherwise. */
  function Held(e: Either<string, Handle>): set<Handle> {
    if e.Right? then {e.right} else {}
  }

  /** The next free handle after compiling a `kind` shader from `next` on. */
  function NextAfter(gl: GL, kind: ShaderKind, next: Handle): Handle {
    if gl.shaderAvailable(kind) then next + 1 else next
  }

  /** What compiling `source` as a `kind` shader stores, when a new shader would get handle `h`. */
  function CompileOutcome(gl: GL, kind: ShaderKind, source: string, h: Handle): (r: Either<string, Handle>)
    ensures r.Right? <==> gl.shaderAvailable(kind) && gl.compiles(kind, source)
    ensures r.Right? ==> r.right == h
    ensures !gl.shaderAvailable(kind) ==> r == Left(NoShader)
    ensures gl.shaderAvailable(kind) && !gl.compiles(kind, source) ==>
              r == Left(FromNullable(gl.shaderLog(kind, source)).GetOrElse(() => UnknownCompileError))
  {
    if !gl.shaderAvailable(kind) then Left(NoShader)
    else if gl.compiles(kind, source) then Right(h)
    else Left(FromNullable(gl.shaderLog(kind, source)).GetOrElse(() => UnknownCompileError))
  }

  /** The calls made on a new handle `h`: source, compile, status, and on failure log and delete. */
  function CompileSteps(gl: GL, kind: ShaderKind, source: string, h: Handle): seq<GLCall> {
    [ShaderSource(h, source), CompileShader(h), GetShaderParameter(h)] +
    (if gl.compiles(kind, source) then [] else [GetShaderInfoLog(h), DeleteShader(h)])
  }

  /** The GL calls that compiling `source` as a `kind` shader makes. */
  function CompileCalls(gl: GL, kind: ShaderKind, source: string, h: Handle): (c: seq<GLCall>)
    ensures |c| >= 1 && c[0] == CreateShader(kind)
    ensures !gl.shaderAvailable(kind) ==> c == [CreateShader(kind)]
    ensures DeleteShader(h) in c <==> gl.shaderAvailable(kind) && !gl.compiles(kind, source)
    ensures CreateProgram !in c
  {
    [CreateShader(kind)] + (if gl.shaderAvailable(kind) then CompileSteps(gl, kind, source, h) else [])
  }


  /** One stage in the failure message: its error, or `Success`. */
  function StageReport(stage: Either<string, Handle>): (s: string)
    ensures stage.Left? ==> s == stage.left
    ensures stage.Right? ==> s == "Success"
  {
    stage.Swap().GetOrElse(() => "Success")
  }

  /** The message stored when either stage failed; the misspelling is the program's own. */
  function CompileReport(vs: Either<string, Handle>, fs: Either<string, Handle>): (s: string)
    ensures |s| >= |CompileHeader| && s[..|CompileHeader|] == CompileHeader
    ensures |s| >= |StageReport(fs)| && s[|s| - |StageReport(fs)|..] == StageReport(fs)
  {
    CompileHeader + Indent + "Vertex shader: " + StageReport(vs) + "\n" +
    Indent + "Fargment shader: " + StageReport(fs)
  }

  /** What the program becomes from the two compile outcomes, a new program getting handle `p`,
      when success is read off the value `linkProgram` returns (as the constructor is written). */
  function LinkOutcome(gl: GL, vs: Either<string, Handle>, fs: Either<string, Handle>, p: Handle): (r: Either<string, Handle>)
    ensures r.Right? <==> vs.Right? && fs.Right? && gl.programAvailable && gl.linkTruthy
    ensures r.Right? ==> r.right == p
  {
    if !(vs.Right? && fs.Right?) then Left(CompileReport(vs, fs))
    else if !gl.programAvailable then Left(NoProgram)
    else if gl.linkTruthy then Right(p)
    else Left(FromNullable(gl.programLog).GetOrElse(() => UnknownLinkError))
  }

  /** The GL calls that requesting and linking the program makes, as the constructor is written. */
  function LinkCalls(gl: GL, vs: Either<string, Handle>, fs: Either<string, Handle>, p: Handle): seq<GLCall> {
    if !(vs.Right? && fs.Right?) then []
    else if !gl.programAvailable then [CreateProgram]
    else
      [CreateProgram, AttachShader(p, vs.right), AttachShader(p, fs.right), LinkProgram(p), LinkProgram(p)] +
      (if gl.linkTruthy then [] else [GetProgramInfoLog(p), DeleteProgram(p)])
  }

  /** The program outcome when success is read from `getProgramParameter(p, LINK_STATUS)`. */
  function CheckedLinkOutcome(gl: GL, vs: Either<string, Handle>, fs: Either<string, Handle>, p: Handle): (r: Either<string, Handle>)
    ensures r.Right? <==> vs.Right? && fs.Right? && gl.programAvailable && gl.linkStatus
    ensures r.Right? ==> r.right == p
  {
    if !(vs.Right? && fs.Right?) then Left(CompileReport(vs, fs))
    else if !gl.programAvailable then Left(NoProgram)
    else if gl.linkStatus then Right(p)
    else Left(FromNullable(gl.programLog).GetOrElse(() => UnknownLinkError))
  }

  /** The GL calls of the link step that checks `LINK_STATUS`. */
  function CheckedLinkCalls(gl: GL, vs: Either<string, Handle>, fs: Either<string, Handle>, p: Handle): seq<GLCall> {
    if !(vs.Right? && fs.Right?) then []
    else if !gl.programAvailable then [CreateProgram]
    else
      [CreateProgram, AttachShader(p, vs.right), AttachShader(p, fs.right), LinkProgram(p), GetProgramParameter(p)] +
      (if gl.linkStatus then [] else [GetProgramInfoLog(p), DeleteProgram(p)])
  }

  /** A program is requested only when both shaders compiled; otherwise the stored message
      reports each stage's error, or `Success` for a stage that compiled. */
  lemma ProgramOnlyAfterBothCompiled(gl: GL, vs: Either<string, Handle>, fs: Either<string, Handle>, p: Handle)
    ensures CreateProgram in LinkCalls(gl, vs, fs, p) <==> vs.Right? && fs.Right?
    ensures !(vs.Right? && fs.Right?) ==>
              LinkCalls(gl, vs, fs, p) == [] && LinkOutcome(gl, vs, fs, p) == Left(CompileReport(vs, fs))
    ensures vs.Left? && fs.Right? ==>
              CompileReport(vs, fs) == "Error on shader compilation: \n" + Indent + "Vertex shader: " + vs.left +
                                       "\n" + Indent + "Fargment shader: Success"
  {
  }

  /** A missing program is reported; a failed link deletes the program it was given. */
  lemma ProgramFailures(gl: GL, vs: Either<string, Handle>, fs: Either<string, Handle>, p: Handle)
    requires vs.Right? && fs.Right?
    ensures !gl.programAvailable ==> LinkOutcome(gl, vs, fs, p) == Left(NoProgram)
    ensures gl.programAvailable ==> (DeleteProgram(p) in LinkCalls(gl, vs, fs, p) <==> !gl.linkTruthy)
    ensures gl.programAvailable && !gl.linkTruthy ==>
              LinkOutcome(gl, vs, fs, p) == Left(FromNullable(gl.programLog).GetOrElse(() => UnknownLinkError))
  {
  }

  /** When `linkProgram` returns something falsy, as WebGL's `undefined` is, the program
      field always ends up `Left`. */
  lemma FalsyLinkAlwaysLeft(gl: GL, vs: Either<string, Handle>, fs: Either<string, Handle>, p: Handle)
    requires !gl.linkTruthy
    ensures LinkOutcome(gl, vs, fs, p).Left?
  {
  }

  /** On a WebGL context whose link succeeds, the code as written still discards the program,
      while checking `LINK_STATUS` keeps it. */
  lemma LinkReturnDiscardsProgram(gl: GL, vs: Either<string, Handle>, fs: Either<string, Handle>, p: Handle)
    requires vs.Right? && fs.Right? && gl.programAvailable && !gl.linkTruthy && gl.linkStatus
    ensures LinkOutcome(gl, vs, fs, p).Left? && DeleteProgram(p) in LinkCalls(gl, vs, fs, p)
    ensures CheckedLinkOutcome(gl, vs, fs, p) == Right(p) && DeleteProgram(p) !in CheckedLinkCalls(gl, vs, fs, p)
  {
  }

  /** With `LINK_STATUS` checked, a program is kept exactly when both shaders compiled, a program
      was created and it linked; a program that was not kept was deleted. */
  lemma CheckedLinkSpec(gl: GL, vs: Either<string, Handle>, fs: Either<string, Handle>, p: Handle)
    ensures CheckedLinkOutcome(gl, vs, fs, p).Right? <==>
              vs.Right? && fs.Right? && gl.programAvailable && gl.linkStatus
    ensures CheckedLinkOutcome(gl, vs, fs, p).Right? ==> CheckedLinkOutcome(gl, vs, fs, p).right == p
    ensures vs.Right? && fs.Right? && gl.programAvailable ==>
              (DeleteProgram(p) in CheckedLinkCalls(gl, vs, fs, p) <==> CheckedLinkOutcome(gl, vs, fs, p).Left?)
    ensures !(vs.Right? && fs.Right?) ==> CheckedLinkOutcome(gl, vs, fs, p) == LinkOutcome(gl, vs, fs, p)
  {
  }

  /** The `flatMap` step of the `CrShader` constructor on a new handle `h`: attach the source,
      compile, and keep the handle or delete it and report the info log. */
  method CompileHandle(gl: GL, h: Handle, kind: ShaderKind, source: string) returns (shader: Either<string, Handle>)
    requires gl.Valid() && h in gl.kindOf && gl.kindOf[h] == kind
    modifies gl
    ensures gl.Valid() && gl.next == old(gl.next) && gl.kindOf == old(gl.kindOf)
    ensures gl.shaderAvailable(kind) ==> shader == CompileOutcome(gl, kind, source, h)
    ensures gl.calls == old(gl.calls) + CompileSteps(gl, kind, source, h)
    ensures gl.live == old(gl.live) - (if gl.compiles(kind, source) then {} else {h})
  {
    gl.ShaderSource(h, source);
    gl.CompileShader(h);
    var ok := gl.GetShaderParameter(h);
    if ok {
      shader := Right(h);
    } else {
      var log := gl.GetShaderInfoLog(h);
      var msg := FromNullable(log).GetOrElse(() => UnknownCompileError);
      gl.DeleteShader(h);
      shader := Left(msg);
    }
  }

  /** `CrShader`: one compiled GL shader, or the reason there is none. */
  class CrShader {
    const gl: GL
    var shader: Either<string, Handle>
    /** The kind of shader requested, kept for stating what a held handle is. */
    ghost const kind: ShaderKind

    /** A held shader is a live handle of the requested kind. */
    ghost predicate Valid()
      reads this, gl
    {
      gl.Valid() && (shader.Right? ==> shader.right in gl.live && shader.right in gl.kindOf && gl.kindOf[shader.right] == kind)
    }

    constructor (gl: GL, kind: ShaderKind, source: string)
      requires gl.Valid()
      modifies gl
      ensures this.gl == gl && this.kind == kind && Valid()
      ensures shader == CompileOutcome(gl, kind, source, old(gl.next))
      ensures gl.calls == old(gl.calls) + CompileCalls(gl, kind, source, old(gl.next))
      ensures gl.live == old(gl.live) + Held(shader)
      ensures shader.Right? ==> shader.right !in old(gl.live)
      ensures gl.next == NextAfter(gl, kind, old(gl.next))
    {
      this.gl := gl;
      this.kind := kind;
      ghost var calls0 := gl.calls;
      var created := gl.CreateShader(kind);
      // `Option(created).fold(() => Left(..), s => Right(s))`, then `flatMap` on the handle
      match created {
        case Val(h) =>
          var outcome := CompileHandle(gl, h, kind, source);
          shader := outcome;
          assert gl.calls == calls0 + ([CreateShader(kind)] + CompileSteps(gl, kind, source, h));
        case _ =>
          shader := Left(NoShader);
      }
    }

    /** `get`: the compiled shader, a live handle of the requested kind, or the error. */
    function Get(): (r: Either<string, Handle>)
      requires Valid()
      reads this, gl
      ensures r.Right? ==> r.right in gl.live && r.right in gl.kindOf && gl.kindOf[r.right] == kind
    {
      shader
    }

    /** `release`: a held shader is deleted once and forgotten; otherwise nothing happens. */
    method Release()
      modifies this, gl
      ensures shader == (if old(shader).Right? then Left(Deleted) else old(shader))
      ensures gl.calls == old(gl.calls) + (if old(shader).Right? then [DeleteShader(old(shader).right)] else [])
      ensures gl.live == old(gl.live) - Held(old(shader))
      ensures gl.next == old(gl.next) && gl.kindOf == old(gl.kindOf) && gl.sourceOf == old(gl.sourceOf)
      ensures old(gl.Valid()) ==> Valid()
    {
      match shader {
        case Left(_) =>
        case Right(s) =>
          gl.DeleteShader(s);
          shader := Left(Deleted);
      }
    }
  }

  /** The two compile stages of the `Shader` constructor: the vertex shader first, then the
      fragment shader, whatever became of the first. */
  method CompileStages(gl: GL, vertexSource: string, fragmentSource: string)
    returns (vs: Either<string, Handle>, fs: Either<string, Handle>)
    requires gl.Valid()
    modifies gl
    ensures gl.Valid()
    ensures vs == CompileOutcome(gl, VertexShader, vertexSource, old(gl.next))
    ensures fs == CompileOutcome(gl, FragmentShader, fragmentSource, NextAfter(gl, VertexShader, old(gl.next)))
    ensures gl.next == NextAfter(gl, FragmentShader, NextAfter(gl, VertexShader, old(gl.next)))
    ensures gl.calls == old(gl.calls) + CompileCalls(gl, VertexShader, vertexSource, old(gl.next)) +
                        CompileCalls(gl, FragmentShader, fragmentSource, NextAfter(gl, VertexShader, old(gl.next)))
    ensures gl.live == old(gl.live) + Held(vs) + Held(fs)
  {
    var vShader := new CrShader(gl, VertexShader, vertexSource);
    vs := vShader.Get();
    var fShader := new CrShader(gl, FragmentShader, fragmentSource);
    fs := fShader.Get();
  }

  /** The link step of the `Shader` constructor as written: success is the truthiness of the
      second `linkProgram` call's return value. */
  method Link(gl: GL, vs: Either<string, Handle>, fs: Either<string, Handle>) returns (program: Either<string, Handle>)
    requires gl.Valid() && (vs.Right? ==> vs.right < gl.next) && (fs.Right? ==> fs.right < gl.next)
    modifies gl
    ensures gl.Valid()
    ensures program == LinkOutcome(gl, vs, fs, old(gl.next))
    ensures gl.calls == old(gl.calls) + LinkCalls(gl, vs, fs, old(gl.next))
    ensures gl.live == old(gl.live) + Held(program)
  {
    if vs.Right? && fs.Right? {
      ghost var calls0, live0 := gl.calls, gl.live;
      var created := gl.CreateProgram();
      // `Option(created).fold(() => Left(..), s => Right(s))`, then `flatMap` on the program
      match created {
        case Val(p) =>
          gl.AttachShader(p, vs.right);
          gl.AttachShader(p, fs.right);
          var _ := gl.LinkProgram(p);
          var linked := gl.LinkProgram(p);
          ghost var calls1 := calls0 + [CreateProgram, AttachShader(p, vs.right), AttachShader(p, fs.right),
                                        LinkProgram(p), LinkProgram(p)];
          assert gl.calls == calls1 && gl.live == live0 + {p} && p !in live0;
          if linked {
            program := Right(p);
          } else {
            var log := gl.GetProgramInfoLog(p);
            var msg := FromNullable(log).GetOrElse(() => UnknownLinkError);
            gl.DeleteProgram(p);
            program := Left(msg);
            assert gl.calls == calls1 + [GetProgramInfoLog(p), DeleteProgram(p)];
          }
        case _ =>
          program := Left(NoProgram);
      }
    } else {
      program := Left(CompileReport(vs, fs));
    }
  }

  /** The link step with success read from `getProgramParameter(p, LINK_STATUS)`. */
  method CheckedLink(gl: GL, vs: Either<string, Handle>, fs: Either<string, Handle>) returns (program: Either<string, Handle>)
    requires gl.Valid() && (vs.Right? ==> vs.right < gl.next) && (fs.Right? ==> fs.right < gl.next)
    modifies gl
    ensures gl.Valid()
    ensures program == CheckedLinkOutcome(gl, vs, fs, old(gl.next))
    ensures gl.calls == old(gl.calls) + CheckedLinkCalls(gl, vs, fs, old(gl.next))
    ensures gl.live == old(gl.live) + Held(program)
  {
    if vs.Right? && fs.Right? {
      ghost var calls0, live0 := gl.calls, gl.live;
      var created := gl.CreateProgram();
      match created {
        case Val(p) =>
          gl.AttachShader(p, vs.right);
          gl.AttachShader(p, fs.right);
          var _ := gl.LinkProgram(p);
          var linked := gl.GetProgramParameter(p);
          ghost var calls1 := calls0 + [CreateProgram, AttachShader(p, vs.right), AttachShader(p, fs.right),
                                        LinkProgram(p), GetProgramParameter(p)];
          assert gl.calls == calls1 && gl.live == live0 + {p} && p !in live0;
          if linked {
            program := Right(p);
          } else {
            var log := gl.GetProgramInfoLog(p);
            var msg := FromNullable(log).GetOrElse(() => UnknownLinkError);
            gl.DeleteProgram(p);
            program := Left(msg);
            assert gl.calls == calls1 + [GetProgramInfoLog(p), DeleteProgram(p)];
          }
        case _ =>
          program := Left(NoProgram);
      }
    } else {
      program := Left(CompileReport(vs, fs));
    }
  }

  /** `Shader`: a linked GL program built from a vertex and a fragment shader. */
  class Shader {
    const gl: GL
    var program: Either<string, Handle>
    /** The two compile outcomes, kept for stating what construction did. */
    ghost const vs: Either<string, Handle>
    ghost const fs: Either<string, Handle>

    /** The constructor as written. Compiled shaders stay live whether or not a program results. */
    constructor (gl: GL, vertexSource: string, fragmentSource: string)
      requires gl.Valid()
      modifies gl
      ensures this.gl == gl && gl.Valid()
      ensures vs == CompileOutcome(gl, VertexShader, vertexSource, old(gl.next))
      ensures fs == CompileOutcome(gl, FragmentShader, fragmentSource, NextAfter(gl, VertexShader, old(gl.next)))
      ensures program == LinkOutcome(gl, vs, fs, NextAfter(gl, FragmentShader, NextAfter(gl, VertexShader, old(gl.next))))
      ensures gl.calls == old(gl.calls) +
                CompileCalls(gl, VertexShader, vertexSource, old(gl.next)) +
                CompileCalls(gl, FragmentShader, fragmentSource, NextAfter(gl, VertexShader, old(gl.next))) +
                LinkCalls(gl, vs, fs, NextAfter(gl, FragmentShader, NextAfter(gl, VertexShader, old(gl.next))))
      ensures gl.live == old(gl.live) + Held(vs) + Held(fs) + Held(program)
    {
      this.gl := gl;
      var vsE, fsE := CompileStages(gl, vertexSource, fragmentSource);
      var p := Link(gl, vsE, fsE);
      vs, fs, program := vsE, fsE, p;
    }

    /** The constructor with the link checked through `LINK_STATUS`. */
    constructor Checked(gl: GL, vertexSource: string, fragmentSource: string)
      requires gl.Valid()
      modifies gl
      ensures this.gl == gl && gl.Valid()
      ensures vs == CompileOutcome(gl, VertexShader, vertexSource, old(gl.next))
      ensures fs == CompileOutcome(gl, FragmentShader, fragmentSource, NextAfter(gl, VertexShader, old(gl.next)))
      ensures program == CheckedLinkOutcome(gl, vs, fs, NextAfter(gl, FragmentShader, NextAfter(gl, VertexShader, old(gl.next))))
      ensures gl.calls == old(gl.calls) +
                CompileCalls(gl, VertexShader, vertexSource, old(gl.next)) +
                CompileCalls(gl, FragmentShader, fragmentSource, NextAfter(gl, VertexShader, old(gl.next))) +
                CheckedLinkCalls(gl, vs, fs, NextAfter(gl, FragmentShader, NextAfter(gl, VertexShader, old(gl.next))))
      ensures gl.live == old(gl.live) + Held(vs) + Held(fs) + Held(program)
    {
      this.gl := gl;
      var vsE, fsE := CompileStages(gl, vertexSource, fragmentSource);
      var p := CheckedLink(gl, vsE, fsE);
      vs, fs, program := vsE, fsE, p;
    }

    /** `release`: deletes the program if there is one, and never the shaders. */
    method Release()
      modifies this, gl
      ensures program == (if old(program).Right? then Left(Deleted) else old(program))
      ensures gl.calls == old(gl.calls) + (if old(program).Right? then [DeleteProgram(old(program).right)] else [])
      ensures gl.live == old(gl.live) - Held(old(program))
      ensures gl.next == old(gl.next) && gl.kindOf == old(gl.kindOf) && gl.sourceOf == old(gl.sourceOf)
      ensures old(gl.Valid()) ==> gl.Valid()
    {
      match program {
        case Left(_) =>
        case Right(p) =>
          gl.DeleteProgram(p);
          program := Left(Deleted);
      }
    }
  }

  /** Releasing a shader twice deletes its handle at most once. */
  method ReleaseTwice(s: CrShader)
    modifies s, s.gl
    ensures s.shader.Left?
    ensures s.gl.calls == old(s.gl.calls) + (if old(s.shader).Right? then [DeleteShader(old(s.shader).right)] else [])
  {
    s.Release();
    s.Release();
  }
}
