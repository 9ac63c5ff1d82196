/**
 * The controller side of the copy action (`ActionModule.run`): validate the
 * arguments, select the local source, resolve the remote destination with one or
 * two checksum probes, and then either hand the destination to the `file` module,
 * answer a check-mode preview, or stage the file and hand it to the `copy` module.
 */
module CopyAction {
  import opened Wrappers
  import opened Paths
  import opened Effects
  import opened DiffData

  const MsgRequired := "src (or content) and dest are required"
  const MsgExclusive := "src and content are mutually exclusive"
  const MsgNoCandidate := "could not find src in first_available_file list"
  const MsgWriteFailed := "could not write content temp file: "
  const MsgNoSource := "could not find src="
  const MsgContentDir := "can not use content with a dir as dest"

  /** What the remote md5 probe answers for a destination that is a directory. */
  const DirectorySentinel := "3"

  /** The action's arguments: the raw `key=value` string, the structured
      arguments, and the `first_available_file` list when the variables hold one. */
  datatype Request = Request(
    moduleArgs: string,
    complexArgs: map<string, string>,
    firstAvailable: Option<seq<string>>)

  /** Everything the action learns from collaborators, as values and functions. */
  datatype Env = Env(
    parseKv: string -> map<string, string>,   // utils.parse_kv
    template: string -> string,               // utils.template against the variables
    dwim: string -> string,                   // utils.path_dwim against the base directory
    pathExists: string -> bool,               // os.path.exists on the controller
    tempPath: string,                         // the path tempfile.mkstemp hands out
    writeError: Option<string>,               // the error writing inline content raises, if any
    md5: string -> Option<string>,            // utils.md5 of a local file
    remoteMd5: string -> string,              // the runner's remote md5 probe
    remote: DiffEnv)                          // what the diff preview consults

  /** The runner's flags and the remote temporary directory. */
  datatype Config = Config(
    diff: bool,
    check: bool,
    sudo: bool,
    sudoUser: string,
    tmp: string,
    maxDiffSize: nat)

  /** What the action returns: a failure, a check-mode `changed` answer with its
      diff, the result of a module it delegates to, or an exception. */
  datatype Outcome =
    | Failed(msg: string)
    | Changed(diff: Diff)
    | Delegated(moduleName: string, args: string)
    | Raised(encoding: string)

  // ---------------------------------------------------------------------
  // The stages of the action, as functions of the request
  // ---------------------------------------------------------------------

  /** The options: the structured arguments, overridden by the parsed string. */
  function Options(req: Request, env: Env): map<string, string>
  {
    req.complexArgs + env.parseKv(req.moduleArgs)
  }

  function Get(m: map<string, string>, key: string): Option<string>
  {
    if key in m then Some(m[key]) else None
  }

  function Src(req: Request, env: Env): Option<string> { Get(Options(req, env), "src") }
  function Content(req: Request, env: Env): Option<string> { Get(Options(req, env), "content") }
  function DestArg(req: Request, env: Env): Option<string> { Get(Options(req, env), "dest") }

  predicate MissingRequired(req: Request, env: Env)
  {
    (Src(req, env).None? && Content(req, env).None? && req.firstAvailable.None?)
    || DestArg(req, env).None?
  }

  predicate MutuallyExclusive(req: Request, env: Env)
  {
    (Src(req, env).Some? || req.firstAvailable.Some?) && Content(req, env).Some?
  }

  predicate ArgsValid(req: Request, env: Env)
  {
    !MissingRequired(req, env) && !MutuallyExclusive(req, env)
  }

  function Resolve(env: Env, name: string): string
  {
    env.dwim(env.template(name))
  }

  /** The first candidate, in list order, whose resolved path exists. */
  function FirstExisting(env: Env, cands: seq<string>): (r: Option<string>)
    ensures r.Some? ==> env.pathExists(r.value)
    ensures r.None? <==> forall i :: 0 <= i < |cands| ==> !env.pathExists(Resolve(env, cands[i]))
  {
    if cands == [] then None
    else if env.pathExists(Resolve(env, cands[0])) then Some(Resolve(env, cands[0]))
    else
      assert forall i :: 1 <= i < |cands| ==> cands[i] == cands[1..][i - 1];
      FirstExisting(env, cands[1..])
  }

  datatype Selection = Selected(source: string) | NotSelected(msg: string)

  /** Source selection: the first available file, else inline content written to
      the temp file, else the resolved `src`. */
  function SelectFrom(env: Env, firstAvailable: Option<seq<string>>, content: Option<string>,
                      src: Option<string>): Selection
    requires firstAvailable.Some? || content.Some? || src.Some?
  {
    if firstAvailable.Some? then
      match FirstExisting(env, firstAvailable.value)
      case Some(p) => Selected(p)
      case None => NotSelected(MsgNoCandidate)
    else if content.Some? then
      if env.writeError.Some? then NotSelected(MsgWriteFailed + env.writeError.value)
      else Selected(env.tempPath)
    else Selected(Resolve(env, src.value))
  }

  /** The steps of source selection: the temp file written with the inline
      content, removed again when writing to it fails. */
  function SelectSteps(env: Env, firstAvailable: Option<seq<string>>, content: Option<string>,
                       sel: Selection): seq<Effect>
  {
    if firstAvailable.None? && content.Some? then
      [CreateTemp(env.tempPath, content.value)] + (if sel.NotSelected? then [RemoveTemp(env.tempPath)] else [])
    else []
  }

  /** The destination probed first: a trailing '/' already names the file. */
  function FirstDestOf(dest: string, source: string): string
  {
    if EndsWithSlash(dest) then Join(dest, Basename(source)) else dest
  }

  /** The destination whose checksum is compared: one level down when the first
      probe answered with the directory sentinel. */
  function FinalDestOf(env: Env, dest: string, source: string): string
  {
    var first := FirstDestOf(dest, source);
    if env.remoteMd5(first) == DirectorySentinel then Join(first, Basename(source)) else first
  }

  function ProbeSteps(env: Env, dest: string, source: string): seq<Effect>
  {
    var first := FirstDestOf(dest, source);
    [Probe(first)] + (if env.remoteMd5(first) == DirectorySentinel then [Probe(FinalDestOf(env, dest, source))] else [])
  }

  /** Where the source is staged on the remote peer. */
  function StagedPath(cfg: Config, source: string): string
  {
    cfg.tmp + Basename(source)
  }

  function FileArgs(moduleArgs: string, cfg: Config, source: string): string
  {
    moduleArgs + " src=" + StagedPath(cfg, source) + (if cfg.check then CheckModeFlag else "")
  }

  function CopyArgs(moduleArgs: string, cfg: Config, source: string): string
  {
    moduleArgs + " src=" + StagedPath(cfg, source)
  }

  /** Releasing the temp file that holds inline content, when there is one. */
  function ReleaseTemp(inline: bool, tmpContent: string): seq<Effect>
  {
    if inline then [RemoveTemp(tmpContent)] else []
  }

  /** The permission fix-up: only under sudo to a user other than root. */
  function Permissions(cfg: Config, staged: string): seq<Effect>
  {
    if cfg.sudo && cfg.sudoUser != "root" then [RemoteCommand("chmod a+r " + staged)] else []
  }

  /** The diff preview, computed only when diffs are enabled. */
  function PreviewResult(remote: DiffEnv, cfg: Config, dest: string, source: string): DiffResult
  {
    if cfg.diff then
      ClassifyDiff(remote.peek(dest), remote.slurp(dest), remote.b64decode, remote.readLocal(source),
                   dest, source, cfg.maxDiffSize)
    else DiffOk(NoDiff)
  }

  function PreviewReads(remote: DiffEnv, cfg: Config, dest: string, source: string): seq<Effect>
  {
    if cfg.diff then
      DiffReads(remote.peek(dest), PreviewResult(remote, cfg, dest, source), dest, source, cfg.maxDiffSize)
    else []
  }

  /** The result of an action: its outcome and the steps it took, in order. */
  datatype RunResult = RunResult(out: Outcome, trace: seq<Effect>)

  /** The branches after the checksum comparison (equal checksums go to the
      `file` module; different ones compute the preview first, then answer in
      check mode or stage, release, fix permissions and run the `copy` module). */
  function TransferSpec(moduleArgs: string, source: string, dest: string, localMd5: string,
                        remoteMd5: string, inline: bool, tmpContent: string, remote: DiffEnv,
                        cfg: Config): RunResult
  {
    if localMd5 == remoteMd5 then
      var args := FileArgs(moduleArgs, cfg, source);
      RunResult(Delegated("file", args), ReleaseTemp(inline, tmpContent) + [ExecModule("file", args)])
    else
      var preview := PreviewResult(remote, cfg, dest, source);
      var looked := PreviewReads(remote, cfg, dest, source);
      if preview.UnknownEncoding? then RunResult(Raised(preview.encoding), looked)
      else if cfg.check then RunResult(Changed(preview.diff), looked + ReleaseTemp(inline, tmpContent))
      else
        var staged := StagedPath(cfg, source);
        var args := CopyArgs(moduleArgs, cfg, source);
        RunResult(Delegated("copy", args),
                  looked + [PutFile(source, staged)] + ReleaseTemp(inline, tmpContent)
                  + Permissions(cfg, staged) + [ExecModule("copy", args)])
  }

  /** Everything after source selection: the local checksum, destination
      resolution and the comparison branches. */
  function FromSource(env: Env, cfg: Config, moduleArgs: string, dest: string, source: string,
                      inline: bool): RunResult
  {
    var tmpContent := env.tempPath;
    var local := env.md5(source);
    if local.None? then RunResult(Failed(MsgNoSource + source), [])
    else
      var first := FirstDestOf(dest, source);
      if env.remoteMd5(first) == DirectorySentinel && inline then
        RunResult(Failed(MsgContentDir), [Probe(first), RemoveTemp(tmpContent)])
      else
        var finish := Finish(env, cfg, moduleArgs, dest, source, inline);
        RunResult(finish.out, ProbeSteps(env, dest, source) + finish.trace)
  }

  /** The comparison branches as they follow destination resolution. */
  function Finish(env: Env, cfg: Config, moduleArgs: string, dest: string, source: string, inline: bool): RunResult
    requires env.md5(source).Some?
  {
    var final := FinalDestOf(env, dest, source);
    TransferSpec(moduleArgs, source, final, env.md5(source).value, env.remoteMd5(final),
                 inline, env.tempPath, env.remote, cfg)
  }

  /** What `run` does on a request: validation, then selection, then the rest. */
  function Expected(req: Request, env: Env, cfg: Config): RunResult
  {
    if MissingRequired(req, env) then RunResult(Failed(MsgRequired), [])
    else if MutuallyExclusive(req, env) then RunResult(Failed(MsgExclusive), [])
    else
      var content := Content(req, env);
      var sel := SelectFrom(env, req.firstAvailable, content, Src(req, env));
      var setup := SelectSteps(env, req.firstAvailable, content, sel);
      match sel
      case NotSelected(msg) => RunResult(Failed(msg), setup)
      case Selected(source) =>
        var rest := FromSource(env, cfg, req.moduleArgs, DestArg(req, env).value, source, content.Some?);
        RunResult(rest.out, setup + rest.trace)
  }

  // ---------------------------------------------------------------------
  // The action
  // ---------------------------------------------------------------------

  /** The source-selection steps of `run`: the `first_available_file` loop, or the
      temp file for inline content, or the templated `src`. */
  method ChooseSource(env: Env, firstAvailable: Option<seq<string>>, content: Option<string>,
                      src: Option<string>)
    returns (sel: Selection, steps: seq<Effect>)
    requires firstAvailable.Some? || content.Some? || src.Some?
    ensures sel == SelectFrom(env, firstAvailable, content, src)
    ensures steps == SelectSteps(env, firstAvailable, content, sel)
  {
    steps := [];
    if firstAvailable.Some? {
      var cands := firstAvailable.value;
      var found := false;
      var source := "";
      var i := 0;
      while i < |cands|
        invariant 0 <= i <= |cands|
        invariant FirstExisting(env, cands) == FirstExisting(env, cands[i..])
      {
        var fn := env.template(cands[i]);
        fn := env.dwim(fn);
        if env.pathExists(fn) {
          source := fn;
          found := true;
          break;
        }
        assert cands[i..][1..] == cands[i + 1..];
        i := i + 1;
      }
      if !found {
        return NotSelected(MsgNoCandidate), steps;
      }
      return Selected(source), steps;
    } else if content.Some? {
      var tmpContent := env.tempPath;
      steps := steps + [CreateTemp(tmpContent, content.value)];
      if env.writeError.Some? {
        steps := steps + [RemoveTemp(tmpContent)];
        return NotSelected(MsgWriteFailed + env.writeError.value), steps;
      }
      return Selected(tmpContent), steps;
    } else {
      var source := env.template(src.value);
      source := env.dwim(source);
      return Selected(source), steps;
    }
  }

  /** Destination resolution: the trailing-'/' rewrite, the first probe and, when
      it answers with the directory sentinel, a failure for inline content or one
      more probe one level down. */
  method ProbeDestination(env: Env, dest: string, source: string, inline: bool, tmpContent: string)
    returns (conflict: bool, d: string, remoteMd5: string, steps: seq<Effect>)
    ensures conflict <==> env.remoteMd5(FirstDestOf(dest, source)) == DirectorySentinel && inline
    ensures conflict ==> steps == [Probe(FirstDestOf(dest, source)), RemoveTemp(tmpContent)]
    ensures !conflict ==>
      d == FinalDestOf(env, dest, source) && remoteMd5 == env.remoteMd5(d) &&
      steps == ProbeSteps(env, dest, source)
  {
    d := dest;
    if EndsWithSlash(d) {
      d := Join(d, Basename(source));
    }
    steps := [Probe(d)];
    remoteMd5 := env.remoteMd5(d);
    if remoteMd5 == DirectorySentinel {
      if inline {
        steps := steps + [RemoveTemp(tmpContent)];
        return true, d, remoteMd5, steps;
      }
      d := Join(d, Basename(source));
      steps := steps + [Probe(d)];
      remoteMd5 := env.remoteMd5(d);
    }
    conflict := false;
  }

  /** The branches after the checksum comparison. */
  method Transfer(moduleArgs: string, source: string, dest: string, localMd5: string,
                  remoteMd5: string, inline: bool, tmpContent: string, remote: DiffEnv,
                  cfg: Config)
    returns (out: Outcome, steps: seq<Effect>)
    ensures RunResult(out, steps) ==
      TransferSpec(moduleArgs, source, dest, localMd5, remoteMd5, inline, tmpContent, remote, cfg)
  {
    steps := [];
    if localMd5 != remoteMd5 {
      var diff := NoDiff;
      if cfg.diff {
        var r, looked := GetDiffData(remote, dest, source, cfg.maxDiffSize);
        steps := steps + looked;
        if r.UnknownEncoding? {
          return Raised(r.encoding), steps;
        }
        diff := r.diff;
      }
      ghost var looked := PreviewReads(remote, cfg, dest, source);
      assert steps == looked && PreviewResult(remote, cfg, dest, source) == DiffOk(diff);

      if cfg.check {
        if inline {
          steps := steps + [RemoveTemp(tmpContent)];
        }
        assert steps == looked + ReleaseTemp(inline, tmpContent);
        return Changed(diff), steps;
      }

      var tmpSrc := cfg.tmp + Basename(source);
      steps := steps + [PutFile(source, tmpSrc)];
      if inline {
        steps := steps + [RemoveTemp(tmpContent)];
      }
      assert steps == looked + [PutFile(source, StagedPath(cfg, source))] + ReleaseTemp(inline, tmpContent);
      if cfg.sudo && cfg.sudoUser != "root" {
        steps := steps + [RemoteCommand("chmod a+r " + tmpSrc)];
      }
      assert steps == looked + [PutFile(source, StagedPath(cfg, source))] + ReleaseTemp(inline, tmpContent)
                      + Permissions(cfg, StagedPath(cfg, source));
      var args := moduleArgs + " src=" + tmpSrc;
      steps := steps + [ExecModule("copy", args)];
      return Delegated("copy", args), steps;
    } else {
      if inline {
        steps := steps + [RemoveTemp(tmpContent)];
      }
      var tmpSrc := cfg.tmp + Basename(source);
      var args := moduleArgs + " src=" + tmpSrc;
      if cfg.check {
        args := args + CheckModeFlag;
      }
      assert args == FileArgs(moduleArgs, cfg, source);
      steps := steps + [ExecModule("file", args)];
      return Delegated("file", args), steps;
    }
  }

  /** `ActionModule.run`: the outcome and the steps taken, in order. */
  method Run(req: Request, env: Env, cfg: Config) returns (out: Outcome, trace: seq<Effect>)
    ensures RunResult(out, trace) == Expected(req, env, cfg)
  {
    var options := req.complexArgs + env.parseKv(req.moduleArgs);
    var src := Get(options, "src");
    var content := Get(options, "content");
    var dest := Get(options, "dest");
    trace := [];

    if (src.None? && content.None? && req.firstAvailable.None?) || dest.None? {
      return Failed(MsgRequired), trace;
    } else if (src.Some? || req.firstAvailable.Some?) && content.Some? {
      return Failed(MsgExclusive), trace;
    }
    assert ArgsValid(req, env) && content == Content(req, env) && dest == DestArg(req, env);

    var sel, setup := ChooseSource(env, req.firstAvailable, content, src);
    trace := setup;
    if sel.NotSelected? {
      return Failed(sel.msg), trace;
    }
    var source := sel.source;
    var tmpContent := env.tempPath;
    ghost var rest := FromSource(env, cfg, req.moduleArgs, dest.value, source, content.Some?);
    assert Expected(req, env, cfg) == RunResult(rest.out, setup + rest.trace);

    var localMd5 := env.md5(source);
    if localMd5.None? {
      return Failed(MsgNoSource + source), trace;
    }

    var conflict, d, remoteMd5, probed := ProbeDestination(env, dest.value, source, content.Some?, tmpContent);
    trace := trace + probed;
    if conflict {
      return Failed(MsgContentDir), trace;
    }
    var steps;
    out, steps := Transfer(req.moduleArgs, source, d, localMd5.value, remoteMd5, content.Some?,
                           tmpContent, env.remote, cfg);
    assert rest == RunResult(out, probed + steps);
    trace := trace + steps;
  }
}
