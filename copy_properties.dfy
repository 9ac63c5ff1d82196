/**
 * Properties of the copy action: how the source is chosen, how the destination
 * is resolved, what each branch after the checksum comparison does, and what the
 * trace of every run satisfies (temp-file cleanup, probe count, check mode).
 */
module CopyProperties {
  import opened Wrappers
  import opened Paths
  import opened Effects
  import opened DiffData
  import opened CopyAction

  // ---------------------------------------------------------------------
  // Argument validation and source selection
  // ---------------------------------------------------------------------

  /** Missing fields are reported first, then the mutual exclusion; in both cases
      nothing else happens. A missing `dest` wins even when `src` and `content`
      clash. */
  lemma ValidationComesFirst(req: Request, env: Env, cfg: Config)
    ensures MissingRequired(req, env) ==> Expected(req, env, cfg) == RunResult(Failed(MsgRequired), [])
    ensures !MissingRequired(req, env) && MutuallyExclusive(req, env) ==>
      Expected(req, env, cfg) == RunResult(Failed(MsgExclusive), [])
    ensures Src(req, env).Some? && Content(req, env).Some? ==>
      Expected(req, env, cfg).out ==
        Failed(if DestArg(req, env).None? then MsgRequired else MsgExclusive)
  {
  }

  /** The candidate at index `k` is chosen when its resolved path exists and no
      earlier candidate's does. */
  lemma {:induction false} FirstExistingAt(env: Env, cands: seq<string>, k: nat)
    requires k < |cands|
    requires env.pathExists(Resolve(env, cands[k]))
    requires forall j :: 0 <= j < k ==> !env.pathExists(Resolve(env, cands[j]))
    ensures FirstExisting(env, cands) == Some(Resolve(env, cands[k]))
    decreases k
  {
    if k > 0 {
      assert !env.pathExists(Resolve(env, cands[0]));
      assert forall j :: 0 <= j < |cands| - 1 ==> cands[1..][j] == cands[j + 1];
      FirstExistingAt(env, cands[1..], k - 1);
    }
  }

  /** Whatever `FirstExisting` chooses is, in list order, the first candidate
      whose resolved path exists. */
  lemma {:induction false} FirstExistingIsFirst(env: Env, cands: seq<string>)
    requires FirstExisting(env, cands).Some?
    ensures exists k :: (0 <= k < |cands| && FirstExisting(env, cands).value == Resolve(env, cands[k]) &&
      (forall j :: 0 <= j < k ==> !env.pathExists(Resolve(env, cands[j]))))
    decreases |cands|
  {
    if !env.pathExists(Resolve(env, cands[0])) {
      var rest := cands[1..];
      assert forall j :: 0 <= j < |rest| ==> rest[j] == cands[j + 1];
      FirstExistingIsFirst(env, rest);
      var k :| 0 <= k < |rest| && FirstExisting(env, rest).value == Resolve(env, rest[k]) &&
        (forall j :: 0 <= j < k ==> !env.pathExists(Resolve(env, rest[j])));
      assert FirstExisting(env, cands).value == Resolve(env, cands[k + 1]);
      forall j | 0 <= j < k + 1 ensures !env.pathExists(Resolve(env, cands[j])) {
        if j > 0 { assert cands[j] == rest[j - 1]; }
      }
    } else {
      assert FirstExisting(env, cands).value == Resolve(env, cands[0]);
    }
  }

  /** With `first_available_file`, the list alone decides: `src` plays no part,
      and when no candidate exists the run fails before any other step. */
  lemma FirstAvailableDecides(req: Request, env: Env, cfg: Config, src1: Option<string>, src2: Option<string>)
    requires req.firstAvailable.Some?
    ensures SelectFrom(env, req.firstAvailable, None, src1) == SelectFrom(env, req.firstAvailable, None, src2)
    ensures !MissingRequired(req, env) && !MutuallyExclusive(req, env) &&
            FirstExisting(env, req.firstAvailable.value).None? ==>
      Expected(req, env, cfg) == RunResult(Failed(MsgNoCandidate), [])
  {
  }

  /** Inline content that cannot be written: the temp file is created and
      removed, and nothing else happens. */
  lemma WriteFailureRemovesTemp(req: Request, env: Env, cfg: Config)
    requires !MissingRequired(req, env) && !MutuallyExclusive(req, env)
    requires Content(req, env).Some? && env.writeError.Some?
    ensures Expected(req, env, cfg) ==
      RunResult(Failed(MsgWriteFailed + env.writeError.value),
                [CreateTemp(env.tempPath, Content(req, env).value), RemoveTemp(env.tempPath)])
  {
  }

  // ---------------------------------------------------------------------
  // Destination resolution
  // ---------------------------------------------------------------------

  /** A `dest` ending in '/' names the file before anything is probed: it
      becomes `dest` followed by the source's basename. */
  lemma TrailingSlashNamesFile(dest: string, source: string)
    requires EndsWithSlash(dest)
    ensures FirstDestOf(dest, source) == dest + Basename(source)
  {
    JoinBasename(dest, source);
  }

  /** When the first probe answers with the directory sentinel, the file of the
      same name inside it is probed once more and that answer is compared;
      otherwise the first answer is. */
  lemma DirectoryProbeRule(env: Env, dest: string, source: string)
    ensures var first := FirstDestOf(dest, source);
      env.remoteMd5(first) == DirectorySentinel ==>
        FinalDestOf(env, dest, source) == Join(first, Basename(source)) &&
        ProbeSteps(env, dest, source) == [Probe(first), Probe(FinalDestOf(env, dest, source))] &&
        (Basename(source) != [] ==> Basename(FinalDestOf(env, dest, source)) == Basename(source))
    ensures var first := FirstDestOf(dest, source);
      env.remoteMd5(first) != DirectorySentinel ==>
        FinalDestOf(env, dest, source) == first && ProbeSteps(env, dest, source) == [Probe(first)]
  {
    JoinBasename(FirstDestOf(dest, source), source);
  }

  /** Inline content against a directory: one probe, the temp file removed,
      then the failure. */
  lemma ContentWithDirectoryFails(env: Env, cfg: Config, moduleArgs: string, dest: string, source: string)
    requires env.md5(source).Some?
    requires env.remoteMd5(FirstDestOf(dest, source)) == DirectorySentinel
    ensures FromSource(env, cfg, moduleArgs, dest, source, true) ==
      RunResult(Failed(MsgContentDir), [Probe(FirstDestOf(dest, source)), RemoveTemp(env.tempPath)])
  {
  }

  // ---------------------------------------------------------------------
  // The branches after the checksum comparison
  // ---------------------------------------------------------------------

  /** Equal checksums: no upload and no permission fix-up; the temp file is
      released before the `file` module runs on the staged name, with
      CHECKMODE=True appended exactly in check mode. */
  lemma UpToDateRunsFileModule(moduleArgs: string, source: string, dest: string, md5: string,
                               inline: bool, tmp: string, remote: DiffEnv, cfg: Config)
    ensures var r := TransferSpec(moduleArgs, source, dest, md5, md5, inline, tmp, remote, cfg);
      var args := FileArgs(moduleArgs, cfg, source);
      r.out == Delegated("file", args) &&
      r.trace == ReleaseTemp(inline, tmp) + [ExecModule("file", args)] &&
      args == CopyArgs(moduleArgs, cfg, source) + (if cfg.check then CheckModeFlag else "") &&
      (cfg.check ==> HasSuffix(args, CheckModeFlag)) &&
      forall i :: 0 <= i < |r.trace| ==> !r.trace[i].PutFile? && !r.trace[i].RemoteCommand?
  {
    SuffixAppended(CopyArgs(moduleArgs, cfg, source), CheckModeFlag);
  }

  /** Different checksums in check mode: the preview (only when diffs are on) and
      the release of the temp file, then `changed`; no upload, no `chmod` and no
      module run besides the preview's own read-only ones. */
  lemma CheckModeOnlyReports(moduleArgs: string, source: string, dest: string, localMd5: string,
                             remoteMd5: string, inline: bool, tmp: string, remote: DiffEnv, cfg: Config)
    requires localMd5 != remoteMd5 && cfg.check
    requires PreviewResult(remote, cfg, dest, source).DiffOk?
    ensures var r := TransferSpec(moduleArgs, source, dest, localMd5, remoteMd5, inline, tmp, remote, cfg);
      r.out == Changed(PreviewResult(remote, cfg, dest, source).diff) &&
      r.trace == PreviewReads(remote, cfg, dest, source) + ReleaseTemp(inline, tmp) &&
      (!cfg.diff ==> r.out == Changed(NoDiff) && r.trace == ReleaseTemp(inline, tmp)) &&
      forall i :: 0 <= i < |r.trace| ==>
        !r.trace[i].PutFile? && !r.trace[i].RemoteCommand? && !r.trace[i].ExecModule?
  {
    var r := TransferSpec(moduleArgs, source, dest, localMd5, remoteMd5, inline, tmp, remote, cfg);
    var looked := PreviewReads(remote, cfg, dest, source);
    PreviewInert(remote, cfg, dest, source);
    forall i | 0 <= i < |r.trace|
      ensures !r.trace[i].PutFile? && !r.trace[i].RemoteCommand? && !r.trace[i].ExecModule?
    {
      if i < |looked| { assert r.trace[i] == looked[i]; }
    }
  }

  /** Different checksums outside check mode: after the preview reads, the source
      is staged first, then the temp file is released, then the staged file is
      made readable (exactly under sudo to a user other than root), and last the
      `copy` module runs with the staged file as `src`. */
  lemma ChangeStagesThenCopies(moduleArgs: string, source: string, dest: string, localMd5: string,
                               remoteMd5: string, inline: bool, tmp: string, remote: DiffEnv, cfg: Config)
    requires localMd5 != remoteMd5 && !cfg.check
    requires PreviewResult(remote, cfg, dest, source).DiffOk?
    ensures var r := TransferSpec(moduleArgs, source, dest, localMd5, remoteMd5, inline, tmp, remote, cfg);
      var n := |PreviewReads(remote, cfg, dest, source)|;
      var staged := StagedPath(cfg, source);
      var chmod := RemoteCommand("chmod a+r " + staged);
      var fixUp := cfg.sudo && cfg.sudoUser != "root";
      r.out == Delegated("copy", CopyArgs(moduleArgs, cfg, source)) &&
      |r.trace| == n + 2 + (if inline then 1 else 0) + (if fixUp then 1 else 0) &&
      r.trace[n] == PutFile(source, staged) &&
      (inline ==> r.trace[n + 1] == RemoveTemp(tmp)) &&
      (fixUp ==> r.trace[|r.trace| - 2] == chmod) &&
      r.trace[|r.trace| - 1] == ExecModule("copy", CopyArgs(moduleArgs, cfg, source)) &&
      (forall i :: 0 <= i < n ==> !Mutates(r.trace[i]) && !IsTempOp(r.trace[i])) &&
      (chmod in r.trace <==> fixUp)
  {
    var looked := PreviewReads(remote, cfg, dest, source);
    PreviewInert(remote, cfg, dest, source);
    StageTailShape(looked, source, StagedPath(cfg, source), inline, tmp, cfg,
                   ExecModule("copy", CopyArgs(moduleArgs, cfg, source)));
  }

  /** Positions of the steps when the file is uploaded after the preview reads. */
  lemma StageTailShape(looked: seq<Effect>, source: string, staged: string, inline: bool, tmp: string,
                       cfg: Config, exec: Effect)
    requires forall i :: 0 <= i < |looked| ==> Inert(looked[i])
    requires exec.ExecModule?
    ensures var t := looked + [PutFile(source, staged)] + ReleaseTemp(inline, tmp) + Permissions(cfg, staged) + [exec];
      var n := |looked|;
      var chmod := RemoteCommand("chmod a+r " + staged);
      var fixUp := cfg.sudo && cfg.sudoUser != "root";
      |t| == n + 2 + (if inline then 1 else 0) + (if fixUp then 1 else 0) &&
      t[n] == PutFile(source, staged) &&
      (inline ==> t[n + 1] == RemoveTemp(tmp)) &&
      (fixUp ==> t[|t| - 2] == chmod) &&
      t[|t| - 1] == exec &&
      (forall i :: 0 <= i < n ==> !Mutates(t[i]) && !IsTempOp(t[i])) &&
      (chmod in t <==> fixUp)
  {
  }

  /** The preview reads the destination and the source and nothing else. */
  lemma PreviewInert(remote: DiffEnv, cfg: Config, dest: string, source: string)
    ensures var t := PreviewReads(remote, cfg, dest, source);
      TempOps(t) == [] && Mutations(t) == [] && Probes(t) == [] &&
      forall i :: 0 <= i < |t| ==> Inert(t[i])
  {
    if cfg.diff {
      DiffReadsOnly(remote.peek(dest), PreviewResult(remote, cfg, dest, source), dest, source, cfg.maxDiffSize);
    }
  }

  // ---------------------------------------------------------------------
  // Properties of every run
  // ---------------------------------------------------------------------

  /** The steps when the file is uploaded after the preview reads: the only
      temp-file step is the release, and nothing is probed. */
  lemma StageTailFilters(looked: seq<Effect>, source: string, staged: string, inline: bool, tmp: string,
                         cfg: Config, args: string)
    requires TempOps(looked) == [] && Probes(looked) == []
    ensures var t := looked + [PutFile(source, staged)] + ReleaseTemp(inline, tmp) + Permissions(cfg, staged)
                     + [ExecModule("copy", args)];
      TempOps(t) == ReleaseTemp(inline, tmp) && Probes(t) == []
  {
    var put := [PutFile(source, staged)];
    var release := ReleaseTemp(inline, tmp);
    var perms := Permissions(cfg, staged);
    var exec := [ExecModule("copy", args)];
    Single(PutFile(source, staged));
    Single(ExecModule("copy", args));
    ReleaseFilters(inline, tmp);
    if cfg.sudo && cfg.sudoUser != "root" { Single(perms[0]); }
    assert TempOps(perms) == [] && Probes(perms) == [];
    var t1 := looked + put;
    Split(looked, put);
    assert TempOps(t1) == [] && Probes(t1) == [];
    var t2 := t1 + release;
    Split(t1, release);
    assert TempOps(t2) == release && Probes(t2) == [];
    var t3 := t2 + perms;
    Split(t2, perms);
    assert TempOps(t3) == release && Probes(t3) == [];
    Split(t3, exec);
  }

  /** The trace of the comparison branches: the temp file is released once
      unless the preview raises, nothing is probed, and check mode changes
      nothing remote. */
  lemma TransferFilters(moduleArgs: string, source: string, dest: string, localMd5: string,
                        remoteMd5: string, inline: bool, tmp: string, remote: DiffEnv, cfg: Config)
    ensures var r := TransferSpec(moduleArgs, source, dest, localMd5, remoteMd5, inline, tmp, remote, cfg);
      TempOps(r.trace) == (if r.out.Raised? then [] else ReleaseTemp(inline, tmp)) &&
      Probes(r.trace) == [] &&
      (cfg.check ==> NoRemoteMutation(r.trace))
  {
    PreviewInert(remote, cfg, dest, source);
    ReleaseFilters(inline, tmp);
    if localMd5 == remoteMd5 {
      FileTailFilters(moduleArgs, cfg, source, ReleaseTemp(inline, tmp));
    } else if PreviewResult(remote, cfg, dest, source).UnknownEncoding? {
    } else if cfg.check {
      Split(PreviewReads(remote, cfg, dest, source), ReleaseTemp(inline, tmp));
    } else {
      StageTailFilters(PreviewReads(remote, cfg, dest, source), source, StagedPath(cfg, source),
                       inline, tmp, cfg, CopyArgs(moduleArgs, cfg, source));
    }
  }

  lemma ReleaseFilters(inline: bool, tmp: string)
    ensures var t := ReleaseTemp(inline, tmp);
      TempOps(t) == t && Mutations(t) == [] && Probes(t) == []
  {
    if inline { Single(RemoveTemp(tmp)); }
  }

  /** Running the `file` module after the release: in check mode it is told so
      and changes nothing. */
  lemma FileTailFilters(moduleArgs: string, cfg: Config, source: string, release: seq<Effect>)
    requires TempOps(release) == release && Mutations(release) == [] && Probes(release) == []
    ensures var t := release + [ExecModule("file", FileArgs(moduleArgs, cfg, source))];
      TempOps(t) == release && Probes(t) == [] && (cfg.check ==> Mutations(t) == [])
  {
    var e := ExecModule("file", FileArgs(moduleArgs, cfg, source));
    Single(e);
    if cfg.check { SuffixAppended(CopyArgs(moduleArgs, cfg, source), CheckModeFlag); }
    Split(release, [e]);
  }

  /** The trace after source selection: the release happens unless the local
      checksum is missing or the preview raises; the probes are the first
      destination and, after the directory sentinel, the one inside it. */
  lemma FromSourceFilters(env: Env, cfg: Config, moduleArgs: string, dest: string, source: string, inline: bool)
    ensures var r := FromSource(env, cfg, moduleArgs, dest, source, inline);
      var first := FirstDestOf(dest, source);
      TempOps(r.trace) ==
        (if env.md5(source).None? || r.out.Raised? then [] else ReleaseTemp(inline, env.tempPath)) &&
      Probes(r.trace) ==
        (if env.md5(source).None? then []
         else [first] + (if env.remoteMd5(first) == DirectorySentinel && !inline
                         then [FinalDestOf(env, dest, source)] else [])) &&
      (cfg.check ==> NoRemoteMutation(r.trace))
  {
    var first := FirstDestOf(dest, source);
    if env.md5(source).Some? {
      ProbeStepsFilters(env, dest, source);
      if env.remoteMd5(first) == DirectorySentinel && inline {
        FromSourceConflict(env, cfg, moduleArgs, dest, source);
      } else {
        FromSourceProceeds(env, cfg, moduleArgs, dest, source, inline);
      }
    }
  }

  /** Inline content against a directory: one probe and the temp-file release. */
  lemma FromSourceConflict(env: Env, cfg: Config, moduleArgs: string, dest: string, source: string)
    requires env.md5(source).Some?
    requires env.remoteMd5(FirstDestOf(dest, source)) == DirectorySentinel
    ensures var r := FromSource(env, cfg, moduleArgs, dest, source, true);
      r.out.Failed? && TempOps(r.trace) == [RemoveTemp(env.tempPath)] && Mutations(r.trace) == [] &&
      Probes(r.trace) == [FirstDestOf(dest, source)]
  {
    var first := FirstDestOf(dest, source);
    Single(Probe(first));
    Single(RemoveTemp(env.tempPath));
    Split([Probe(first)], [RemoveTemp(env.tempPath)]);
  }

  /** Past the local checksum and without a directory conflict, the run is the
      destination probes followed by the comparison branches: the probes come from
      destination resolution alone, and the temp-file release and the remote
      changes from the branches alone. */
  lemma FromSourceProceeds(env: Env, cfg: Config, moduleArgs: string, dest: string, source: string, inline: bool)
    requires env.md5(source).Some?
    requires !(env.remoteMd5(FirstDestOf(dest, source)) == DirectorySentinel && inline)
    ensures var r := FromSource(env, cfg, moduleArgs, dest, source, inline);
      var f := Finish(env, cfg, moduleArgs, dest, source, inline);
      r == RunResult(f.out, ProbeSteps(env, dest, source) + f.trace) &&
      TempOps(r.trace) == (if r.out.Raised? then [] else ReleaseTemp(inline, env.tempPath)) &&
      (cfg.check ==> Mutations(r.trace) == []) &&
      Probes(r.trace) == Probes(ProbeSteps(env, dest, source))
  {
    var probes := ProbeSteps(env, dest, source);
    var final := FinalDestOf(env, dest, source);
    var f := Finish(env, cfg, moduleArgs, dest, source, inline);
    assert FromSource(env, cfg, moduleArgs, dest, source, inline) == RunResult(f.out, probes + f.trace);
    TransferFilters(moduleArgs, source, final, env.md5(source).value, env.remoteMd5(final),
                    inline, env.tempPath, env.remote, cfg);
    ProbeStepsFilters(env, dest, source);
    Split(probes, f.trace);
  }

  /** Destination resolution probes and does nothing else. */
  lemma ProbeStepsFilters(env: Env, dest: string, source: string)
    ensures var t := ProbeSteps(env, dest, source);
      var first := FirstDestOf(dest, source);
      TempOps(t) == [] && Mutations(t) == [] &&
      Probes(t) == [first] + (if env.remoteMd5(first) == DirectorySentinel then [FinalDestOf(env, dest, source)] else [])
  {
    var first := FirstDestOf(dest, source);
    var final := FinalDestOf(env, dest, source);
    Single(Probe(first));
    Single(Probe(final));
    Split([Probe(first)], if env.remoteMd5(first) == DirectorySentinel then [Probe(final)] else []);
  }

  /** Source selection touches only the temp file. */
  lemma SelectStepsFilters(env: Env, firstAvailable: Option<seq<string>>, content: Option<string>, sel: Selection)
    ensures var t := SelectSteps(env, firstAvailable, content, sel);
      TempOps(t) == t && Mutations(t) == [] && Probes(t) == []
  {
    if firstAvailable.None? && content.Some? {
      var create := CreateTemp(env.tempPath, content.value);
      Single(create);
      Single(RemoveTemp(env.tempPath));
      Split([create], [RemoveTemp(env.tempPath)]);
    }
  }

  /** A validated run is its selection steps followed by the rest of the run, and
      each filter of the trace splits accordingly. */
  lemma RunComposes(req: Request, env: Env, cfg: Config)
    requires ArgsValid(req, env)
    ensures var content := Content(req, env);
      var sel := SelectFrom(env, req.firstAvailable, content, Src(req, env));
      var setup := SelectSteps(env, req.firstAvailable, content, sel);
      var r := Expected(req, env, cfg);
      TempOps(setup) == setup && Mutations(setup) == [] && Probes(setup) == [] &&
      (sel.NotSelected? ==> r == RunResult(Failed(sel.msg), setup)) &&
      (sel.Selected? ==>
         var rest := FromSource(env, cfg, req.moduleArgs, DestArg(req, env).value, sel.source, content.Some?);
         r == RunResult(rest.out, setup + rest.trace) &&
         TempOps(r.trace) == setup + TempOps(rest.trace) &&
         Mutations(r.trace) == Mutations(rest.trace) &&
         Probes(r.trace) == Probes(rest.trace))
  {
    var content := Content(req, env);
    var sel := SelectFrom(env, req.firstAvailable, content, Src(req, env));
    var setup := SelectSteps(env, req.firstAvailable, content, sel);
    SelectStepsFilters(env, req.firstAvailable, content, sel);
    if sel.Selected? {
      var rest := FromSource(env, cfg, req.moduleArgs, DestArg(req, env).value, sel.source, content.Some?);
      Split(setup, rest.trace);
    }
  }

  /** Every run creates the temp file at most once and removes it at most once,
      after creating it. It is created, holding the inline content, exactly for
      inline content that passed validation, and it is left behind exactly when
      the local checksum is missing or the preview raises. */
  lemma RunCleanupSound(req: Request, env: Env, cfg: Config)
    ensures CleanupSound(Expected(req, env, cfg).trace)
    ensures var r := Expected(req, env, cfg);
      ArgsValid(req, env) && Content(req, env).Some? ==>
        |TempOps(r.trace)| >= 1 && TempOps(r.trace)[0] == CreateTemp(env.tempPath, Content(req, env).value) &&
        (|TempOps(r.trace)| == 1 <==>
           env.writeError.None? && (env.md5(env.tempPath).None? || r.out.Raised?))
    ensures Content(req, env).None? ==> TempOps(Expected(req, env, cfg).trace) == []
  {
    if ArgsValid(req, env) {
      RunComposes(req, env, cfg);
      var content := Content(req, env);
      var sel := SelectFrom(env, req.firstAvailable, content, Src(req, env));
      if sel.Selected? {
        FromSourceFilters(env, cfg, req.moduleArgs, DestArg(req, env).value, sel.source, content.Some?);
      }
    }
  }

  /** At most two probes. Once the local checksum is known the first probe goes to
      the first destination, and a second follows exactly when it answered with
      the directory sentinel and the source is not inline. */
  lemma RunProbesAtMostTwice(req: Request, env: Env, cfg: Config)
    ensures |Probes(Expected(req, env, cfg).trace)| <= 2
    ensures ArgsValid(req, env) ==>
      var content := Content(req, env);
      var sel := SelectFrom(env, req.firstAvailable, content, Src(req, env));
      sel.Selected? && env.md5(sel.source).Some? ==>
        var first := FirstDestOf(DestArg(req, env).value, sel.source);
        Probes(Expected(req, env, cfg).trace) ==
          [first] + (if env.remoteMd5(first) == DirectorySentinel && content.None?
                     then [FinalDestOf(env, DestArg(req, env).value, sel.source)] else [])
  {
    if ArgsValid(req, env) {
      RunComposes(req, env, cfg);
      var content := Content(req, env);
      var sel := SelectFrom(env, req.firstAvailable, content, Src(req, env));
      if sel.Selected? {
        FromSourceFilters(env, cfg, req.moduleArgs, DestArg(req, env).value, sel.source, content.Some?);
      }
    }
  }

  /** In check mode a run uploads nothing, runs no remote command, and runs the
      `file` or `copy` module only with CHECKMODE=True; the preview's read-only
      `diff_peek` and `slurp` runs and the checksum probes are the only other
      remote steps. */
  lemma RunCheckModeReadOnly(req: Request, env: Env, cfg: Config)
    requires cfg.check
    ensures NoRemoteMutation(Expected(req, env, cfg).trace)
  {
    if ArgsValid(req, env) {
      RunComposes(req, env, cfg);
      var content := Content(req, env);
      var sel := SelectFrom(env, req.firstAvailable, content, Src(req, env));
      if sel.Selected? {
        FromSourceFilters(env, cfg, req.moduleArgs, DestArg(req, env).value, sel.source, content.Some?);
      }
    }
  }

  /** The diff preview shows the local source as the `after` side. */
  lemma PreviewShowsSource(remote: DiffEnv, cfg: Config, dest: string, source: string)
    requires PreviewResult(remote, cfg, dest, source).DiffOk?
    ensures var d := PreviewResult(remote, cfg, dest, source).diff;
      d.Preview? ==> cfg.diff && d.after == AfterSide(remote.readLocal(source), source, cfg.maxDiffSize)
  {
  }

  /** Inline content is what the temp file is created with, and, when the local
      read of the temp file returns it, what a check-mode preview shows as the
      `after` side, provided it is small enough and has no NUL byte in its first
      8192 characters. */
  lemma InlineContentShown(req: Request, env: Env, cfg: Config)
    requires ArgsValid(req, env) && Content(req, env).Some?
    requires env.remote.readLocal(env.tempPath) == Content(req, env).value
    requires '\0' !in Prefix(Content(req, env).value) && |Content(req, env).value| <= cfg.maxDiffSize
    ensures var r := Expected(req, env, cfg);
      |r.trace| >= 1 && r.trace[0] == CreateTemp(env.tempPath, Content(req, env).value) &&
      (r.out.Changed? && r.out.diff.Preview? ==>
         r.out.diff.after == AfterText(env.tempPath, Content(req, env).value))
  {
    var text := Content(req, env).value;
    var t := env.tempPath;
    RunComposes(req, env, cfg);
    var r := Expected(req, env, cfg);
    var sel := SelectFrom(env, req.firstAvailable, Content(req, env), Src(req, env));
    if sel.Selected? && r.out.Changed? && r.out.diff.Preview? {
      assert sel.source == t;
      var dest := DestArg(req, env).value;
      var first := FirstDestOf(dest, t);
      assert env.md5(t).Some? && env.remoteMd5(first) != DirectorySentinel;
      FromSourceProceeds(env, cfg, req.moduleArgs, dest, t, true);
      var final := FinalDestOf(env, dest, t);
      assert r.out == Finish(env, cfg, req.moduleArgs, dest, t, true).out;
      assert r.out.diff == PreviewResult(env.remote, cfg, final, t).diff;
      PreviewShowsSource(env.remote, cfg, final, t);
      AfterGuards(text, t, cfg.maxDiffSize);
    }
  }
}
