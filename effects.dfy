/**
 * The observable steps of one copy action, in the order they happen: the local
 * temp file that holds inline content, the remote checksum probes, the read-only
 * remote and local reads of the diff preview, the upload, the permission fix-up
 * and the final module execution.
 */
module Effects {

  datatype Effect =
    | CreateTemp(path: string, text: string)  // mkstemp and write of inline content
    | RemoveTemp(path: string)          // os.remove of that temp file
    | Probe(path: string)               // remote md5 query of a destination
    | Peek(path: string)                // `file` module with diff_peek=1 (read only)
    | Slurp(path: string)               // `slurp` module (read only)
    | ReadPrefix(path: string)          // first 8192 bytes of the local source
    | ReadAll(path: string)             // seek(0) and full read of the local source
    | PutFile(local: string, remote: string)
    | RemoteCommand(cmd: string)        // low-level remote shell command
    | ExecModule(name: string, args: string)

  /** The flag appended to the `file` module's arguments in check mode. */
  const CheckModeFlag := " CHECKMODE=True"

  predicate HasSuffix(s: string, suffix: string)
  {
    |suffix| <= |s| && s[|s| - |suffix|..] == suffix
  }

  lemma SuffixAppended(s: string, suffix: string)
    ensures HasSuffix(s + suffix, suffix)
  {
    assert (s + suffix)[|s|..] == suffix;
  }

  /** Steps that change the remote peer: an upload, a shell command, or a module
      run that was not told to stay in check mode. */
  predicate Mutates(e: Effect)
  {
    e.PutFile? || e.RemoteCommand? || (e.ExecModule? && !HasSuffix(e.args, CheckModeFlag))
  }

  predicate IsTempOp(e: Effect)
  {
    e.CreateTemp? || e.RemoveTemp?
  }

  /** The steps of `t` that satisfy `keep`, in order. */
  function Filter(t: seq<Effect>, keep: Effect -> bool): seq<Effect>
  {
    if t == [] then []
    else (if keep(t[0]) then [t[0]] else []) + Filter(t[1..], keep)
  }

  lemma {:induction false} FilterConcat(a: seq<Effect>, b: seq<Effect>, keep: Effect -> bool)
    ensures Filter(a + b, keep) == Filter(a, keep) + Filter(b, keep)
    decreases |a|
  {
    if a == [] {
      assert a + b == b;
    } else {
      assert (a + b)[0] == a[0] && (a + b)[1..] == a[1..] + b;
      FilterConcat(a[1..], b, keep);
    }
  }

  /** The temp-file steps of a trace. */
  function TempOps(t: seq<Effect>): seq<Effect>
  {
    Filter(t, IsTempOp)
  }

  /** The steps of a trace that change the remote peer. */
  function Mutations(t: seq<Effect>): seq<Effect>
  {
    Filter(t, Mutates)
  }

  predicate NoRemoteMutation(t: seq<Effect>)
  {
    Mutations(t) == []
  }

  /** The temp-file steps are none, one creation, or one creation followed by
      exactly one removal of that same file. */
  predicate CleanupSound(t: seq<Effect>)
  {
    var ops := TempOps(t);
    |ops| <= 2 &&
    (|ops| >= 1 ==> ops[0].CreateTemp?) &&
    (|ops| == 2 ==> ops[1] == RemoveTemp(ops[0].path))
  }

  /** The destinations probed, in order. */
  function Probes(t: seq<Effect>): seq<string>
  {
    if t == [] then []
    else (if t[0].Probe? then [t[0].path] else []) + Probes(t[1..])
  }

  lemma {:induction false} ProbesConcat(a: seq<Effect>, b: seq<Effect>)
    ensures Probes(a + b) == Probes(a) + Probes(b)
    decreases |a|
  {
    if a == [] {
      assert a + b == b;
    } else {
      assert (a + b)[0] == a[0] && (a + b)[1..] == a[1..] + b;
      ProbesConcat(a[1..], b);
    }
  }

  /** The three filters of a trace split along a concatenation. */
  lemma Split(a: seq<Effect>, b: seq<Effect>)
    ensures TempOps(a + b) == TempOps(a) + TempOps(b)
    ensures Mutations(a + b) == Mutations(a) + Mutations(b)
    ensures Probes(a + b) == Probes(a) + Probes(b)
  {
    FilterConcat(a, b, IsTempOp);
    FilterConcat(a, b, Mutates);
    ProbesConcat(a, b);
  }

  /** A step that is neither a temp-file step, a remote change nor a probe. */
  predicate Inert(e: Effect)
  {
    !IsTempOp(e) && !Mutates(e) && !e.Probe?
  }

  lemma {:induction false} InertTrace(t: seq<Effect>)
    requires forall i :: 0 <= i < |t| ==> Inert(t[i])
    ensures TempOps(t) == [] && Mutations(t) == [] && Probes(t) == []
    decreases |t|
  {
    if t != [] {
      assert forall i :: 0 <= i < |t[1..]| ==> t[1..][i] == t[i + 1];
      InertTrace(t[1..]);
    }
  }

  lemma Single(e: Effect)
    ensures TempOps([e]) == (if IsTempOp(e) then [e] else [])
    ensures Mutations([e]) == (if Mutates(e) then [e] else [])
    ensures Probes([e]) == (if e.Probe? then [e.path] else [])
  {
    assert [e][1..] == [];
    assert TempOps([]) == [] && Mutations([]) == [];
  }
}
