/**
 * The diff preview of the copy action (`_get_diff_data`): what the destination
 * looked like before (the `before` side) and what the local source would put
 * there (the `after` side), each guarded against binary and oversized files.
 */
module DiffData {
  import opened Wrappers
  import opened Effects

  /** How much of the local source is read to look for a NUL byte. */
  const PrefixLength: nat := 8192

  /** The result of the `file` module run with diff_peek=1 on the destination. */
  datatype PeekResult =
    | PeekFailed
    | Peeked(state: string, appearsBinary: bool, size: int)

  /** The result of the `slurp` module: the content, when present, and its encoding. */
  datatype SlurpResult = SlurpResult(content: Option<string>, encoding: string)

  /** What the diff preview may consult: two remote read-only modules, base64
      decoding and the content of a local file, all supplied from outside. */
  datatype DiffEnv = DiffEnv(
    peek: string -> PeekResult,
    slurp: string -> SlurpResult,
    b64decode: string -> string,
    readLocal: string -> string)

  /** The `before` keys of the diff dictionary: none, `before = ''` for an absent
      file, `dst_binary`, `dst_larger`, or `before_header` with `before`. */
  datatype Before =
    | BeforeUnset
    | BeforeEmpty
    | DstBinary
    | DstLarger(limit: nat)
    | BeforeText(header: string, text: string)

  /** The `after` keys: `src_binary`, `src_larger`, or `after_header` with `after`. */
  datatype After =
    | SrcBinary
    | SrcLarger(limit: nat)
    | AfterText(header: string, text: string)

  /** An empty dictionary, or one with a `before` part and an `after` part. */
  datatype Diff = NoDiff | Preview(before: Before, after: After)

  datatype BeforeResult = BeforeOk(side: Before) | BeforeRaised(encoding: string)

  /** `_get_diff_data` either returns a diff or raises on an unknown encoding. */
  datatype DiffResult = DiffOk(diff: Diff) | UnknownEncoding(encoding: string)

  /** What `read(8192)` returns on a file with content `s`. */
  function Prefix(s: string): (p: string)
    ensures |p| == if |s| < PrefixLength then |s| else PrefixLength
    ensures p <= s
  {
    if |s| <= PrefixLength then s else s[..PrefixLength]
  }

  /** Whether the destination is fetched with `slurp`: it exists, does not look
      binary and is no larger than the ceiling. */
  predicate SlurpReached(peek: PeekResult, max: nat)
  {
    peek.Peeked? && peek.state != "absent" && !peek.appearsBinary && peek.size <= max
  }

  /** The guard chain of the destination side, first match wins. */
  function BeforeSide(peek: PeekResult, slurp: SlurpResult, decode: string -> string,
                      dest: string, max: nat): BeforeResult
    requires peek.Peeked?
  {
    if peek.state == "absent" then BeforeOk(BeforeEmpty)
    else if peek.appearsBinary then BeforeOk(DstBinary)
    else if peek.size > max then BeforeOk(DstLarger(max))
    else if slurp.content.None? then BeforeOk(BeforeUnset)
    else if slurp.encoding == "base64" then BeforeOk(BeforeText(dest, decode(slurp.content.value)))
    else BeforeRaised(slurp.encoding)
  }

  /** The guard chain of the source side, from the local content alone. */
  function AfterSide(local: string, source: string, max: nat): After
  {
    if '\0' in Prefix(local) then SrcBinary
    else if |local| > max then SrcLarger(max)
    else AfterText(source, local)
  }

  /** The diff `_get_diff_data` produces from the values its collaborators return. */
  function ClassifyDiff(peek: PeekResult, slurp: SlurpResult, decode: string -> string,
                        local: string, dest: string, source: string, max: nat): DiffResult
  {
    if peek.PeekFailed? then DiffOk(NoDiff)
    else match BeforeSide(peek, slurp, decode, dest, max)
      case BeforeRaised(e) => UnknownEncoding(e)
      case BeforeOk(b) => DiffOk(Preview(b, AfterSide(local, source, max)))
  }

  /** The reads `_get_diff_data` performs, in order, given the diff it produced. */
  function DiffReads(peek: PeekResult, result: DiffResult, dest: string, source: string,
                     max: nat): seq<Effect>
  {
    [Peek(dest)]
    + (if SlurpReached(peek, max) then [Slurp(dest)] else [])
    + (if result.DiffOk? && result.diff.Preview? then
         [ReadPrefix(source)] + (if result.diff.after.AfterText? then [ReadAll(source)] else [])
       else [])
  }

  /** `_get_diff_data`: peeks at the destination, builds the `before` side, then
      reads the local source to build the `after` side. */
  method GetDiffData(env: DiffEnv, dest: string, source: string, max: nat)
    returns (r: DiffResult, steps: seq<Effect>)
    ensures r == ClassifyDiff(env.peek(dest), env.slurp(dest), env.b64decode,
                              env.readLocal(source), dest, source, max)
    ensures steps == DiffReads(env.peek(dest), r, dest, source, max)
  {
    steps := [Peek(dest)];
    var peek := env.peek(dest);
    if peek.PeekFailed? {
      return DiffOk(NoDiff), steps;
    }
    var before := BeforeUnset;
    if peek.state == "absent" {
      before := BeforeEmpty;
    } else if peek.appearsBinary {
      before := DstBinary;
    } else if peek.size > max {
      before := DstLarger(max);
    } else {
      steps := steps + [Slurp(dest)];
      var slurped := env.slurp(dest);
      if slurped.content.Some? {
        if slurped.encoding == "base64" {
          before := BeforeText(dest, env.b64decode(slurped.content.value));
        } else {
          return UnknownEncoding(slurped.encoding), steps;
        }
      }
    }
    steps := steps + [ReadPrefix(source)];
    var local := env.readLocal(source);
    var after: After;
    if '\0' in Prefix(local) {
      after := SrcBinary;
    } else if |local| > max {
      after := SrcLarger(max);
    } else {
      steps := steps + [ReadAll(source)];
      after := AfterText(source, local);
    }
    return DiffOk(Preview(before, after)), steps;
  }

  // ---------------------------------------------------------------------
  // Properties of the preview
  // ---------------------------------------------------------------------

  /** A failed peek gives the empty diff, and nothing but the peek is read. */
  lemma PeekFailedGivesNoDiff(slurp: SlurpResult, decode: string -> string, local: string,
                              dest: string, source: string, max: nat)
    ensures ClassifyDiff(PeekFailed, slurp, decode, local, dest, source, max) == DiffOk(NoDiff)
    ensures DiffReads(PeekFailed, DiffOk(NoDiff), dest, source, max) == [Peek(dest)]
  {
  }

  /** The preview raises exactly when the destination is slurped and its content
      comes back in an encoding other than base64. */
  lemma UnknownEncodingRaises(peek: PeekResult, slurp: SlurpResult, decode: string -> string,
                              local: string, dest: string, source: string, max: nat)
    ensures ClassifyDiff(peek, slurp, decode, local, dest, source, max).UnknownEncoding?
      <==> SlurpReached(peek, max) && slurp.content.Some? && slurp.encoding != "base64"
  {
  }

  /** The `before` side, first match: absent, binary, too large, then slurped. */
  lemma BeforeGuards(peek: PeekResult, slurp: SlurpResult, decode: string -> string,
                     local: string, dest: string, source: string, max: nat)
    requires peek.Peeked?
    requires !(SlurpReached(peek, max) && slurp.content.Some? && slurp.encoding != "base64")
    ensures var r := ClassifyDiff(peek, slurp, decode, local, dest, source, max);
      r.DiffOk? && r.diff.Preview? &&
      (peek.state == "absent" ==> r.diff.before == BeforeEmpty) &&
      (peek.state != "absent" && peek.appearsBinary ==> r.diff.before == DstBinary) &&
      (peek.state != "absent" && !peek.appearsBinary && peek.size > max ==>
         r.diff.before == DstLarger(max)) &&
      (SlurpReached(peek, max) && slurp.content.Some? ==>
         r.diff.before == BeforeText(dest, decode(slurp.content.value))) &&
      (SlurpReached(peek, max) && slurp.content.None? ==> r.diff.before == BeforeUnset)
  {
  }

  /** The `after` side, first match: a NUL among the first 8192 bytes, then a size
      above the ceiling, else the whole file under the source's name. */
  lemma AfterGuards(local: string, source: string, max: nat)
    ensures AfterSide(local, source, max) == SrcBinary <==> '\0' in local[..if |local| < PrefixLength then |local| else PrefixLength]
    ensures AfterSide(local, source, max) == SrcLarger(max) <==>
      '\0' !in Prefix(local) && |local| > max
    ensures AfterSide(local, source, max).AfterText? ==>
      AfterSide(local, source, max) == AfterText(source, local) && |local| <= max &&
      forall k :: 0 <= k < |local| && k < PrefixLength ==> local[k] != '\0'
  {
    var n := if |local| < PrefixLength then |local| else PrefixLength;
    assert Prefix(local) == local[..n];
    if AfterSide(local, source, max).AfterText? {
      forall k | 0 <= k < |local| && k < PrefixLength ensures local[k] != '\0' {
        assert local[k] == Prefix(local)[k];
      }
    }
  }

  /** The two sides are classified independently: whatever the destination looks
      like, the `after` side is the same as long as the peek succeeds and nothing
      raises. */
  lemma AfterIndependentOfDestination(
    peek1: PeekResult, slurp1: SlurpResult, peek2: PeekResult, slurp2: SlurpResult,
    decode: string -> string, local: string, dest: string, source: string, max: nat)
    requires ClassifyDiff(peek1, slurp1, decode, local, dest, source, max).DiffOk?
    requires ClassifyDiff(peek2, slurp2, decode, local, dest, source, max).DiffOk?
    requires peek1.Peeked? && peek2.Peeked?
    ensures ClassifyDiff(peek1, slurp1, decode, local, dest, source, max).diff.after
         == ClassifyDiff(peek2, slurp2, decode, local, dest, source, max).diff.after
         == AfterSide(local, source, max)
  {
  }

  /** The local source is read in full exactly when its content becomes the
      `after` side: never when it looks binary or is above the ceiling. */
  lemma FullReadOnlyForText(peek: PeekResult, slurp: SlurpResult, decode: string -> string,
                            local: string, dest: string, source: string, max: nat)
    ensures var r := ClassifyDiff(peek, slurp, decode, local, dest, source, max);
      (ReadAll(source) in DiffReads(peek, r, dest, source, max)) <==>
        (r.DiffOk? && r.diff.Preview? && r.diff.after == AfterText(source, local))
    ensures var r := ClassifyDiff(peek, slurp, decode, local, dest, source, max);
      ('\0' in Prefix(local) || |local| > max) ==> ReadAll(source) !in DiffReads(peek, r, dest, source, max)
  {
  }

  /** The preview reads but never changes the remote peer, touches no temp file
      and probes nothing. */
  lemma DiffReadsOnly(peek: PeekResult, r: DiffResult, dest: string, source: string, max: nat)
    ensures var t := DiffReads(peek, r, dest, source, max);
      NoRemoteMutation(t) && TempOps(t) == [] && Probes(t) == [] &&
      forall i :: 0 <= i < |t| ==> Inert(t[i])
  {
    InertTrace(DiffReads(peek, r, dest, source, max));
  }
}
