# The copy action, controller side

This project models the controller-side logic of Ansible's `copy` action plugin
(`ActionModule.run` and `ActionModule._get_diff_data`), and proves properties of it.
For one invocation, the action does these steps in order:

1. It merges the structured arguments with the parsed `key=value` string.
2. It validates `src`, `content`, `dest` and `first_available_file`.
3. It selects the local source. This is either the first existing candidate of
   `first_available_file`, or the inline content written to a temp file, or the
   templated `src`.
4. It computes the local md5. A `dest` ending in `/` gets the source's basename
   appended.
5. It probes the remote md5. If the probe answers with the directory sentinel `'3'`,
   it probes once more one level down, unless the content was inline, which fails.
6. It ends in one of three branches:
   - equal checksums: the `file` module runs, with `CHECKMODE=True` in check mode;
   - different checksums in check mode: it answers `changed` with the diff preview;
   - otherwise: it uploads the file to the remote temp directory, makes it readable
     under sudo to a non-root user, and runs the `copy` module.

The diff preview peeks at the destination and classifies both sides of the diff.
The `before` side comes from a guard chain: absent, binary, larger than the size
ceiling, or slurped and decoded from base64. The `after` side is classified
independently: a NUL byte in the first 8192 bytes, larger than the ceiling, or the
whole file.

Every collaborator is a value or a function in the environment (`CopyAction.Env`,
`DiffData.DiffEnv`):

- `parse_kv`, `template` and `path_dwim`;
- `os.path.exists`;
- the temp path that `mkstemp` returns, and the error when writing to it fails;
- the local and remote md5;
- the `file` module's `diff_peek`, `slurp` and base64 decoding;
- the local file's content.

The action is an imperative method, `CopyAction.Run`. It returns the outcome and the
ordered trace of its observable effects (`Effects.Effect`):

- temp-file creation and removal;
- checksum probes;
- preview reads;
- the upload;
- the `chmod` command;
- the module execution.

`Run` and its step methods are each proved equal to specification functions:

- `Run` to `Expected`, which composes the stages through `FromSource`;
- `ChooseSource` to `SelectFrom` and `SelectSteps`;
- `ProbeDestination` to `FinalDestOf` and `ProbeSteps`;
- `Transfer` to `TransferSpec`;
- `GetDiffData` to `ClassifyDiff` and `DiffReads`.

The properties of the action are lemmas about those functions. Three properties hold
for every run, whatever the collaborators answer:

- the temp file is removed at most once, and only after it was created;
- at most two probes happen;
- check mode uploads nothing, runs no `chmod`, never runs the `copy` module, and
  passes `CHECKMODE=True` to the final `file` run; the only other remote steps are
  the md5 probes and the preview's `diff_peek` and `slurp` module runs, which are
  treated as read-only.

Modules:

- `Wrappers`: `Option`.
- `Paths`: POSIX `basename` and `join`.
- `Effects`: the trace, and the filters that project the temp-file steps, the remote
  changes and the probes out of it.
- `DiffData`: `_get_diff_data`.
- `CopyAction`: `run`.
- `CopyProperties`: the lemmas about whole runs.

The model follows the code in these places:

- A missing `dest` is reported as "required" even when `src` and `content`
  also clash: the required check comes first.
- The temp file holding inline content is **not** removed in two cases: when the
  local md5 is unavailable (`copy.py:80-83`), and when the preview raises on an
  unknown encoding (`copy.py:157`). `CopyProperties.RunCleanupSound` states exactly
  when this happens instead of promising cleanup.
- Outside check mode the diff preview is computed and then discarded. The result is
  the `copy` module's result.

## Model

| member | source | states |
|---|---|---|
| CopyAction.Run | lib/ansible/runner/action_plugins/copy.py:32-135 | The outcome and the full ordered effect trace of `run` equal `Expected`, which the CopyProperties lemmas characterise |
| CopyAction.ChooseSource | lib/ansible/runner/action_plugins/copy.py:51-78 | The `for ... break` loop over `first_available_file`, the temp file for inline content (removed again when writing fails) or the resolved `src` produce exactly `SelectFrom` with the steps `SelectSteps` |
| CopyAction.FirstExisting | lib/ansible/runner/action_plugins/copy.py:55-62 | A chosen candidate's resolved path exists; nothing is chosen iff no candidate's resolved path exists |
| CopyAction.ProbeDestination | lib/ansible/runner/action_plugins/copy.py:85-97 | A conflict happens iff the first probe answers '3' with inline content, and then the steps are that probe and the temp removal; otherwise the compared destination and checksum are those of `FinalDestOf`, probed as `ProbeSteps` |
| CopyAction.Transfer | lib/ansible/runner/action_plugins/copy.py:99-135 | The outcome and steps of the comparison branches equal `TransferSpec` |
| CopyProperties.ValidationComesFirst | lib/ansible/runner/action_plugins/copy.py:44-49 | Missing fields fail with "src (or content) and dest are required", then a src/content clash fails with "src and content are mutually exclusive", each with an empty trace; the required check wins when both apply |
| CopyProperties.FirstExistingAt | lib/ansible/runner/action_plugins/copy.py:55-61 | If candidate k resolves to an existing path and no earlier one does, candidate k is chosen |
| CopyProperties.FirstExistingIsFirst | lib/ansible/runner/action_plugins/copy.py:55-61 | Whatever is chosen is the resolved path of some candidate k, and every earlier candidate resolves to a missing path |
| CopyProperties.FirstAvailableDecides | lib/ansible/runner/action_plugins/copy.py:53-64 | With `first_available_file` the selection does not depend on `src`; with no existing candidate the run fails with "could not find src in first_available_file list" and an empty trace |
| CopyProperties.WriteFailureRemovesTemp | lib/ansible/runner/action_plugins/copy.py:65-73 | A failed write of inline content creates and removes the temp file, then fails with the write error and does nothing else |
| CopyProperties.TrailingSlashNamesFile | lib/ansible/runner/action_plugins/copy.py:85-87 | A `dest` ending in '/' becomes `dest + basename(source)` before any probe |
| CopyProperties.DirectoryProbeRule | lib/ansible/runner/action_plugins/copy.py:89-97 | After the '3' sentinel the compared destination is `join(first, basename(source))`, probed second, and it keeps the source's basename; otherwise only the first destination is probed and compared |
| CopyProperties.ContentWithDirectoryFails | lib/ansible/runner/action_plugins/copy.py:90-95 | Inline content against a directory: one probe, the temp file removed, then "can not use content with a dir as dest" |
| CopyProperties.UpToDateRunsFileModule | lib/ansible/runner/action_plugins/copy.py:125-135 | Equal checksums: the temp file is released, then the `file` module runs with `src=tmp+basename(source)`, plus " CHECKMODE=True" exactly in check mode; no upload and no command happen |
| CopyProperties.CheckModeOnlyReports | lib/ansible/runner/action_plugins/copy.py:100-110 | Different checksums in check mode: the preview reads (none when diff is off), then the temp release, and `changed` with that preview; no upload, no `chmod` and no other module run |
| CopyProperties.ChangeStagesThenCopies | lib/ansible/runner/action_plugins/copy.py:112-123 | Different checksums outside check mode: after the read-only preview comes the upload to `tmp+basename(source)`, then the temp release, then `chmod a+r` (present iff sudo to a non-root user), and last the `copy` module with `src=` the staged path |
| CopyProperties.PreviewInert | lib/ansible/runner/action_plugins/copy.py:102-105 | The preview, when computed, consists only of read-only steps |
| CopyProperties.TransferFilters | lib/ansible/runner/action_plugins/copy.py:99-135 | The comparison branches release the temp file exactly once unless the preview raises, probe nothing, and change nothing remote in check mode |
| CopyProperties.FromSourceFilters | lib/ansible/runner/action_plugins/copy.py:80-135 | After selection the temp file is released unless the local md5 is missing or the preview raises; the probes are the first destination, plus the one inside it after '3' for a non-inline source; check mode changes nothing remote |
| CopyProperties.RunCleanupSound | lib/ansible/runner/action_plugins/copy.py:65-135 | Every run creates the temp file at most once and removes it at most once, after the creation; it is created, written with the inline content, exactly for validated inline content, and left behind exactly when the write succeeded and then the local md5 was missing or the preview raised |
| CopyProperties.RunProbesAtMostTwice | lib/ansible/runner/action_plugins/copy.py:85-97 | Every run probes at most twice; once the local md5 is known it probes the first destination, then the inner one exactly after '3' for a non-inline source |
| CopyProperties.InlineContentShown | lib/ansible/runner/action_plugins/copy.py:65-75 | The run starts by creating the temp file with the inline content; when reading that file back yields the content, a check-mode preview shows exactly that content under the temp file's name as the `after` side, provided it is within the diff size limit and has no NUL byte in its first 8192 characters |
| CopyProperties.PreviewShowsSource | lib/ansible/runner/action_plugins/copy.py:102-105 | A preview with a `before`/`after` record is produced only when diffs are on, and its `after` side is the classification of the local source's content |
| CopyProperties.RunComposes | lib/ansible/runner/action_plugins/copy.py:51-83 | A validated run is the selection steps, which touch only the temp file, followed by the rest of the run; the outcome is the selection failure or that of the rest |
| CopyProperties.FromSourceProceeds | lib/ansible/runner/action_plugins/copy.py:85-135 | Past the local md5 and without a directory conflict, the steps are the destination probes then the comparison branches; the probes come from resolution alone, and the temp release and remote changes from the branches alone |
| CopyProperties.FromSourceConflict | lib/ansible/runner/action_plugins/copy.py:89-95 | A directory conflict fails after one probe and the temp release, and makes no remote change |
| CopyProperties.RunCheckModeReadOnly | lib/ansible/runner/action_plugins/copy.py:99-135 | In check mode no run uploads, runs the `chmod` command, or runs the `file` or `copy` module without CHECKMODE=True; the only other remote steps are the checksum probes and the preview's `diff_peek` and `slurp` module runs, which are read-only steps |
| Paths.BasenameShape | lib/ansible/runner/action_plugins/copy.py:86 | `os.path.basename`: the result is the suffix of the path after its last '/', and contains no '/' |
| Paths.BasenameAfterSlash | lib/ansible/runner/action_plugins/copy.py:86-87 | A '/'-free name appended to a directory ending in '/' is that path's basename |
| Paths.JoinBasename | lib/ansible/runner/action_plugins/copy.py:87 | `os.path.join(dir, basename(p))` inserts a '/' only when `dir` does not end in one, and the result's basename is `basename(p)` |
| DiffData.GetDiffData | lib/ansible/runner/action_plugins/copy.py:137-173 | The diff record built key by key and the reads taken equal `ClassifyDiff` and `DiffReads` |
| DiffData.Prefix | lib/ansible/runner/action_plugins/copy.py:162 | `read(8192)` returns the first min(size, 8192) characters of the file |
| DiffData.PeekFailedGivesNoDiff | lib/ansible/runner/action_plugins/copy.py:138-141 | A failed peek gives the empty diff after the peek alone |
| DiffData.UnknownEncodingRaises | lib/ansible/runner/action_plugins/copy.py:151-157 | The preview raises iff the destination is slurped, has content, and its encoding is not base64 |
| DiffData.BeforeGuards | lib/ansible/runner/action_plugins/copy.py:144-159 | The `before` side is the first match of absent (''), binary, larger than the ceiling (`dst_larger=max`), then the decoded slurped content under the destination's name, or unset when slurp returns no content |
| DiffData.AfterGuards | lib/ansible/runner/action_plugins/copy.py:161-171 | `src_binary` iff a NUL is among the first 8192 characters; `src_larger=max` iff there is none and the size exceeds the ceiling; otherwise the whole file under the source's name |
| DiffData.AfterIndependentOfDestination | lib/ansible/runner/action_plugins/copy.py:143-171 | Whatever the destination looks like, the `after` side is the same |
| DiffData.FullReadOnlyForText | lib/ansible/runner/action_plugins/copy.py:164-171 | The source is re-read in full iff its content becomes the `after` side; never when it looks binary or is too large |
| DiffData.DiffReadsOnly | lib/ansible/runner/action_plugins/copy.py:137-173 | The preview's steps change nothing remote, touch no temp file and probe nothing |

## Left out

- Real file and network I/O. The following are inputs, and their effects are trace
  events:
  - `mkstemp`, `fdopen` and the write;
  - `open`, `read` and `seek`, and `os.stat`;
  - `os.path.exists` and `os.remove`;
  - `put_file`, `_low_level_exec_command` and `_execute_module`.
- The connection object and `ReturnData`. `Outcome` records only the failure message,
  the `changed` diff, or the module name and arguments of the delegation. What the
  delegated module returns is not modelled.
- The `inject` and `complex_args` values passed on to `_execute_module`. They do not
  affect any decision here.
- `utils.md5` and `_remote_md5`: digests are opaque strings. The remote probe's `'3'`
  is the directory sentinel.
- `utils.template`, `utils.path_dwim` and `utils.parse_kv`: uninterpreted functions.
- `base64.b64decode`: an uninterpreted function. The encoding check is kept.
- `utils.MAX_FILE_SIZE_FOR_DIFF`: its value is not part of this model, so it is the
  parameter `maxDiffSize`.
- The size from `os.stat` is the length of the modelled file content.
- Option values are strings. Structured arguments of other types are not modelled.
- The preview's `file` module run with `diff_peek=1` and its `slurp` run, and the
  remote md5 probes, are their own trace events (`Peek`, `Slurp`, `Probe`), which are
  treated as read-only. `NoRemoteMutation`, and with it
  `CopyProperties.RunCheckModeReadOnly`, rests on that: these module runs are not
  told CHECKMODE=True.
- Checksums and uploads are keyed by path. The inline content is recorded where the
  temp file is created (`CreateTemp`), but `md5` and the upload see only the temp
  file's path. The local read that the preview uses is tied to the content only as
  a hypothesis of `CopyProperties.InlineContentShown`.
- `DiffData.GetDiffData`: the exception raised on an unknown encoding is modelled as
  carrying the encoding only, not the whole slurp result.
- `DiffData.GetDiffData`: "the preview raises" is an `UnknownEncoding` result that
  `CopyAction.Transfer` turns into the outcome `Raised`. Exceptions from the
  collaborators themselves are not modelled.
