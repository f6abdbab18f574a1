# butler: the `diff` command and the loopback connection, in Dafny

This project models two self-contained pieces of butler, the itch.io
command-line helper.

- The `diff` command (`cmd/diff/diff.go`, `Do`) produces a patch between an
  old version (the *target*) and a new one (the *source*), plus a signature
  of the new tree beside the patch. It can then verify the patch by
  applying it in a dry run. The patch engine itself belongs to the wharf
  library and is not modelled. What is modelled is the command's own
  control flow:
  - it validates the required parameters;
  - it negotiates whether the target is a signature file or a tree to walk
    and hash;
  - it runs the ordered pipeline, in which the first failing phase ends the
    run with an error wrapped in that phase's own message.

  Each external call (open, stat, read signature, walk, pool, create file,
  write patch, seek, apply) is an abstract step. Its outcome is read from
  an `Env` record. `DiffCommand.Do` returns the steps it attempted, in
  order, together with the error it returns.
- The loopback connection (`cmd/operate/loopbackconn/loopbackconn.go`) is an
  in-process connection. It dispatches notifications and calls by method
  name to handlers registered in two independent tables. Handlers are
  Dafny function values. The `interface{}` parameter and result payloads
  are type parameters. A call handler returns the result object the caller
  sees, next to its error, where the Go handler writes into it by reference.

Errors follow the pkg/errors discipline. An error is a root (the sentinels
`wire.ErrFormat` and `io.EOF`, or a plain error) wrapped in any number of
context messages. `errors.Cause` unwraps down to the root. Sentinel identity
is constructor equality.

Modules:
- `Errors` (errors.dfy);
- `DiffCommand` (diff.dfy) and `DiffProperties` (diff_properties.dfy);
- `LoopbackConn` (loopback.dfy) and `LoopbackProperties` (loopback_properties.dfy).

## Model

| member | source | states |
|---|---|---|
| Errors.Wrap | cmd/diff/diff.go:84-86 | wrapping keeps the root cause, adds the message as the outermost context, and always yields a different error |
| Errors.Cause | cmd/diff/diff.go:115 | the cause is a root error, and a root error is its own cause |
| Errors.Contexts | cmd/diff/diff.go:140 | an error has no context messages exactly when it is a root |
| Errors.WrapAllKeepsCause | cmd/diff/diff.go:114-115 | any number of wrappings keeps the root cause and prepends the messages in order |
| Errors.ErrorIsWrappedCause | cmd/diff/diff.go:114-115 | every error is exactly its root cause wrapped in its context chain |
| Errors.ErrorDeterminedByCauseAndContexts | cmd/diff/diff.go:114-115 | two errors are equal if and only if their causes and context chains are equal |
| DiffCommand.Validate | cmd/diff/diff.go:71-79 | passes exactly when no required parameter is empty; otherwise fails with "diff: must specify " and the first empty one in the order Target, Source, Patch |
| DiffCommand.ReadAsSignature | cmd/diff/diff.go:81-110 | attempts a prefix of open, stat, resume, read; succeeds exactly when the read is reached and succeeds, with the signature read; a directory yields the bare format error before any read |
| DiffCommand.Classify | cmd/diff/diff.go:112-142 | a read signature is used; an error whose root cause is the format error or end of stream means "not a signature"; any other error is fatal, re-wrapped with "determining if target is signature or directory" and its cause kept |
| DiffCommand.HashTarget | cmd/diff/diff.go:116-132 | walks, opens the pool and hashes in that order; a failed pool stops before hashing with the pool's error wrapped in "opening target as directory"; a failed hashing gives its error wrapped in "computing target signature"; otherwise the signature pairs the walked tree (nil when the walk failed) with the computed hashes |
| DiffCommand.WalkedTree | cmd/diff/diff.go:117 | the tree handed on is present exactly when the walk succeeded, and is the walked one |
| DiffCommand.ResolveTarget | cmd/diff/diff.go:81-142 | the steps that establish the old signature start by opening the target and keep program order; a failure names the last step attempted; a signature read is the result, a fatal read error is the error, and after a not-a-signature read the result is exactly the fallback's (its signature or its own error); its steps are the probe's, followed by the fallback's exactly when the read meant "not a signature" |
| DiffCommand.SignaturePath | cmd/diff/diff.go:164 | the signature path extends the patch path with ".sig", so it never equals the patch path |
| DiffCommand.ApplyFresh | cmd/diff/diff.go:243-255 | resumes the patch and applies it; passes exactly when both succeed; a failure names its phase |
| DiffCommand.VerifyPatch | cmd/diff/diff.go:210-257 | seeks, resumes and decodes the fresh signature, then applies against it; passes exactly when all five calls succeed, ending in the apply; a failure names its phase |
| DiffCommand.WritePatchAndSignature | cmd/diff/diff.go:152-190 | opens the source pool, creates the patch file, creates the signature file and writes, in that order; passes exactly when all four succeed; a failure names its phase |
| DiffCommand.WriteAndVerify | cmd/diff/diff.go:152-258 | writing comes first, and a successful run ends with the apply when verifying and with the write otherwise; the outcome is the write's when it failed or without the flag, and otherwise the verify pass's |
| DiffCommand.WriteOutputs | cmd/diff/diff.go:146-258 | walking the new tree comes first, the steps keep program order, and a failure names its phase; a failed walk fails with its error wrapped in "walking source as directory", and otherwise the outcome is that of writing and verifying the walked tree |
| DiffCommand.Do | cmd/diff/diff.go:64-261 | an empty parameter fails before any step; otherwise the run starts by opening the target, attempts steps in program order, names the failed phase in its error, and on success ends with the apply (verify) or the write; its outcome is the target phase's error when that failed, and otherwise the outputs phase's outcome |
| DiffProperties.DirectoryFallsBackToWalking | cmd/diff/diff.go:89-92 | a directory target is classified "not a signature" and walked right after the stat, instead of failing the run |
| DiffProperties.FallbackExactlyOnNotASignature | cmd/diff/diff.go:114-117 | the target is walked right after the probe if and only if the probe failed with a format or end-of-stream root cause |
| DiffProperties.FallbackIgnoresWrapping | cmd/diff/diff.go:115 | any two not-a-signature read errors, however wrapped, give the same run |
| DiffProperties.WrappedFormatErrorFallsBack | cmd/diff/diff.go:100-117 | a read error that wraps the format error or end of stream under any contexts still leads to the walk |
| DiffProperties.OtherCausesAreFatal | cmd/diff/diff.go:139-141 | any other root cause ends the run right after the probe, with the probe's error wrapped in "determining if target is signature or directory" |
| DiffProperties.SignatureReadSkipsHashing | cmd/diff/diff.go:100-112 | after a successful read, the source walk follows the probe directly, no hashing step ever runs, and the patch is written against the signature read |
| DiffProperties.FallbackWritesAgainstComputedSignature | cmd/diff/diff.go:117-128 | after the fallback, the patch is written against the walked tree and the computed hashes |
| DiffProperties.HashTargetIgnoresWalkError | cmd/diff/diff.go:117-126 | within the fallback, a failed and a successful walk give the same number of steps and the same error |
| DiffProperties.TargetWalkErrorIsIgnored | cmd/diff/diff.go:117-123 | the walk's error is never examined: a failed and a successful walk give the same outcome and the same number of steps (the later nil dereference is under Left out) |
| DiffProperties.OutputsIgnoreTargetSignature | cmd/diff/diff.go:174-190 | the old signature only shapes step arguments, never which steps run or the outcome |
| DiffProperties.FallbackStopsAtFirstFailure | cmd/diff/diff.go:117-132 | the first failing call among pool and hashing ends the fallback at that step, wrapped in its own message; with neither failing, the walked tree and the computed hashes are the result |
| DiffProperties.ProbeStopsAtFirstFailure | cmd/diff/diff.go:81-109 | the first failing call among open, stat, resume and read ends the probe at that step: a directory with the bare format error, the others wrapped in "opening target" or "reading target as signature"; with none failing, the signature read is the result |
| DiffProperties.WalkAndWriteStopAtFirstFailure | cmd/diff/diff.go:146-190 | the first failing call among source walk, source pool, patch file, signature file and write ends the run at that step, wrapped in its own message; with none failing, the run ends after the write unless verifying, and with the flag its outcome is the verify pass's, after five steps |
| DiffProperties.OutputsStopAtFirstFailure | cmd/diff/diff.go:152-190 | the first failing call among pool, patch file, signature file and write ends the run at that step, wrapped in its own message; with none failing, all four run |
| DiffProperties.VerifyStopsAtFirstFailure | cmd/diff/diff.go:210-255 | the first failing call among seek, resume, decode, patch source and apply ends the run at that step, wrapped in its own message |
| DiffProperties.SignatureWrittenBesidePatch | cmd/diff/diff.go:164-165 | every signature file the run creates is at the patch path plus ".sig", never at the patch path |
| DiffProperties.VerifyOnlyWhenAskedAfterWrite | cmd/diff/diff.go:187-190 | a verify step runs only with the flag set, after a successful write, with the write step earlier in the run |
| DiffProperties.VerifyOutcomesIrrelevantWithoutFlag | cmd/diff/diff.go:210 | without the flag, the verify pass's call outcomes make no difference to the run |
| DiffProperties.VerifyingOutputsStopAtFirstFailure | cmd/diff/diff.go:146-255 | with the flag, the first failing call among the five that walk and write and the five that verify ends the run at that step, wrapped in its own message; with none failing, the run succeeds after all ten |
| DiffProperties.RunPassesExactlyWhenEveryCallPasses | cmd/diff/diff.go:64-261 | a run succeeds if and only if its parameters are complete, the old signature is obtained, every output call succeeds and, with the flag, every verify call succeeds |
| DiffProperties.RunFailsWithFailingPhase | cmd/diff/diff.go:81-261 | a run whose old signature cannot be obtained stops with that phase's steps and error; otherwise it is the target phase's steps followed by the outputs phase's, with the outputs phase's outcome |
| DiffProperties.FailedApplyFailsVerifiedRun | cmd/diff/diff.go:250-255 | with the flag, a failed dry-run apply fails the run, and when every earlier call succeeded the error is the apply's, wrapped in "applying patch" |
| DiffProperties.ResolveTargetIgnoresWrapping | cmd/diff/diff.go:114-117 | two not-a-signature read errors, however wrapped, establish the same old signature with the same steps |
| DiffProperties.WrittenSignaturePath | cmd/diff/diff.go:164-168 | writing creates a signature file only at its third step, always at the patch path plus ".sig", and creates it whenever it gets that far |
| DiffProperties.VerifiedRunAppliesFreshPatch | cmd/diff/diff.go:224-251 | a successful verified run ends by applying into the target path against the signature just read back; the apply works on the old signature's tree and on the walked source tree |
| LoopbackConn.NoopNotificationHandler | cmd/operate/loopbackconn/loopbackconn.go:17-19 | returns nil for every input |
| LoopbackConn.LogHandler | cmd/operate/loopbackconn/loopbackconn.go:41-45 | the "Log" handler returns nil for every notification |
| LoopbackConn.New | cmd/operate/loopbackconn/loopbackconn.go:34-48 | a new connection handles notifications for "Log" only and has no call handlers |
| LoopbackConn.OnNotification | cmd/operate/loopbackconn/loopbackconn.go:52-54 | the method gains the handler, every other notification handler is kept, and the call table is unchanged |
| LoopbackConn.OnCall | cmd/operate/loopbackconn/loopbackconn.go:63-65 | the method gains the handler, every other call handler is kept, and the notification table is unchanged |
| LoopbackConn.Notify | cmd/operate/loopbackconn/loopbackconn.go:56-61 | a notification for a method without a handler returns nil |
| LoopbackConn.NoHandlerMessage | cmd/operate/loopbackconn/loopbackconn.go:71 | the message is "No handler registered for method (", then the method, then ")" |
| LoopbackConn.Call | cmd/operate/loopbackconn/loopbackconn.go:67-72 | a call for a method without a handler fails with the message naming it and leaves the result untouched; a call can only succeed through a handler |
| LoopbackConn.Close | cmd/operate/loopbackconn/loopbackconn.go:74-77 | returns nil and leaves the connection as it was |
| LoopbackProperties.NotifyDispatchesToLatestHandler | cmd/operate/loopbackconn/loopbackconn.go:52-59 | after registering a handler, a notification for that method returns that handler's result, and other methods are unaffected |
| LoopbackProperties.CallDispatchesToLatestHandler | cmd/operate/loopbackconn/loopbackconn.go:63-70 | after registering a handler, a call for that method returns that handler's reply, and other methods are unaffected |
| LoopbackProperties.TablesAreIndependent | cmd/operate/loopbackconn/loopbackconn.go:30-31 | registering a notification handler never changes a call, and registering a call handler never changes a notification |
| LoopbackProperties.ReRegistrationReplaces | cmd/operate/loopbackconn/loopbackconn.go:52-54 | registering twice for a method equals registering only the second handler |
| LoopbackProperties.NoopHandlerSilences | cmd/operate/loopbackconn/loopbackconn.go:17-19 | the no-op handler makes its method behave as if it had no handler |
| LoopbackProperties.FreshConnection | cmd/operate/loopbackconn/loopbackconn.go:34-72 | on a new connection every notification returns nil and every call fails naming its method |
| LoopbackProperties.NoHandlerMessageIdentifiesMethod | cmd/operate/loopbackconn/loopbackconn.go:71 | two methods get the same missing-handler message if and only if they are the same method |
| LoopbackProperties.CloseKeepsDispatch | cmd/operate/loopbackconn/loopbackconn.go:74-77 | after closing, every notification and call behaves as before |
| LoopbackProperties.ReplayNotify | cmd/operate/loopbackconn/loopbackconn.go:52-61 | after any history of registrations, a notification reaches the last handler registered for its method, or behaves as before when there was none |
| LoopbackProperties.ReplayCall | cmd/operate/loopbackconn/loopbackconn.go:63-72 | after any history of registrations, a call reaches the last handler registered for its method, or behaves as before when there was none |
| LoopbackProperties.ReplayRegisters | cmd/operate/loopbackconn/loopbackconn.go:30-31 | after any history, a method has a handler in a table if and only if it had one before or the history registers one in that table |
| LoopbackProperties.LogAlwaysHandled | cmd/operate/loopbackconn/loopbackconn.go:41-45 | a connection built by `New` handles "Log" notifications whatever is registered later |

## Left out

- The wharf patch engine is not modelled. This covers `pwr.ReadSignature`, `pwr.ComputeSignature`, `DiffContext.WritePatch`, `ApplyContext.ApplyPatch`, the validating and null pools, `tlc.WalkAny` and `pools.New`. Their success or failure is an input, and their results are opaque values.
- File and stream I/O is not modelled: `eos.Open`, `os.Create`, `Seek`, and `seeksource` `Resume`. Each is an abstract step with a given outcome.
- Progress, logging and statistics output is not modelled (cmd/diff/diff.go:107, 119-121, 129, 185-186, 191-208, 211, 250, 252, 257). It is output only, and it uses floating point.
- The statistics block after hashing the target (cmd/diff/diff.go:134-138) is not modelled. Besides printing, it reads the size of the target tree, which is nil after a failed walk; the next two lines say what that means for the model.
- DiffProperties.TargetWalkErrorIsIgnored: the Go program reads the nil target tree's size at cmd/diff/diff.go:135 after a failed walk, and so panics there. The model has no panic outcome: its run goes on as if the walk had succeeded. The lemma states what the error handling does, and this crash is not part of it.
- DiffCommand.Do: when the target walk fails but the pool and the hashing succeed, the Go program panics at cmd/diff/diff.go:135 (or earlier, inside the hashing engine). The model's run instead goes on with a nil tree.
- CLI registration and argument parsing are not modelled (cmd/diff/diff.go:1-62). They are framework glue; `Params` stands for their result.
- The compression settings are not modelled. They are passed through to the patch writer unchanged.
- The deferred `Close` calls are not modelled (cmd/diff/diff.go:87, 162, 169). Their errors are discarded, so they cannot affect the returned error.
- The stat error is not modelled (cmd/diff/diff.go:89). The source discards it and then calls `IsDir` on the result, so a failing stat would panic. The model treats the stat as a plain answer.
- Go panics in general are not modelled. This covers nil dereferences, including the one above at cmd/diff/diff.go:135, and a failed type assertion in the "Log" handler.
- The path filter given to the walks is not modelled. It only affects the walked tree, which is opaque here.
- Error texts of the sentinels (`wire.ErrFormat`, `io.EOF`) are not modelled. The model identifies them by identity only.
- Errors created by `errors.New` are identified by their text, not by allocation.
- The "Log" handler's forwarding of the log line to the `state.Consumer`, and the connection's consumer field, are not modelled. This is a side effect on an external object; the handler is modelled only by its nil return.
- The `context.Context` arguments of handlers, `Notify` and `Call` are not modelled. They are passed through untouched.
- runner/syscallex/kernel32_windows.go is not part of this model. It is Win32 system-call plumbing with nothing to state beyond the foreign calls.
