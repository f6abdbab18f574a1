/**
 Properties of the `diff` command's decision logic that relate several
 calls of `Do`, or that follow one path through it from end to end.
 */
module DiffProperties {
  import opened Errors
  import opened DiffCommand

  // ---------------------------------------------------------------------------
  // Target negotiation
  // ---------------------------------------------------------------------------

  /** A directory given as the target is walked as a tree instead of failing the run. */
  lemma DirectoryFallsBackToWalking(p: Params, env: Env)
    requires MissingParameters(p) == []
    requires env.probe.open.Pass? && env.probe.isDir
    ensures Classify(ReadAsSignature(p, env.probe).result).NotASignature?
    ensures 3 < |Do(p, env).trace|
    ensures Do(p, env).trace[..3] == [OpenTarget(p.target), StatTarget, WalkTarget(p.target)]
  {
  }

  /**
   The fallback happens exactly when reading the target as a signature
   failed with a format or end-of-stream root cause.
   */
  lemma FallbackExactlyOnNotASignature(p: Params, env: Env)
    requires MissingParameters(p) == []
    ensures
      var probe := ReadAsSignature(p, env.probe);
      var t := Do(p, env).trace;
      && probe.trace <= t
      && ((|probe.trace| < |t| && t[|probe.trace|] == WalkTarget(p.target)) <==>
          (probe.result.Err? && MeansNotASignature(probe.result.error)))
  {
    var probe := ReadAsSignature(p, env.probe);
    var target := ResolveTarget(p, env.probe, env.fallback);
    assert target.trace <= Do(p, env).trace;
    match Classify(probe.result)
    case SignatureRead(_) =>
      if |probe.trace| < |Do(p, env).trace| {
        assert Do(p, env).trace[|probe.trace|]
            == WriteOutputs(p, env.output, env.verify, target.result.value).trace[0];
      }
    case Fatal(_) =>
    case NotASignature(_) =>
  }

  /**
   What is read from the target only matters through its root cause: any two
   not-a-signature errors, however wrapped, lead to the same run.
   */
  lemma FallbackIgnoresWrapping(p: Params, env: Env, e1: Error, e2: Error)
    requires MeansNotASignature(e1) && MeansNotASignature(e2)
    ensures Do(p, env.(probe := env.probe.(readSignature := Err(e1))))
         == Do(p, env.(probe := env.probe.(readSignature := Err(e2))))
  {
    var env1 := env.(probe := env.probe.(readSignature := Err(e1)));
    var env2 := env.(probe := env.probe.(readSignature := Err(e2)));
    ResolveTargetIgnoresWrapping(p, env.probe, env.fallback, e1, e2);
    if MissingParameters(p) == [] {
      DoSplits(p, env1);
      DoSplits(p, env2);
    }
  }

  /** Establishing the old signature sees a not-a-signature read error only through its root cause. */
  lemma ResolveTargetIgnoresWrapping(p: Params, probe: ProbeCalls, fallback: FallbackCalls, e1: Error, e2: Error)
    requires MeansNotASignature(e1) && MeansNotASignature(e2)
    ensures ResolveTarget(p, probe.(readSignature := Err(e1)), fallback)
         == ResolveTarget(p, probe.(readSignature := Err(e2)), fallback)
  {
    assert |ReadAsSignature(p, probe.(readSignature := Err(e1))).trace|
        == |ReadAsSignature(p, probe.(readSignature := Err(e2))).trace|;
  }

  /** A signature read that fails with a wrapped format or end-of-stream error still falls back. */
  lemma {:induction false} WrappedFormatErrorFallsBack(p: Params, env: Env, root: Error, cs: seq<string>)
    requires MissingParameters(p) == []
    requires root == Format || root == EndOfFile
    requires env.probe.open.Pass? && !env.probe.isDir && env.probe.resume.Pass?
    requires env.probe.readSignature == Err(WrapAll(root, cs))
    ensures 4 < |Do(p, env).trace| && Do(p, env).trace[4] == WalkTarget(p.target)
  {
    WrapAllKeepsCause(root, cs);
    assert MeansNotASignature(Wrap(WrapAll(root, cs), ReadingTargetSignature));
    FallbackExactlyOnNotASignature(p, env);
  }

  /**
   Any other root cause ends the run right after the probe, reported as
   undetermined, with nothing walked.
   */
  lemma OtherCausesAreFatal(p: Params, env: Env)
    requires MissingParameters(p) == []
    requires ReadAsSignature(p, env.probe).result.Err?
    requires !MeansNotASignature(ReadAsSignature(p, env.probe).result.error)
    ensures Do(p, env) ==
      Run(ReadAsSignature(p, env.probe).trace,
          Fail(Wrap(ReadAsSignature(p, env.probe).result.error, Undetermined)))
  {
  }

  /** A signature read in full is the old signature, and the run goes straight on to the outputs. */
  lemma SignatureReadResolvesTarget(p: Params, env: Env)
    requires MissingParameters(p) == []
    requires env.probe.open.Pass? && !env.probe.isDir && env.probe.resume.Pass?
    requires env.probe.readSignature.Ok?
    ensures Do(p, env).trace ==
      ProbeSteps(p) + WriteOutputs(p, env.output, env.verify, env.probe.readSignature.value).trace
  {
    var sig := env.probe.readSignature.value;
    assert ReadAsSignature(p, env.probe) == Probe(ProbeSteps(p), Ok(sig));
    assert ResolveTarget(p, env.probe, env.fallback) == Probe(ProbeSteps(p), Ok(sig));
    DoSplits(p, env);
  }

  /** The outputs phase walks the source first, and writes the patch against the given signature fifth. */
  lemma WriteOutputsShape(p: Params, output: OutputCalls, verify: VerifyCalls, target: Signature)
    ensures var t := WriteOutputs(p, output, verify, target).trace;
      && 0 < |t| && t[0] == WalkSource(p.source)
      && (forall i :: 0 <= i < |t| ==> 7 <= Rank(t[i]))
      && (4 < |t| ==> output.walkSource.Ok? && t[4] == WritePatch(target, output.walkSource.value))
  {
    var t := WriteOutputs(p, output, verify, target).trace;
    if 4 < |t| {
      var source := output.walkSource.value;
      WriteAndVerifyShape(p, output, verify, target, source);
      assert t[4] == WriteAndVerify(p, output, verify, target, source).trace[3];
    }
  }

  /**
   A target that reads as a signature is used as the old signature as is:
   the target is neither walked nor hashed, and the patch is written
   against the signature read.
   */
  lemma SignatureReadSkipsHashing(p: Params, env: Env)
    requires MissingParameters(p) == []
    requires env.probe.open.Pass? && !env.probe.isDir && env.probe.resume.Pass?
    requires env.probe.readSignature.Ok?
    ensures var t := Do(p, env).trace;
      && 4 < |t|
      && t[..5] == ProbeSteps(p) + [WalkSource(p.source)]
      && (forall i :: 0 <= i < |t| ==> !(4 <= Rank(t[i]) <= 6))
      && (8 < |t| ==> t[8] == WritePatch(env.probe.readSignature.value, env.output.walkSource.value))
  {
    SignatureReadResolvesTarget(p, env);
    ProbeThenOutputs(p, env.output, env.verify, env.probe.readSignature.value);
  }

  /** The probe's four steps followed by the outputs phase: no hashing step, and the write fifth after the probe. */
  lemma ProbeThenOutputs(p: Params, output: OutputCalls, verify: VerifyCalls, target: Signature)
    ensures var out := WriteOutputs(p, output, verify, target).trace;
      var t := ProbeSteps(p) + out;
      && 4 < |t|
      && t[..5] == ProbeSteps(p) + [WalkSource(p.source)]
      && (forall i :: 0 <= i < |t| ==> !(4 <= Rank(t[i]) <= 6))
      && (8 < |t| ==> output.walkSource.Ok? && t[8] == WritePatch(target, output.walkSource.value))
  {
    var out := WriteOutputs(p, output, verify, target).trace;
    var t := ProbeSteps(p) + out;
    WriteOutputsShape(p, output, verify, target);
    forall i | 0 <= i < |t|
      ensures !(4 <= Rank(t[i]) <= 6)
    {
      if i >= 4 {
        assert t[i] == out[i - 4];
      }
    }
    if 8 < |t| {
      assert t[8] == out[4];
    }
  }

  /**
   Without a signature to read, the patch is written against the signature
   computed from the walked target (a nil tree when the walk failed).
   */
  lemma FallbackWritesAgainstComputedSignature(p: Params, env: Env)
    requires MissingParameters(p) == []
    requires Classify(ReadAsSignature(p, env.probe).result).NotASignature?
    ensures var k := |ReadAsSignature(p, env.probe).trace| + 7;
      var t := Do(p, env).trace;
      k < |t| ==>
        && env.fallback.computeHashes.Ok? && env.output.walkSource.Ok?
        && t[k] == WritePatch(Signature(WalkedTree(env.fallback), env.fallback.computeHashes.value),
                              env.output.walkSource.value)
  {
  }

  /** The walk's error never reaches the outcome of the fallback, nor the number of its steps. */
  lemma HashTargetIgnoresWalkError(p: Params, calls: FallbackCalls, e: Error, c: Container)
    ensures var bad := HashTarget(p, calls.(walk := Err(e)));
      var good := HashTarget(p, calls.(walk := Ok(c)));
      && |bad.trace| == |good.trace|
      && bad.result.Err? == good.result.Err?
      && (bad.result.Err? ==> bad.result == good.result)
  {
  }

  /**
   The error of walking the target is never examined: whether the walk
   fails or succeeds, the run attempts the same number of steps and ends
   with the same error.
   */
  lemma TargetWalkErrorIsIgnored(p: Params, env: Env, e: Error, c: Container)
    ensures Do(p, env.(fallback := env.fallback.(walk := Err(e)))).outcome
         == Do(p, env.(fallback := env.fallback.(walk := Ok(c)))).outcome
    ensures |Do(p, env.(fallback := env.fallback.(walk := Err(e)))).trace|
         == |Do(p, env.(fallback := env.fallback.(walk := Ok(c)))).trace|
  {
    var bad := env.fallback.(walk := Err(e));
    var good := env.fallback.(walk := Ok(c));
    HashTargetIgnoresWalkError(p, env.fallback, e, c);
    var targetBad := ResolveTarget(p, env.probe, bad);
    var targetGood := ResolveTarget(p, env.probe, good);
    assert |targetBad.trace| == |targetGood.trace|;
    assert targetBad.result.Err? == targetGood.result.Err?;
    if targetBad.result.Err? {
      assert targetBad.result == targetGood.result;
    } else {
      OutputsIgnoreTargetSignature(p, env.output, env.verify, targetBad.result.value, targetGood.result.value);
    }
  }

  /** The old signature only shapes the arguments of the diff and apply steps, never which steps run. */
  lemma OutputsIgnoreTargetSignature(p: Params, output: OutputCalls, verify: VerifyCalls, a: Signature, b: Signature)
    ensures WriteOutputs(p, output, verify, a).outcome == WriteOutputs(p, output, verify, b).outcome
    ensures |WriteOutputs(p, output, verify, a).trace| == |WriteOutputs(p, output, verify, b).trace|
  {
    if output.walkSource.Ok? {
      var src := output.walkSource.value;
      assert WritePatchAndSignature(p, output, a, src).outcome == WritePatchAndSignature(p, output, b, src).outcome;
      assert |WritePatchAndSignature(p, output, a, src).trace| == |WritePatchAndSignature(p, output, b, src).trace|;
      if verify.readSignature.Ok? {
        var expected := verify.readSignature.value;
        assert ApplyFresh(p, verify, a, src, expected).outcome == ApplyFresh(p, verify, b, src, expected).outcome;
        assert |ApplyFresh(p, verify, a, src, expected).trace| == |ApplyFresh(p, verify, b, src, expected).trace|;
      }
      assert WriteAndVerify(p, output, verify, a, src).outcome == WriteAndVerify(p, output, verify, b, src).outcome;
      assert |WriteAndVerify(p, output, verify, a, src).trace| == |WriteAndVerify(p, output, verify, b, src).trace|;
    }
  }

  // ---------------------------------------------------------------------------
  // Outputs and the verify pass
  // ---------------------------------------------------------------------------

  /** The position of the first failing outcome in `os`, or `|os|` when none fails. */
  function FirstFailure(os: seq<Outcome>): (k: nat)
    ensures k <= |os|
    ensures forall i :: 0 <= i < k ==> os[i].Pass?
    ensures k < |os| ==> os[k].Fail?
  {
    if os == [] then 0 else if os[0].Fail? then 0 else 1 + FirstFailure(os[1..])
  }

  /**
   The output phases run in the order pool, patch file, signature file,
   write; the first one that fails ends the run there, with its own message.
   */
  lemma OutputsStopAtFirstFailure(p: Params, calls: OutputCalls, target: Signature, source: Container)
    ensures var os := [calls.openSourcePool, calls.createPatchFile, calls.createSignatureFile, calls.writePatch];
      var messages := [WalkingSource, CreatingPatchFile, CreatingSignatureFile, WritingPatch];
      var k := FirstFailure(os);
      var r := WritePatchAndSignature(p, calls, target, source);
      && |r.trace| == (if k < 4 then k + 1 else 4)
      && r.outcome == (if k < 4 then Fail(Wrap(os[k].error, messages[k])) else Pass)
  {
    var os := [calls.openSourcePool, calls.createPatchFile, calls.createSignatureFile, calls.writePatch];
    assert os[1..] == [calls.createPatchFile, calls.createSignatureFile, calls.writePatch];
    assert os[2..] == [calls.createSignatureFile, calls.writePatch];
    assert os[3..] == [calls.writePatch];
    assert os[4..] == [];
    if calls.openSourcePool.Fail? {
      assert FirstFailure(os) == 0;
    } else if calls.createPatchFile.Fail? {
      assert FirstFailure(os) == 1 + FirstFailure(os[1..]) == 1;
    } else if calls.createSignatureFile.Fail? {
      assert FirstFailure(os[1..]) == 1 + FirstFailure(os[2..]) == 1;
    } else if calls.writePatch.Fail? {
      assert FirstFailure(os[2..]) == 1 + FirstFailure(os[3..]) == 1;
      assert FirstFailure(os[1..]) == 2;
    } else {
      assert FirstFailure(os[3..]) == 1 + FirstFailure(os[4..]) == 1;
      assert FirstFailure(os[2..]) == 2;
      assert FirstFailure(os[1..]) == 3;
    }
  }

  /** The error side of a value-or-error return. */
  function Status<T>(r: Result<T>): (o: Outcome)
    ensures o.Pass? <==> r.Ok?
    ensures o.Fail? ==> o.error == r.error
  {
    match r
    case Ok(_) => Pass
    case Err(e) => Fail(e)
  }

  /**
   The verify pass runs seek, resume, decode, patch source, apply in that
   order; the first one that fails ends the run there, with its own message.
   */
  lemma VerifyStopsAtFirstFailure(p: Params, calls: VerifyCalls, target: Signature, source: Container)
    ensures var os := [calls.seekSignature, calls.resumeSignature, Status(calls.readSignature),
                       calls.resumePatch, calls.applyPatch];
      var messages := [SeekingSignature, ReadingFreshSignature, DecodingFreshSignature,
                       CreatingPatchSource, ApplyingPatch];
      var k := FirstFailure(os);
      var r := VerifyPatch(p, calls, target, source);
      && |r.trace| == (if k < 5 then k + 1 else 5)
      && r.outcome == (if k < 5 then Fail(Wrap(os[k].error, messages[k])) else Pass)
  {
    var os := [calls.seekSignature, calls.resumeSignature, Status(calls.readSignature),
               calls.resumePatch, calls.applyPatch];
    assert os[1..] == [calls.resumeSignature, Status(calls.readSignature), calls.resumePatch, calls.applyPatch];
    assert os[2..] == [Status(calls.readSignature), calls.resumePatch, calls.applyPatch];
    assert os[3..] == [calls.resumePatch, calls.applyPatch];
    assert os[4..] == [calls.applyPatch];
    assert os[5..] == [];
    if calls.seekSignature.Fail? {
      assert FirstFailure(os) == 0;
    } else if calls.resumeSignature.Fail? {
      assert FirstFailure(os) == 1 + FirstFailure(os[1..]) == 1;
    } else if calls.readSignature.Err? {
      assert FirstFailure(os[1..]) == 1 + FirstFailure(os[2..]) == 1;
    } else if calls.resumePatch.Fail? {
      assert FirstFailure(os[2..]) == 1 + FirstFailure(os[3..]) == 1;
      assert FirstFailure(os[1..]) == 2;
    } else if calls.applyPatch.Fail? {
      assert FirstFailure(os[3..]) == 1 + FirstFailure(os[4..]) == 1;
      assert FirstFailure(os[2..]) == 2;
      assert FirstFailure(os[1..]) == 3;
    } else {
      assert FirstFailure(os[4..]) == 1 + FirstFailure(os[5..]) == 1;
      assert FirstFailure(os[3..]) == 2;
      assert FirstFailure(os[2..]) == 3;
      assert FirstFailure(os[1..]) == 4;
    }
  }

  /**
   The fallback runs the pool and the hashing in that order, after a walk
   whose error is never looked at; the first of the two that fails ends the
   fallback there, with its own message.
   */
  lemma FallbackStopsAtFirstFailure(p: Params, calls: FallbackCalls)
    ensures var os := [calls.openPool, Status(calls.computeHashes)];
      var messages := [OpeningTargetPool, ComputingTargetSignature];
      var k := FirstFailure(os);
      var r := HashTarget(p, calls);
      && |r.trace| == (if k < 2 then k + 2 else 3)
      && (k < 2 ==> r.result == Err(Wrap(os[k].error, messages[k])))
      && (k == 2 ==> calls.computeHashes.Ok? && r.result == Ok(Signature(WalkedTree(calls), calls.computeHashes.value)))
  {
    var os := [calls.openPool, Status(calls.computeHashes)];
    assert os[1..] == [Status(calls.computeHashes)];
    assert os[2..] == [];
    if calls.openPool.Fail? {
      assert FirstFailure(os) == 0;
    } else if calls.computeHashes.Err? {
      assert FirstFailure(os) == 1 + FirstFailure(os[1..]) == 1;
    } else {
      assert FirstFailure(os[1..]) == 1 + FirstFailure(os[2..]) == 1;
    }
  }

  /**
   The whole output phase: walking the source comes before the four write
   calls, and the first of the five calls that fails ends the run there,
   with its own message; when none fails, the run goes on to verify only if
   asked to.
   */
  lemma WalkAndWriteStopAtFirstFailure(p: Params, output: OutputCalls, verify: VerifyCalls, target: Signature)
    ensures var os := [Status(output.walkSource), output.openSourcePool, output.createPatchFile,
                       output.createSignatureFile, output.writePatch];
      var messages := [WalkingSource, WalkingSource, CreatingPatchFile, CreatingSignatureFile, WritingPatch];
      var k := FirstFailure(os);
      var r := WriteOutputs(p, output, verify, target);
      && (k < 5 ==> |r.trace| == k + 1 && r.outcome == Fail(Wrap(os[k].error, messages[k])))
      && (k == 5 ==> 5 <= |r.trace| && (!p.verify ==> |r.trace| == 5 && r.outcome.Pass?))
      && (k == 5 && p.verify ==>
            var checked := VerifyPatch(p, verify, target, output.walkSource.value);
            |r.trace| == 5 + |checked.trace| && r.outcome == checked.outcome)
  {
    var os := [Status(output.walkSource), output.openSourcePool, output.createPatchFile,
               output.createSignatureFile, output.writePatch];
    if output.walkSource.Ok? {
      var source := output.walkSource.value;
      assert os[1..] == [output.openSourcePool, output.createPatchFile, output.createSignatureFile, output.writePatch];
      assert FirstFailure(os) == 1 + FirstFailure(os[1..]);
      OutputsStopAtFirstFailure(p, output, target, source);
      WriteAndVerifyShape(p, output, verify, target, source);
    }
  }

  /** The first failure in `a + b` is the first in `a`, or else `|a|` past the first in `b`. */
  lemma {:induction false} FirstFailureConcat(a: seq<Outcome>, b: seq<Outcome>)
    ensures FirstFailure(a + b) == if FirstFailure(a) < |a| then FirstFailure(a) else |a| + FirstFailure(b)
    decreases |a|
  {
    if a != [] {
      assert (a + b)[1..] == a[1..] + b;
      FirstFailureConcat(a[1..], b);
    } else {
      assert a + b == b;
    }
  }

  /** With the flag, the first failing call among the five that write and the five that verify ends the run. */
  lemma VerifyingOutputsStopAtFirstFailure(p: Params, output: OutputCalls, verify: VerifyCalls, target: Signature)
    requires p.verify
    ensures var writes := [Status(output.walkSource), output.openSourcePool, output.createPatchFile,
                           output.createSignatureFile, output.writePatch];
      var checks := [verify.seekSignature, verify.resumeSignature, Status(verify.readSignature),
                     verify.resumePatch, verify.applyPatch];
      var writeMessages := [WalkingSource, WalkingSource, CreatingPatchFile, CreatingSignatureFile, WritingPatch];
      var checkMessages := [SeekingSignature, ReadingFreshSignature, DecodingFreshSignature,
                            CreatingPatchSource, ApplyingPatch];
      var k := FirstFailure(writes + checks);
      var r := WriteOutputs(p, output, verify, target);
      && |r.trace| == (if k < 10 then k + 1 else 10)
      && (k < 5 ==> r.outcome == Fail(Wrap(writes[k].error, writeMessages[k])))
      && (5 <= k < 10 ==> r.outcome == Fail(Wrap(checks[k - 5].error, checkMessages[k - 5])))
      && (k == 10 ==> r.outcome.Pass?)
  {
    var writes := [Status(output.walkSource), output.openSourcePool, output.createPatchFile,
                   output.createSignatureFile, output.writePatch];
    var checks := [verify.seekSignature, verify.resumeSignature, Status(verify.readSignature),
                   verify.resumePatch, verify.applyPatch];
    WalkAndWriteStopAtFirstFailure(p, output, verify, target);
    FirstFailureConcat(writes, checks);
    if FirstFailure(writes) == 5 {
      VerifyStopsAtFirstFailure(p, verify, target, output.walkSource.value);
    }
  }

  /**
   The probe runs open, stat, resume and read in that order, and the first
   that fails ends it there: a directory with the bare format error, the
   other calls with their own message.
   */
  lemma ProbeStopsAtFirstFailure(p: Params, calls: ProbeCalls)
    ensures var os := [calls.open, if calls.isDir then Fail(Format) else Pass, calls.resume,
                       Status(calls.readSignature)];
      var messages := [OpeningTarget, "", OpeningTarget, ReadingTargetSignature];
      var k := FirstFailure(os);
      var r := ReadAsSignature(p, calls);
      && |r.trace| == (if k < 4 then k + 1 else 4)
      && (k == 1 ==> r.result == Err(Format))
      && (k < 4 && k != 1 ==> r.result == Err(Wrap(os[k].error, messages[k])))
      && (k == 4 ==> r.result == calls.readSignature && calls.readSignature.Ok?)
  {
    var os := [calls.open, if calls.isDir then Fail(Format) else Pass, calls.resume,
               Status(calls.readSignature)];
    assert os[1..] == [os[1], calls.resume, Status(calls.readSignature)];
    assert os[2..] == [calls.resume, Status(calls.readSignature)];
    assert os[3..] == [Status(calls.readSignature)];
    assert os[4..] == [];
    if calls.open.Fail? {
      assert FirstFailure(os) == 0;
    } else if calls.isDir {
      assert FirstFailure(os) == 1 + FirstFailure(os[1..]) == 1;
    } else if calls.resume.Fail? {
      assert FirstFailure(os[1..]) == 1 + FirstFailure(os[2..]) == 1;
    } else if calls.readSignature.Err? {
      assert FirstFailure(os[2..]) == 1 + FirstFailure(os[3..]) == 1;
      assert FirstFailure(os[1..]) == 2;
    } else {
      assert FirstFailure(os[3..]) == 1 + FirstFailure(os[4..]) == 1;
      assert FirstFailure(os[2..]) == 2;
      assert FirstFailure(os[1..]) == 3;
    }
  }

  /** Once the source is walked: what is written first, and when the verify pass follows. */
  lemma WriteAndVerifyShape(p: Params, output: OutputCalls, verify: VerifyCalls, target: Signature, source: Container)
    ensures var t := WriteAndVerify(p, output, verify, target, source).trace;
      var written := WritePatchAndSignature(p, output, target, source);
      && written.trace <= t
      && (|written.trace| < |t| ==>
            && p.verify && output.writePatch.Pass? && |written.trace| == 4
            && t[4..] == VerifyPatch(p, verify, target, source).trace)
  {
  }

  /**
   Writing creates at most one signature file, at the third step, beside
   the patch; it creates it whenever it gets that far.
   */
  lemma WrittenSignaturePath(p: Params, output: OutputCalls, target: Signature, source: Container)
    ensures var t := WritePatchAndSignature(p, output, target, source).trace;
      && (forall i :: 0 <= i < |t| && t[i].CreateSignatureFile? ==> i == 2 && t[i].path == SignaturePath(p.patch))
      && (|t| >= 3 ==> t[2] == CreateSignatureFile(SignaturePath(p.patch)))
  {
  }

  /** The verify pass creates no files. */
  lemma VerifyPatchCreatesNothing(p: Params, verify: VerifyCalls, target: Signature, source: Container)
    ensures var t := VerifyPatch(p, verify, target, source).trace;
      forall i :: 0 <= i < |t| ==> !t[i].CreateSignatureFile? && !t[i].CreatePatchFile?
  {
  }

  /** Once the source is walked, the only signature file created is the one beside the patch. */
  lemma WriteAndVerifySignaturePath(p: Params, output: OutputCalls, verify: VerifyCalls, target: Signature, source: Container)
    ensures var t := WriteAndVerify(p, output, verify, target, source).trace;
      forall i :: 0 <= i < |t| && t[i].CreateSignatureFile? ==> t[i].path == SignaturePath(p.patch)
  {
    var t := WriteAndVerify(p, output, verify, target, source).trace;
    var written := WritePatchAndSignature(p, output, target, source);
    WrittenSignaturePath(p, output, target, source);
    if !(written.outcome.Fail? || !p.verify) {
      var checked := VerifyPatch(p, verify, target, source);
      VerifyPatchCreatesNothing(p, verify, target, source);
      assert t == written.trace + checked.trace;
      forall i | |written.trace| <= i < |t|
        ensures t[i] == checked.trace[i - |written.trace|]
      {
      }
    }
  }

  /** Inside the outputs phase, the only signature file created is the one beside the patch. */
  lemma WriteOutputsSignaturePath(p: Params, output: OutputCalls, verify: VerifyCalls, target: Signature)
    ensures var t := WriteOutputs(p, output, verify, target).trace;
      forall i :: 0 <= i < |t| && t[i].CreateSignatureFile? ==> t[i].path == SignaturePath(p.patch)
  {
    if output.walkSource.Ok? {
      var t := WriteOutputs(p, output, verify, target).trace;
      var rest := WriteAndVerify(p, output, verify, target, output.walkSource.value);
      WriteAndVerifySignaturePath(p, output, verify, target, output.walkSource.value);
      assert t == [WalkSource(p.source)] + rest.trace;
      forall i | 1 <= i < |t|
        ensures t[i] == rest.trace[i - 1]
      {
      }
    }
  }

  /**
   A run either stops while the old signature is being obtained, with every
   step it attempted in that phase, or goes on into the outputs phase.
   */
  lemma DoSplits(p: Params, env: Env)
    requires MissingParameters(p) == []
    ensures var target := ResolveTarget(p, env.probe, env.fallback);
      if target.result.Ok? then
        Do(p, env).trace == target.trace + WriteOutputs(p, env.output, env.verify, target.result.value).trace
      else
        Do(p, env).trace == target.trace
    ensures var target := ResolveTarget(p, env.probe, env.fallback);
      Do(p, env).outcome ==
        if target.result.Ok? then WriteOutputs(p, env.output, env.verify, target.result.value).outcome
        else Fail(target.result.error)
  {
  }

  /** Establishing the old signature creates no files. */
  lemma ResolveTargetCreatesNothing(p: Params, probe: ProbeCalls, fallback: FallbackCalls)
    ensures var t := ResolveTarget(p, probe, fallback).trace;
      forall i :: 0 <= i < |t| ==> !t[i].CreateSignatureFile? && !t[i].CreatePatchFile?
  {
  }

  /** The signature file the run creates is always the patch path with ".sig" appended. */
  lemma SignatureWrittenBesidePatch(p: Params, env: Env)
    ensures var t := Do(p, env).trace;
      forall i :: 0 <= i < |t| && t[i].CreateSignatureFile? ==>
        t[i].path == p.patch + ".sig" && t[i].path != p.patch
  {
    var t := Do(p, env).trace;
    if MissingParameters(p) == [] {
      var target := ResolveTarget(p, env.probe, env.fallback);
      DoSplits(p, env);
      ResolveTargetCreatesNothing(p, env.probe, env.fallback);
      if target.result.Ok? {
        var out := WriteOutputs(p, env.output, env.verify, target.result.value);
        WriteOutputsSignaturePath(p, env.output, env.verify, target.result.value);
        forall i | 0 <= i < |t| && t[i].CreateSignatureFile?
          ensures t[i].path == SignaturePath(p.patch)
        {
          if i >= |target.trace| {
            assert t[i] == out.trace[i - |target.trace|];
          }
        }
      }
    }
  }

  /** Inside the outputs phase, verify steps come only with the flag, after a successful write. */
  lemma WriteOutputsVerifyAfterWrite(p: Params, output: OutputCalls, verify: VerifyCalls, target: Signature)
    ensures var t := WriteOutputs(p, output, verify, target).trace;
      forall i :: 0 <= i < |t| && IsVerifyStep(t[i]) ==>
        && p.verify && output.writePatch.Pass?
        && 4 < i && t[4].WritePatch?
  {
    var t := WriteOutputs(p, output, verify, target).trace;
    forall i | 0 <= i < |t| && IsVerifyStep(t[i])
      ensures p.verify && output.writePatch.Pass? && 4 < i && t[4].WritePatch?
    {
      var source := output.walkSource.value;
      var rest := WriteAndVerify(p, output, verify, target, source);
      var written := WritePatchAndSignature(p, output, target, source);
      assert t[i] == rest.trace[i - 1];
      WriteAndVerifyShape(p, output, verify, target, source);
      assert t[4] == written.trace[3];
    }
  }

  /**
   The verify pass runs only when asked for, and only after the patch and
   signature were written successfully.
   */
  lemma VerifyOnlyWhenAskedAfterWrite(p: Params, env: Env)
    ensures var t := Do(p, env).trace;
      forall i :: 0 <= i < |t| && IsVerifyStep(t[i]) ==>
        && p.verify && env.output.writePatch.Pass?
        && exists j :: 0 <= j < i && t[j].WritePatch?
  {
    var t := Do(p, env).trace;
    if MissingParameters(p) == [] {
      var target := ResolveTarget(p, env.probe, env.fallback);
      DoSplits(p, env);
      if target.result.Ok? {
        var out := WriteOutputs(p, env.output, env.verify, target.result.value);
        WriteOutputsVerifyAfterWrite(p, env.output, env.verify, target.result.value);
        var k := |target.trace|;
        forall i | k <= i < |t| && IsVerifyStep(t[i])
          ensures p.verify && env.output.writePatch.Pass? && exists j :: 0 <= j < i && t[j].WritePatch?
        {
          assert t[i] == out.trace[i - k];
          assert t[k + 4] == out.trace[4];
        }
      }
    }
  }

  /** Without the flag, the outcomes of the verify pass's calls make no difference at all. */
  lemma VerifyOutcomesIrrelevantWithoutFlag(p: Params, env: Env, other: VerifyCalls)
    requires !p.verify
    ensures Do(p, env) == Do(p, env.(verify := other))
  {
  }

  /**
   With the flag, a run whose every call succeeds ends by applying the
   patch against the signature just read back.
   */
  lemma VerifiedRunAppliesFreshPatch(p: Params, env: Env)
    requires MissingParameters(p) == [] && p.verify
    requires Do(p, env).outcome.Pass?
    ensures Last(Do(p, env).trace).ApplyPatch?
    ensures env.verify.readSignature.Ok?
    ensures Last(Do(p, env).trace).expected == env.verify.readSignature.value
    ensures Last(Do(p, env).trace).targetPath == p.target
    ensures ResolveTarget(p, env.probe, env.fallback).result.Ok? && env.output.walkSource.Ok?
    ensures Last(Do(p, env).trace).targetTree == ResolveTarget(p, env.probe, env.fallback).result.value.container
    ensures Last(Do(p, env).trace).source == env.output.walkSource.value
  {
    DoSplits(p, env);
  }

  /**
   A run with valid parameters succeeds exactly when the old signature is
   obtained, every call of the outputs phase succeeds and, with the flag,
   every call of the verify pass succeeds too.
   */
  lemma RunPassesExactlyWhenEveryCallPasses(p: Params, env: Env)
    ensures Do(p, env).outcome.Pass? <==>
      && MissingParameters(p) == []
      && ResolveTarget(p, env.probe, env.fallback).result.Ok?
      && env.output.walkSource.Ok? && env.output.openSourcePool.Pass? && env.output.createPatchFile.Pass?
      && env.output.createSignatureFile.Pass? && env.output.writePatch.Pass?
      && (p.verify ==>
            && env.verify.seekSignature.Pass? && env.verify.resumeSignature.Pass? && env.verify.readSignature.Ok?
            && env.verify.resumePatch.Pass? && env.verify.applyPatch.Pass?)
  {
    if MissingParameters(p) == [] {
      DoSplits(p, env);
    }
  }

  /**
   A run that fails while the old signature is being obtained fails with
   that phase's error; otherwise its error, if any, is the outputs phase's.
   */
  lemma RunFailsWithFailingPhase(p: Params, env: Env)
    requires MissingParameters(p) == []
    ensures var target := ResolveTarget(p, env.probe, env.fallback);
      && (target.result.Err? ==> Do(p, env) == Run(target.trace, Fail(target.result.error)))
      && (target.result.Ok? ==>
            var out := WriteOutputs(p, env.output, env.verify, target.result.value);
            Do(p, env) == Run(target.trace + out.trace, out.outcome))
  {
    DoSplits(p, env);
  }

  /** A verifying run whose dry-run apply fails reports the apply's error. */
  lemma FailedApplyFailsVerifiedRun(p: Params, env: Env)
    requires p.verify && env.verify.applyPatch.Fail?
    ensures Do(p, env).outcome.Fail?
    ensures MissingParameters(p) == [] && ResolveTarget(p, env.probe, env.fallback).result.Ok?
            && env.output.walkSource.Ok? && env.output.openSourcePool.Pass? && env.output.createPatchFile.Pass?
            && env.output.createSignatureFile.Pass? && env.output.writePatch.Pass?
            && env.verify.seekSignature.Pass? && env.verify.resumeSignature.Pass? && env.verify.readSignature.Ok?
            && env.verify.resumePatch.Pass? ==>
      Do(p, env).outcome == Fail(Wrap(env.verify.applyPatch.error, ApplyingPatch))
  {
    RunPassesExactlyWhenEveryCallPasses(p, env);
    if MissingParameters(p) == [] && ResolveTarget(p, env.probe, env.fallback).result.Ok? {
      DoSplits(p, env);
      VerifyingOutputsStopAtFirstFailure(p, env.output, env.verify, ResolveTarget(p, env.probe, env.fallback).result.value);
    }
  }
}
