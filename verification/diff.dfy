/**
 The `diff` command's decision logic (cmd/diff/diff.go, `Do`).

 The patch engine itself and every file-system call are outside this model:
 each external call the command makes is an abstract step whose outcome is
 read from an `Env` record, and `Do` returns the sequence of steps it
 attempted together with the error it returns. What is modelled exactly is
 the command's own control flow: required-parameter validation, the
 "is the old input a signature or a tree?" negotiation, and the ordered
 pipeline in which the first failing phase ends the run with its own
 context message.
 */
module DiffCommand {
  import opened Errors

  // ---------------------------------------------------------------------------
  // Inputs
  // ---------------------------------------------------------------------------

  /** The command's parameters; compression settings are passed through and left out. */
  datatype Params = Params(
    target: string,   // old version: a tree or a signature file
    source: string,   // new version: a tree
    patch: string,    // where to write the patch
    verify: bool)     // run the dry-run apply afterwards

  /** A walked tree description (tlc.Container), known only by its identity. */
  datatype Container = Container(id: nat)

  /**
   A signature (pwr.SignatureInfo): the tree it describes and the block
   hashes. The tree is `None` where the Go code holds a nil container.
   */
  datatype Signature = Signature(container: Option<Container>, hashes: seq<nat>)

  /** What `targetSignature` holds before anything is read or computed. */
  const EmptySignature := Signature(None, [])

  /** Outcomes of the calls that try to read the target as a signature file. */
  datatype ProbeCalls = ProbeCalls(
    open: Outcome,                          // eos.Open(target)
    isDir: bool,                            // Stat().IsDir() on the opened target
    resume: Outcome,                        // seeksource Resume on the target
    readSignature: Result<Signature>)       // pwr.ReadSignature on the target

  /** Outcomes of the calls that walk and hash the target as a tree. */
  datatype FallbackCalls = FallbackCalls(
    walk: Result<Container>,                // tlc.WalkAny(target)
    openPool: Outcome,                      // pools.New(container, target)
    computeHashes: Result<seq<nat>>)        // pwr.ComputeSignature

  /** Outcomes of the calls that write the patch and the new signature. */
  datatype OutputCalls = OutputCalls(
    walkSource: Result<Container>,          // tlc.WalkAny(source)
    openSourcePool: Outcome,                // pools.New(sourceContainer, source)
    createPatchFile: Outcome,               // os.Create(patch)
    createSignatureFile: Outcome,           // os.Create(patch + ".sig")
    writePatch: Outcome)                    // DiffContext.WritePatch

  /** Outcomes of the calls of the verify pass. */
  datatype VerifyCalls = VerifyCalls(
    seekSignature: Outcome,                 // Seek(0) on the signature file
    resumeSignature: Outcome,               // Resume on the signature file
    readSignature: Result<Signature>,       // pwr.ReadSignature on the fresh signature
    resumePatch: Outcome,                   // Resume on the patch file
    applyPatch: Outcome)                    // ApplyContext.ApplyPatch into a validating pool

  /** The outcome of every external call the command can make, grouped by phase. */
  datatype Env = Env(probe: ProbeCalls, fallback: FallbackCalls, output: OutputCalls, verify: VerifyCalls)

  // ---------------------------------------------------------------------------
  // Observations
  // ---------------------------------------------------------------------------

  /** One external call, with the arguments the model can observe. */
  datatype Step =
    | OpenTarget(path: string)
    | StatTarget
    | ResumeTarget
    | ReadTargetSignature
    | WalkTarget(path: string)
    | OpenTargetPool(tree: Option<Container>, path: string)
    | ComputeTargetSignature(tree: Option<Container>)
    | WalkSource(path: string)
    | OpenSourcePool(source: Container, path: string)
    | CreatePatchFile(path: string)
    | CreateSignatureFile(path: string)
    | WritePatch(target: Signature, source: Container)
    | SeekSignature
    | ResumeSignature
    | ReadFreshSignature
    | ResumePatch
    | ApplyPatch(targetPath: string, targetTree: Option<Container>, source: Container, expected: Signature)

  /** The steps attempted, and the error `Do` returns (`Pass` for nil). */
  datatype Run = Run(trace: seq<Step>, outcome: Outcome)

  /** The steps attempted while establishing the target signature, and its value or error. */
  datatype Probe = Probe(trace: seq<Step>, result: Result<Signature>)

  /** The three answers to "is the target a signature?". */
  datatype Negotiation =
    | SignatureRead(signature: Signature)  // a signature file: use it as is
    | NotASignature(reason: Error)         // wrong format or empty: walk it as a tree
    | Fatal(error: Error)                  // anything else: give up

  // ---------------------------------------------------------------------------
  // Messages
  // ---------------------------------------------------------------------------

  const MustSpecify := "diff: must specify "
  const OpeningTarget := "opening target"
  const ReadingTargetSignature := "reading target as signature"
  const Undetermined := "determining if target is signature or directory"
  const OpeningTargetPool := "opening target as directory"
  const ComputingTargetSignature := "computing target signature"
  const WalkingSource := "walking source as directory"
  const CreatingPatchFile := "creating patch file"
  const CreatingSignatureFile := "creating signature file"
  const WritingPatch := "computing and writing patch and signature"
  const SeekingSignature := "seeking to beginning of fresh signature file"
  const ReadingFreshSignature := "reading fresh signature file"
  const DecodingFreshSignature := "decoding fresh signature file"
  const CreatingPatchSource := "creating source for patch"
  const ApplyingPatch := "applying patch"

  /**
   The context of the error `Do` returns when the given step is the last one
   it attempted; `None` for the steps that never end a run on their own.
   */
  function FailureContext(s: Step): Option<string> {
    match s
    case OpenTarget(_) => Some(Undetermined)
    case StatTarget => None
    case ResumeTarget => Some(Undetermined)
    case ReadTargetSignature => Some(Undetermined)
    case WalkTarget(_) => None
    case OpenTargetPool(_, _) => Some(OpeningTargetPool)
    case ComputeTargetSignature(_) => Some(ComputingTargetSignature)
    case WalkSource(_) => Some(WalkingSource)
    case OpenSourcePool(_, _) => Some(WalkingSource)
    case CreatePatchFile(_) => Some(CreatingPatchFile)
    case CreateSignatureFile(_) => Some(CreatingSignatureFile)
    case WritePatch(_, _) => Some(WritingPatch)
    case SeekSignature => Some(SeekingSignature)
    case ResumeSignature => Some(ReadingFreshSignature)
    case ReadFreshSignature => Some(DecodingFreshSignature)
    case ResumePatch => Some(CreatingPatchSource)
    case ApplyPatch(_, _, _, _) => Some(ApplyingPatch)
  }

  // ---------------------------------------------------------------------------
  // Step order
  // ---------------------------------------------------------------------------

  /** The position of each call in the body of `Do`. */
  function Rank(s: Step): nat {
    match s
    case OpenTarget(_) => 0
    case StatTarget => 1
    case ResumeTarget => 2
    case ReadTargetSignature => 3
    case WalkTarget(_) => 4
    case OpenTargetPool(_, _) => 5
    case ComputeTargetSignature(_) => 6
    case WalkSource(_) => 7
    case OpenSourcePool(_, _) => 8
    case CreatePatchFile(_) => 9
    case CreateSignatureFile(_) => 10
    case WritePatch(_, _) => 11
    case SeekSignature => 12
    case ResumeSignature => 13
    case ReadFreshSignature => 14
    case ResumePatch => 15
    case ApplyPatch(_, _, _, _) => 16
  }

  /** Steps happen in program order, each at most once. */
  predicate Ordered(t: seq<Step>) {
    forall i, j :: 0 <= i < j < |t| ==> Rank(t[i]) < Rank(t[j])
  }

  /** Every step of `t` lies in the rank band `[lo, hi)`. */
  predicate Within(t: seq<Step>, lo: nat, hi: nat) {
    forall i :: 0 <= i < |t| ==> lo <= Rank(t[i]) < hi
  }

  /** The verify pass's steps. */
  predicate IsVerifyStep(s: Step) {
    Rank(s) >= 12
  }

  lemma PrefixOrdered(t: seq<Step>, k: nat, lo: nat, hi: nat)
    requires k <= |t| && Ordered(t) && Within(t, lo, hi)
    ensures Ordered(t[..k]) && Within(t[..k], lo, hi)
  {
  }

  lemma OrderedConcat(a: seq<Step>, b: seq<Step>, lo: nat, mid: nat, hi: nat)
    requires lo <= mid <= hi
    requires Ordered(a) && Within(a, lo, mid)
    requires Ordered(b) && Within(b, mid, hi)
    ensures Ordered(a + b) && Within(a + b, lo, hi)
  {
    forall i, j | 0 <= i < j < |a + b|
      ensures Rank((a + b)[i]) < Rank((a + b)[j])
    {
      if j < |a| {
        assert Rank(a[i]) < Rank(a[j]);
      } else if i >= |a| {
        assert Rank(b[i - |a|]) < Rank(b[j - |a|]);
      } else {
        assert Rank(a[i]) < mid <= Rank(b[j - |a|]);
      }
    }
    forall i | 0 <= i < |a + b|
      ensures lo <= Rank((a + b)[i]) < hi
    {
      if i < |a| {
        assert (a + b)[i] == a[i];
      } else {
        assert (a + b)[i] == b[i - |a|];
      }
    }
  }

  /** The last step of a non-empty trace. */
  function Last(t: seq<Step>): Step
    requires t != []
  {
    t[|t| - 1]
  }

  /**
   A failing run names the phase that failed: the outermost context of its
   error is the context of the last step it attempted.
   */
  predicate FailureNamesLastStep(t: seq<Step>, o: Outcome) {
    o.Fail? && t != [] ==>
      o.error.Wrapped? && FailureContext(Last(t)) == Some(o.error.context)
  }

  // ---------------------------------------------------------------------------
  // Parameter validation
  // ---------------------------------------------------------------------------

  /** The names of the empty required parameters, in declaration order. */
  function MissingParameters(p: Params): seq<string> {
    (if p.target == "" then ["Target"] else [])
    + (if p.source == "" then ["Source"] else [])
    + (if p.patch == "" then ["Patch"] else [])
  }

  /** Reject the first empty required parameter. */
  function Validate(p: Params): (r: Outcome)
    ensures r.Pass? <==> MissingParameters(p) == []
    ensures r.Fail? ==> r.error == Plain(MustSpecify + MissingParameters(p)[0])
  {
    if p.target == "" then Fail(Plain(MustSpecify + "Target"))
    else if p.source == "" then Fail(Plain(MustSpecify + "Source"))
    else if p.patch == "" then Fail(Plain(MustSpecify + "Patch"))
    else Pass
  }

  // ---------------------------------------------------------------------------
  // Target negotiation
  // ---------------------------------------------------------------------------

  /** The root causes that mean "this is not a signature file". */
  predicate MeansNotASignature(e: Error) {
    Cause(e) == Format || Cause(e) == EndOfFile
  }

  /** The calls of the `readAsSignature` closure, in order. */
  function ProbeSteps(p: Params): (t: seq<Step>)
    ensures |t| == 4 && Ordered(t) && Within(t, 0, 4)
  {
    [OpenTarget(p.target), StatTarget, ResumeTarget, ReadTargetSignature]
  }

  /**
   Try to read the target as a signature file (the `readAsSignature`
   closure). A directory is reported as a bare format error.
   */
  function ReadAsSignature(p: Params, calls: ProbeCalls): (r: Probe)
    ensures 0 < |r.trace| <= 4 && r.trace == ProbeSteps(p)[..|r.trace|]
    ensures r.result.Ok? <==> ReadTargetSignature in r.trace && calls.readSignature.Ok?
    ensures r.result.Ok? ==> r.result.value == calls.readSignature.value
    ensures calls.open.Pass? && calls.isDir ==>
      r.result == Err(Format) && ReadTargetSignature !in r.trace
  {
    var steps := ProbeSteps(p);
    if calls.open.Fail? then
      Probe(steps[..1], Err(Wrap(calls.open.error, OpeningTarget)))
    else if calls.isDir then
      Probe(steps[..2], Err(Format))
    else if calls.resume.Fail? then
      Probe(steps[..3], Err(Wrap(calls.resume.error, OpeningTarget)))
    else
      match calls.readSignature
      case Err(e) => Probe(steps, Err(Wrap(e, ReadingTargetSignature)))
      case Ok(s) => Probe(steps, Ok(s))
  }

  /**
   Classify the outcome of reading the target as a signature, by the root
   cause of the error and never by its wrapping messages.
   */
  function Classify(read: Result<Signature>): (n: Negotiation)
    ensures n.SignatureRead? <==> read.Ok?
    ensures n.SignatureRead? ==> n.signature == read.value
    ensures n.NotASignature? <==> read.Err? && MeansNotASignature(read.error)
    ensures n.NotASignature? ==> n.reason == read.error
    ensures n.Fatal? ==>
      && Contexts(n.error) == [Undetermined] + Contexts(read.error)
      && Cause(n.error) == Cause(read.error)
      && !MeansNotASignature(n.error)
  {
    match read
    case Ok(s) => SignatureRead(s)
    case Err(e) =>
      if MeansNotASignature(e) then NotASignature(e)
      else Fatal(Wrap(e, Undetermined))
  }

  /** The calls of the fallback that walks and hashes the target, in order. */
  function HashSteps(p: Params, tree: Option<Container>): (t: seq<Step>)
    ensures |t| == 3 && Ordered(t) && Within(t, 4, 7)
  {
    [WalkTarget(p.target), OpenTargetPool(tree, p.target), ComputeTargetSignature(tree)]
  }

  /**
   The fallback: walk the target as a tree and hash it. The walk's own
   error is never looked at, because the Go code reassigns it with the pool
   creation's error before testing it; a failed walk leaves a nil tree.
   */
  function HashTarget(p: Params, calls: FallbackCalls): (r: Probe)
    ensures 1 < |r.trace| <= 3 && r.trace == HashSteps(p, WalkedTree(calls))[..|r.trace|]
    ensures r.result.Ok? <==> calls.openPool.Pass? && calls.computeHashes.Ok?
    ensures r.result.Ok? ==>
      r.result.value == Signature(WalkedTree(calls), calls.computeHashes.value)
    ensures calls.openPool.Fail? ==>
      |r.trace| == 2 && r.result == Err(Wrap(calls.openPool.error, OpeningTargetPool))
    ensures calls.openPool.Pass? ==> |r.trace| == 3
    ensures calls.openPool.Pass? && calls.computeHashes.Err? ==>
      r.result == Err(Wrap(calls.computeHashes.error, ComputingTargetSignature))
    ensures r.result.Err? ==> FailureNamesLastStep(r.trace, Fail(r.result.error))
  {
    var tree := WalkedTree(calls);
    var steps := HashSteps(p, tree);
    if calls.openPool.Fail? then
      Probe(steps[..2], Err(Wrap(calls.openPool.error, OpeningTargetPool)))
    else
      match calls.computeHashes
      case Err(e) => Probe(steps, Err(Wrap(e, ComputingTargetSignature)))
      case Ok(hashes) => Probe(steps, Ok(EmptySignature.(container := tree, hashes := hashes)))
  }

  /** The tree the fallback hands on: the walked one, or nil when the walk failed. */
  function WalkedTree(calls: FallbackCalls): (tree: Option<Container>)
    ensures tree.Some? <==> calls.walk.Ok?
    ensures tree.Some? ==> tree.value == calls.walk.value
  {
    match calls.walk
    case Ok(c) => Some(c)
    case Err(_) => None
  }

  /** Establish the target signature: read it, or walk and hash the target, or fail. */
  function ResolveTarget(p: Params, probe: ProbeCalls, fallback: FallbackCalls): (r: Probe)
    ensures Ordered(r.trace) && Within(r.trace, 0, 7)
    ensures 0 < |r.trace| && r.trace[0] == OpenTarget(p.target)
    ensures r.result.Err? ==> FailureNamesLastStep(r.trace, Fail(r.result.error))
    ensures var n := Classify(ReadAsSignature(p, probe).result);
      && (n.SignatureRead? ==> r.result == Ok(n.signature))
      && (n.Fatal? ==> r.result == Err(n.error))
      && (n.NotASignature? ==> r.result == HashTarget(p, fallback).result)
    ensures var read := ReadAsSignature(p, probe);
      r.trace == read.trace + (if Classify(read.result).NotASignature? then HashTarget(p, fallback).trace else [])
  {
    var read := ReadAsSignature(p, probe);
    PrefixOrdered(ProbeSteps(p), |read.trace|, 0, 4);
    match Classify(read.result)
    case SignatureRead(s) => Probe(read.trace, Ok(s))
    case Fatal(e) => Probe(read.trace, Err(e))
    case NotASignature(_) =>
      var hashed := HashTarget(p, fallback);
      PrefixOrdered(HashSteps(p, WalkedTree(fallback)), |hashed.trace|, 4, 7);
      OrderedConcat(read.trace, hashed.trace, 0, 4, 7);
      Probe(read.trace + hashed.trace, hashed.result)
  }

  // ---------------------------------------------------------------------------
  // Diffing and verification
  // ---------------------------------------------------------------------------

  /** Where the signature of the new tree is written: beside the patch, never over it. */
  function SignaturePath(patch: string): (r: string)
    ensures patch < r
    ensures r[|patch|..] == ".sig"
  {
    patch + ".sig"
  }

  /** The calls that read the fresh signature back, in order. */
  function ReadBackSteps(): (t: seq<Step>)
    ensures |t| == 3 && Ordered(t) && Within(t, 12, 15)
  {
    [SeekSignature, ResumeSignature, ReadFreshSignature]
  }

  /** The calls that apply the fresh patch into the validating pool, in order. */
  function ApplySteps(p: Params, target: Signature, source: Container, expected: Signature): (t: seq<Step>)
    ensures |t| == 2 && Ordered(t) && Within(t, 15, 17)
  {
    [ResumePatch, ApplyPatch(p.target, target.container, source, expected)]
  }

  /** Apply the fresh patch to the target, checking every block against the fresh signature. */
  function ApplyFresh(p: Params, calls: VerifyCalls, target: Signature, source: Container, expected: Signature): (r: Run)
    ensures 0 < |r.trace| <= 2 && r.trace == ApplySteps(p, target, source, expected)[..|r.trace|]
    ensures r.outcome.Pass? <==> calls.resumePatch.Pass? && calls.applyPatch.Pass?
    ensures r.outcome.Pass? ==> |r.trace| == 2
    ensures FailureNamesLastStep(r.trace, r.outcome)
  {
    var steps := ApplySteps(p, target, source, expected);
    if calls.resumePatch.Fail? then
      Run(steps[..1], Fail(Wrap(calls.resumePatch.error, CreatingPatchSource)))
    else if calls.applyPatch.Fail? then
      Run(steps, Fail(Wrap(calls.applyPatch.error, ApplyingPatch)))
    else
      Run(steps, Pass)
  }

  /** The dry-run apply of the fresh patch, validated against the fresh signature. */
  function VerifyPatch(p: Params, calls: VerifyCalls, target: Signature, source: Container): (r: Run)
    ensures Ordered(r.trace) && Within(r.trace, 12, 17)
    ensures 0 < |r.trace| && r.trace[0] == SeekSignature
    ensures r.outcome.Pass? <==>
      && calls.seekSignature.Pass? && calls.resumeSignature.Pass? && calls.readSignature.Ok?
      && calls.resumePatch.Pass? && calls.applyPatch.Pass?
    ensures 3 < |r.trace| ==>
      && calls.readSignature.Ok?
      && r.trace[3..] == ApplyFresh(p, calls, target, source, calls.readSignature.value).trace
    ensures r.outcome.Pass? ==> Last(r.trace).ApplyPatch?
    ensures FailureNamesLastStep(r.trace, r.outcome)
  {
    var steps := ReadBackSteps();
    if calls.seekSignature.Fail? then
      Run(steps[..1], Fail(Wrap(calls.seekSignature.error, SeekingSignature)))
    else if calls.resumeSignature.Fail? then
      Run(steps[..2], Fail(Wrap(calls.resumeSignature.error, ReadingFreshSignature)))
    else
      match calls.readSignature
      case Err(e) => Run(steps, Fail(Wrap(e, DecodingFreshSignature)))
      case Ok(expected) =>
        var applied := ApplyFresh(p, calls, target, source, expected);
        PrefixOrdered(ApplySteps(p, target, source, expected), |applied.trace|, 15, 17);
        OrderedConcat(steps, applied.trace, 12, 15, 17);
        Run(steps + applied.trace, applied.outcome)
  }

  /** The calls that write the patch and the signature once the source is walked, in order. */
  function WriteSteps(p: Params, target: Signature, source: Container): (t: seq<Step>)
    ensures |t| == 4 && Ordered(t) && Within(t, 8, 12)
  {
    [OpenSourcePool(source, p.source), CreatePatchFile(p.patch),
     CreateSignatureFile(SignaturePath(p.patch)), WritePatch(target, source)]
  }

  /** Open the source pool, create both output files and write patch and signature. */
  function WritePatchAndSignature(p: Params, calls: OutputCalls, target: Signature, source: Container): (r: Run)
    ensures 0 < |r.trace| <= 4 && r.trace == WriteSteps(p, target, source)[..|r.trace|]
    ensures r.outcome.Pass? <==>
      calls.openSourcePool.Pass? && calls.createPatchFile.Pass? && calls.createSignatureFile.Pass?
      && calls.writePatch.Pass?
    ensures r.outcome.Pass? ==> |r.trace| == 4
    ensures FailureNamesLastStep(r.trace, r.outcome)
  {
    var steps := WriteSteps(p, target, source);
    if calls.openSourcePool.Fail? then
      Run(steps[..1], Fail(Wrap(calls.openSourcePool.error, WalkingSource)))
    else if calls.createPatchFile.Fail? then
      Run(steps[..2], Fail(Wrap(calls.createPatchFile.error, CreatingPatchFile)))
    else if calls.createSignatureFile.Fail? then
      Run(steps[..3], Fail(Wrap(calls.createSignatureFile.error, CreatingSignatureFile)))
    else if calls.writePatch.Fail? then
      Run(steps, Fail(Wrap(calls.writePatch.error, WritingPatch)))
    else
      Run(steps, Pass)
  }

  /** With the source walked: write patch and signature, then verify when asked to. */
  function WriteAndVerify(p: Params, output: OutputCalls, verify: VerifyCalls, target: Signature, source: Container): (r: Run)
    ensures Ordered(r.trace) && Within(r.trace, 8, 17)
    ensures 0 < |r.trace| && r.trace[0] == OpenSourcePool(source, p.source)
    ensures r.outcome.Pass? ==>
      if p.verify then Last(r.trace).ApplyPatch? else Last(r.trace).WritePatch?
    ensures FailureNamesLastStep(r.trace, r.outcome)
    ensures var written := WritePatchAndSignature(p, output, target, source).outcome;
      r.outcome == if written.Pass? && p.verify then VerifyPatch(p, verify, target, source).outcome else written
  {
    var written := WritePatchAndSignature(p, output, target, source);
    PrefixOrdered(WriteSteps(p, target, source), |written.trace|, 8, 12);
    if written.outcome.Fail? || !p.verify then written
    else
      var checked := VerifyPatch(p, verify, target, source);
      OrderedConcat(written.trace, checked.trace, 8, 12, 17);
      Run(written.trace + checked.trace, checked.outcome)
  }

  /** Walk the source, then write and verify. */
  function WriteOutputs(p: Params, output: OutputCalls, verify: VerifyCalls, target: Signature): (r: Run)
    ensures Ordered(r.trace) && Within(r.trace, 7, 17)
    ensures 0 < |r.trace| && r.trace[0] == WalkSource(p.source)
    ensures r.outcome.Pass? ==>
      if p.verify then Last(r.trace).ApplyPatch? else Last(r.trace).WritePatch?
    ensures FailureNamesLastStep(r.trace, r.outcome)
    ensures output.walkSource.Err? ==> r.outcome == Fail(Wrap(output.walkSource.error, WalkingSource))
    ensures output.walkSource.Ok? ==>
      r.outcome == WriteAndVerify(p, output, verify, target, output.walkSource.value).outcome
  {
    match output.walkSource
    case Err(e) => Run([WalkSource(p.source)], Fail(Wrap(e, WalkingSource)))
    case Ok(source) =>
      var rest := WriteAndVerify(p, output, verify, target, source);
      OrderedConcat([WalkSource(p.source)], rest.trace, 7, 8, 17);
      Run([WalkSource(p.source)] + rest.trace, rest.outcome)
  }

  /** The command: validate, establish the target signature, diff, optionally verify. */
  function Do(p: Params, env: Env): (r: Run)
    ensures MissingParameters(p) != [] ==>
      r.trace == [] && r.outcome == Fail(Plain(MustSpecify + MissingParameters(p)[0]))
    ensures MissingParameters(p) == [] ==> 0 < |r.trace| && r.trace[0] == OpenTarget(p.target)
    ensures Ordered(r.trace)
    ensures FailureNamesLastStep(r.trace, r.outcome)
    ensures r.outcome.Pass? ==>
      if p.verify then Last(r.trace).ApplyPatch? else Last(r.trace).WritePatch?
    ensures MissingParameters(p) == [] ==>
      var target := ResolveTarget(p, env.probe, env.fallback);
      r.outcome == if target.result.Ok? then WriteOutputs(p, env.output, env.verify, target.result.value).outcome
                   else Fail(target.result.error)
  {
    var checked := Validate(p);
    if checked.Fail? then Run([], checked)
    else
      var target := ResolveTarget(p, env.probe, env.fallback);
      match target.result
      case Err(e) => Run(target.trace, Fail(e))
      case Ok(sig) =>
        var out := WriteOutputs(p, env.output, env.verify, sig);
        OrderedConcat(target.trace, out.trace, 0, 7, 17);
        Run(target.trace + out.trace, out.outcome)
  }
}
