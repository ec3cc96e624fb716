/** Which complaint is made about a horizon, and which about an executor's frames. */
module Contracts {
  import opened Wrappers
  import opened Vectors
  import opened Protocol
  import opened Executors
  import opened Backtest

  // ----- the horizon

  /** Window i has its warm-up bars before it and all its sessions in the market. */
  predicate Fits(b: Backtester, asOf: nat, i: nat) {
    b.warmupDays <= asOf + i * b.windowDays && asOf + i * b.windowDays + b.windowDays <= |b.market.rows|
  }

  /** A horizon is accepted exactly when every window fits into the market; if not, it is the
      warm-up of the first window that is missing, or else the end of the last. */
  lemma HorizonExactlyWhen(b: Backtester, asOf: nat)
    requires b.Valid()
    ensures b.ValidateHorizon(asOf).None? <==> forall i :: 0 <= i < b.windows ==> Fits(b, asOf, i)
    ensures b.ValidateHorizon(asOf) == Some(NoWarmup) <==> asOf < b.warmupDays
    ensures b.ValidateHorizon(asOf) == Some(NoHorizon) ==> !Fits(b, asOf, b.windows - 1)
  {
    var last := b.windows - 1;
    assert last * b.windowDays + b.windowDays == b.windows * b.windowDays;
    assert 0 * b.windowDays == 0;
    if b.ValidateHorizon(asOf).None? {
      forall i: nat | i < b.windows
        ensures Fits(b, asOf, i)
      {
        b.WindowInHorizon(asOf, i);
      }
    } else {
      assert !Fits(b, asOf, 0) || !Fits(b, asOf, last);
    }
  }

  // ----- an executor's frames

  /** Frame k is the first that is out of sequence or holds a portfolio with a fault. */
  predicate FirstBad(init: InitializeFrame, frames: seq<FrameOutcome>, k: nat, fault: ContractFault) {
    && k < |frames|
    && (forall j :: 0 <= j < k ==> Sound(init, frames, j))
    && match fault
       case SequencesNotContiguous => frames[k].sequence != k
       case PortfolioRejected(f) => frames[k].sequence == k && HasFault(frames[k].weights, init, f)
       case _ => false
  }

  /** Frame j is in its place, with a portfolio that has no fault. */
  predicate Sound(init: InitializeFrame, frames: seq<FrameOutcome>, j: nat)
    requires j < |frames|
  {
    frames[j].sequence == j && ValidateTargetWeights(frames[j].weights, init).Success?
  }

  lemma {:induction false} FirstBadFrame(b: Backtester, init: InitializeFrame, frames: seq<FrameOutcome>)
    returns (k: nat)
    requires b.FrameBreach(init, frames).Some?
    ensures FirstBad(init, frames, k, b.FrameBreach(init, frames).value)
  {
    hide HasFault, ValidateTargetWeights, Backtester.FrameHolds;
    var n := |frames| - 1;
    if b.FrameBreach(init, frames[..n]).Some? {
      k := FirstBadFrame(b, init, frames[..n]);
      forall j | 0 <= j < k
        ensures Sound(init, frames, j)
      {
        assert Sound(init, frames[..n], j);
      }
    } else {
      k := n;
      FirstWeightFault(frames[n].weights, init);
      AllSound(b, init, frames[..n]);
      forall j | 0 <= j < n
        ensures Sound(init, frames, j)
      {
        assert Sound(init, frames[..n], j);
      }
    }
  }

  lemma AllSound(b: Backtester, init: InitializeFrame, frames: seq<FrameOutcome>)
    requires b.FrameBreach(init, frames).None?
    ensures forall j :: 0 <= j < |frames| ==> Sound(init, frames, j)
  {
    hide Gross;
    forall j | 0 <= j < |frames|
      ensures Sound(init, frames, j)
    {
      assert b.FrameHolds(init, frames[j], j);
    }
  }

  /** Not one frame per bar; else the first frame out of sequence or with a faulty portfolio;
      else a run that does not cover the window: that is the complaint made, and none is made
      of frames that are sound. */
  lemma FirstBreach(b: Backtester, request: SandboxRequest, frames: seq<FrameOutcome>)
    ensures var breach := b.Breach(request, frames);
            && (breach == Some(WrongFrameCount) <==> |frames| != |request.bars|)
            && (|frames| == |request.bars| ==>
                  match breach
                  case None => AllSoundFor(request.init, frames) && |frames| == b.warmupDays - 1 + b.windowDays
                  case Some(WindowNotCovered) =>
                    AllSoundFor(request.init, frames) && |frames| != b.warmupDays - 1 + b.windowDays
                  case Some(fault) => exists k :: FirstBad(request.init, frames, k, fault))
  {
    hide HasFault, ValidateTargetWeights, Backtester.FrameHolds;
    if |frames| == |request.bars| {
      if b.FrameBreach(request.init, frames).Some? {
        var k := FirstBadFrame(b, request.init, frames);
      } else {
        AllSound(b, request.init, frames);
      }
    }
  }

  predicate AllSoundFor(init: InitializeFrame, frames: seq<FrameOutcome>) {
    forall j :: 0 <= j < |frames| ==> Sound(init, frames, j)
  }
}
