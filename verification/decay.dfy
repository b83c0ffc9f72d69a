/** The animation loop while paused: caps decay one unit per frame and the
    loop stops on the first frame that starts with every cap at rest. */
module Decay {
  import opened SpectrumTypes
  import opened Caps
  import opened Sampling
  import opened Frame

  /** A paused frame reads 0 for every in-bounds bar. */
  lemma PausedReadings(cfg: Config, bins: seq<Byte>, j: nat)
    requires j < cfg.meterCount
    ensures FrameReadings(cfg, Paused, bins)[j] == Value(0) || FrameReadings(cfg, Paused, bins)[j] == Undefined
    ensures InBounds(|bins|, cfg.meterCount) ==> FrameReadings(cfg, Paused, bins)[j] == Value(0)
  {
    SampleReadsStride(FrameBins(Paused, bins), cfg.meterCount);
  }

  /** A reading a paused frame can produce: 0, or undefined past the end. */
  predicate ZeroReading(reading: Reading) {
    reading == Value(0) || reading == Undefined
  }

  /** The cap of bar j after a frame whose readings are all zero or undefined,
      from caps at most one per bar. */
  lemma ZeroFrameCapAt(caps: seq<int>, vals: seq<Reading>, j: nat)
    requires |caps| <= |vals| && j < |vals|
    requires forall k :: 0 <= k < |vals| ==> ZeroReading(vals[k])
    ensures var next := NewCaps(caps, vals);
      && |next| == |vals|
      && 0 <= next[j]
      && (j < |caps| ==> next[j] <= Max(caps[j] - 1, 0))
      && (j >= |caps| ==> next[j] == 0)
      && (vals[j] == Value(0) && j < |caps| ==> next[j] == Max(caps[j] - 1, 0))
  {
    NewCapsPerBar(caps, vals, j);
    if j >= |caps| {
      assert ZeroReading(vals[j - |caps|]);
    }
  }

  /** A frame whose readings are all zero or undefined lowers the highest
      positive cap by at least one, and by exactly one when every reading is 0. */
  lemma ZeroFrameLowersMax(caps: seq<int>, vals: seq<Reading>)
    requires |caps| <= |vals|
    requires forall j :: 0 <= j < |vals| ==> ZeroReading(vals[j])
    requires MaxCap(caps) > 0
    ensures MaxCap(NewCaps(caps, vals)) <= MaxCap(caps) - 1
    ensures (forall j :: 0 <= j < |vals| ==> vals[j] == Value(0)) ==>
      MaxCap(NewCaps(caps, vals)) == MaxCap(caps) - 1
  {
    var top := MaxCap(caps);
    var next := NewCaps(caps, vals);
    forall j | 0 <= j < |next|
      ensures next[j] <= top - 1
    {
      ZeroFrameCapAt(caps, vals, j);
    }
    var low := MaxCap(next);
    assert low <= top - 1 by {
      if low != 0 {
        var i :| 0 <= i < |next| && next[i] == low;
      }
    }
    if forall j :: 0 <= j < |vals| ==> vals[j] == Value(0) {
      var k :| 0 <= k < |caps| && caps[k] == top;
      ZeroFrameCapAt(caps, vals, k);
      assert next[k] == top - 1;
    }
  }

  /** While paused, each frame that goes on lowers every positive cap by
      exactly one and leaves every other cap at 0 (bars the array is too
      short for included); the stored array then has one cap per bar. */
  lemma PausedFrameDecays(cfg: Config, caps: seq<int>, bins: seq<Byte>)
    requires |caps| <= cfg.meterCount
    requires InBounds(|bins|, cfg.meterCount)
    requires MaxCap(caps) > 0
    ensures Tick(cfg, Paused, caps, bins).Continue?
    ensures |Tick(cfg, Paused, caps, bins).caps| == cfg.meterCount
    ensures forall j :: 0 <= j < |caps| ==>
      Tick(cfg, Paused, caps, bins).caps[j] == (if caps[j] > 0 then caps[j] - 1 else 0)
    ensures forall j :: |caps| <= j < cfg.meterCount ==> Tick(cfg, Paused, caps, bins).caps[j] == 0
  {
    var vals := FrameReadings(cfg, Paused, bins);
    TickContinueShape(cfg, Paused, caps, bins);
    var next := Tick(cfg, Paused, caps, bins).caps;
    assert next == NewCaps(caps, vals);
    forall j | 0 <= j < |vals|
      ensures ZeroReading(vals[j]) && vals[j] == Value(0)
    {
      PausedReadings(cfg, bins, j);
    }
    forall j | 0 <= j < cfg.meterCount
      ensures j < |caps| ==> next[j] == (if caps[j] > 0 then caps[j] - 1 else 0)
      ensures j >= |caps| ==> next[j] == 0
    {
      ZeroFrameCapAt(caps, vals, j);
    }
  }

  /** A paused frame that goes on lowers the highest cap: by exactly one with
      in-bounds sampling, and by at least one in any case. */
  lemma PausedFrameLowersMax(cfg: Config, caps: seq<int>, bins: seq<Byte>)
    requires |caps| <= cfg.meterCount
    requires Tick(cfg, Paused, caps, bins).Continue?
    ensures MaxCap(caps) > 0
    ensures MaxCap(Tick(cfg, Paused, caps, bins).caps) <= MaxCap(caps) - 1
    ensures InBounds(|bins|, cfg.meterCount) ==> MaxCap(Tick(cfg, Paused, caps, bins).caps) == MaxCap(caps) - 1
  {
    var vals := FrameReadings(cfg, Paused, bins);
    TickContinueShape(cfg, Paused, caps, bins);
    assert Tick(cfg, Paused, caps, bins).caps == NewCaps(caps, vals);
    forall j | 0 <= j < |vals|
      ensures ZeroReading(vals[j])
      ensures InBounds(|bins|, cfg.meterCount) ==> vals[j] == Value(0)
    {
      PausedReadings(cfg, bins, j);
    }
    ZeroFrameLowersMax(caps, vals);
  }

  /** The number of frames a paused loop draws before the frame that stops it. */
  function PausedDrawFrames(cfg: Config, caps: seq<int>, bins: seq<Byte>): (n: nat)
    requires |caps| <= cfg.meterCount
    ensures n <= MaxCap(caps)
    decreases MaxCap(caps)
  {
    match Tick(cfg, Paused, caps, bins)
    case Stop(_) => 0
    case Continue(next, _) =>
      PausedFrameLowersMax(cfg, caps, bins);
      1 + PausedDrawFrames(cfg, next, bins)
  }

  /** With in-bounds sampling a paused loop draws exactly as many frames as
      the highest cap, then stops on the next frame: the first to start with
      every cap at 0. */
  lemma {:induction false} PausedLoopStopsAfterMaxCap(cfg: Config, caps: seq<int>, bins: seq<Byte>)
    requires |caps| <= cfg.meterCount
    requires InBounds(|bins|, cfg.meterCount)
    ensures PausedDrawFrames(cfg, caps, bins) == MaxCap(caps)
    decreases MaxCap(caps)
  {
    match Tick(cfg, Paused, caps, bins)
    case Stop(_) =>
    case Continue(next, _) =>
      PausedFrameLowersMax(cfg, caps, bins);
      PausedLoopStopsAfterMaxCap(cfg, next, bins);
  }

  /** Paused with caps [50, 0, 10] over 1024 bins: 50 drawing frames, then
      the 51st frame stops. */
  lemma FiftyFramesThenStop(cfg: Config, bins: seq<Byte>)
    requires cfg.meterCount == 3 && |bins| == 1024
    ensures PausedDrawFrames(cfg, [50, 0, 10], bins) == 50
  {
    var caps := [50, 0, 10];
    assert MaxCap(caps) == 50 by {
      assert MaxCap(caps[..2]) == 50 by {
        assert caps[..2][..1] == [50];
      }
    }
    assert InBounds(1024, 3) by {
      InBoundsWhenFewBars(1024, 3);
    }
    PausedLoopStopsAfterMaxCap(cfg, caps, bins);
  }

  /** A session paused before its first frame drew anything (no caps yet)
      stops on that first frame, after one clear, with nothing drawn. */
  lemma PausedFirstFrameStops(cfg: Config, bins: seq<Byte>)
    ensures Tick(cfg, Paused, [], bins) == Stop([ClearCanvas(cfg)])
    ensures PausedDrawFrames(cfg, [], bins) == 0
  {
  }
}
