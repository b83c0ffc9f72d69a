/** One animation frame of the renderer (`drawMeter`): the at-rest stop rule,
    stride sampling, the cap update and the rectangles drawn. */
module Frame {
  import opened SpectrumTypes
  import opened Caps
  import opened Sampling
  import opened Geometry

  /** The clear of the whole canvas that starts every frame. */
  function ClearCanvas(cfg: Config): Draw {
    ClearRect(0.0, 0.0, cfg.width as real, cfg.DrawableHeight() + cfg.capHeight)
  }

  /** The cap rectangle of bar `i`, placed at the height of cap value `cap`. */
  function CapDraw(cfg: Config, i: nat, cap: int): Draw {
    FillRect(CapColor, BarX(cfg, i), MeterY(cfg, cap), cfg.meterWidth, cfg.capHeight)
  }

  /** The meter rectangle of bar `i`, from just below one cap above the
      height of `value` down by the drawable height. */
  function MeterDraw(cfg: Config, i: nat, value: int): Draw {
    FillRect(MeterGradient, BarX(cfg, i), MeterY(cfg, value) + cfg.capHeight, cfg.meterWidth, cfg.DrawableHeight())
  }

  /** The rectangles of bar `i` whose cap ends the frame at `cap`: the cap,
      then the meter. An undefined reading gives NaN coordinates, which a
      canvas ignores, so nothing is drawn for it. */
  function BarDraw(cfg: Config, i: nat, reading: Reading, cap: int): (r: seq<Draw>)
    ensures reading.Undefined? <==> r == []
    ensures reading.Value? ==> |r| == 2 && r[0].FillRect? && r[0].paint == CapColor && r[1].FillRect? && r[1].paint == MeterGradient
  {
    match reading
    case Undefined => []
    case Value(v) => [CapDraw(cfg, i, cap), MeterDraw(cfg, i, v)]
  }

  /** The rectangles of bars 0 .. n-1, left to right. */
  function BarDraws(cfg: Config, vals: seq<Reading>, caps: seq<int>, n: nat): seq<Draw>
    requires n <= |vals| && n <= |caps|
  {
    if n == 0 then []
    else BarDraws(cfg, vals, caps, n - 1) + BarDraw(cfg, n - 1, vals[n - 1], caps[n - 1])
  }

  /** The frequency data a frame works on: zeroed while paused. */
  function FrameBins(status: PlayStatus, bins: seq<Byte>): (r: seq<Byte>)
    ensures |r| == |bins|
    ensures status == Playing ==> r == bins
    ensures status == Paused ==> forall k :: 0 <= k < |r| ==> r[k] == 0
  {
    if status == Paused then seq(|bins|, _ => 0) else bins
  }

  /** One animation frame, from the playback status, the caps at its start
      and the analyser's frequency data. */
  function Tick(cfg: Config, status: PlayStatus, caps: seq<int>, bins: seq<Byte>): (r: TickResult)
    ensures status == Playing ==> r.Continue?
    ensures r.Stop? <==> status == Paused && MaxCap(caps) == 0
    ensures r.Stop? ==> r.draws == [ClearCanvas(cfg)]
    ensures r.Continue? ==> |r.caps| == Max(|caps|, cfg.meterCount)
    ensures r.Continue? ==> |r.draws| >= 1 && r.draws[0] == ClearCanvas(cfg)
    ensures r.Continue? ==>
      forall j :: 0 <= j < cfg.meterCount ==>
        r.caps[j] >= Stored(Sample(FrameBins(status, bins), cfg.meterCount)[j])
  {
    AtRestIffMaxZero(caps);
    if status == Paused && AllAtRest(caps) then
      Stop([ClearCanvas(cfg)])
    else
      var vals := Sample(FrameBins(status, bins), cfg.meterCount);
      var next := NewCaps(caps, vals);
      forall j | 0 <= j < cfg.meterCount
        ensures next[j] >= Stored(vals[j])
      {
        NewCapsPerBar(caps, vals, j);
      }
      Continue(next, [ClearCanvas(cfg)] + BarDraws(cfg, vals, next, cfg.meterCount))
  }

  /** The reading of each bar in a frame that draws. */
  function FrameReadings(cfg: Config, status: PlayStatus, bins: seq<Byte>): seq<Reading> {
    Sample(FrameBins(status, bins), cfg.meterCount)
  }

  /** The shape of a frame that goes on: new caps from the readings, then a
      clear followed by the bars. */
  lemma TickContinueShape(cfg: Config, status: PlayStatus, caps: seq<int>, bins: seq<Byte>)
    requires Tick(cfg, status, caps, bins).Continue?
    ensures var vals := FrameReadings(cfg, status, bins);
      Tick(cfg, status, caps, bins)
        == Continue(NewCaps(caps, vals), [ClearCanvas(cfg)] + BarDraws(cfg, vals, NewCaps(caps, vals), cfg.meterCount))
  {
    AtRestIffMaxZero(caps);
  }

  /** One bar's turn as `drawMeter`'s bar loop writes it: append the value while the cap
      array is short, then move cap i by the cap rule and draw the bar. */
  method DrawBar(cfg: Config, c: seq<int>, i: nat, reading: Reading) returns (c': seq<int>, draws: seq<Draw>)
    requires i < cfg.meterCount && i <= |c|
    ensures c' == BarTurn(c, i, reading, cfg.meterCount)
    ensures draws == BarDraw(cfg, i, reading, c'[i])
  {
    c' := c;
    if |c'| < cfg.meterCount {
      c' := c' + [Stored(reading)];
    }
    match reading {
      case Undefined =>
        c' := c'[i := 0];
        draws := [];
      case Value(v) =>
        var cap: Draw;
        if v < c'[i] {
          c' := c'[i := c'[i] - 1];
          cap := CapDraw(cfg, i, c'[i]);
        } else {
          cap := CapDraw(cfg, i, v);
          c' := c'[i := v];
        }
        draws := [cap, MeterDraw(cfg, i, v)];
    }
  }

  /** The bar loop of a frame: every bar takes its turn in order. */
  method DrawBars(cfg: Config, caps: seq<int>, vals: seq<Reading>) returns (c: seq<int>, draws: seq<Draw>)
    requires |vals| == cfg.meterCount
    ensures c == NewCaps(caps, vals)
    ensures draws == BarDraws(cfg, vals, c, cfg.meterCount)
  {
    var m := cfg.meterCount;
    ghost var next := NewCaps(caps, vals);
    SourceLoopIsNewCaps(caps, vals);
    c := caps;
    draws := [];
    var i := 0;
    while i < m
      invariant i <= m && i <= |c|
      invariant CapsAfterTurns(c, vals, i) == next
      invariant draws == BarDraws(cfg, vals, next, i)
    {
      ghost var before := c;
      var bar;
      c, bar := DrawBar(cfg, c, i, vals[i]);
      assert CapsAfterTurns(before, vals, i) == CapsAfterTurns(c, vals, i + 1);
      TurnsKeepEarlierCaps(c, vals, i + 1, i);
      assert next[i] == c[i];
      assert BarDraws(cfg, vals, next, i + 1) == BarDraws(cfg, vals, next, i) + BarDraw(cfg, i, vals[i], next[i]);
      draws := draws + bar;
      i := i + 1;
    }
  }

  /** The whole frame as `drawMeter` writes it: zero the data while paused,
      stop when paused with every cap at rest, otherwise clear, draw the bars
      and schedule the next frame. */
  method DrawMeter(cfg: Config, status: PlayStatus, caps: seq<int>, bins: seq<Byte>) returns (r: TickResult)
    ensures r == Tick(cfg, status, caps, bins)
  {
    var data := bins;
    if status == Paused {
      data := seq(|bins|, _ => 0);
      var anyAbove := exists j :: 0 <= j < |caps| && caps[j] > 0;
      if !anyAbove {
        return Stop([ClearCanvas(cfg)]);
      }
    }
    var vals := Sample(data, cfg.meterCount);
    var next, bars := DrawBars(cfg, caps, vals);
    r := Continue(next, [ClearCanvas(cfg)] + bars);
  }

  /** With caps in byte range at the start of a frame, the caps it leaves are
      in byte range too: they never go negative and never pass 255. */
  lemma TickKeepsCapsInByteRange(cfg: Config, status: PlayStatus, caps: seq<int>, bins: seq<Byte>)
    requires forall j :: 0 <= j < |caps| ==> 0 <= caps[j] <= 255
    ensures Tick(cfg, status, caps, bins).Continue? ==>
      forall j :: 0 <= j < |Tick(cfg, status, caps, bins).caps| ==> 0 <= Tick(cfg, status, caps, bins).caps[j] <= 255
  {
    var r := Tick(cfg, status, caps, bins);
    if r.Continue? {
      var vals := Sample(FrameBins(status, bins), cfg.meterCount);
      assert r.caps == NewCaps(caps, vals);
      forall j | 0 <= j < |r.caps|
        ensures 0 <= r.caps[j] <= 255
      {
        assert 0 <= GrownAt(caps, vals, j) <= 255;
      }
    }
  }

  /** Caps grown from nothing hold exactly the readings' values. */
  lemma NewCapsFromEmpty(vals: seq<Reading>)
    ensures |NewCaps([], vals)| == |vals|
    ensures forall j :: 0 <= j < |vals| ==> NewCaps([], vals)[j] == Stored(vals[j])
  {
  }

  /** The first frame that draws seeds exactly one cap per bar with the value
      that bar sampled. */
  lemma FirstFrameSeedsCaps(cfg: Config, status: PlayStatus, bins: seq<Byte>)
    requires Tick(cfg, status, [], bins).Continue?
    ensures |Tick(cfg, status, [], bins).caps| == cfg.meterCount
    ensures forall j :: 0 <= j < cfg.meterCount ==>
      Tick(cfg, status, [], bins).caps[j] == Stored(FrameReadings(cfg, status, bins)[j])
  {
    var vals := FrameReadings(cfg, status, bins);
    TickContinueShape(cfg, status, [], bins);
    assert Tick(cfg, status, [], bins).caps == NewCaps([], vals);
    NewCapsFromEmpty(vals);
  }

  /** While playing with in-bounds sampling, the first frame's cap j is bin `j * step`. */
  lemma FirstPlayingFrameReadsStride(cfg: Config, bins: seq<Byte>)
    requires InBounds(|bins|, cfg.meterCount)
    ensures |Tick(cfg, Playing, [], bins).caps| == cfg.meterCount
    ensures forall j :: 0 <= j < cfg.meterCount ==>
      && SampleIndex(|bins|, cfg.meterCount, j) < |bins|
      && Tick(cfg, Playing, [], bins).caps[j] == bins[SampleIndex(|bins|, cfg.meterCount, j)]
  {
    var m := cfg.meterCount;
    FirstFrameSeedsCaps(cfg, Playing, bins);
    var caps := Tick(cfg, Playing, [], bins).caps;
    var vals := FrameReadings(cfg, Playing, bins);
    assert vals == Sample(bins, m);
    SampleReadsStride(bins, m);
    forall j | 0 <= j < m
      ensures SampleIndex(|bins|, m, j) < |bins| && caps[j] == bins[SampleIndex(|bins|, m, j)]
    {
      assert caps[j] == Stored(vals[j]);
    }
  }

  /** When every bar reads a value, bar j's cap and meter rectangles sit at
      positions 2j and 2j+1 of the bar draws. */
  lemma {:induction false} BarDrawsLayout(cfg: Config, vals: seq<Reading>, caps: seq<int>, n: nat)
    requires n <= |vals| && n <= |caps|
    requires forall j :: 0 <= j < n ==> vals[j].Value?
    ensures |BarDraws(cfg, vals, caps, n)| == 2 * n
    ensures forall j :: 0 <= j < n ==>
      && BarDraws(cfg, vals, caps, n)[2 * j] == CapDraw(cfg, j, caps[j])
      && BarDraws(cfg, vals, caps, n)[2 * j + 1] == MeterDraw(cfg, j, vals[j].v)
  {
    if n > 0 {
      BarDrawsLayout(cfg, vals, caps, n - 1);
      var prev := BarDraws(cfg, vals, caps, n - 1);
      var last := BarDraw(cfg, n - 1, vals[n - 1], caps[n - 1]);
      assert last == [CapDraw(cfg, n - 1, caps[n - 1]), MeterDraw(cfg, n - 1, vals[n - 1].v)];
      var d := prev + last;
      assert BarDraws(cfg, vals, caps, n) == d;
      forall j | 0 <= j < n
        ensures d[2 * j] == CapDraw(cfg, j, caps[j])
        ensures d[2 * j + 1] == MeterDraw(cfg, j, vals[j].v)
      {
        if j < n - 1 {
          assert d[2 * j] == prev[2 * j];
          assert d[2 * j + 1] == prev[2 * j + 1];
        }
      }
    }
  }

  /** The bar draws of bars that all read a value hold two rectangles each. */
  lemma {:induction false} BarDrawsLength(cfg: Config, vals: seq<Reading>, caps: seq<int>, n: nat)
    requires n <= |vals| && n <= |caps|
    requires forall k :: 0 <= k < n ==> vals[k].Value?
    ensures |BarDraws(cfg, vals, caps, n)| == 2 * n
  {
    if n > 0 {
      BarDrawsLength(cfg, vals, caps, n - 1);
    }
  }

  /** Later bars only append: the draws of bars 0 .. k-1 begin the draws of
      bars 0 .. n-1, whatever the later bars read. */
  lemma {:induction false} BarDrawsPrefix(cfg: Config, vals: seq<Reading>, caps: seq<int>, k: nat, n: nat)
    requires k <= n <= |vals| && n <= |caps|
    ensures |BarDraws(cfg, vals, caps, k)| <= |BarDraws(cfg, vals, caps, n)|
    ensures BarDraws(cfg, vals, caps, n)[..|BarDraws(cfg, vals, caps, k)|] == BarDraws(cfg, vals, caps, k)
    decreases n
  {
    if k < n {
      BarDrawsPrefix(cfg, vals, caps, k, n - 1);
      var prev := BarDraws(cfg, vals, caps, n - 1);
      var d := prev + BarDraw(cfg, n - 1, vals[n - 1], caps[n - 1]);
      assert BarDraws(cfg, vals, caps, n) == d;
      assert d[..|prev|] == prev;
    }
  }

  /** The cap rectangle of bar j in a frame's draw list. */
  function CapRectOf(draws: seq<Draw>, j: nat): Draw
    requires 2 + 2 * j < |draws|
  {
    draws[1 + 2 * j]
  }

  /** The meter rectangle of bar j in a frame's draw list. */
  function MeterRectOf(draws: seq<Draw>, j: nat): Draw
    requires 2 + 2 * j < |draws|
  {
    draws[2 + 2 * j]
  }

  /** Bar j's rectangles in a frame's draw list, when bars 0 .. j all read a
      value (the bars after j may read undefined). */
  lemma BarRectsAt(cfg: Config, vals: seq<Reading>, next: seq<int>, j: nat)
    requires |vals| == cfg.meterCount && |next| >= cfg.meterCount
    requires j < cfg.meterCount
    requires forall k :: 0 <= k <= j ==> vals[k].Value?
    ensures var draws := [ClearCanvas(cfg)] + BarDraws(cfg, vals, next, cfg.meterCount);
      && 2 + 2 * j < |draws|
      && CapRectOf(draws, j) == CapDraw(cfg, j, next[j])
      && MeterRectOf(draws, j) == MeterDraw(cfg, j, vals[j].v)
  {
    var m := cfg.meterCount;
    var bars := BarDraws(cfg, vals, next, m);
    var upTo := BarDraws(cfg, vals, next, j + 1);
    BarDrawsLength(cfg, vals, next, j);
    BarDrawsPrefix(cfg, vals, next, j + 1, m);
    assert upTo == BarDraws(cfg, vals, next, j) + [CapDraw(cfg, j, next[j]), MeterDraw(cfg, j, vals[j].v)];
    assert |upTo| == 2 * j + 2;
    assert bars[2 * j] == upTo[2 * j] && bars[2 * j + 1] == upTo[2 * j + 1] by {
      assert bars[..|upTo|] == upTo;
    }
    var draws := [ClearCanvas(cfg)] + bars;
    assert CapRectOf(draws, j) == bars[2 * j];
    assert MeterRectOf(draws, j) == bars[2 * j + 1];
  }

  /** A bar whose read is in bounds has every earlier bar's read in bounds
      too, since the sampled index grows with the bar number. */
  lemma EarlierReadsInBounds(bins: seq<Byte>, meterCount: nat, j: nat)
    requires j < meterCount && SampleIndex(|bins|, meterCount, j) < |bins|
    ensures forall k :: 0 <= k <= j ==>
      SampleIndex(|bins|, meterCount, k) < |bins| &&
      Sample(bins, meterCount)[k] == Value(bins[SampleIndex(|bins|, meterCount, k)])
  {
    forall k | 0 <= k <= j
      ensures SampleIndex(|bins|, meterCount, k) < |bins|
    {
      MulMonotone(k, j, Step(|bins|, meterCount));
    }
  }

  /** A drawing frame clears the canvas first. Every bar j whose read is in
      bounds (with in-bounds sampling, every bar) has its cap at the height of
      its new cap and its meter from the height of bin `j * step` down, both at
      `j * (meterWidth + gap)`, and its new cap is at or above that bin. */
  lemma TickLayout(cfg: Config, status: PlayStatus, caps: seq<int>, bins: seq<Byte>)
    requires Tick(cfg, status, caps, bins).Continue?
    ensures InBounds(|bins|, cfg.meterCount) ==> |Tick(cfg, status, caps, bins).draws| == 1 + 2 * cfg.meterCount
    ensures forall j :: 0 <= j < cfg.meterCount && SampleIndex(|bins|, cfg.meterCount, j) < |bins| ==>
      var r := Tick(cfg, status, caps, bins);
      var v := FrameBins(status, bins)[SampleIndex(|bins|, cfg.meterCount, j)];
      && 2 + 2 * j < |r.draws|
      && CapRectOf(r.draws, j) == CapDraw(cfg, j, r.caps[j])
      && MeterRectOf(r.draws, j) == MeterDraw(cfg, j, v)
      && r.caps[j] >= v
  {
    var r := Tick(cfg, status, caps, bins);
    var m := cfg.meterCount;
    var data := FrameBins(status, bins);
    var vals := FrameReadings(cfg, status, bins);
    TickContinueShape(cfg, status, caps, bins);
    assert r.caps == NewCaps(caps, vals);
    assert r.draws == [ClearCanvas(cfg)] + BarDraws(cfg, vals, r.caps, m);
    if InBounds(|bins|, m) {
      SampleReadsStride(data, m);
      BarDrawsLength(cfg, vals, r.caps, m);
    }
    forall j | 0 <= j < m && SampleIndex(|bins|, m, j) < |bins|
      ensures
        var v := data[SampleIndex(|bins|, m, j)];
        && 2 + 2 * j < |r.draws|
        && CapRectOf(r.draws, j) == CapDraw(cfg, j, r.caps[j])
        && MeterRectOf(r.draws, j) == MeterDraw(cfg, j, v)
        && r.caps[j] >= v
    {
      var v := data[SampleIndex(|bins|, m, j)];
      EarlierReadsInBounds(data, m, j);
      assert vals[j] == Value(v);
      BarRectsAt(cfg, vals, r.caps, j);
      NewCapsPerBar(caps, vals, j);
    }
  }

  /** A cap is never drawn over its meter: when the drawable height is not
      negative, the bottom of bar j's cap is at or above the top of its meter,
      because the cap ends the frame at or above the sampled value. This holds
      for every bar that is drawn, that is every bar whose read is in bounds. */
  lemma CapNeverOverlapsMeter(cfg: Config, status: PlayStatus, caps: seq<int>, bins: seq<Byte>)
    requires cfg.DrawableHeight() >= 0.0
    requires Tick(cfg, status, caps, bins).Continue?
    ensures forall j :: 0 <= j < cfg.meterCount && SampleIndex(|bins|, cfg.meterCount, j) < |bins| ==>
      var draws := Tick(cfg, status, caps, bins).draws;
      2 + 2 * j < |draws| &&
      CapRectOf(draws, j).y + CapRectOf(draws, j).h <= MeterRectOf(draws, j).y
  {
    TickLayout(cfg, status, caps, bins);
    var r := Tick(cfg, status, caps, bins);
    forall j | 0 <= j < cfg.meterCount && SampleIndex(|bins|, cfg.meterCount, j) < |bins|
      ensures CapRectOf(r.draws, j).y + CapRectOf(r.draws, j).h <= MeterRectOf(r.draws, j).y
    {
      var v := FrameBins(status, bins)[SampleIndex(|bins|, cfg.meterCount, j)];
      MeterYNonIncreasing(cfg, v, r.caps[j]);
    }
  }

  /** Bars are laid out left to right without overlapping when the gap is not
      negative: for neighbouring bars that are both drawn, bar j's right edge
      is at most bar j+1's left edge. */
  lemma BarsDoNotOverlap(cfg: Config, status: PlayStatus, caps: seq<int>, bins: seq<Byte>)
    requires cfg.gap >= 0.0
    requires Tick(cfg, status, caps, bins).Continue?
    ensures forall j :: 0 <= j && j + 1 < cfg.meterCount && SampleIndex(|bins|, cfg.meterCount, j + 1) < |bins| ==>
      var draws := Tick(cfg, status, caps, bins).draws;
      4 + 2 * j < |draws| &&
      MeterRectOf(draws, j).x + MeterRectOf(draws, j).w <= CapRectOf(draws, j + 1).x
  {
    TickLayout(cfg, status, caps, bins);
    forall j | 0 <= j && j + 1 < cfg.meterCount && SampleIndex(|bins|, cfg.meterCount, j + 1) < |bins|
      ensures SampleIndex(|bins|, cfg.meterCount, j) < |bins|
      ensures BarX(cfg, j) + cfg.meterWidth <= BarX(cfg, j + 1)
    {
      MulMonotone(j, j + 1, Step(|bins|, cfg.meterCount));
      BarsLeftToRight(cfg, j);
    }
  }
}
