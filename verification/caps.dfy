/** The per-bar cap ("VU meter" peak) state and its update rule. */
module Caps {
  import opened SpectrumTypes

  function Max(a: int, b: int): int {
    if a < b then b else a
  }

  function Min(a: int, b: int): int {
    if a < b then a else b
  }

  /** The cap a bar keeps after one frame, from the cap it had and the value
      sampled now: it rises to the value at once, otherwise it falls by one. */
  function CapUpdate(prev: int, value: int): (r: int)
    ensures r == Max(value, prev - 1)
    ensures r >= value
    ensures 0 <= prev <= 255 && 0 <= value <= 255 ==> 0 <= r <= 255
  {
    if value < prev then prev - 1 else value
  }

  /** The number the cap array holds after storing a reading. `drawMeter`
      stores `undefined` for a read past the end of the frequency array; every
      comparison a frame makes treats that entry as it treats 0
      (`undefined > 0` and `v < undefined` are false, and so are `0 > 0` and
      `v < 0` for a byte `v`), so 0 stands for it. */
  function Stored(reading: Reading): Byte {
    match reading
    case Value(v) => v
    case Undefined => 0
  }

  /** The cap after one frame when the reading may be undefined: an undefined
      reading is never below the cap, so the cap takes it (stored as 0). */
  function CapAfter(prev: int, reading: Reading): (r: int)
    ensures r >= Stored(reading)
  {
    match reading
    case Value(v) => CapUpdate(prev, v)
    case Undefined => 0
  }

  /** Cap j once the pushes of a frame are done: the array held it already,
      or bar j - |caps| appended the value it read (bars append in order while
      the array is shorter than `meterCount`). */
  function GrownAt(caps: seq<int>, vals: seq<Reading>, j: nat): int
    requires j < Max(|caps|, |vals|)
  {
    if j < |caps| then caps[j] else Stored(vals[j - |caps|])
  }

  /** The cap array at the end of one frame, given the array at its start and
      the reading of each bar (`|vals|` is `meterCount`). */
  function NewCaps(caps: seq<int>, vals: seq<Reading>): (r: seq<int>)
    ensures |r| == Max(|caps|, |vals|)
  {
    seq(Max(|caps|, |vals|), j requires 0 <= j < Max(|caps|, |vals|) =>
      if j < |vals| then CapAfter(GrownAt(caps, vals, j), vals[j]) else caps[j])
  }

  /** The start of bar i's turn in `drawMeter`'s bar loop: while the cap array is
      shorter than `meterCount`, the bar appends the value it read. */
  function PushIfShort(c: seq<int>, reading: Reading, meterCount: nat): (p: seq<int>)
    ensures |p| == if |c| < meterCount then |c| + 1 else |c|
    ensures forall j :: 0 <= j < |c| ==> p[j] == c[j]
  {
    if |c| < meterCount then c + [Stored(reading)] else c
  }

  /** Bar i's whole turn in `drawMeter`'s bar loop: the push, then cap i moves by the
      cap rule. */
  function BarTurn(c: seq<int>, i: nat, reading: Reading, meterCount: nat): (r: seq<int>)
    requires i < meterCount && i <= |c|
    ensures |r| == |PushIfShort(c, reading, meterCount)| && |r| > i
    ensures r[i] >= Stored(reading)
    ensures forall j :: 0 <= j < |r| && j != i ==> r[j] == PushIfShort(c, reading, meterCount)[j]
  {
    var p := PushIfShort(c, reading, meterCount);
    p[i := CapAfter(p[i], reading)]
  }

  /** The cap array once bars i, i+1, ... have taken their turns in order, as
      `drawMeter`'s bar loop does, starting from array `c`. */
  function CapsAfterTurns(c: seq<int>, vals: seq<Reading>, i: nat): (r: seq<int>)
    requires i <= |vals| && i <= |c|
    ensures |r| == Max(|c|, |vals|)
    decreases |vals| - i
  {
    if i == |vals| then c
    else CapsAfterTurns(BarTurn(c, i, vals[i], |vals|), vals, i + 1)
  }

  /** Where `drawMeter`'s bar loop stands before bar i's turn: cap j < i is final,
      the rest is the grown array. */
  ghost predicate TurnState(caps: seq<int>, vals: seq<Reading>, c: seq<int>, i: nat) {
    && i <= |vals|
    && |c| == Max(|caps|, Min(|vals|, |caps| + i))
    && (forall j :: 0 <= j < i ==> c[j] == CapAfter(GrownAt(caps, vals, j), vals[j]))
    && (forall j :: i <= j < |c| ==> c[j] == GrownAt(caps, vals, j))
  }

  /** One turn moves the loop from the state before bar i to the state before bar i+1. */
  lemma TurnAdvances(caps: seq<int>, vals: seq<Reading>, c: seq<int>, i: nat)
    requires TurnState(caps, vals, c, i) && i < |vals|
    ensures i <= |c|
    ensures TurnState(caps, vals, BarTurn(c, i, vals[i], |vals|), i + 1)
  {
    var m := |vals|;
    var L := |caps|;
    var p := PushIfShort(c, vals[i], m);
    if |c| < m {
      assert L < m && |c| == L + i;
      assert p == c + [Stored(vals[i])];
      assert p[L + i] == GrownAt(caps, vals, L + i);
    } else {
      assert p == c;
    }
    assert |p| == Max(L, Min(m, L + i + 1));
    assert forall j :: i <= j < |p| ==> p[j] == GrownAt(caps, vals, j);
    var r := BarTurn(c, i, vals[i], m);
    assert r == p[i := CapAfter(GrownAt(caps, vals, i), vals[i])];
  }

  /** Taking every remaining turn from a loop state ends at the closed form. */
  lemma {:induction false} TurnsReachNewCaps(caps: seq<int>, vals: seq<Reading>, c: seq<int>, i: nat)
    requires TurnState(caps, vals, c, i)
    ensures i <= |c|
    ensures CapsAfterTurns(c, vals, i) == NewCaps(caps, vals)
    decreases |vals| - i
  {
    if i == |vals| {
      var next := NewCaps(caps, vals);
      assert |c| == |next|;
      forall j | 0 <= j < |c|
        ensures c[j] == next[j]
      {
      }
    } else {
      TurnAdvances(caps, vals, c, i);
      TurnsReachNewCaps(caps, vals, BarTurn(c, i, vals[i], |vals|), i + 1);
    }
  }

  /** `drawMeter`'s bar loop, run from the start of a frame, computes the closed form
      `NewCaps`: grow by the sampled values, then move each bar by the cap rule. */
  lemma SourceLoopIsNewCaps(caps: seq<int>, vals: seq<Reading>)
    ensures CapsAfterTurns(caps, vals, 0) == NewCaps(caps, vals)
  {
    TurnsReachNewCaps(caps, vals, caps, 0);
  }

  /** Later turns leave the caps of earlier bars alone. */
  lemma {:induction false} TurnsKeepEarlierCaps(c: seq<int>, vals: seq<Reading>, i: nat, j: nat)
    requires i <= |vals| && i <= |c| && j < i
    ensures j < |CapsAfterTurns(c, vals, i)| && CapsAfterTurns(c, vals, i)[j] == c[j]
    decreases |vals| - i
  {
    if i < |vals| {
      TurnsKeepEarlierCaps(BarTurn(c, i, vals[i], |vals|), vals, i + 1, j);
    }
  }

  /** No cap is above 0: `drawMeter`'s `!capYPositionArray.some(cap => cap > 0)`. */
  predicate AllAtRest(caps: seq<int>): (r: bool)
    ensures r <==> MaxCap(caps) == 0
  {
    forall j :: 0 <= j < |caps| ==> caps[j] <= 0
  }

  /** The highest cap, or 0 when none is positive. */
  function MaxCap(caps: seq<int>): (m: int)
    ensures m >= 0
    ensures forall j :: 0 <= j < |caps| ==> caps[j] <= m
    ensures m == 0 || exists j :: 0 <= j < |caps| && caps[j] == m
  {
    if |caps| == 0 then 0
    else
      var front := caps[..|caps| - 1];
      assert forall j :: 0 <= j < |front| ==> front[j] == caps[j];
      Max(MaxCap(front), caps[|caps| - 1])
  }

  /** The at-rest test is the same as the highest cap being 0. */
  lemma AtRestIffMaxZero(caps: seq<int>)
    ensures AllAtRest(caps) <==> MaxCap(caps) == 0
  {
  }

  /** Each bar of the new array is at least what the frame sampled for it,
      and moves by the cap rule from the grown array. */
  lemma NewCapsPerBar(caps: seq<int>, vals: seq<Reading>, j: nat)
    requires j < |vals|
    ensures j < |NewCaps(caps, vals)|
    ensures NewCaps(caps, vals)[j] >= Stored(vals[j])
    ensures j < |caps| && vals[j].Value? ==> NewCaps(caps, vals)[j] == Max(vals[j].v, caps[j] - 1)
    ensures j >= |caps| ==> NewCaps(caps, vals)[j] == CapAfter(Stored(vals[j - |caps|]), vals[j])
  {
  }
}
