/**
 * The HSV `Threshold` struct of imageProcessing.hpp: two cv::Scalar_<int>
 * values `high` and `low` (four integers each; index 0 = H, 1 = S, 2 = V,
 * and index 3 is never used and stays 0), with six setters that
 * clamp the new value so that low stays below high within the channel's
 * range (H in [0, 180], S and V in [0, 255]).
 *
 * As written, setHighS and setLowS store into the V entries (index 2) while
 * taking their bounds from the S entries (index 1). `Apply` models the
 * setters as written and `ApplyIntended` with each setter writing its own
 * channel.
 */
module ImageProcessing {
  import opened Wrappers

  const H: nat := 0
  const S: nat := 1
  const V: nat := 2

  /** The upper end of a channel's range. */
  function Ceiling(channel: nat): int {
    if channel == H then 180 else 255
  }

  /** std::clamp: v limited to [lo, hi]; lo <= hi is its precondition. */
  function Clamp(v: int, lo: int, hi: int): (r: int)
    requires lo <= hi
    ensures lo <= r <= hi
    ensures lo <= v <= hi ==> r == v
    ensures v < lo ==> r == lo
    ensures hi < v ==> r == hi
  {
    if v < lo then lo else if hi < v then hi else v
  }

  /** The two arrays of a Threshold, as values. */
  datatype Levels = Levels(high: seq<int>, low: seq<int>)

  const DefaultLevels: Levels := Levels([180, 255, 255, 0], [0, 0, 0, 0])

  predicate WellFormed(l: Levels) {
    |l.high| == 4 && |l.low| == 4
  }

  /** Channel c is within its range and its low bound is strictly below its high bound. */
  predicate ChannelOrdered(l: Levels, c: nat)
    requires WellFormed(l) && c < 3
  {
    0 <= l.low[c] < l.high[c] <= Ceiling(c)
  }

  predicate Ordered(l: Levels) {
    WellFormed(l) && forall c :: 0 <= c < 3 ==> ChannelOrdered(l, c)
  }

  datatype Setter = SetHighH | SetLowH | SetHighS | SetLowS | SetHighV | SetLowV

  /** The channel a setter is named after, whose bounds it clamps against. */
  function Channel(op: Setter): nat {
    match op
    case SetHighH | SetLowH => H
    case SetHighS | SetLowS => S
    case SetHighV | SetLowV => V
  }

  /** The index the source stores into: V for both S setters. */
  function Written(op: Setter): nat {
    if op.SetHighS? || op.SetLowS? then V else Channel(op)
  }

  function IsHighSetter(op: Setter): bool {
    op.SetHighH? || op.SetHighS? || op.SetHighV?
  }

  /**
   * std::clamp's precondition at the call: for a high setter
   * low[channel] + 1 <= ceiling, for a low setter 0 <= high[channel] - 1.
   */
  predicate Clampable(op: Setter, l: Levels) {
    WellFormed(l) &&
    if IsHighSetter(op) then l.low[Channel(op)] + 1 <= Ceiling(Channel(op))
    else 0 <= l.high[Channel(op)] - 1
  }

  /** The value a setter stores: v clamped between the channel's opposite bound and the channel's range end. */
  function Clamped(op: Setter, v: int, l: Levels): int
    requires Clampable(op, l)
  {
    if IsHighSetter(op) then Clamp(v, l.low[Channel(op)] + 1, Ceiling(Channel(op)))
    else Clamp(v, 0, l.high[Channel(op)] - 1)
  }

  function Store(op: Setter, x: int, index: nat, l: Levels): Levels
    requires WellFormed(l) && index < 4
  {
    if IsHighSetter(op) then l.(high := l.high[index := x]) else l.(low := l.low[index := x])
  }

  /** A setter as written. */
  function Apply(op: Setter, v: int, l: Levels): (r: Levels)
    requires Clampable(op, l)
    ensures WellFormed(r)
  {
    Store(op, Clamped(op, v, l), Written(op), l)
  }

  /** A setter storing into its own channel. */
  function ApplyIntended(op: Setter, v: int, l: Levels): (r: Levels)
    requires Clampable(op, l)
    ensures WellFormed(r)
  {
    Store(op, Clamped(op, v, l), Channel(op), l)
  }

  /**
   * Each setter as written changes one entry of one array: the clamped value
   * goes to high[Written(op)] or low[Written(op)], and every other entry keeps
   * its value; in particular the S setters never change index 1.
   */
  lemma ApplyChangesOneEntry(op: Setter, v: int, l: Levels, i: nat)
    requires Clampable(op, l) && i < 4
    ensures var r := Apply(op, v, l);
      && (IsHighSetter(op) ==> r.low == l.low && (i != Written(op) ==> r.high[i] == l.high[i]))
      && (!IsHighSetter(op) ==> r.high == l.high && (i != Written(op) ==> r.low[i] == l.low[i]))
      && (if IsHighSetter(op) then r.high[Written(op)] else r.low[Written(op)]) == Clamped(op, v, l)
      && 0 <= Written(op) < 3 && (Channel(op) == S ==> Written(op) == V)
  {
  }

  /** The H and V setters keep every channel ordered and within range. */
  lemma HueValueSettersKeepOrder(op: Setter, v: int, l: Levels)
    requires Ordered(l) && Channel(op) != S
    ensures Clampable(op, l) && Ordered(Apply(op, v, l))
  {
    assert ChannelOrdered(l, Channel(op));
    var r := Apply(op, v, l);
    forall c | 0 <= c < 3
      ensures ChannelOrdered(r, c)
    {
      assert ChannelOrdered(l, c);
    }
  }

  /** Every setter is idempotent: a second call with the same value changes nothing. */
  lemma ApplyIdempotent(op: Setter, v: int, l: Levels)
    requires Clampable(op, l)
    ensures Clampable(op, Apply(op, v, l))
    ensures Apply(op, v, Apply(op, v, l)) == Apply(op, v, l)
  {
  }

  /** Running a sequence of setter calls; None when one of them violates std::clamp's precondition. */
  function Run(calls: seq<(Setter, int)>, l: Levels, intended: bool): Option<Levels>
    decreases |calls|
  {
    if calls == [] then Some(l)
    else if !Clampable(calls[0].0, l) then None
    else
      var next := if intended then ApplyIntended(calls[0].0, calls[0].1, l) else Apply(calls[0].0, calls[0].1, l);
      Run(calls[1..], next, intended)
  }

  /**
   * Starting from ordered levels, any sequence of H and V setter calls as
   * written is defined at every step and ends ordered.
   */
  lemma {:induction false} HueValueScriptKeepsOrder(calls: seq<(Setter, int)>, l: Levels)
    requires Ordered(l)
    requires forall i :: 0 <= i < |calls| ==> Channel(calls[i].0) != S
    ensures Run(calls, l, false).Some? && Ordered(Run(calls, l, false).value)
    decreases |calls|
  {
    if calls != [] {
      HueValueSettersKeepOrder(calls[0].0, calls[0].1, l);
      HueValueScriptKeepsOrder(calls[1..], Apply(calls[0].0, calls[0].1, l));
    }
  }

  /**
   * The S setters as written can break V's order: from the default levels,
   * setLowV(200) then setHighS(50) leaves high[V] = 50 below low[V] = 200.
   */
  lemma HighSBreaksValueOrder()
    ensures Run([(SetLowV, 200), (SetHighS, 50)], DefaultLevels, false) == Some(Levels([180, 255, 50, 0], [0, 0, 200, 0]))
    ensures !Ordered(Run([(SetLowV, 200), (SetHighS, 50)], DefaultLevels, false).value)
  {
    var l1 := Apply(SetLowV, 200, DefaultLevels);
    assert l1 == Levels([180, 255, 255, 0], [0, 0, 200, 0]);
    var l2 := Apply(SetHighS, 50, l1);
    assert l2 == Levels([180, 255, 50, 0], [0, 0, 200, 0]);
    assert Run([(SetLowV, 200), (SetHighS, 50)], DefaultLevels, false) == Run([(SetHighS, 50)], l1, false);
    assert Run([(SetHighS, 50)], l1, false) == Run([], l2, false);
    assert !ChannelOrdered(l2, V);
  }

  /** With each setter storing into its own channel, every setter keeps the levels ordered. */
  lemma IntendedSettersKeepOrder(op: Setter, v: int, l: Levels)
    requires Ordered(l)
    ensures Clampable(op, l) && Ordered(ApplyIntended(op, v, l))
  {
    assert ChannelOrdered(l, Channel(op));
    var r := ApplyIntended(op, v, l);
    forall c | 0 <= c < 3
      ensures ChannelOrdered(r, c)
    {
      assert ChannelOrdered(l, c);
    }
  }

  /** With intended setters, any sequence of calls from ordered levels is defined and ends ordered. */
  lemma {:induction false} IntendedScriptKeepsOrder(calls: seq<(Setter, int)>, l: Levels)
    requires Ordered(l)
    ensures Run(calls, l, true).Some? && Ordered(Run(calls, l, true).value)
    decreases |calls|
  {
    if calls != [] {
      IntendedSettersKeepOrder(calls[0].0, calls[0].1, l);
      IntendedScriptKeepsOrder(calls[1..], ApplyIntended(calls[0].0, calls[0].1, l));
    }
  }

  /** The default levels are ordered. */
  lemma DefaultIsOrdered()
    ensures Ordered(DefaultLevels)
  {
    assert ChannelOrdered(DefaultLevels, H) && ChannelOrdered(DefaultLevels, S) && ChannelOrdered(DefaultLevels, V);
  }

  /** rv::Threshold: `high` and `low` are updated in place through the channel accessors. */
  class Threshold {
    var high: array<int>
    var low: array<int>

    ghost predicate Valid()
      reads this
    {
      high.Length == 4 && low.Length == 4 && high != low
    }

    /** The arrays' contents. */
    function Current(): Levels
      reads this, high, low
    {
      Levels(high[..], low[..])
    }

    /** The default member initialisers: high = {180, 255, 255}, low = {0, 0, 0}; the fourth entries are 0. */
    constructor ()
      ensures Valid() && fresh(high) && fresh(low)
      ensures Current() == DefaultLevels
      ensures Ordered(Current())
    {
      high := new int[4] [180, 255, 255, 0];
      low := new int[4] [0, 0, 0, 0];
      new;
      assert high[..] == [180, 255, 255, 0] && low[..] == [0, 0, 0, 0];
      DefaultIsOrdered();
    }

    /**
     * The channel accessors highH() ... lowV(): entry 0, 1 or 2 of `high` or
     * `low`. On ordered levels each bound lies strictly on its side of the
     * other bound of its channel, within the channel's range.
     */
    function HighH(): (r: int)
      reads this, high, low
      requires Valid()
      ensures r == Current().high[H]
      ensures Ordered(Current()) ==> Current().low[H] < r <= 180
    {
      assert Ordered(Current()) ==> ChannelOrdered(Current(), H);
      high[H]
    }

    function LowH(): (r: int)
      reads this, high, low
      requires Valid()
      ensures r == Current().low[H]
      ensures Ordered(Current()) ==> 0 <= r < Current().high[H]
    {
      assert Ordered(Current()) ==> ChannelOrdered(Current(), H);
      low[H]
    }

    function HighS(): (r: int)
      reads this, high, low
      requires Valid()
      ensures r == Current().high[S]
      ensures Ordered(Current()) ==> Current().low[S] < r <= 255
    {
      assert Ordered(Current()) ==> ChannelOrdered(Current(), S);
      high[S]
    }

    function LowS(): (r: int)
      reads this, high, low
      requires Valid()
      ensures r == Current().low[S]
      ensures Ordered(Current()) ==> 0 <= r < Current().high[S]
    {
      assert Ordered(Current()) ==> ChannelOrdered(Current(), S);
      low[S]
    }

    function HighV(): (r: int)
      reads this, high, low
      requires Valid()
      ensures r == Current().high[V]
      ensures Ordered(Current()) ==> Current().low[V] < r <= 255
    {
      assert Ordered(Current()) ==> ChannelOrdered(Current(), V);
      high[V]
    }

    function LowV(): (r: int)
      reads this, high, low
      requires Valid()
      ensures r == Current().low[V]
      ensures Ordered(Current()) ==> 0 <= r < Current().high[V]
    {
      assert Ordered(Current()) ==> ChannelOrdered(Current(), V);
      low[V]
    }

    /** setHighH: highH() = clamp(v, lowH() + 1, 180). */
    method SetHighH(v: int)
      requires Valid() && Clampable(Setter.SetHighH, Current())
      modifies high
      ensures Valid() && Current() == Apply(Setter.SetHighH, v, old(Current()))
      ensures HighH() == Clamp(v, LowH() + 1, 180)
      ensures old(Ordered(Current())) ==> Ordered(Current())
    {
      high[H] := Clamp(v, low[H] + 1, 180);
      assert high[..] == old(high[..])[H := high[H]];
      if old(Ordered(Current())) {
        HueValueSettersKeepOrder(Setter.SetHighH, v, old(Current()));
      }
    }

    /** setLowH: lowH() = clamp(v, 0, highH() - 1). */
    method SetLowH(v: int)
      requires Valid() && Clampable(Setter.SetLowH, Current())
      modifies low
      ensures Valid() && Current() == Apply(Setter.SetLowH, v, old(Current()))
      ensures LowH() == Clamp(v, 0, HighH() - 1)
      ensures old(Ordered(Current())) ==> Ordered(Current())
    {
      low[H] := Clamp(v, 0, high[H] - 1);
      assert low[..] == old(low[..])[H := low[H]];
      if old(Ordered(Current())) {
        HueValueSettersKeepOrder(Setter.SetLowH, v, old(Current()));
      }
    }

    /** setHighS as written: highV() = clamp(v, lowS() + 1, 255). */
    method SetHighS(v: int)
      requires Valid() && Clampable(Setter.SetHighS, Current())
      modifies high
      ensures Valid() && Current() == Apply(Setter.SetHighS, v, old(Current()))
      ensures HighV() == Clamp(v, LowS() + 1, 255) && HighS() == old(HighS())
    {
      high[V] := Clamp(v, low[S] + 1, 255);
      assert high[..] == old(high[..])[V := high[V]];
    }

    /** setLowS as written: lowV() = clamp(v, 0, highS() - 1). */
    method SetLowS(v: int)
      requires Valid() && Clampable(Setter.SetLowS, Current())
      modifies low
      ensures Valid() && Current() == Apply(Setter.SetLowS, v, old(Current()))
      ensures LowV() == Clamp(v, 0, HighS() - 1) && LowS() == old(LowS())
    {
      low[V] := Clamp(v, 0, high[S] - 1);
      assert low[..] == old(low[..])[V := low[V]];
    }

    /** setHighV: highV() = clamp(v, lowV() + 1, 255). */
    method SetHighV(v: int)
      requires Valid() && Clampable(Setter.SetHighV, Current())
      modifies high
      ensures Valid() && Current() == Apply(Setter.SetHighV, v, old(Current()))
      ensures HighV() == Clamp(v, LowV() + 1, 255)
      ensures old(Ordered(Current())) ==> Ordered(Current())
    {
      high[V] := Clamp(v, low[V] + 1, 255);
      assert high[..] == old(high[..])[V := high[V]];
      if old(Ordered(Current())) {
        HueValueSettersKeepOrder(Setter.SetHighV, v, old(Current()));
      }
    }

    /** setLowV: lowV() = clamp(v, 0, highV() - 1). */
    method SetLowV(v: int)
      requires Valid() && Clampable(Setter.SetLowV, Current())
      modifies low
      ensures Valid() && Current() == Apply(Setter.SetLowV, v, old(Current()))
      ensures LowV() == Clamp(v, 0, HighV() - 1)
      ensures old(Ordered(Current())) ==> Ordered(Current())
    {
      low[V] := Clamp(v, 0, high[V] - 1);
      assert low[..] == old(low[..])[V := low[V]];
      if old(Ordered(Current())) {
        HueValueSettersKeepOrder(Setter.SetLowV, v, old(Current()));
      }
    }
  }
}
