/**
 * The two range inputs of the ringtone dialog (`min` 0, `max` 30, starting at
 * 0 and 30) and their `input` handlers, which push the other slider so that
 * the start stays before the end.
 */
module Ringtone {

  const SLIDER_MIN := 0
  const SLIDER_MAX := 30

  /** The values of the start and end sliders, in seconds. */
  datatype Cut = Cut(start: int, end: int)

  const INITIAL := Cut(SLIDER_MIN, SLIDER_MAX)

  /** Both values inside the sliders' declared range. */
  predicate InBounds(c: Cut) {
    SLIDER_MIN <= c.start <= SLIDER_MAX && SLIDER_MIN <= c.end <= SLIDER_MAX
  }

  /**
   * The start slider moved to `v`: the end is left alone when it is already
   * after `v`, and otherwise pushed to exactly one past `v`.
   */
  function AfterStartInput(c: Cut, v: int): (r: Cut)
    ensures r.start == v && r.start < r.end
    ensures v < c.end ==> r.end == c.end
    ensures r.end != c.end ==> r.end == v + 1
  {
    if v >= c.end then Cut(v, v + 1) else Cut(v, c.end)
  }

  /**
   * The end slider moved to `v`: the start is left alone when it is already
   * before `v`, and otherwise pushed to exactly one before `v`.
   */
  function AfterEndInput(c: Cut, v: int): (r: Cut)
    ensures r.end == v && r.start < r.end
    ensures c.start < v ==> r.start == c.start
    ensures r.start != c.start ==> r.start == v - 1
  {
    if v <= c.start then Cut(v - 1, v) else Cut(c.start, v)
  }

  /** A user drag of one of the two sliders to a value. */
  datatype SliderInput = MoveStart(value: int) | MoveEnd(value: int)

  function Apply(c: Cut, input: SliderInput): Cut {
    match input
    case MoveStart(v) => AfterStartInput(c, v)
    case MoveEnd(v) => AfterEndInput(c, v)
  }

  /** The values after a sequence of drags, in order. */
  function Replay(c: Cut, inputs: seq<SliderInput>): Cut
    decreases |inputs|
  {
    if inputs == [] then c else Replay(Apply(c, inputs[0]), inputs[1..])
  }

  /** Whatever the drags, the start stays strictly before the end. */
  lemma {:induction false} ReplayKeepsOrder(c: Cut, inputs: seq<SliderInput>)
    requires c.start < c.end
    ensures Replay(c, inputs).start < Replay(c, inputs).end
    decreases |inputs|
  {
    if inputs != [] {
      ReplayKeepsOrder(Apply(c, inputs[0]), inputs[1..]);
    }
  }

  /** Drags inside the declared range, from the initial values. */
  predicate DragsInRange(inputs: seq<SliderInput>) {
    forall k :: 0 <= k < |inputs| ==> SLIDER_MIN <= inputs[k].value <= SLIDER_MAX
  }

  /** The values can leave the declared range, but by one step at most: start in [-1, 30], end in [0, 31]. */
  lemma {:induction false} ReplayNearBounds(c: Cut, inputs: seq<SliderInput>)
    requires SLIDER_MIN - 1 <= c.start <= SLIDER_MAX && SLIDER_MIN <= c.end <= SLIDER_MAX + 1
    requires DragsInRange(inputs)
    ensures var r := Replay(c, inputs);
            SLIDER_MIN - 1 <= r.start <= SLIDER_MAX && SLIDER_MIN <= r.end <= SLIDER_MAX + 1
    decreases |inputs|
  {
    if inputs != [] {
      assert SLIDER_MIN <= inputs[0].value <= SLIDER_MAX;
      ReplayNearBounds(Apply(c, inputs[0]), inputs[1..]);
    }
  }

  /** From values in range, a drag of the start keeps both in range exactly when it stops before 30. */
  lemma StartInputBounds(c: Cut, v: int)
    requires InBounds(c) && SLIDER_MIN <= v <= SLIDER_MAX
    ensures InBounds(AfterStartInput(c, v)) <==> v < SLIDER_MAX
  {
  }

  /** From values in range, a drag of the end keeps both in range exactly when it stops after 0. */
  lemma EndInputBounds(c: Cut, v: int)
    requires InBounds(c) && SLIDER_MIN <= v <= SLIDER_MAX
    ensures InBounds(AfterEndInput(c, v)) <==> v > SLIDER_MIN
  {
  }

  /** The declared range is not kept: start dragged to 30 sets the end to 31, end dragged to 0 sets the start to -1. */
  lemma BoundsEscape()
    ensures AfterStartInput(INITIAL, 30) == Cut(30, 31) && !InBounds(Cut(30, 31))
    ensures AfterEndInput(INITIAL, 0) == Cut(-1, 0) && !InBounds(Cut(-1, 0))
  {
  }

  /**
   * The sliders and their two labels (`#start-time`, `#end-time`) of one open
   * ringtone dialog. A label is kept as the number of seconds it shows.
   */
  class Sliders {
    var start: int
    var end: int
    var startLabel: int
    var endLabel: int

    /** The labels show the slider values, and the start is before the end. */
    ghost predicate Valid()
      reads this
    {
      startLabel == start && endLabel == end && start < end
    }

    function Values(): Cut
      reads this
    {
      Cut(start, end)
    }

    constructor ()
      ensures Valid() && Values() == INITIAL
    {
      start, end := SLIDER_MIN, SLIDER_MAX;
      startLabel, endLabel := SLIDER_MIN, SLIDER_MAX;
    }

    /** The browser sets the start slider to `v`, then its `input` handler runs. */
    method OnStartInput(v: int)
      requires Valid()
      modifies this
      ensures Valid()
      ensures Values() == AfterStartInput(old(Values()), v)
    {
      start := v;
      startLabel := start;
      if start >= end {
        end := start + 1;
        endLabel := end;
      }
    }

    /** The browser sets the end slider to `v`, then its `input` handler runs. */
    method OnEndInput(v: int)
      requires Valid()
      modifies this
      ensures Valid()
      ensures Values() == AfterEndInput(old(Values()), v)
    {
      end := v;
      endLabel := end;
      if end <= start {
        start := end - 1;
        startLabel := start;
      }
    }
  }
}
