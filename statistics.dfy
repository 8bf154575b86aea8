/**
 * The statistics section: the stat counter that counts up from 0 to its
 * value once the section scrolls into view, and the static skill graph whose
 * connection lines light up when one of their end nodes is hovered.
 *
 * Timers are not modelled as wall-clock time: every firing of the counter's
 * interval is an explicit event (`AnimatedCounter.OnInterval`), and the
 * arithmetic is exact (reals, not IEEE doubles).
 */
module StatisticsSection {
  import opened Optional

  // ---------------------------------------------------------------------
  // The animated counter
  // ---------------------------------------------------------------------

  /** The count-up is spread over this many interval ticks. */
  const Steps: nat := 60

  /** What one tick adds to the running accumulator: `value / steps`. */
  function Increment(value: real): real
  {
    value / Steps as real
  }

  /** `Math.floor`, kept as a real because the displayed count is a JavaScript number. */
  function Floor(x: real): real
  {
    x.Floor as real
  }

  /**
   * What the interval callback works on: the accumulator `current` held by
   * the effect's closure, the displayed `count`, and whether the interval is
   * still armed (not yet cleared).
   */
  datatype Counter = Counter(current: real, count: real, running: bool)

  /**
   * One firing of the interval callback. A cleared interval never fires, so
   * a stopped counter is left as it is.
   */
  function Tick(value: real, c: Counter): Counter
  {
    if !c.running then c
    else
      var current := c.current + Increment(value);
      if current >= value then Counter(current, value, false)
      else Counter(current, Floor(current), true)
  }

  /** k successive firings of the interval callback. */
  function Ticks(value: real, c: Counter, k: nat): Counter
  {
    if k == 0 then c else Tick(value, Ticks(value, c, k - 1))
  }

  /**
   * The effect body when the section is visible: a fresh accumulator at 0 and
   * a newly armed interval. The displayed count is React state and is not
   * reset by the effect.
   */
  function Launch(c: Counter): Counter
  {
    c.(current := 0.0, running := true)
  }

  /** The accumulator after k additions of the increment, starting from 0. */
  function Accumulated(value: real, k: nat): real
  {
    if k == 0 then 0.0 else Accumulated(value, k - 1) + Increment(value)
  }

  /** With exact arithmetic, k additions of `value / 60` make `k * value / 60`. */
  lemma {:induction false} AccumulatedClosedForm(value: real, k: nat)
    ensures Accumulated(value, k) == k as real * value / Steps as real
  {
    if k > 0 {
      AccumulatedClosedForm(value, k - 1);
    }
  }

  /** For a non-negative value the accumulator only grows. */
  lemma {:induction false} AccumulatedMonotone(value: real, j: nat, k: nat)
    requires value >= 0.0 && j <= k
    ensures 0.0 <= Accumulated(value, j) <= Accumulated(value, k)
  {
    if j < k {
      AccumulatedMonotone(value, j, k - 1);
    } else if j > 0 {
      AccumulatedMonotone(value, j - 1, j);
    }
  }

  /** Adding increments in two batches gives the same accumulator as adding them at once. */
  lemma {:induction false} AccumulatedAdditive(value: real, a: nat, b: nat)
    ensures Accumulated(value, a + b) == Accumulated(value, a) + Accumulated(value, b)
  {
    if b > 0 {
      AccumulatedAdditive(value, a, b - 1);
    }
  }

  /** For a positive value, no tick before the sixtieth reaches the value, and the sixtieth does. */
  lemma AccumulatedReachesValueAtLastStep(value: real)
    requires value > 0.0
    ensures Accumulated(value, Steps) == value
    ensures forall j :: 1 <= j < Steps ==> Accumulated(value, j) < value
  {
    AccumulatedClosedForm(value, Steps);
    forall j | 1 <= j < Steps
      ensures Accumulated(value, j) < value
    {
      AccumulatedAdditive(value, j, Steps - j);
      AccumulatedMonotone(value, 1, Steps - j);
      assert Accumulated(value, 1) == Increment(value);
    }
  }

  /**
   * The tick on which the interval is cleared: the first one whose
   * accumulator reaches the value. That is the sixtieth for a positive value
   * and the very first for zero or a negative value.
   */
  function FinalTick(value: real): (k: nat)
    ensures 1 <= k <= Steps
    ensures Accumulated(value, k) >= value
    ensures forall j :: 1 <= j < k ==> Accumulated(value, j) < value
    ensures value > 0.0 ==> k == Steps
    ensures value <= 0.0 ==> k == 1
  {
    if value > 0.0 then
      AccumulatedReachesValueAtLastStep(value);
      Steps
    else
      1
  }

  /**
   * The whole run of one launched interval: before its final tick it is
   * armed, its accumulator holds k increments and the display shows the
   * floor of it; from the final tick on it is cleared and shows exactly the
   * value.
   */
  lemma {:induction false} TicksAfterLaunch(value: real, c: Counter, k: nat)
    ensures var s := Ticks(value, Launch(c), k);
      if k < FinalTick(value) then
        && s.running
        && s.current == Accumulated(value, k)
        && s.count == (if k == 0 then c.count else Floor(Accumulated(value, k)))
      else
        && !s.running
        && s.current == Accumulated(value, FinalTick(value))
        && s.count == value
  {
    if k > 0 {
      TicksAfterLaunch(value, c, k - 1);
      var final := FinalTick(value);
      var prev := Ticks(value, Launch(c), k - 1);
      assert Ticks(value, Launch(c), k) == Tick(value, prev);
      if k - 1 < final {
        assert prev.running && prev.current + Increment(value) == Accumulated(value, k);
        if k < final {
          assert Accumulated(value, k) < value;
        } else {
          assert k == final && Accumulated(value, k) >= value;
        }
      } else {
        assert !prev.running;
      }
    }
  }

  /** Once the interval is cleared, no later tick changes anything. */
  lemma {:induction false} ClearedIntervalIsInert(value: real, c: Counter, k: nat)
    requires !c.running
    ensures Ticks(value, c, k) == c
  {
    if k > 0 {
      ClearedIntervalIsInert(value, c, k - 1);
    }
  }

  /**
   * Termination and exact landing: the interval is still armed after k ticks
   * exactly when k is before the final tick, and from the final tick on the
   * display shows exactly the value and never changes again.
   */
  lemma LandsExactlyOnValue(value: real, c: Counter, k: nat)
    ensures Ticks(value, Launch(c), k).running <==> k < FinalTick(value)
    ensures k >= FinalTick(value) ==>
      && Ticks(value, Launch(c), k).count == value
      && Ticks(value, Launch(c), k) == Ticks(value, Launch(c), FinalTick(value))
  {
    TicksAfterLaunch(value, c, k);
    TicksAfterLaunch(value, c, FinalTick(value));
  }

  /**
   * On every tick before the final one the display is the floor of the
   * accumulator, which is below the value; for a whole-number value it is at
   * most the value minus one.
   */
  lemma NonFinalTickShowsFloor(value: real, c: Counter, k: nat)
    requires 1 <= k < FinalTick(value)
    ensures var s := Ticks(value, Launch(c), k);
      && s.count == Floor(s.current)
      && s.count <= s.current < value
      && (value == Floor(value) ==> s.count <= value - 1.0)
  {
    TicksAfterLaunch(value, c, k);
    var x := Accumulated(value, k);
    assert x < value;
    FloorBelow(x, value);
  }

  /** The floor of a number below a whole number is at most that whole number minus one. */
  lemma FloorBelow(x: real, y: real)
    requires x < y
    ensures Floor(x) <= x
    ensures y == Floor(y) ==> Floor(x) <= y - 1.0
  {
    if y == Floor(y) {
      assert x.Floor < y.Floor;
    }
  }

  /** For a non-negative value every displayed count after the first tick lies between 0 and the value. */
  lemma DisplayWithinBounds(value: real, c: Counter, k: nat)
    requires value >= 0.0 && k >= 1
    ensures 0.0 <= Ticks(value, Launch(c), k).count <= value
  {
    TicksAfterLaunch(value, c, k);
    AccumulatedMonotone(value, 0, k);
  }

  /**
   * For a non-negative value the displayed counts never go down: from the
   * first tick on, or from the start when the display started at 0 (as it
   * does on mount).
   */
  lemma DisplayNonDecreasing(value: real, c: Counter, j: nat, k: nat)
    requires value >= 0.0 && j <= k
    requires j >= 1 || c.count == 0.0
    ensures Ticks(value, Launch(c), j).count <= Ticks(value, Launch(c), k).count
  {
    TicksAfterLaunch(value, c, j);
    TicksAfterLaunch(value, c, k);
    var final := FinalTick(value);
    if j < final {
      AccumulatedMonotone(value, j, k);
      AccumulatedMonotone(value, 0, j);
      if j >= 1 {
        FloorBelow(Accumulated(value, j), value);
      }
      if k < final && j >= 1 {
        FloorMonotone(Accumulated(value, j), Accumulated(value, k));
      } else if k < final && k >= 1 {
        FloorMonotone(0.0, Accumulated(value, k));
      }
    }
  }

  /** `Math.floor` keeps order. */
  lemma FloorMonotone(x: real, y: real)
    requires x <= y
    ensures Floor(x) <= Floor(y)
  {
    var a, b := x.Floor, y.Floor;
    assert a as real <= x && y < b as real + 1.0;
    assert (a - b) as real < 1.0;
  }

  /**
   * A stat counter as the component holds it: the `isVisible` prop, the
   * `count` state, and the accumulator and armed interval of the current
   * effect run. `origin` and `ticks` are proof bookkeeping: the state when
   * the interval was last started and the number of firings since.
   */
  class AnimatedCounter {
    const value: real
    var isVisible: bool
    var current: real
    var count: real
    var running: bool
    ghost var origin: Counter
    ghost var ticks: nat

    function State(): Counter
      reads this
    {
      Counter(current, count, running)
    }

    /** While visible, the state is the launched interval after `ticks` firings; while hidden, no interval is armed. */
    ghost predicate Valid()
      reads this
    {
      if isVisible then State() == Ticks(value, Launch(origin), ticks) else !running
    }

    /** Mounting: `count` starts at 0, and the effect arms the interval only if the section is already visible. */
    constructor (value: real, isVisible: bool)
      ensures Valid()
      ensures this.value == value && this.isVisible == isVisible
      ensures count == 0.0 && running == isVisible
      ensures isVisible ==> origin.count == 0.0 && ticks == 0
    {
      this.value := value;
      this.isVisible := isVisible;
      current := 0.0;
      count := 0.0;
      running := isVisible;
      origin := Counter(0.0, 0.0, false);
      ticks := 0;
    }

    /**
     * A new `isVisible` prop. React re-runs the effect only when it changed:
     * the cleanup clears the old interval, and the new run arms a fresh one
     * when visible and does nothing when hidden. The displayed count is kept.
     */
    method SetVisible(v: bool)
      requires Valid()
      modifies this
      ensures Valid()
      ensures isVisible == v && count == old(count)
      ensures v == old(isVisible) ==> State() == old(State())
      ensures v && !old(isVisible) ==> State() == Launch(old(State())) && ticks == 0
      ensures !v ==> !running
    {
      if v != isVisible {
        isVisible := v;
        running := false;
        if v {
          origin := State();
          current := 0.0;
          running := true;
          ticks := 0;
        }
      }
    }

    /**
     * One firing of the interval, which runs every 2000 / 60 ms; the period
     * itself is not modelled. For a non-negative value the display never
     * goes down and never passes the value, except on the first firing after
     * a relaunch from a non-zero display, where it can drop.
     */
    method OnInterval()
      requires Valid()
      modifies this`current, this`count, this`running, this`ticks
      ensures Valid()
      ensures State() == Tick(value, old(State()))
      ensures !old(running) ==> State() == old(State())
      ensures old(running) ==> current == old(current) + Increment(value)
      ensures old(running) && current >= value ==> count == value && !running
      ensures old(running) && current < value ==> count == Floor(current) && running
      ensures isVisible && value >= 0.0 && (old(ticks) >= 1 || origin.count == 0.0) ==>
        old(count) <= count <= value
    {
      if running {
        current := current + Increment(value);
        if current >= value {
          count := value;
          running := false;
        } else {
          count := Floor(current);
        }
      }
      if isVisible {
        ticks := ticks + 1;
        if value >= 0.0 && (ticks - 1 >= 1 || origin.count == 0.0) {
          DisplayNonDecreasing(value, origin, ticks - 1, ticks);
          DisplayWithinBounds(value, origin, ticks);
        }
      }
    }

    /** Unmounting: the effect cleanup clears the interval. */
    method Unmount()
      modifies this`running
      ensures !running
    {
      running := false;
    }
  }

  /**
   * One statistic card: the target value, the suffix shown after it, and
   * the text under it (the source's `label`, a reserved word in Dafny).
   */
  datatype Stat = Stat(value: real, suffix: string, caption: string)

  const Stats: seq<Stat> := [
    Stat(12.0, "+", "Years Experience"),
    Stat(310.0, "+", "Projects Completed"),
    Stat(100.0, "%", "Client Satisfaction"),
    Stat(10.0, "M+", "Total Followers")
  ]

  /** With exact arithmetic, every stat card counts up for exactly sixty ticks and then shows its value. */
  lemma StatCountersLandOnTheirValues(i: nat, c: Counter)
    requires i < |Stats|
    ensures FinalTick(Stats[i].value) == Steps
    ensures !Ticks(Stats[i].value, Launch(c), Steps).running
    ensures Ticks(Stats[i].value, Launch(c), Steps).count == Stats[i].value
    ensures Ticks(Stats[i].value, Launch(c), Steps - 1).count < Stats[i].value
  {
    LandsExactlyOnValue(Stats[i].value, c, Steps);
    NonFinalTickShowsFloor(Stats[i].value, c, Steps - 1);
  }

  // ---------------------------------------------------------------------
  // The skill graph
  // ---------------------------------------------------------------------

  /** A node of the skill graph; x and y are percentages of the drawing area. */
  datatype SkillNode = SkillNode(id: nat, name: string, x: nat, y: nat, size: nat)

  const SkillNodes: seq<SkillNode> := [
    SkillNode(1, "Prompt Engineering", 20, 30, 40),
    SkillNode(2, "Website", 50, 20, 35),
    SkillNode(3, "WebApp", 80, 35, 38),
    SkillNode(4, "Real Estate", 30, 60, 32),
    SkillNode(5, "Multilingual", 70, 55, 30),
    SkillNode(6, "Drone", 45, 75, 36),
    SkillNode(7, "AI", 85, 70, 34),
    SkillNode(8, "Photography", 15, 80, 28)
  ]

  /** The lines of the graph, as pairs of indices into SkillNodes. */
  const Connections: seq<(nat, nat)> := [
    (0, 1), (1, 2), (2, 4), (4, 6), (6, 5), (5, 3), (3, 0),
    (0, 4), (1, 5), (2, 6), (3, 7), (7, 0)
  ]

  /** Both ends of every connection index an existing node, so drawing a line never reads past SkillNodes. */
  lemma ConnectionEndpointsInRange()
    ensures forall i :: 0 <= i < |Connections| ==>
      Connections[i].0 < |SkillNodes| && Connections[i].1 < |SkillNodes|
  {
  }

  /** The highlight rule: a line is active when the hovered node is one of its two ends. */
  predicate IsActive(hovered: Option<nat>, connection: (nat, nat))
  {
    hovered == Some(connection.0) || hovered == Some(connection.1)
  }

  /** One drawn line: the coordinates of its two end nodes and whether it is highlighted. */
  datatype Line = Line(x1: nat, y1: nat, x2: nat, y2: nat, active: bool)

  /** The SVG lines for the current hover state, one per connection, in order. */
  function ConnectionLines(hovered: Option<nat>): (lines: seq<Line>)
    ensures |lines| == |Connections|
  {
    ConnectionEndpointsInRange();
    seq(|Connections|, i requires 0 <= i < |Connections| =>
      var a := SkillNodes[Connections[i].0];
      var b := SkillNodes[Connections[i].1];
      Line(a.x, a.y, b.x, b.y, IsActive(hovered, Connections[i])))
  }

  /** With no node hovered, no line is highlighted. */
  lemma NoHoverNoHighlight()
    ensures forall i :: 0 <= i < |ConnectionLines(None)| ==> !ConnectionLines(None)[i].active
  {
  }

  /**
   * Hovering node n highlights exactly the lines that end at n, draws each
   * line between the nodes it names, and (since every node has at least two
   * lines) always highlights at least two lines.
   */
  lemma HoverHighlightsIncidentLines(n: nat)
    requires n < |SkillNodes|
    ensures var lines := ConnectionLines(Some(n));
      && (forall i :: 0 <= i < |lines| ==>
            (lines[i].active <==> Connections[i].0 == n || Connections[i].1 == n))
      && (forall i :: 0 <= i < |lines| ==>
            lines[i].x1 == SkillNodes[Connections[i].0].x && lines[i].y1 == SkillNodes[Connections[i].0].y &&
            lines[i].x2 == SkillNodes[Connections[i].1].x && lines[i].y2 == SkillNodes[Connections[i].1].y)
      && (exists i, j :: 0 <= i < j < |lines| && lines[i].active && lines[j].active)
  {
    var lines := ConnectionLines(Some(n));
    ConnectionEndpointsInRange();
    var pair :=
      if n == 0 then (0, 6)
      else if n == 1 then (0, 1)
      else if n == 2 then (1, 2)
      else if n == 3 then (5, 6)
      else if n == 4 then (2, 3)
      else if n == 5 then (4, 5)
      else if n == 6 then (3, 4)
      else (10, 11);
    assert lines[pair.0].active && lines[pair.1].active;
  }
}
