/** `TimerCanvas` of pktimer/main.py: turns "seconds left out of a total"
    into the shape it draws. Only the numeric decision is modelled; the
    toolkit's drawing primitives become the `Shape` last drawn. */
module Canvas {
  import opened Wrappers

  /** The single primitive tagged 'arc': a full white disc, or a white pie
      slice drawn from `start` degrees sweeping `extent` degrees. */
  datatype Shape = Disc(size: int) | Arc(size: int, start: int, extent: real)

  /** `min(width, height)`: the side of the square the circle is drawn in. */
  function DrawSize(width: int, height: int): (size: int)
    ensures size <= width && size <= height
    ensures size == width || size == height
  {
    if width <= height then width else height
  }

  /** The elapsed part of the circle, in degrees: `360 - 360 * s / total`. */
  function SweepAngle(s: int, total: int): (angle: real)
    requires total > 0
    ensures 0 <= s <= total ==> 0.0 <= angle <= 360.0
    ensures angle == 360.0 <==> s == 0
    ensures angle == 0.0 <==> s == total
  {
    var fraction := s as real / total as real;
    assert fraction * total as real == s as real;
    FractionInUnit(s, total);
    360.0 - 360.0 * fraction
  }

  /** For `0 <= s <= total` the fraction of time left lies in [0, 1]. */
  lemma FractionInUnit(s: int, total: int)
    requires total > 0
    ensures 0 <= s <= total ==> 0.0 <= s as real / total as real <= 1.0
  {
    var f, t := s as real / total as real, total as real;
    assert f * t == s as real;
    if 0 <= s <= total {
      assert 0.0 <= f * t <= 1.0 * t;
    }
  }

  /** What `update` draws for `s` seconds left on a `width` x `height` canvas. */
  function ShapeFor(s: int, total: int, width: int, height: int): Shape
    requires total > 0
  {
    var angle := SweepAngle(s, total);
    var size := DrawSize(width, height);
    if angle == 360.0 then Disc(size) else Arc(size, 90, -angle)
  }

  /** A full disc exactly when no time is left; otherwise a slice from the
      twelve-o'clock position sweeping clockwise by less than a full turn. */
  lemma ShapeForCases(s: int, total: int, width: int, height: int)
    requires total > 0 && 0 <= s <= total
    ensures ShapeFor(s, total, width, height).Disc? <==> s == 0
    ensures ShapeFor(s, total, width, height).size == DrawSize(width, height)
    ensures s > 0 ==>
      var shape := ShapeFor(s, total, width, height);
      shape.Arc? && shape.start == 90 &&
      -360.0 < shape.extent <= 0.0 &&
      shape.extent == -SweepAngle(s, total)
  {
  }

  /** More time left means a smaller elapsed sweep. */
  lemma SweepDecreasing(s1: int, s2: int, total: int)
    requires total > 0 && s1 < s2
    ensures SweepAngle(s1, total) > SweepAngle(s2, total)
  {
    var f1, f2 := s1 as real / total as real, s2 as real / total as real;
    assert f1 * total as real < f2 * total as real;
  }

  class TimerCanvas {
    /** Total seconds of one countdown. */
    const seconds: int
    /** The last number of seconds drawn. */
    var current: int
    /** The widget's size, as the toolkit reports it. */
    var width: int
    var height: int
    /** The side of the red base circle (tag 'circle'). */
    var circle: int
    /** The one primitive tagged 'arc'; `delete('arc')` keeps it unique. */
    var arc: Shape

    ghost predicate Valid()
      reads this
    {
      seconds > 0 &&
      circle == DrawSize(width, height) &&
      arc == ShapeFor(current, seconds, width, height)
    }

    /** `__init__`: remember the total, start full and draw the circle. */
    constructor (seconds: int, width: int, height: int)
      requires seconds > 0
      ensures Valid()
      ensures this.seconds == seconds && current == seconds
      ensures this.width == width && this.height == height
    {
      this.seconds := seconds;
      current := seconds;
      this.width := width;
      this.height := height;
      new;
      DrawCircle();
    }

    /** `update(seconds=None)`: remember `s` (or keep the last value) and
        replace the arc by the shape for it. */
    method Update(s: Option<int>)
      requires seconds > 0
      modifies this`current, this`arc
      ensures current == s.GetOr(old(current))
      ensures arc == ShapeFor(current, seconds, width, height)
    {
      match s {
        case Some(v) => current := v;
        case None =>
      }
      var angle := SweepAngle(current, seconds);
      var size := DrawSize(width, height);
      if angle == 360.0 {
        arc := Disc(size);
      } else {
        arc := Arc(size, 90, -angle);
      }
    }

    /** `draw_circle`: the base circle at the current size, then the arc. */
    method DrawCircle()
      requires seconds > 0
      modifies this`circle, this`current, this`arc
      ensures Valid() && current == old(current)
    {
      circle := DrawSize(width, height);
      Update(None);
    }

    /** The widget is resized to `w` x `h` and `resize` redraws everything
        for the last value drawn. */
    method Resize(w: int, h: int)
      requires Valid()
      modifies this
      ensures Valid() && current == old(current)
      ensures width == w && height == h
    {
      width, height := w, h;
      DrawCircle();
    }
  }
}
