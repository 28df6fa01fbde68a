/** The falling bird of src/bird.ts: vertical motion under gravity, clamped to the canvas,
    and the per-tick distance counter. Rendering is not modelled. */
module Birds {

  /** A vertical position and velocity. */
  datatype Motion = Motion(y: real, velocity: real)

  /** One tick of vertical motion: gravity is added to the velocity, the velocity to the
      position, and a position past the floor (height) or the ceiling (0) is put back on
      it with the velocity cut to 0. */
  function Fall(m: Motion, gravity: real, height: real): (next: Motion)
    ensures next.velocity == 0.0 || next.velocity == m.velocity + gravity
    ensures next.velocity == 0.0 || next.y == m.y + next.velocity
  {
    var velocity := m.velocity + gravity;
    var y := m.y + velocity;
    var after := if y > height then Motion(height, 0.0) else Motion(y, velocity);
    if after.y < 0.0 then Motion(0.0, 0.0) else after
  }

  /** A tick always leaves the bird on the canvas. */
  lemma FallStaysOnCanvas(m: Motion, gravity: real, height: real)
    requires height >= 0.0
    ensures 0.0 <= Fall(m, gravity, height).y <= height
  {
  }

  /** When the tick hits the floor or the ceiling the velocity is 0 afterwards; otherwise
      the new velocity is the old one plus gravity and the new position the old one plus
      the new velocity. */
  lemma FallCases(m: Motion, gravity: real, height: real)
    requires height >= 0.0
    ensures var next := m.y + m.velocity + gravity;
      && (next > height ==> Fall(m, gravity, height) == Motion(height, 0.0))
      && (next < 0.0 ==> Fall(m, gravity, height) == Motion(0.0, 0.0))
      && (0.0 <= next <= height ==>
            Fall(m, gravity, height) == Motion(m.y + (m.velocity + gravity), m.velocity + gravity))
  {
  }

  class Bird {
    var y: real
    const x: real
    const gravity: real
    const lift: real
    var velocity: real
    var disabled: bool
    var distance: real
    /** The canvas the bird flies in (p5's `height` and `width`). */
    const height: real
    const width: real

    function State(): Motion
      reads this`y, this`velocity
    {
      Motion(y, velocity)
    }

    /** The state a new bird starts in: halfway up the canvas, at rest, no distance
        flown, enabled. */
    predicate AtStart()
      reads this
    {
      y == height / 2.0 && velocity == 0.0 && distance == 0.0 && !disabled
    }

    constructor (height: real, width: real)
      ensures y == height / 2.0 && x == 64.0 && velocity == 0.0 && distance == 0.0
      ensures !disabled && gravity == 0.7 && lift == -12.0 && AtStart()
      ensures this.height == height && this.width == width
    {
      y := height / 2.0;
      x := 64.0;
      disabled := false;
      gravity := 0.7;
      lift := -12.0;
      velocity := 0.0;
      distance := 0.0;
      this.height := height;
      this.width := width;
    }

    method Jump()
      modifies this`velocity
      ensures State() == Motion(old(y), lift)
    {
      velocity := lift;
    }

    predicate IsEnabled()
      reads this
    {
      !disabled
    }

    /** Disabling is final and idempotent: afterwards IsEnabled() is false, and a second
        call finds nothing to change. */
    method Disable()
      modifies this`disabled
      ensures !IsEnabled()
      ensures old(disabled) ==> unchanged(this)
    {
      disabled := true;
    }

    /** One tick: the distance counter goes up by 1 and the bird falls one step. */
    method Update()
      modifies this`distance, this`velocity, this`y
      ensures distance == old(distance) + 1.0
      ensures State() == Fall(old(State()), gravity, height)
      ensures height >= 0.0 ==> 0.0 <= y <= height
    {
      distance := distance + 1.0;
      velocity := velocity + gravity;
      y := y + velocity;
      if y > height {
        y := height;
        velocity := 0.0;
      }
      if y < 0.0 {
        y := 0.0;
        velocity := 0.0;
      }
    }
  }
}
