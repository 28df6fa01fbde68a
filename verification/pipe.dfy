/** The obstacle of src/pipe.ts: a pair of pipes with a gap, moving left one step per
    tick, and its hit test against a bird. Rendering is not modelled. */
module Pipes {
  import opened Utils
  import opened Birds

  const PIPE_SPACING: real := 130.0

  /** A pipe's geometry as plain values: its left edge x, its width w, the upper pipe's
      height top, the lower pipe's height bottom, and the canvas height. */
  datatype Gap = Gap(x: real, w: real, top: real, bottom: real, height: real)
  {
    /** The hit test of `hits`: the bird is above the gap or below it, and strictly
        between the pipe's two edges. */
    predicate HitsAt(birdX: real, birdY: real)
    {
      (birdY < top || birdY > height - bottom) && birdX > x && birdX < x + w
    }

    /** How far the bird is, horizontally, from the middle of the pipe. */
    function CenterDistance(birdX: real): real
    {
      Abs(birdX - x - w / 2.0)
    }
  }

  /** A bird that is hit is less than half a pipe width from the pipe's middle. */
  lemma HitIsNearCenter(g: Gap, birdX: real, birdY: real)
    requires g.HitsAt(birdX, birdY)
    ensures 0.0 <= g.CenterDistance(birdX) < g.w / 2.0
  {
  }

  class Pipe {
    const spacing: real
    const top: real
    const bottom: real
    var x: real
    const w: real
    const speed: real
    var highlight: bool
    /** The canvas the pipe lives in (p5's `height` and `width`). */
    const height: real
    const width: real

    function Geometry(): Gap
      reads this`x
    {
      Gap(x, w, top, bottom, height)
    }

    /** `new Pipe(p)`: `top` is the value `p.random(height / 6, 3 / 4 * height)` drew. */
    constructor (height: real, width: real, top: real)
      requires height / 6.0 <= top < 3.0 / 4.0 * height
      ensures this.top == top && bottom == height - (top + PIPE_SPACING)
      ensures height - bottom == top + PIPE_SPACING
      ensures x == width && w == 80.0 && speed == 6.0 && spacing == PIPE_SPACING
      ensures !highlight && this.height == height && this.width == width
    {
      spacing := PIPE_SPACING;
      this.top := top;
      bottom := height - (top + PIPE_SPACING);
      x := width;
      w := 80.0;
      speed := 6.0;
      highlight := false;
      this.height := height;
      this.width := width;
    }

    /** `hits(bird)`: the hit test, remembered in `highlight`, and the distance to the
        pipe's middle when it is a hit (0 otherwise). */
    method Hits(bird: Bird) returns (hit: bool, distanceToCenter: real)
      modifies this`highlight
      ensures hit == Geometry().HitsAt(bird.x, bird.y)
      ensures distanceToCenter == if hit then Geometry().CenterDistance(bird.x) else 0.0
      ensures hit ==> 0.0 <= distanceToCenter < w / 2.0
      ensures highlight == hit
    {
      if bird.y < top || bird.y > height - bottom {
        if bird.x > x && bird.x < x + w {
          highlight := true;
          HitIsNearCenter(Geometry(), bird.x, bird.y);
          return true, Abs(bird.x - x - w / 2.0);
        }
      }
      highlight := false;
      return false, 0.0;
    }

    /** One tick: the pipe moves left by its speed. */
    method Update()
      modifies this`x
      ensures x == old(x) - speed
    {
      x := x - speed;
    }

    /** The pipe has left the canvas on the left: its right edge is past x = 0, the
        condition under which the simulation drops it. */
    predicate Offscreen(): (gone: bool)
      reads this`x
      ensures gone <==> x + w < 0.0
    {
      x < -w
    }
  }
}
