/** Frames, sizes and damage regions as src/VideoFrame.h and Qt describe them. */
module Frames {
  import opened Wrappers

  datatype Size = Size(width: int, height: int) {
    /** `QSize::isEmpty` */
    predicate IsEmpty() {
      width <= 0 || height <= 0
    }
  }

  /** The size of a default-constructed `QSize`. */
  const NO_SIZE := Size(-1, -1)

  datatype Pixel = Pixel(x: int, y: int)

  type Color = int

  /** `QRect`: both corners belong to it; a rectangle with crossed corners holds nothing. */
  datatype Rect = Rect(left: int, top: int, right: int, bottom: int) {
    predicate IsValid() {
      left <= right && top <= bottom
    }

    predicate Contains(p: Pixel) {
      left <= p.x <= right && top <= p.y <= bottom
    }
  }

  /** `QRegion`: the union of its rectangles. */
  type Region = seq<Rect>

  datatype EncodingMode = H264 | Progressive

  datatype Frame = Frame(
    size: Size,
    data: seq<int>,                      // encoded packet, for H.264
    image: Option<map<Pixel, Color>>,    // raw image, for the raster path
    damage: Region,
    isKeyFrame: bool)

  predicate InSize(p: Pixel, size: Size) {
    0 <= p.x < size.width && 0 <= p.y < size.height
  }

  function FrameRect(size: Size): Rect {
    Rect(0, 0, size.width - 1, size.height - 1)
  }

  predicate InRegion(p: Pixel, region: Region) {
    exists i :: 0 <= i < |region| && region[i].Contains(p)
  }

  /** Some damaged pixel lies inside the frame. */
  ghost predicate Touches(damage: Region, size: Size) {
    exists p :: InSize(p, size) && InRegion(p, damage)
  }

  /** The pixels a raster frame repaints: its damage inside the frame, or all of it if there is none. */
  ghost predicate Repaints(p: Pixel, damage: Region, size: Size) {
    InSize(p, size) && (InRegion(p, damage) || !Touches(damage, size))
  }

  lemma {:induction false} RegionUnion(p: Pixel, a: Region, b: Region)
    ensures InRegion(p, a + b) <==> InRegion(p, a) || InRegion(p, b)
  {
    if InRegion(p, a) {
      var i :| 0 <= i < |a| && a[i].Contains(p);
      assert (a + b)[i].Contains(p);
    }
    if InRegion(p, b) {
      var i :| 0 <= i < |b| && b[i].Contains(p);
      assert (a + b)[|a| + i].Contains(p);
    }
  }

  /**
   What `queueFrame` makes of the queue: a key frame replaces it, any other encoded
   frame joins it; a raster frame replaces it and takes over the damage it held.
   */
  function Enqueue(mode: EncodingMode, queue: seq<Frame>, frame: Frame): seq<Frame> {
    match mode
    case H264 => (if frame.isKeyFrame then [] else queue) + [frame]
    case Progressive =>
      var lastDamage := if queue == [] then [] else queue[|queue| - 1].damage;
      [frame.(damage := frame.damage + lastDamage)]
  }
}
