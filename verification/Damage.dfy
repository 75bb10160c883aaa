/** `toRectangle16` and `toRegion16` of src/VideoStreamSurface.cpp. */
module Damage {
  import opened Wrappers
  import opened Frames

  /** `RECTANGLE_16`: the right and bottom edges do not belong to it. */
  datatype Rectangle16 = Rectangle16(left: nat, top: nat, right: nat, bottom: nat) {
    predicate IsEmpty() {
      left >= right || top >= bottom
    }

    predicate Contains(p: Pixel) {
      left <= p.x < right && top <= p.y < bottom
    }
  }

  function ToRectangle16(r: Rect): Rectangle16 {
    Rectangle16(U16(r.left), U16(r.top), U16(r.right + 1), U16(r.bottom + 1))
  }

  /** The 16-bit rectangle holds the same pixels exactly when its outer edges fit 16 bits. */
  lemma {:induction false} ConversionIsExact(r: Rect)
    requires 0 <= r.left <= r.right && 0 <= r.top <= r.bottom
    ensures (forall p :: ToRectangle16(r).Contains(p) <==> r.Contains(p))
            <==> r.right < 0xffff && r.bottom < 0xffff
  {
    var corner := Pixel(r.right, r.bottom);
    assert r.Contains(corner);
    if r.right >= 0xffff || r.bottom >= 0xffff {
      assert !ToRectangle16(r).Contains(corner);
    }
  }

  predicate InRegion16(p: Pixel, region: seq<Rectangle16>) {
    exists i :: 0 <= i < |region| && region[i].Contains(p)
  }

  function Intersect(a: Rect, b: Rect): (r: Rect)
    ensures forall p :: r.Contains(p) <==> a.Contains(p) && b.Contains(p)
  {
    Rect(Max(a.left, b.left), Max(a.top, b.top), Min(a.right, b.right), Min(a.bottom, b.bottom))
  }

  predicate HoldsNothing(region: Region) {
    forall i :: 0 <= i < |region| ==> !region[i].IsValid()
  }

  function Intersected(region: Region, frameRect: Rect): (r: Region)
    ensures |r| == |region|
    ensures forall i :: 0 <= i < |r| ==> r[i] == Intersect(region[i], frameRect)
  {
    seq(|region|, i requires 0 <= i < |region| => Intersect(region[i], frameRect))
  }

  /** What the loop of `toRegion16` has collected after k rectangles. */
  ghost predicate Collected(out: seq<Rectangle16>, rects: Region, k: nat)
    requires k <= |rects|
  {
    && (forall p :: InRegion16(p, out) <==> exists i :: 0 <= i < k && rects[i].Contains(p))
    && (forall j :: 0 <= j < |out| ==> !out[j].IsEmpty())
  }

  lemma {:induction false} CollectOne(out: seq<Rectangle16>, rects: Region, k: nat)
    requires k < |rects| && Collected(out, rects, k)
    requires rects[k].IsValid() ==>
      0 <= rects[k].left && rects[k].right < 0xffff && 0 <= rects[k].top && rects[k].bottom < 0xffff
    ensures Collected(if rects[k].IsValid() then out + [ToRectangle16(rects[k])] else out, rects, k + 1)
  {
    if rects[k].IsValid() {
      var next, rectangle := out + [ToRectangle16(rects[k])], ToRectangle16(rects[k]);
      ConversionIsExact(rects[k]);
      assert next[|out|] == rectangle;
      forall p
        ensures InRegion16(p, next) <==> InRegion16(p, out) || rectangle.Contains(p)
      {
        if InRegion16(p, out) {
          var i :| 0 <= i < |out| && out[i].Contains(p);
          assert next[i].Contains(p);
        }
      }
    }
  }

  /**
   The region handed to the encoder, or `None` when a union fails. For a frame that
   fits 16-bit coordinates it holds exactly the pixels the frame has to repaint.
   */
  method ToRegion16(region: Region, size: Size, unionSucceeds: nat -> bool) returns (r: Option<seq<Rectangle16>>)
    requires 0 < size.width <= 0xffff && 0 < size.height <= 0xffff
    ensures r.Some? ==> forall p :: InRegion16(p, r.value) <==> Repaints(p, region, size)
    ensures (forall i :: unionSucceeds(i)) ==> r.Some?
  {
    var frameRect := FrameRect(size);
    var clipped := if HoldsNothing(region) then [frameRect] else Intersected(region, frameRect);
    var out: seq<Rectangle16> := [];
    for k := 0 to |clipped|
      invariant Collected(out, clipped, k)
    {
      CollectOne(out, clipped, k);
      if clipped[k].IsValid() {
        if !unionSucceeds(k) {
          return None;
        }
        out := out + [ToRectangle16(clipped[k])];
      }
    }
    ClippedMeaning(region, size, clipped);
    if forall j :: 0 <= j < |out| ==> out[j].IsEmpty() {
      EmptyMeansUntouched(out, region, size, clipped);
      if !unionSucceeds(|clipped|) {
        return None;
      }
      out := [ToRectangle16(frameRect)];
      ConversionIsExact(frameRect);
      assert forall p :: InRegion16(p, out) <==> out[0].Contains(p);
    } else {
      NonEmptyMeansRepaints(out, region, size, clipped);
    }
    return Some(out);
  }

  ghost predicate IsClipped(region: Region, size: Size, clipped: Region) {
    clipped == if HoldsNothing(region) then [FrameRect(size)] else Intersected(region, FrameRect(size))
  }

  lemma {:induction false} ClippedMeaning(region: Region, size: Size, clipped: Region)
    requires IsClipped(region, size, clipped)
    ensures forall p :: InRegion(p, clipped) <==>
              InSize(p, size) && (InRegion(p, region) || HoldsNothing(region))
    ensures HoldsNothing(region) ==> forall p :: !InRegion(p, region)
  {
    forall p
      ensures InRegion(p, clipped) <==> InSize(p, size) && (InRegion(p, region) || HoldsNothing(region))
    {
      if HoldsNothing(region) {
        assert InRegion(p, clipped) <==> clipped[0].Contains(p);
      } else {
        if InRegion(p, region) && InSize(p, size) {
          var i :| 0 <= i < |region| && region[i].Contains(p);
          assert clipped[i].Contains(p);
        }
        if InRegion(p, clipped) {
          var i :| 0 <= i < |clipped| && clipped[i].Contains(p);
          assert region[i].Contains(p);
        }
      }
    }
  }

  lemma {:induction false} EmptyMeansUntouched(out: seq<Rectangle16>, region: Region, size: Size, clipped: Region)
    requires IsClipped(region, size, clipped) && Collected(out, clipped, |clipped|)
    requires forall j :: 0 <= j < |out| ==> out[j].IsEmpty()
    ensures !Touches(region, size)
  {
    ClippedMeaning(region, size, clipped);
    forall p
      ensures !InRegion(p, clipped)
    {
      assert !InRegion16(p, out);
    }
  }

  lemma {:induction false} NonEmptyMeansRepaints(out: seq<Rectangle16>, region: Region, size: Size, clipped: Region)
    requires IsClipped(region, size, clipped) && Collected(out, clipped, |clipped|)
    requires exists j :: 0 <= j < |out| && !out[j].IsEmpty()
    ensures forall p :: InRegion16(p, out) <==> Repaints(p, region, size)
  {
    ClippedMeaning(region, size, clipped);
    if !HoldsNothing(region) {
      var j :| 0 <= j < |out| && !out[j].IsEmpty();
      var p := Pixel(out[j].left, out[j].top);
      assert out[j].Contains(p);
      assert InRegion16(p, out) && InRegion(p, clipped);
      assert Touches(region, size);
    }
  }
}
