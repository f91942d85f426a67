/** ObjectFrameAnimator: a flip-book that shows one frame object at a time
    and advances to the next one whenever the accumulated time reaches one
    frame period. GameObject.SetActive is a write to a flag per frame. */
module FrameAnimation {

  /** Whether the frame flags hold exactly one active frame, the one at `cur`. */
  predicate OnlyActive(flags: seq<bool>, cur: int)
  {
    0 <= cur < |flags| && forall i :: 0 <= i < |flags| ==> (flags[i] <==> i == cur)
  }

  /** The frame after `cur`, wrapping to frame 0 after the last one. */
  function NextFrame(cur: nat, count: nat): (next: nat)
    requires cur < count
    ensures next < count
    ensures cur + 1 < count ==> next == cur + 1
    ensures cur + 1 == count ==> next == 0
  {
    (cur + 1) % count
  }

  /** The flags after an advance from `cur`: the current frame switched off,
      then the next frame switched on. */
  function Advance(flags: seq<bool>, cur: nat): (r: seq<bool>)
    requires cur < |flags|
    ensures |r| == |flags|
    ensures r[NextFrame(cur, |flags|)]
    ensures cur != NextFrame(cur, |flags|) ==> !r[cur]
    ensures forall i :: 0 <= i < |flags| && i != cur && i != NextFrame(cur, |flags|) ==> r[i] == flags[i]
  {
    flags[cur := false][NextFrame(cur, |flags|) := true]
  }

  /** If only the current frame is shown before an advance, only the next
      frame is shown after it. */
  lemma AdvanceKeepsOneActive(flags: seq<bool>, cur: nat)
    requires OnlyActive(flags, cur)
    ensures OnlyActive(Advance(flags, cur), NextFrame(cur, |flags|))
  {
    var next := NextFrame(cur, |flags|);
    var r := Advance(flags, cur);
    forall i | 0 <= i < |r| ensures r[i] <==> i == next {
      if i != next && i != cur {
        assert r[i] == flags[i];
      }
    }
  }

  /** With a single frame the advance switches it off and on again: it ends
      active whatever it was before. */
  lemma SingleFrameEndsActive(flags: seq<bool>)
    requires |flags| == 1
    ensures Advance(flags, 0) == [true]
  {
  }

  /** The threshold test timer >= 1 / frameRate. A frame rate of zero makes
      the period infinite in IEEE arithmetic, so it never fires. */
  predicate Fires(timer: real, frameRate: real)
  {
    frameRate != 0.0 && timer >= 1.0 / frameRate
  }

  /** With a positive frame rate, the animator fires exactly when the timer
      has reached one period. */
  lemma FiresAfterOnePeriod(timer: real, frameRate: real)
    requires frameRate > 0.0
    ensures Fires(timer, frameRate) <==> timer * frameRate >= 1.0
  {
    var period := 1.0 / frameRate;
    assert period * frameRate == 1.0;
    if timer >= period {
      MonotoneProduct(period, timer, frameRate);
    } else {
      MonotoneProduct(timer, period, frameRate);
    }
  }

  lemma MonotoneProduct(x: real, y: real, c: real)
    requires x <= y && c > 0.0
    ensures x * c <= y * c
  {
    assert (y - x) * c >= 0.0;
  }

  class ObjectFrameAnimator {
    /** SetActive flag of each frame object. */
    const frames: array<bool>
    var frameRate: real
    var currentFrame: int
    var timer: real

    /** The index stays at a frame, or at 0 when there are no frames. */
    ghost predicate Valid()
      reads this
    {
      0 <= currentFrame && (currentFrame < frames.Length || currentFrame == 0)
    }

    /** A new component: the inspector's frames and frame rate (10 by
        default), frame 0, an empty timer. */
    constructor (frames: array<bool>, frameRate: real)
      ensures this.frames == frames && this.frameRate == frameRate
      ensures currentFrame == 0 && timer == 0.0
      ensures Valid()
    {
      this.frames := frames;
      this.frameRate := frameRate;
      currentFrame := 0;
      timer := 0.0;
    }

    /** Update: add the frame time; on reaching the period, clear the timer
        and advance by exactly one frame. With no frames the indexing throws
        (`thrown`) after the timer was cleared. */
    method Update(deltaTime: real) returns (thrown: bool)
      requires Valid()
      modifies this, frames
      ensures Valid()
      ensures frameRate == old(frameRate)
      ensures var t := old(timer) + deltaTime;
              if !Fires(t, frameRate) then
                && timer == t && !thrown
                && currentFrame == old(currentFrame) && frames[..] == old(frames[..])
              else if frames.Length == 0 then
                && timer == 0.0 && thrown
                && currentFrame == old(currentFrame)
              else
                && timer == 0.0 && !thrown
                && currentFrame == NextFrame(old(currentFrame), frames.Length)
                && frames[..] == Advance(old(frames[..]), old(currentFrame))
      ensures old(OnlyActive(frames[..], currentFrame)) ==> OnlyActive(frames[..], currentFrame)
    {
      timer := timer + deltaTime;
      thrown := false;
      if Fires(timer, frameRate) {
        timer := 0.0;
        if frames.Length == 0 {
          thrown := true;
          return;
        }
        ghost var before, cur := frames[..], currentFrame;
        frames[currentFrame] := false;
        currentFrame := (currentFrame + 1) % frames.Length;
        frames[currentFrame] := true;
        if OnlyActive(before, cur) {
          AdvanceKeepsOneActive(before, cur);
        }
      }
    }
  }
}
