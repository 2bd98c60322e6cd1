/** The text button of the engine: a click on press, and while it is held a
    long-click every time the held time reaches `longClickTimer`. The
    callbacks themselves are outside the model; the button reports whether
    it invoked them. */
module Buttons {
  import opened Geometry

  const DefaultLongClickTimer: real := 100.0

  /** The press timer after some updates, and how many long-clicks fired. */
  datatype Hold = Hold(timer: real, fires: nat)

  /** One update of a held button: the held time grows by `delta`, and on
      reaching `limit` a long-click fires and the timer starts over. */
  function HoldStep(timer: real, delta: real, limit: real): (r: Hold)
    ensures r.fires <= 1
    ensures r.fires == 1 <==> timer + delta >= limit
    ensures r.timer == if r.fires == 1 then 0.0 else timer + delta
  {
    if timer + delta >= limit then Hold(0.0, 1) else Hold(timer + delta, 0)
  }

  /** A sequence of updates while the button stays held. */
  function HoldRun(timer: real, ds: seq<real>, limit: real): Hold
    decreases |ds|
  {
    if ds == [] then Hold(timer, 0)
    else
      var h := HoldStep(timer, ds[0], limit);
      var rest := HoldRun(h.timer, ds[1..], limit);
      Hold(rest.timer, h.fires + rest.fires)
  }

  /** Held with non-negative frame times, the timer stays in `[0, limit)`,
      and no long-click fires exactly when the total held time stays below
      `limit`, in which case the timer is that total. */
  lemma {:induction false} HoldRunStaysBelow(timer: real, ds: seq<real>, limit: real)
    requires 0.0 < limit && 0.0 <= timer < limit && NonNegative(ds)
    ensures 0.0 <= HoldRun(timer, ds, limit).timer < limit
    ensures HoldRun(timer, ds, limit).fires == 0 <==> timer + Sum(ds) < limit
    ensures HoldRun(timer, ds, limit).fires == 0 ==> HoldRun(timer, ds, limit).timer == timer + Sum(ds)
    decreases |ds|
  {
    if ds != [] {
      var h := HoldStep(timer, ds[0], limit);
      assert NonNegative(ds[1..]);
      HoldRunStaysBelow(h.timer, ds[1..], limit);
      SumNonNegative(ds[1..]);
    }
  }

  /** Holding for `ds1` and then `ds2` is holding for `ds1 + ds2`: the timer
      carries over from one stretch to the next. */
  lemma {:induction false} HoldRunSplits(timer: real, ds1: seq<real>, ds2: seq<real>, limit: real)
    ensures HoldRun(timer, ds1 + ds2, limit)
         == var h := HoldRun(timer, ds1, limit);
            var r := HoldRun(h.timer, ds2, limit);
            Hold(r.timer, h.fires + r.fires)
    decreases |ds1|
  {
    if ds1 == [] {
      assert ds1 + ds2 == ds2;
    } else {
      var h := HoldStep(timer, ds1[0], limit);
      assert (ds1 + ds2)[0] == ds1[0];
      assert (ds1 + ds2)[1..] == ds1[1..] + ds2;
      HoldRunSplits(h.timer, ds1[1..], ds2, limit);
    }
  }

  class Button {
    const hasClick: bool
    const hasLongClick: bool
    const longClickTimer: real
    var isClicked: bool
    var pressTimer: real
    var isActive: bool
    var text: string

    /** A new button is released, inactive, with no time held; the long-click
        period defaults to `DefaultLongClickTimer`. */
    constructor (text: string, hasClick: bool, hasLongClick: bool, longClickTimer: Option<real>)
      ensures this.text == text && this.hasClick == hasClick && this.hasLongClick == hasLongClick
      ensures this.longClickTimer == if longClickTimer.Some? then longClickTimer.value else DefaultLongClickTimer
      ensures !isClicked && pressTimer == 0.0 && !isActive
    {
      this.hasClick := hasClick;
      this.hasLongClick := hasLongClick;
      isClicked := false;
      pressTimer := 0.0;
      isActive := false;
      this.text := text;
      this.longClickTimer := if longClickTimer.Some? then longClickTimer.value else DefaultLongClickTimer;
    }

    /** The `isActive` setter. */
    method SetActive(value: bool)
      modifies this`isActive
      ensures isActive == value
    {
      isActive := value;
    }

    /** The `text` setter. */
    method SetText(value: string)
      modifies this`text
      ensures text == value
    {
      text := value;
    }

    /** `pointerdown`: listened to only when the button has a callback; it
        invokes `onClick` when there is one, then marks the button held.
        The press timer is not reset. */
    method PointerDown() returns (clicked: bool)
      modifies this`isClicked
      ensures clicked == hasClick
      ensures isClicked == (old(isClicked) || hasClick || hasLongClick)
    {
      clicked := false;
      if hasClick || hasLongClick {
        clicked := hasClick;
        isClicked := true;
      }
    }

    /** `pointerup` and `pointerout`: listened to only when the button has
        a long-click callback; they release it. The press timer is not
        reset, and a click-only button stays held. */
    method Release()
      modifies this`isClicked
      ensures isClicked == (old(isClicked) && !hasLongClick)
    {
      if hasLongClick {
        isClicked := false;
      }
    }

    /** `update`: while held, one `HoldStep`; a long-click is invoked when
        it fires and the button has the callback. Released, nothing. */
    method Update(delta: real) returns (longClicked: bool)
      modifies this`pressTimer
      ensures !isClicked ==> pressTimer == old(pressTimer) && !longClicked
      ensures isClicked ==>
        var h := HoldStep(old(pressTimer), delta, longClickTimer);
        pressTimer == h.timer && (longClicked <==> h.fires == 1 && hasLongClick)
      ensures 0.0 < longClickTimer && 0.0 <= old(pressTimer) < longClickTimer && delta >= 0.0 ==>
        0.0 <= pressTimer < longClickTimer
    {
      longClicked := false;
      if isClicked {
        pressTimer := pressTimer + delta;
        if pressTimer >= longClickTimer {
          longClicked := hasLongClick;
          pressTimer := 0.0;
        }
      }
    }
  }
}
