/**
 * The slider synchronisation of the multiplatform module's SliderPreference.kt.
 *
 * Four values interact: the committed `value` (the state), the `sliderValue` the
 * slider shows (the slider state), `lastValue`, which remembers the committed value the
 * slider was last synchronised to, and `latestSliderValue`, a variable local to one
 * composition of the slider that its callbacks share. A drag moves only the slider;
 * finishing the drag commits the latest dragged value; when a composition sees a
 * committed value other than `lastValue`, its side effect moves the slider to it. A
 * committed value written back to `lastValue` before the next composition is therefore
 * never shown: the slider stays where the drag left it.
 *
 * The transition functions below specify every event; the class is proved against them.
 * Slider values are of an abstract type with equality (Kotlin uses `Float`).
 */
module SliderPreference {

  /** The four values the slider logic keeps. */
  datatype SliderSnapshot<F> = SliderSnapshot(value: F, sliderValue: F, lastValue: F, latestSliderValue: F)

  /** The slider shows the committed value and every copy agrees. */
  predicate Synced<F(==)>(s: SliderSnapshot<F>)
  {
    s.sliderValue == s.value && s.lastValue == s.value && s.latestSliderValue == s.value
  }

  /**
   * The first composition: `lastValue` starts at the committed value and
   * `latestSliderValue` at the slider value.
   */
  function Initial<F>(value: F, sliderValue: F): (r: SliderSnapshot<F>)
    ensures r.value == value && r.lastValue == value
    ensures r.sliderValue == sliderValue && r.latestSliderValue == sliderValue
  {
    SliderSnapshot(value, sliderValue, value, sliderValue)
  }

  /**
   * A composition: the slider's content captures the current slider value in
   * `latestSliderValue`; then the side effect moves the slider to the committed value
   * if that differs from `lastValue`, and records it in `lastValue`.
   */
  function Recomposed<F(==)>(s: SliderSnapshot<F>): (r: SliderSnapshot<F>)
    ensures r.value == s.value && r.lastValue == s.value
    ensures r.latestSliderValue == s.sliderValue
    ensures r.sliderValue == if s.value != s.lastValue then s.value else s.sliderValue
  {
    if s.value != s.lastValue then
      SliderSnapshot(s.value, s.value, s.value, s.sliderValue)
    else
      s.(latestSliderValue := s.sliderValue)
  }

  /** A drag (the slider's `onValueChange`): the slider and `latestSliderValue` take `x`. */
  function Dragged<F>(s: SliderSnapshot<F>, x: F): (r: SliderSnapshot<F>)
    ensures r.sliderValue == x && r.latestSliderValue == x
    ensures r.value == s.value && r.lastValue == s.lastValue
  {
    s.(sliderValue := x, latestSliderValue := x)
  }

  /** The drag ends (`onValueChangeFinished`): `latestSliderValue` is committed. */
  function Finished<F>(s: SliderSnapshot<F>): (r: SliderSnapshot<F>)
    ensures r.value == s.latestSliderValue
    ensures r.sliderValue == s.sliderValue && r.lastValue == s.lastValue && r.latestSliderValue == s.latestSliderValue
  {
    s.(value := s.latestSliderValue)
  }

  /** The committed value is changed from elsewhere, for example by another binding. */
  function ValueChanged<F>(s: SliderSnapshot<F>, v: F): SliderSnapshot<F>
  {
    s.(value := v)
  }

  /** A run of drags with no composition in between. */
  function DragAll<F>(s: SliderSnapshot<F>, xs: seq<F>): SliderSnapshot<F>
    decreases |xs|
  {
    if xs == [] then s else DragAll(Dragged(s, xs[0]), xs[1..])
  }

  /**
   * A second composition with no event in between changes nothing that is shown: the
   * committed value, the slider and `lastValue` stay as the first one left them, and
   * `latestSliderValue` catches up with the slider.
   */
  lemma RecomposeSettles<F>(s: SliderSnapshot<F>)
    ensures Recomposed(Recomposed(s)).value == Recomposed(s).value
    ensures Recomposed(Recomposed(s)).sliderValue == Recomposed(s).sliderValue
    ensures Recomposed(Recomposed(s)).lastValue == Recomposed(s).lastValue
    ensures Recomposed(Recomposed(s)).latestSliderValue == Recomposed(s).sliderValue
  {
  }

  /** Drags move the slider but never the committed value nor `lastValue`. */
  lemma {:induction false} DragsKeepValue<F>(s: SliderSnapshot<F>, xs: seq<F>)
    ensures DragAll(s, xs).value == s.value
    ensures DragAll(s, xs).lastValue == s.lastValue
    decreases |xs|
  {
    if xs != [] {
      DragsKeepValue(Dragged(s, xs[0]), xs[1..]);
    }
  }

  /** After at least one drag, the slider and `latestSliderValue` hold the last dragged value. */
  lemma {:induction false} DragsEndAtLast<F>(s: SliderSnapshot<F>, xs: seq<F>)
    requires |xs| > 0
    ensures DragAll(s, xs).sliderValue == xs[|xs| - 1]
    ensures DragAll(s, xs).latestSliderValue == xs[|xs| - 1]
    decreases |xs|
  {
    if |xs| > 1 {
      DragsEndAtLast(Dragged(s, xs[0]), xs[1..]);
    }
  }

  /**
   * Finishing a run of drags with no composition in between commits the last dragged
   * value, although the composition's own slider value is stale.
   */
  lemma {:induction false} FinishCommitsLatestDrag<F>(s: SliderSnapshot<F>, xs: seq<F>)
    requires |xs| > 0
    ensures Finished(DragAll(s, xs)).value == xs[|xs| - 1]
  {
    DragsEndAtLast(s, xs);
  }

  /** With no drag since the last composition, finishing commits the slider value that composition showed. */
  lemma FinishWithoutDrag<F>(s: SliderSnapshot<F>)
    ensures Finished(Recomposed(s)).value == s.sliderValue
  {
  }

  /** A synchronised slider stays synchronised across compositions. */
  lemma RecomposeKeepsSynced<F>(s: SliderSnapshot<F>)
    requires Synced(s)
    ensures Recomposed(s) == s
  {
  }

  /**
   * After the committed value changes from elsewhere, two compositions (the second one
   * triggered by the side effect's write to the slider state) leave the slider
   * synchronised to the new value.
   */
  lemma ExternalChangeSettles<F>(s: SliderSnapshot<F>, v: F)
    requires v != s.lastValue
    ensures Synced(Recomposed(Recomposed(ValueChanged(s, v))))
    ensures Recomposed(Recomposed(ValueChanged(s, v))).value == v
  {
  }

  /**
   * A drag to `b` is finished and committed, and before the next composition the caller
   * writes the old value `a` back (rejecting `b`). Every later composition sees `a ==
   * lastValue`, so the slider keeps showing `b` and never resynchronises.
   */
  lemma WriteBackLeavesSliderStale<F>(s: SliderSnapshot<F>, b: F)
    requires Synced(s) && b != s.value
    ensures Recomposed(Recomposed(ValueChanged(Finished(Dragged(s, b)), s.value))).value == s.value
    ensures Recomposed(Recomposed(ValueChanged(Finished(Dragged(s, b)), s.value))).sliderValue == b
    ensures !Synced(Recomposed(Recomposed(ValueChanged(Finished(Dragged(s, b)), s.value))))
  {
  }

  /** A drag and its finish on a synchronised slider settle at the dragged value after one composition. */
  lemma DragFinishSettles<F>(s: SliderSnapshot<F>, x: F)
    requires Synced(s)
    ensures Synced(Recomposed(Finished(Dragged(s, x))))
    ensures Recomposed(Finished(Dragged(s, x))).value == x
  {
  }

  /**
   * The state-based overload: `value` is the state, `sliderValue` the slider state;
   * its `onValueChange` writes the state and its `onSliderValueChange` the slider state.
   */
  class SliderPreference<F(==)> {
    /** A disabled slider delivers no drag events. */
    const enabled: bool
    var value: F
    var sliderValue: F
    var lastValue: F
    var latestSliderValue: F
    /** The arguments of every `onValueChange` call, oldest first. */
    var committed: seq<F>

    function Snapshot(): SliderSnapshot<F>
      reads this
    {
      SliderSnapshot(value, sliderValue, lastValue, latestSliderValue)
    }

    /** The default slider state starts at the state's value. */
    constructor (enabled: bool, value: F)
      ensures this.enabled == enabled
      ensures Snapshot() == Initial(value, value)
      ensures committed == []
    {
      this.enabled := enabled;
      this.value := value;
      sliderValue := value;
      lastValue := value;
      latestSliderValue := value;
      committed := [];
    }

    /** A caller-supplied slider state starts wherever the caller put it. */
    constructor WithSliderState(enabled: bool, value: F, sliderValue: F)
      ensures this.enabled == enabled
      ensures Snapshot() == Initial(value, sliderValue)
      ensures committed == []
    {
      this.enabled := enabled;
      this.value := value;
      this.sliderValue := sliderValue;
      lastValue := value;
      latestSliderValue := sliderValue;
      committed := [];
    }

    /** A composition followed by its side effect. */
    method Recompose()
      modifies this
      ensures Snapshot() == Recomposed(old(Snapshot()))
      ensures committed == old(committed)
    {
      latestSliderValue := sliderValue;
      if value != lastValue {
        sliderValue := value;
        lastValue := value;
      }
    }

    /** The slider's `onValueChange`. */
    method Drag(x: F)
      modifies this
      ensures Snapshot() == if enabled then Dragged(old(Snapshot()), x) else old(Snapshot())
      ensures committed == old(committed)
    {
      if enabled {
        sliderValue := x;
        latestSliderValue := x;
      }
    }

    /** The slider's `onValueChangeFinished`: `onValueChange(latestSliderValue)`. */
    method Finish()
      modifies this
      ensures Snapshot() == if enabled then Finished(old(Snapshot())) else old(Snapshot())
      ensures committed == if enabled then old(committed) + [old(latestSliderValue)] else old(committed)
    {
      if enabled {
        committed := committed + [latestSliderValue];
        value := latestSliderValue;
      }
    }

    /** The state is written from elsewhere. */
    method SetValue(v: F)
      modifies this
      ensures Snapshot() == ValueChanged(old(Snapshot()), v)
      ensures committed == old(committed)
    {
      value := v;
    }
  }

  /** A click on the track: one drag and its finish before any composition commits the clicked value. */
  method ClickOnTrack<F(==)>(p: SliderPreference<F>, x: F)
    requires p.enabled
    modifies p
    ensures p.value == x && p.committed == old(p.committed) + [x]
  {
    p.Drag(x);
    p.Finish();
  }

  /** The class-level run of `WriteBackLeavesSliderStale`: the value is `a` again, the slider still at `b`. */
  method RejectDragByWriteBack<F(==)>(p: SliderPreference<F>, b: F)
    requires p.enabled && Synced(p.Snapshot()) && b != p.value
    modifies p
    ensures p.value == old(p.value) && p.sliderValue == b
    ensures !Synced(p.Snapshot())
    ensures p.committed == old(p.committed) + [b]
  {
    var a := p.value;
    WriteBackLeavesSliderStale(p.Snapshot(), b);
    p.Drag(b);
    p.Finish();
    p.SetValue(a);
    p.Recompose();
    p.Recompose();
  }
}
