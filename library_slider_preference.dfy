/**
 * The slider synchronisation of the Android module's SliderPreference.kt, which keeps the
 * same four values as the multiplatform one and updates them the same way. Its class is
 * proved against the transition functions of the multiplatform model.
 */
module LibrarySliderPreference {
  import opened SliderPreference

  /**
   * The state-based overload: `value` is the state, `sliderValue` the slider state;
   * its `onValueChange` writes the state and its `onSliderValueChange` the slider state.
   */
  class LibrarySliderPreference<F(==)> {
    /** A disabled slider delivers no drag events. */
    const enabled: bool
    var value: F
    var sliderValue: F
    var lastValue: F
    var latestSliderValue: F
    /** The arguments of every `onValueChange` call, oldest first. */
    var committed: seq<F>

    function Snapshot(): SliderSnapshot<F>
      reads this
    {
      SliderSnapshot(value, sliderValue, lastValue, latestSliderValue)
    }

    /** The default slider state starts at the state's value. */
    constructor (enabled: bool, value: F)
      ensures this.enabled == enabled
      ensures Snapshot() == Initial(value, value)
      ensures committed == []
    {
      this.enabled := enabled;
      this.value := value;
      sliderValue := value;
      lastValue := value;
      latestSliderValue := value;
      committed := [];
    }

    /** A caller-supplied slider state starts wherever the caller put it. */
    constructor WithSliderState(enabled: bool, value: F, sliderValue: F)
      ensures this.enabled == enabled
      ensures Snapshot() == Initial(value, sliderValue)
      ensures committed == []
    {
      this.enabled := enabled;
      this.value := value;
      this.sliderValue := sliderValue;
      lastValue := value;
      latestSliderValue := sliderValue;
      committed := [];
    }

    /** A composition followed by its side effect. */
    method Recompose()
      modifies this
      ensures Snapshot() == Recomposed(old(Snapshot()))
      ensures committed == old(committed)
    {
      latestSliderValue := sliderValue;
      if value != lastValue {
        sliderValue := value;
        lastValue := value;
      }
    }

    /** The slider's `onValueChange`. */
    method Drag(x: F)
      modifies this
      ensures Snapshot() == if enabled then Dragged(old(Snapshot()), x) else old(Snapshot())
      ensures committed == old(committed)
    {
      if enabled {
        sliderValue := x;
        latestSliderValue := x;
      }
    }

    /** The slider's `onValueChangeFinished`: `onValueChange(latestSliderValue)`. */
    method Finish()
      modifies this
      ensures Snapshot() == if enabled then Finished(old(Snapshot())) else old(Snapshot())
      ensures committed == if enabled then old(committed) + [old(latestSliderValue)] else old(committed)
    {
      if enabled {
        committed := committed + [latestSliderValue];
        value := latestSliderValue;
      }
    }

    /** The state is written from elsewhere. */
    method SetValue(v: F)
      modifies this
      ensures Snapshot() == ValueChanged(old(Snapshot()), v)
      ensures committed == old(committed)
    {
      value := v;
    }
  }

  /**
   * The state is written from elsewhere; the composition that follows and the one the
   * side effect's write triggers leave the slider synchronised to the new value.
   */
  method ExternalChangeThenSettle<F(==)>(p: LibrarySliderPreference<F>, v: F)
    requires v != p.lastValue
    modifies p
    ensures Synced(p.Snapshot()) && p.value == v
    ensures p.committed == old(p.committed)
  {
    ExternalChangeSettles(p.Snapshot(), v);
    p.SetValue(v);
    p.Recompose();
    p.Recompose();
  }

  /** Writing the old value back after a finished drag leaves this slider stale too. */
  method RejectDragByWriteBack<F(==)>(p: LibrarySliderPreference<F>, b: F)
    requires p.enabled && Synced(p.Snapshot()) && b != p.value
    modifies p
    ensures p.value == old(p.value) && p.sliderValue == b
    ensures !Synced(p.Snapshot())
    ensures p.committed == old(p.committed) + [b]
  {
    var a := p.value;
    WriteBackLeavesSliderStale(p.Snapshot(), b);
    p.Drag(b);
    p.Finish();
    p.SetValue(a);
    p.Recompose();
    p.Recompose();
  }
}
