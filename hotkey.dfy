/** The global hotkey listener: one thread per input device reads evdev events,
    keeps the set of keys held down on that device and sends a toggle request
    when V is pressed while a Meta key and a Shift key are held. */
module Hotkey {
  import opened Wrappers
  import opened Commands

  const EV_KEY: nat := 1
  const KEY_LEFTSHIFT: nat := 42
  const KEY_V: nat := 47
  const KEY_RIGHTSHIFT: nat := 54
  const KEY_LEFTMETA: nat := 125
  const KEY_RIGHTMETA: nat := 126

  /** An evdev input event: its type, its code and its value (1 press, 0 release, 2 autorepeat). */
  datatype InputEvent = InputEvent(eventType: nat, code: nat, value: int)

  predicate ChordHeld(pressed: set<nat>) {
    && (KEY_LEFTMETA in pressed || KEY_RIGHTMETA in pressed)
    && (KEY_LEFTSHIFT in pressed || KEY_RIGHTSHIFT in pressed)
  }

  /** The pressed-key set after one event. */
  function NextPressed(pressed: set<nat>, ev: InputEvent): (next: set<nat>)
    ensures ev.eventType != EV_KEY ==> next == pressed
    ensures ev.eventType == EV_KEY && ev.value == 1 ==> next == pressed + {ev.code}
    ensures ev.eventType == EV_KEY && ev.value == 0 ==> next == pressed - {ev.code}
    ensures ev.value != 0 && ev.value != 1 ==> next == pressed
  {
    if ev.eventType != EV_KEY then pressed
    else if ev.value == 1 then pressed + {ev.code}
    else if ev.value == 0 then pressed - {ev.code}
    else pressed
  }

  /** Whether the event sends a toggle request, checked on the updated set as the loop does. */
  predicate Emits(pressed: set<nat>, ev: InputEvent) {
    var next := NextPressed(pressed, ev);
    && ev.eventType == EV_KEY
    && ChordHeld(next)
    && KEY_V in next
    && ev.value == 1
    && ev.code == KEY_V
  }

  /** A toggle is sent exactly for a press of V while Meta and Shift were already held. */
  lemma EmitsIff(pressed: set<nat>, ev: InputEvent)
    ensures Emits(pressed, ev) <==>
      ev.eventType == EV_KEY && ev.value == 1 && ev.code == KEY_V && ChordHeld(pressed)
  {
    if ev.eventType == EV_KEY && ev.value == 1 && ev.code == KEY_V {
      var next := pressed + {KEY_V};
      assert KEY_LEFTMETA in next <==> KEY_LEFTMETA in pressed;
      assert KEY_RIGHTMETA in next <==> KEY_RIGHTMETA in pressed;
      assert KEY_LEFTSHIFT in next <==> KEY_LEFTSHIFT in pressed;
      assert KEY_RIGHTSHIFT in next <==> KEY_RIGHTSHIFT in pressed;
    }
  }

  /** Releases, autorepeats and events of any other type never send a toggle. */
  lemma OnlyPressesEmit(pressed: set<nat>, ev: InputEvent)
    requires ev.eventType != EV_KEY || ev.value != 1
    ensures !Emits(pressed, ev)
  {
  }

  /** The set after a run of events. */
  function PressedAfter(pressed: set<nat>, events: seq<InputEvent>): set<nat>
    decreases |events|
  {
    if events == [] then pressed
    else PressedAfter(NextPressed(pressed, events[0]), events[1..])
  }

  /** The toggle requests a run of events sends, one per emitting event. */
  function Toggles(pressed: set<nat>, events: seq<InputEvent>): (sent: seq<AppEvent>)
    ensures |sent| <= |events|
    decreases |events|
  {
    if events == [] then []
    else
      var first := if Emits(pressed, events[0]) then [ToggleRecording] else [];
      first + Toggles(NextPressed(pressed, events[0]), events[1..])
  }

  lemma {:induction false} RunAppend(pressed: set<nat>, a: seq<InputEvent>, b: seq<InputEvent>)
    ensures PressedAfter(pressed, a + b) == PressedAfter(PressedAfter(pressed, a), b)
    ensures Toggles(pressed, a + b) == Toggles(pressed, a) + Toggles(PressedAfter(pressed, a), b)
    decreases |a|
  {
    if a == [] {
      assert a + b == b;
    } else {
      assert (a + b)[0] == a[0];
      assert (a + b)[1..] == a[1..] + b;
      RunAppend(NextPressed(pressed, a[0]), a[1..], b);
    }
  }

  /** The events of the batches read before the first read error, which ends the thread. */
  function EventsUntilError(batches: seq<Result<seq<InputEvent>, string>>): seq<InputEvent>
    decreases |batches|
  {
    if batches == [] || batches[0].Failure? then []
    else batches[0].value + EventsUntilError(batches[1..])
  }

  /** Holding Left Meta and Left Shift and pressing V sends one toggle; the
      autorepeat of V and its release send none, and a second press sends another. */
  lemma ChordScenario()
    ensures Toggles({}, [
      InputEvent(EV_KEY, KEY_LEFTMETA, 1), InputEvent(EV_KEY, KEY_LEFTSHIFT, 1),
      InputEvent(EV_KEY, KEY_V, 1), InputEvent(EV_KEY, KEY_V, 2),
      InputEvent(EV_KEY, KEY_V, 0), InputEvent(EV_KEY, KEY_V, 1)])
      == [ToggleRecording, ToggleRecording]
  {
    var meta := InputEvent(EV_KEY, KEY_LEFTMETA, 1);
    var shift := InputEvent(EV_KEY, KEY_LEFTSHIFT, 1);
    var v := InputEvent(EV_KEY, KEY_V, 1);
    var repeat := InputEvent(EV_KEY, KEY_V, 2);
    var release := InputEvent(EV_KEY, KEY_V, 0);
    var s1: set<nat> := {KEY_LEFTMETA};
    var s2: set<nat> := {KEY_LEFTMETA, KEY_LEFTSHIFT};
    var s3: set<nat> := {KEY_LEFTMETA, KEY_LEFTSHIFT, KEY_V};
    assert NextPressed({}, meta) == s1;
    assert NextPressed(s1, shift) == s2;
    assert NextPressed(s2, v) == s3;
    assert NextPressed(s3, release) == s2;
    EmitsIff({}, meta);
    EmitsIff(s1, shift);
    EmitsIff(s2, v);
    EmitsIff(s3, v);
    assert Toggles(s2, [v]) == [ToggleRecording];
    assert Toggles(s3, [release, v]) == [ToggleRecording];
    assert Toggles(s3, [repeat, release, v]) == [ToggleRecording];
    assert Toggles(s2, [v, repeat, release, v]) == [ToggleRecording, ToggleRecording];
    assert Toggles(s1, [shift, v, repeat, release, v]) == [ToggleRecording, ToggleRecording];
    assert [meta, shift, v, repeat, release, v][1..] == [shift, v, repeat, release, v];
  }

  /** The listener thread of one device. */
  class DeviceListener {
    var pressed: set<nat>

    /** The configured hotkey text is accepted and ignored: the chord is fixed. */
    constructor (configuredHotkey: string)
      ensures pressed == {}
    {
      pressed := {};
    }

    /** The body of the per-event `for` loop. */
    method HandleEvent(ev: InputEvent) returns (sent: seq<AppEvent>)
      modifies this
      ensures pressed == NextPressed(old(pressed), ev)
      ensures sent == (if Emits(old(pressed), ev) then [ToggleRecording] else [])
    {
      if ev.eventType == EV_KEY {
        var key := ev.code;
        if ev.value == 1 {
          pressed := pressed + {key};
        } else if ev.value == 0 {
          pressed := pressed - {key};
        }
        var superPressed := KEY_LEFTMETA in pressed || KEY_RIGHTMETA in pressed;
        var shiftPressed := KEY_LEFTSHIFT in pressed || KEY_RIGHTSHIFT in pressed;
        var vPressed := KEY_V in pressed;
        if superPressed && shiftPressed && vPressed && ev.value == 1 && key == KEY_V {
          sent := [ToggleRecording];
        } else {
          sent := [];
        }
      } else {
        sent := [];
      }
    }

    /** One batch of `fetch_events`. */
    method HandleBatch(events: seq<InputEvent>) returns (sent: seq<AppEvent>)
      modifies this
      ensures pressed == PressedAfter(old(pressed), events)
      ensures sent == Toggles(old(pressed), events)
    {
      sent := [];
      var i := 0;
      while i < |events|
        invariant 0 <= i <= |events|
        invariant pressed == PressedAfter(old(pressed), events[..i])
        invariant sent == Toggles(old(pressed), events[..i])
      {
        var before := pressed;
        var here := HandleEvent(events[i]);
        RunAppend(old(pressed), events[..i], [events[i]]);
        assert events[..i + 1] == events[..i] + [events[i]];
        assert PressedAfter(before, [events[i]]) == pressed;
        assert Toggles(before, [events[i]]) == here;
        sent := sent + here;
        i := i + 1;
      }
      assert events[..i] == events;
    }

    /** The thread's `loop`: batches until the first read error. */
    method Listen(batches: seq<Result<seq<InputEvent>, string>>) returns (sent: seq<AppEvent>)
      modifies this
      ensures pressed == PressedAfter(old(pressed), EventsUntilError(batches))
      ensures sent == Toggles(old(pressed), EventsUntilError(batches))
    {
      sent := [];
      var i := 0;
      while i < |batches| && batches[i].Success?
        invariant 0 <= i <= |batches|
        invariant forall k :: 0 <= k < i ==> batches[k].Success?
        invariant pressed == PressedAfter(old(pressed), EventsUntilError(batches[..i]))
        invariant sent == Toggles(old(pressed), EventsUntilError(batches[..i]))
      {
        var here := HandleBatch(batches[i].value);
        assert batches[..i + 1] == batches[..i] + [batches[i]];
        UntilErrorAppend(batches[..i], [batches[i]]);
        assert EventsUntilError([batches[i]]) == batches[i].value;
        RunAppend(old(pressed), EventsUntilError(batches[..i]), batches[i].value);
        sent := sent + here;
        i := i + 1;
      }
      assert batches == batches[..i] + batches[i..];
      UntilErrorAppend(batches[..i], batches[i..]);
      if i < |batches| {
        assert batches[i..][0] == batches[i];
      }
      assert EventsUntilError(batches[i..]) == [];
      assert EventsUntilError(batches) == EventsUntilError(batches[..i]) + [];
      assert EventsUntilError(batches[..i]) + [] == EventsUntilError(batches[..i]);
    }
  }

  lemma {:induction false} UntilErrorAppend(a: seq<Result<seq<InputEvent>, string>>, b: seq<Result<seq<InputEvent>, string>>)
    requires forall k :: 0 <= k < |a| ==> a[k].Success?
    ensures EventsUntilError(a + b) == EventsUntilError(a) + EventsUntilError(b)
  {
    if a == [] {
      assert a + b == b;
    } else {
      assert (a + b)[0] == a[0];
      assert (a + b)[1..] == a[1..] + b;
      UntilErrorAppend(a[1..], b);
    }
  }
}
