/** The floating badge of the web front end: the state name it last received on
    the "badge-state" channel, the icon it shows for it, and the 30-slot buffer of
    recent audio levels it draws as a waveform while recording. */
module Badge {

  /** The states the back end announces, and the names it sends them under. */
  datatype BadgeState = Idle | Recording | Processing | Success | Error

  function Name(s: BadgeState): string {
    match s
    case Idle => "idle"
    case Recording => "recording"
    case Processing => "processing"
    case Success => "success"
    case Error => "error"
  }

  lemma NameInjective(a: BadgeState, b: BadgeState)
    requires Name(a) == Name(b)
    ensures a == b
  {
  }

  /** The icon expression: any name other than the four listed shows the microphone. */
  function Icon(state: string): (icon: string)
    ensures state == "recording" ==> icon == "\U{23F9}"
    ensures state == "processing" ==> icon == "\U{2026}"
    ensures state == "success" ==> icon == "\U{2713}"
    ensures state == "error" ==> icon == "\U{2717}"
    ensures state !in {"recording", "processing", "success", "error"} ==> icon == "\U{1F3A4}"
  {
    if state == "recording" then "\U{23F9}"
    else if state == "processing" then "\U{2026}"
    else if state == "success" then "\U{2713}"
    else if state == "error" then "\U{2717}"
    else "\U{1F3A4}"
  }

  /** Each of the five states has its own icon. */
  lemma IconInjective(a: BadgeState, b: BadgeState)
    requires Icon(Name(a)) == Icon(Name(b))
    ensures a == b
  {
  }

  const LEVEL_BUFFER_SIZE: nat := 30

  /** `new Array(LEVEL_BUFFER_SIZE).fill(0)`. */
  function Zeros(): (z: seq<real>)
    ensures |z| == LEVEL_BUFFER_SIZE && forall i :: 0 <= i < |z| ==> z[i] == 0.0
  {
    seq(LEVEL_BUFFER_SIZE, _ => 0.0)
  }

  /** The `push` followed by a `shift` when the buffer has outgrown its size. */
  function PushLevel(levels: seq<real>, level: real): (next: seq<real>)
  {
    var grown := levels + [level];
    if |grown| > LEVEL_BUFFER_SIZE then grown[1..] else grown
  }

  /** A full buffer stays full: it loses its oldest level and gains the new one last. */
  lemma PushFull(levels: seq<real>, level: real)
    requires |levels| == LEVEL_BUFFER_SIZE
    ensures PushLevel(levels, level) == levels[1..] + [level]
    ensures |PushLevel(levels, level)| == LEVEL_BUFFER_SIZE
  {
  }

  function PushAll(levels: seq<real>, xs: seq<real>): seq<real>
    decreases |xs|
  {
    if xs == [] then levels else PushAll(PushLevel(levels, xs[0]), xs[1..])
  }

  /** After any run of pushes a full buffer holds the last 30 levels of the
      old contents followed by the new ones, oldest first. */
  lemma {:induction false} PushAllWindow(levels: seq<real>, xs: seq<real>)
    requires |levels| == LEVEL_BUFFER_SIZE
    ensures PushAll(levels, xs) == (levels + xs)[|xs|..]
    decreases |xs|
  {
    if xs != [] {
      PushFull(levels, xs[0]);
      var next := levels[1..] + [xs[0]];
      PushAllWindow(next, xs[1..]);
      assert next + xs[1..] == (levels + xs)[1..];
    }
  }

  /** The badge component's state and its `levelsRef`. */
  class BadgeView {
    var state: string
    var levels: seq<real>

    ghost predicate Valid()
      reads this
    {
      && |levels| == LEVEL_BUFFER_SIZE
      && (state != "recording" ==> levels == Zeros())
    }

    constructor ()
      ensures Valid() && state == "idle" && levels == Zeros()
    {
      state := "idle";
      levels := Zeros();
    }

    /** A "badge-state" event. The effect that resets the buffer runs only when the
        state actually changes, and resets unless the new state is "recording". */
    method SetState(payload: string)
      requires Valid()
      modifies this
      ensures Valid()
      ensures state == payload
      ensures levels == (if payload == "recording" then old(levels) else Zeros())
    {
      var changed := payload != state;
      state := payload;
      if changed && state != "recording" {
        levels := Zeros();
      }
    }

    /** An "audio-level" event; the listener exists only while recording. */
    method OnAudioLevel(level: real)
      requires Valid()
      modifies this
      ensures Valid()
      ensures state == old(state)
      ensures levels == (if state == "recording" then PushLevel(old(levels), level) else old(levels))
      ensures state == "recording" ==> levels == old(levels)[1..] + [level]
    {
      if state == "recording" {
        PushFull(levels, level);
        levels := levels + [level];
        if |levels| > LEVEL_BUFFER_SIZE {
          levels := levels[1..];
        }
      }
    }
  }
}
