/** Clipboard and notification delivery. Both copies of delivery.rs (the Tauri
    back end and the GTK front end) share the clipboard rule; they differ only
    in when the notification urgency is set. */
module Delivery {
  import opened Wrappers
  import opened Text

  /** The clipboard text after a delivery of `text`: in append mode, readable
      non-blank content is kept (trimmed) and the new text follows a space. */
  function ComposeClipboard(text: string, appendMode: bool, current: Result<string, string>): (r: string)
    ensures !appendMode ==> r == text
    ensures appendMode && current.Success? && !AllWhitespace(current.value) ==>
              r == Trim(current.value) + " " + text
    ensures appendMode && (current.Failure? || AllWhitespace(current.value)) ==> r == text
  {
    if appendMode && current.Success? && Trim(current.value) != [] then
      Trim(current.value) + " " + text
    else
      TrimEmptyIff(if current.Success? then current.value else []);
      text
  }

  /** The new text always ends the clipboard unaltered; whatever precedes it is
      a non-blank trimmed string and one space, or nothing. */
  lemma ComposeEndsWithText(text: string, appendMode: bool, current: Result<string, string>)
    ensures var r := ComposeClipboard(text, appendMode, current);
      && |text| <= |r| && r[|r| - |text|..] == text
      && (|r| == |text| || (
            var kept := r[..|r| - |text| - 1];
            && |r| > |text|
            && r[|r| - |text| - 1] == ' '
            && kept != [] && !IsWhitespace(kept[0]) && !IsWhitespace(kept[|kept| - 1])
            && current.Success? && kept == Trim(current.value)))
  {
    var r := ComposeClipboard(text, appendMode, current);
    if appendMode && current.Success? && Trim(current.value) != [] {
      var kept := Trim(current.value);
      TrimEnds(current.value);
      assert r == kept + " " + text;
      assert r[..|r| - |text| - 1] == kept;
      assert r[|r| - |text|..] == text;
      assert r[|r| - |text| - 1] == ' ';
    } else {
      assert r == text;
    }
  }

  /** Repeated deliveries in append mode accumulate: two trimmed transcriptions
      end up after the kept content, each after one space. */
  lemma AppendAccumulates(previous: string, first: string, second: string)
    requires first != [] && !IsWhitespace(first[0]) && !IsWhitespace(first[|first| - 1])
    ensures var once := ComposeClipboard(first, true, Success(previous));
      ComposeClipboard(second, true, Success(once)) ==
        (if AllWhitespace(previous) then first else Trim(previous) + " " + first) + " " + second
  {
    var once := ComposeClipboard(first, true, Success(previous));
    if !AllWhitespace(previous) {
      var kept := Trim(previous);
      TrimEmptyIff(previous);
      assert once == kept + " " + first;
      assert once[0] == kept[0] && once[|once| - 1] == first[|first| - 1];
      TrimUnchanged(once);
    } else {
      TrimUnchanged(first);
    }
    assert once[0] in once && !AllWhitespace(once);
  }

  /** The clipboard back end as the delivery sees it: whether it opens, what
      reading the current text gives, and whether the write fails. */
  datatype ClipboardBackend = ClipboardBackend(
    openError: Option<string>,
    current: Result<string, string>,
    writeError: Option<string>)

  /** `copy_to_clipboard`: the text written to the clipboard, or the error that stopped it.
      A failed read is not an error; it only turns off the appending. */
  function CopyToClipboard(text: string, appendMode: bool, backend: ClipboardBackend): (r: Result<string, string>)
    ensures r.Success? <==> backend.openError.None? && backend.writeError.None?
    ensures backend.openError.Some? ==> r == Failure(backend.openError.value)
    ensures r.Success? ==> r.value == ComposeClipboard(text, appendMode, backend.current)
  {
    if backend.openError.Some? then Failure(backend.openError.value)
    else if backend.writeError.Some? then Failure(backend.writeError.value)
    else Success(ComposeClipboard(text, appendMode, backend.current))
  }

  datatype Urgency = Normal | Critical

  datatype Platform = Linux | OtherPlatform

  /** A desktop notification as handed to the notification back end; an absent
      urgency leaves the back end's default. */
  datatype Notification = Notification(summary: string, body: string, urgency: Option<Urgency>)

  /** The urgency choice of both `notify` functions. */
  function UrgencyFor(isError: bool): (u: Urgency)
    ensures u == Critical <==> isError
  {
    if isError then Critical else Normal
  }

  /** `notify` of the Tauri back end: the urgency is set on Linux only. */
  function TauriNotification(title: string, body: string, isError: bool, platform: Platform): (n: Notification)
    ensures n.summary == title && n.body == body
    ensures n.urgency.Some? <==> platform == Linux
    ensures n.urgency == Some(Critical) <==> platform == Linux && isError
  {
    Notification(title, body, if platform == Linux then Some(UrgencyFor(isError)) else None)
  }

  /** `notify` of the GTK front end: the urgency is always set. */
  function GtkNotification(title: string, body: string, isError: bool): (n: Notification)
    ensures n.summary == title && n.body == body
    ensures n.urgency == Some(Critical) <==> isError
    ensures n.urgency == Some(Normal) <==> !isError
  {
    Notification(title, body, Some(UrgencyFor(isError)))
  }
}
