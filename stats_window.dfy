/** The preview line of one session in the web statistics window. JavaScript
    strings are sequences of UTF-16 code units, so `length` and `slice` count
    code units, and a character outside the Basic Multilingual Plane counts twice. */
module StatsWindow {
  import opened Wrappers
  import SessionStore
  import StatsView

  type CodeUnit = x: int | 0 <= x < 0x1_0000

  const PREVIEW_LIMIT: nat := 80

  /** The UTF-16 encoding of one Unicode scalar value. */
  function EncodeChar(c: char): (units: seq<CodeUnit>)
    ensures |units| == (if c as int < 0x1_0000 then 1 else 2)
  {
    var v := c as int;
    if v < 0x1_0000 then [v]
    else [0xD800 + (v - 0x1_0000) / 0x400, 0xDC00 + (v - 0x1_0000) % 0x400]
  }

  /** The JavaScript string holding `s`. */
  function Utf16(s: string): (units: seq<CodeUnit>)
    ensures |units| >= |s|
  {
    if s == [] then [] else EncodeChar(s[0]) + Utf16(s[1..])
  }

  function Dots(): seq<CodeUnit> {
    Utf16("...")
  }

  /** The `preview` constant of `SessionItem`. */
  function Preview(row: SessionStore.SessionRow): (p: seq<CodeUnit>)
    ensures row.error.Some? ==> p == Utf16(row.error.value)
    ensures row.error.None? && |Utf16(row.transcription)| <= PREVIEW_LIMIT ==>
      p == Utf16(row.transcription)
    ensures row.error.None? && |Utf16(row.transcription)| > PREVIEW_LIMIT ==>
      p == Utf16(row.transcription)[..PREVIEW_LIMIT] + Dots()
  {
    match row.error
    case Some(err) => Utf16(err)
    case None =>
      var t := Utf16(row.transcription);
      if |t| > PREVIEW_LIMIT then t[..PREVIEW_LIMIT] + Dots() else t
  }

  predicate AllBmp(s: string) {
    forall i :: 0 <= i < |s| ==> s[i] as int < 0x1_0000
  }

  lemma {:induction false} Utf16Append(a: string, b: string)
    ensures Utf16(a + b) == Utf16(a) + Utf16(b)
  {
    if a != [] {
      assert (a + b)[0] == a[0];
      assert (a + b)[1..] == a[1..] + b;
      Utf16Append(a[1..], b);
    } else {
      assert a + b == b;
    }
  }

  /** Inside the Basic Multilingual Plane one character is one code unit. */
  lemma {:induction false} Utf16OfBmp(s: string)
    requires AllBmp(s)
    ensures |Utf16(s)| == |s|
    ensures forall i :: 0 <= i < |s| ==> Utf16(s)[i] == s[i] as int
  {
    if s != [] {
      Utf16OfBmp(s[1..]);
      forall i | 0 <= i < |s|
        ensures Utf16(s)[i] == s[i] as int
      {
        if i > 0 {
          assert s[1..][i - 1] == s[i];
        }
      }
    }
  }

  /** A non-error preview is never longer than the limit plus the three dots,
      and it always starts with as much of the transcription as the limit allows. */
  lemma PreviewBounded(row: SessionStore.SessionRow)
    requires row.error.None?
    ensures |Preview(row)| <= PREVIEW_LIMIT + 3
    ensures var t := Utf16(row.transcription);
      var keep := if |t| <= PREVIEW_LIMIT then |t| else PREVIEW_LIMIT;
      Preview(row)[..keep] == t[..keep]
  {
    var t := Utf16(row.transcription);
    assert |Dots()| == 3;
    if |t| > PREVIEW_LIMIT {
      assert Preview(row)[..PREVIEW_LIMIT] == t[..PREVIEW_LIMIT];
    }
  }

  /** For a transcription inside the Basic Multilingual Plane the web preview
      is the GTK body line, code unit for code unit. */
  lemma PreviewAgreesWithGtkBody(row: SessionStore.SessionRow)
    requires row.error.None? && AllBmp(row.transcription)
    ensures Preview(row) == Utf16(StatsView.SessionBody(row))
  {
    var s := row.transcription;
    Utf16OfBmp(s);
    if |s| > 80 {
      assert s == s[..80] + s[80..];
      Utf16Append(s[..80], s[80..]);
      assert AllBmp(s[..80]) by {
        forall i | 0 <= i < 80 ensures s[..80][i] as int < 0x1_0000 {
          assert s[..80][i] == s[i];
        }
      }
      Utf16OfBmp(s[..80]);
      assert Utf16(s)[..80] == Utf16(s[..80]);
      Utf16Append(s[..80], "...");
    }
  }

  /** An error message is shown whole, however long, while the GTK window cuts
      it at 80 characters behind the 7-character "Error: " prefix. */
  lemma ErrorPreviewNotCut(row: SessionStore.SessionRow)
    requires row.error.Some? && AllBmp(row.error.value)
    ensures var e := row.error.value;
      && |Preview(row)| == |e|
      && |StatsView.SessionBody(row)| == 7 + (if |e| <= 80 then |e| else 83)
  {
    Utf16OfBmp(row.error.value);
    StatsView.TruncateShape(row.error.value, 80);
  }

  /** `slice` can cut a surrogate pair in half: 79 ASCII letters followed by an
      emoji leave a lone high surrogate as the 80th code unit of the preview. */
  lemma PreviewCanSplitSurrogatePair(row: SessionStore.SessionRow, letters: string)
    requires |letters| == 79 && AllBmp(letters)
    requires row.error.None? && row.transcription == letters + "\U{1F3A4}"
    ensures |Utf16(row.transcription)| == 81
    ensures Preview(row)[79] == 0xD83C
  {
    Utf16Append(letters, "\U{1F3A4}");
    Utf16OfBmp(letters);
    assert EncodeChar('\U{1F3A4}') == [0xD83C, 0xDFA4];
    assert Utf16("\U{1F3A4}") == [0xD83C, 0xDFA4];
  }
}
