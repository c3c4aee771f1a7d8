/** Sequential chapter markers for a merge: the running-sum walk over the
    ordered input files that writes the `;FFMETADATA1` sidecar the engine reads
    as its metadata input. Durations are seconds as reals; a marker's START and
    END are whole milliseconds, floored. */
module Chapters {
  import opened Text

  /** One merge input as the renderer hands it over; an empty title stands for
      a missing or empty one (both are falsy). */
  datatype Track = Track(path: string, duration: real, title: string)

  /** One `[CHAPTER]` stanza: START and END in the 1/1000 timebase. */
  datatype Marker = Marker(start: int, end: int, title: string)

  const Header: string := ";FFMETADATA1\n"

  /** Total duration of the given tracks. */
  function Sum(files: seq<Track>): real
  {
    if files == [] then 0.0 else Sum(files[..|files| - 1]) + files[|files| - 1].duration
  }

  /** The running sum before track `i`: where track `i` starts. */
  function Elapsed(files: seq<Track>, i: nat): real
    requires i <= |files|
  {
    Sum(files[..i])
  }

  /** Seconds to whole milliseconds, rounded down (`Math.floor(x * 1e3)`). */
  function Ms(x: real): int
  {
    (x * 1000.0).Floor
  }

  /** `Chapter {i+1}`, the title of the track at index `i` when it has none. */
  function DefaultTitle(i: nat): string
  {
    "Chapter " + NatStr(i + 1)
  }

  /** The chapter title: the track's own, else the default one. */
  function TitleAt(files: seq<Track>, i: nat): string
    requires i < |files|
  {
    if files[i].title != "" then files[i].title else DefaultTitle(i)
  }

  function MarkerAt(files: seq<Track>, i: nat): Marker
    requires i < |files|
  {
    Marker(Ms(Elapsed(files, i)), Ms(Elapsed(files, i) + files[i].duration), TitleAt(files, i))
  }

  /** One marker per track, in order. */
  function Markers(files: seq<Track>): (ms: seq<Marker>)
    ensures |ms| == |files|
  {
    seq(|files|, i requires 0 <= i < |files| => MarkerAt(files, i))
  }

  function Stanza(m: Marker): string
  {
    "[CHAPTER]\n" + "TIMEBASE=1/1000\n" + "START=" + IntStr(m.start) + "\n"
    + "END=" + IntStr(m.end) + "\n" + "title=" + m.title + "\n"
  }

  function Stanzas(ms: seq<Marker>): string
  {
    if ms == [] then "" else Stanzas(ms[..|ms| - 1]) + Stanza(ms[|ms| - 1])
  }

  /** The sidecar text: only the header when the output is chapter-less (MP3),
      otherwise the header followed by one stanza per track. */
  function SidecarText(files: seq<Track>, chapterless: bool): string
  {
    if chapterless then Header else Header + Stanzas(Markers(files))
  }

  /** The sidecar writer of the merge handler: the header, then, unless the
      output is chapter-less, the stanzas of the running-sum walk. */
  method BuildSidecar(files: seq<Track>, chapterless: bool) returns (text: string)
    ensures text == SidecarText(files, chapterless)
    ensures chapterless ==> text == Header
  {
    text := Header;
    if !chapterless {
      var body := WriteStanzas(files);
      text := text + body;
    }
  }

  /** The walk over the tracks in order with a running duration sum, appending
      one stanza per track. */
  method WriteStanzas(files: seq<Track>) returns (text: string)
    ensures text == Stanzas(Markers(files))
  {
    text := "";
    var elapsed := 0.0;
    var j := 0;
    assert files[..0] == [];
    while j < |files|
      invariant 0 <= j <= |files|
      invariant elapsed == Elapsed(files, j)
      invariant text == Stanzas(Markers(files)[..j])
    {
      var f := files[j];
      var title := if f.title != "" then f.title else DefaultTitle(j);
      var m := Marker(Ms(elapsed), Ms(elapsed + f.duration), title);
      WriteStep(files, j, elapsed, m);
      text := text + Stanza(m);
      elapsed := elapsed + f.duration;
      j := j + 1;
    }
    assert Markers(files)[..|files|] == Markers(files);
  }

  /** One turn of the walk: the stanza built from the running sum is the next
      marker's, and the sum moves past the track. */
  lemma WriteStep(files: seq<Track>, j: nat, elapsed: real, m: Marker)
    requires j < |files| && elapsed == Elapsed(files, j)
    requires m.start == Ms(elapsed) && m.end == Ms(elapsed + files[j].duration)
    requires m.title == if files[j].title != "" then files[j].title else DefaultTitle(j)
    ensures Stanzas(Markers(files)[..j + 1]) == Stanzas(Markers(files)[..j]) + Stanza(m)
    ensures Elapsed(files, j + 1) == elapsed + files[j].duration
  {
    var ms := Markers(files);
    assert m == MarkerAt(files, j) == ms[j];
    StanzasStep(ms, j);
    ElapsedStep(files, j);
  }

  lemma StanzasStep(ms: seq<Marker>, j: nat)
    requires j < |ms|
    ensures Stanzas(ms[..j + 1]) == Stanzas(ms[..j]) + Stanza(ms[j])
  {
    assert ms[..j + 1][..j] == ms[..j];
  }

  /** The running sum advances by exactly one track's duration. */
  lemma ElapsedStep(files: seq<Track>, i: nat)
    requires i < |files|
    ensures Elapsed(files, i + 1) == Elapsed(files, i) + files[i].duration
  {
    assert files[..i + 1][..i] == files[..i];
  }

  /** Track `i` ends exactly where track `i+1` starts. */
  lemma MarkerAtContiguous(files: seq<Track>, i: nat)
    requires i + 1 < |files|
    ensures MarkerAt(files, i).end == MarkerAt(files, i + 1).start
  {
    ElapsedStep(files, i);
  }

  /** Chapters are contiguous: the first starts at 0, each ends where the next
      starts, and the last ends at the floored total duration. */
  lemma MarkersContiguous(files: seq<Track>)
    ensures |files| > 0 ==> Markers(files)[0].start == 0
    ensures forall i :: 0 <= i < |files| - 1 ==> Markers(files)[i].end == Markers(files)[i + 1].start
    ensures |files| > 0 ==> Markers(files)[|files| - 1].end == Ms(Sum(files))
  {
    var ms := Markers(files);
    forall i | 0 <= i < |files| - 1
      ensures ms[i].end == ms[i + 1].start
    {
      assert ms[i] == MarkerAt(files, i) && ms[i + 1] == MarkerAt(files, i + 1);
      MarkerAtContiguous(files, i);
    }
    if |files| > 0 {
      var n := |files|;
      assert files[..0] == [];
      assert ms[0] == MarkerAt(files, 0);
      assert ms[n - 1] == MarkerAt(files, n - 1);
      ElapsedStep(files, n - 1);
      assert files[..n] == files;
    }
  }

  /** A missing title becomes `Chapter {i+1}`; a present one is kept. */
  lemma MarkerTitles(files: seq<Track>, i: nat)
    requires i < |files|
    ensures files[i].title == "" ==> Markers(files)[i].title == "Chapter " + NatStr(i + 1)
    ensures files[i].title != "" ==> Markers(files)[i].title == files[i].title
  {
  }

  /** Flooring each boundary separately never drifts a chapter's length by a
      whole millisecond or more from its track's exact duration. */
  lemma MarkerLengthWithinOneMs(files: seq<Track>, i: nat)
    requires i < |files|
    ensures var m := Markers(files)[i];
      1000.0 * files[i].duration - 1.0 < (m.end - m.start) as real < 1000.0 * files[i].duration + 1.0
  {
    var a := Elapsed(files, i) * 1000.0;
    var b := (Elapsed(files, i) + files[i].duration) * 1000.0;
    assert b == a + 1000.0 * files[i].duration;
    assert a.Floor as real <= a < a.Floor as real + 1.0;
    assert b.Floor as real <= b < b.Floor as real + 1.0;
  }

  lemma {:induction false} SumNonNegative(files: seq<Track>)
    requires forall k :: 0 <= k < |files| ==> files[k].duration >= 0.0
    ensures Sum(files) >= 0.0
  {
    if files != [] {
      SumNonNegative(files[..|files| - 1]);
    }
  }

  lemma {:induction false} ElapsedMonotone(files: seq<Track>, i: nat, j: nat)
    requires i <= j <= |files|
    requires forall k :: 0 <= k < |files| ==> files[k].duration >= 0.0
    ensures Elapsed(files, i) <= Elapsed(files, j)
  {
    if i < j {
      ElapsedMonotone(files, i, j - 1);
      ElapsedStep(files, j - 1);
    }
  }

  /** With non-negative durations, markers never run backwards: every chapter
      ends at or after its start, and starts are non-decreasing. */
  lemma MarkersOrdered(files: seq<Track>)
    requires forall k :: 0 <= k < |files| ==> files[k].duration >= 0.0
    ensures forall i :: 0 <= i < |files| ==> Markers(files)[i].start <= Markers(files)[i].end
    ensures forall i, j :: 0 <= i <= j < |files| ==> Markers(files)[i].start <= Markers(files)[j].start
  {
    var ms := Markers(files);
    forall i | 0 <= i < |files|
      ensures ms[i].start <= ms[i].end
    {
      ElapsedStep(files, i);
      ElapsedMonotone(files, i, i + 1);
      FloorMonotone(Elapsed(files, i) * 1000.0, Elapsed(files, i + 1) * 1000.0);
    }
    forall i, j | 0 <= i <= j < |files|
      ensures ms[i].start <= ms[j].start
    {
      ElapsedMonotone(files, i, j);
      FloorMonotone(Elapsed(files, i) * 1000.0, Elapsed(files, j) * 1000.0);
    }
  }

  lemma FloorMonotone(x: real, y: real)
    requires x <= y
    ensures x.Floor <= y.Floor
  {
  }

  /** Two tracks of 300 s and 180 s titled Ch1 and Ch2 give the markers
      [0, 300000) Ch1 and [300000, 480000) Ch2. */
  lemma TwoTrackExample()
    ensures Markers([Track("a", 300.0, "Ch1"), Track("b", 180.0, "Ch2")])
         == [Marker(0, 300000, "Ch1"), Marker(300000, 480000, "Ch2")]
  {
    var files := [Track("a", 300.0, "Ch1"), Track("b", 180.0, "Ch2")];
    assert files[..0] == [];
    assert files[..1][..0] == [];
    assert Elapsed(files, 1) == 300.0;
    assert (300.0 * 1000.0).Floor == 300000;
    assert ((300.0 + 180.0) * 1000.0).Floor == 480000;
  }
}
