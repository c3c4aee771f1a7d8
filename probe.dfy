/** What the main process makes of the prober's answers: the defaults of
    `audio:read-metadata` and the normalised chapter list of
    `audio:read-chapters`. The prober's output is an input; `num` stands for
    `parseFloat`. An empty string stands for a missing or empty field (both
    are falsy). */
module Probe {
  import opened Text
  import opened Paths

  // ---------------------------------------------------------------------
  // audio:read-metadata

  /** The container-level fields the prober reports. */
  datatype FormatInfo = FormatInfo(duration: real, title: string, artist: string, album: string)

  datatype Metadata = Metadata(path: string, duration: real, title: string, artist: string, album: string)

  datatype MetadataResult = MetadataOk(metadata: Metadata) | MetadataFailed(error: string)

  /** `x || fallback` on a string. */
  function OrElse(x: string, fallback: string): string
  {
    if x != "" then x else fallback
  }

  /** The metadata of `path`, with missing fields filled in: the title from the
      file's base name, "Unknown Artist" and "Unknown Album"; a duration the
      probe leaves out arrives here as 0.0, so `duration || 0` keeps it.
      A probe error is passed on. */
  function ReadMetadata(path: string, probe: Result<FormatInfo>): MetadataResult
  {
    match probe
    case Failure(e) => MetadataFailed(e)
    case Success(f) =>
      MetadataOk(Metadata(path, f.duration, OrElse(f.title, Base(path)),
                          OrElse(f.artist, "Unknown Artist"), OrElse(f.album, "Unknown Album")))
  }

  datatype Result<T> = Success(value: T) | Failure(error: string)

  /** Present fields are kept as they are; each missing one gets its default;
      artist and album are never empty. */
  lemma MetadataDefaults(path: string, f: FormatInfo)
    ensures var m := ReadMetadata(path, Success(f)).metadata;
      && m.path == path && m.duration == f.duration
      && (f.title != "" ==> m.title == f.title) && (f.title == "" ==> m.title == Base(path))
      && (f.artist != "" ==> m.artist == f.artist) && (f.artist == "" ==> m.artist == "Unknown Artist")
      && (f.album != "" ==> m.album == f.album) && (f.album == "" ==> m.album == "Unknown Album")
      && m.artist != "" && m.album != ""
  {
  }

  /** Filling in defaults twice changes nothing: a result read back as a probe
      answer gives the same metadata. */
  lemma MetadataIdempotent(path: string, f: FormatInfo)
    ensures var m := ReadMetadata(path, Success(f)).metadata;
      ReadMetadata(path, Success(FormatInfo(m.duration, m.title, m.artist, m.album))) == MetadataOk(m)
  {
  }

  // ---------------------------------------------------------------------
  // audio:read-chapters

  /** One entry of the prober's chapter table: times as text, title "" when
      the entry has no title tag. */
  datatype RawChapter = RawChapter(startTime: string, endTime: string, title: string)

  /** The prober's JSON: the chapter table and the format fields (the
      duration text "" when missing). */
  datatype ProbeJson = ProbeJson(chapters: seq<RawChapter>, duration: string,
                                 formatName: Option<string>, bitRate: Option<string>)

  datatype ChapterInfo = ChapterInfo(id: nat, title: string, start: real, end: real, duration: real)

  datatype ChaptersReply = ChaptersReply(chapters: seq<ChapterInfo>, duration: real,
                                         formatName: Option<string>, bitRate: Option<string>)

  /** Chapter `i` of the table: 1-based id, title defaulting to `Chapter {i+1}`,
      and its duration as end minus start. */
  function Normalize(c: RawChapter, i: nat, num: string -> real): ChapterInfo
  {
    ChapterInfo(i + 1, OrElse(c.title, "Chapter " + NatStr(i + 1)),
                num(c.startTime), num(c.endTime), num(c.endTime) - num(c.startTime))
  }

  function NormalizeAll(cs: seq<RawChapter>, num: string -> real): (r: seq<ChapterInfo>)
    ensures |r| == |cs|
  {
    seq(|cs|, i requires 0 <= i < |cs| => Normalize(cs[i], i, num))
  }

  /** The close handler: a non-zero exit fails with the code and the prober's
      stderr; output that does not parse fails with a fixed message; otherwise
      the normalised chapters and the format fields. */
  function ReadChapters(exitCode: int, stderr: string, json: Option<ProbeJson>, num: string -> real): Result<ChaptersReply>
  {
    if exitCode != 0 then Failure("ffprobe exited with code " + IntStr(exitCode) + ": " + stderr)
    else match json
      case None => Failure("Failed to parse ffprobe output")
      case Some(j) =>
        Success(ChaptersReply(NormalizeAll(j.chapters, num), num(OrElse(j.duration, "0")), j.formatName, j.bitRate))
  }

  /** The normalised chapters are numbered 1..n in table order, keep their
      times, and each lasts its end minus its start. */
  lemma NormalizedChapters(cs: seq<RawChapter>, num: string -> real)
    ensures forall i :: 0 <= i < |cs| ==>
      var c := NormalizeAll(cs, num)[i];
      && c.id == i + 1
      && c.start == num(cs[i].startTime) && c.end == num(cs[i].endTime)
      && c.duration == c.end - c.start
      && (cs[i].title != "" ==> c.title == cs[i].title)
      && (cs[i].title == "" ==> c.title == "Chapter " + NatStr(i + 1))
  {
  }

  /** Ids are distinct, so each names exactly one chapter. */
  lemma NormalizedIdsDistinct(cs: seq<RawChapter>, num: string -> real)
    ensures forall i, j :: 0 <= i < j < |cs| ==> NormalizeAll(cs, num)[i].id != NormalizeAll(cs, num)[j].id
  {
  }

  /** The outcomes of the close handler: a non-zero exit fails with the code
      and stderr, unparsable output fails with a fixed message, and parsed
      output answers with the normalised table (see NormalizedChapters and
      NormalizedIdsDistinct), the duration read from its text or "0", and the
      format name and bit rate as given. */
  lemma ReadChaptersOutcomes(exitCode: int, stderr: string, json: Option<ProbeJson>, num: string -> real)
    ensures exitCode != 0 ==>
      ReadChapters(exitCode, stderr, json, num) == Failure("ffprobe exited with code " + IntStr(exitCode) + ": " + stderr)
    ensures exitCode == 0 && json.None? ==> ReadChapters(exitCode, stderr, json, num) == Failure("Failed to parse ffprobe output")
    ensures exitCode == 0 && json.Some? ==>
      var r := ReadChapters(exitCode, stderr, json, num);
      && r.Success?
      && r.value.chapters == NormalizeAll(json.value.chapters, num)
      && |r.value.chapters| == |json.value.chapters|
      && (json.value.duration == "" ==> r.value.duration == num("0"))
      && (json.value.duration != "" ==> r.value.duration == num(json.value.duration))
      && r.value.formatName == json.value.formatName
      && r.value.bitRate == json.value.bitRate
  {
  }

  function SumDurations(cs: seq<ChapterInfo>): real
  {
    if cs == [] then 0.0 else SumDurations(cs[..|cs| - 1]) + cs[|cs| - 1].duration
  }

  /** When the table is contiguous (each chapter starts where the previous one
      ends), the chapter durations add up to the span from the first start to
      the last end. */
  lemma {:induction false} ContiguousDurationsTelescope(cs: seq<RawChapter>, num: string -> real)
    requires |cs| > 0
    requires forall i :: 0 <= i < |cs| - 1 ==> num(cs[i].endTime) == num(cs[i + 1].startTime)
    ensures SumDurations(NormalizeAll(cs, num)) == num(cs[|cs| - 1].endTime) - num(cs[0].startTime)
  {
    var n := |cs|;
    var all := NormalizeAll(cs, num);
    if n > 1 {
      var init := cs[..n - 1];
      assert forall i :: 0 <= i < |init| - 1 ==> num(init[i].endTime) == num(init[i + 1].startTime);
      ContiguousDurationsTelescope(init, num);
      NormalizePrefix(cs, num);
      assert SumDurations(all) == SumDurations(all[..n - 1]) + all[n - 1].duration;
      assert all[n - 1].duration == num(cs[n - 1].endTime) - num(cs[n - 1].startTime);
      assert num(init[n - 2].endTime) == num(cs[n - 1].startTime);
    } else {
      assert all[..0] == [];
    }
  }

  /** Normalising all but the last entry gives all but the last chapter. */
  lemma NormalizePrefix(cs: seq<RawChapter>, num: string -> real)
    requires |cs| > 0
    ensures NormalizeAll(cs, num)[..|cs| - 1] == NormalizeAll(cs[..|cs| - 1], num)
  {
  }
}
