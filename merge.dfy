/** The merge operation (`audio:process`): N audio inputs, the chapter sidecar
    as input N, and, for chaptered outputs, an existing cover as input N+1; a
    concat filter over exactly the audio inputs; codec, bitrate, cover, book
    tags and the faststart flag. The save dialog's answer, the sidecar's
    temporary path, the cover's existence and the engine's outcome are
    parameters. */
module Merge {
  import opened Text
  import opened Paths
  import opened Chapters

  /** Book-level tags; an empty field is omitted (it is falsy). */
  datatype Book = Book(title: string, author: string, genre: string, year: string, narrator: string)

  datatype MergeRequest = MergeRequest(
    files: seq<Track>,
    bitrate: string,           // "" when not given
    outputFormat: string,
    coverPath: string,         // "" when not given
    book: Option<Book>,
    defaultOutputDirectory: string,  // "" when not set
    itunesCompatibility: bool)

  /** The engine invocation: inputs in order, output options, output path. */
  datatype Invocation = Invocation(inputs: seq<string>, options: seq<string>, output: string)

  /** What the merge plans before the engine runs: the sidecar text to write
      and the invocation that reads it. */
  datatype MergePlan = MergePlan(sidecar: string, invocation: Invocation)

  datatype PlanOutcome = NoFiles | Cancelled | Planned(plan: MergePlan)

  datatype EngineOutcome = EngineDone | EngineError(message: string)

  /** What the handler hands back: a thrown error, the cancelled record, or
      the success record. */
  datatype ProcessResult = Thrown(message: string) | CancelledResult | Succeeded(outputPath: string)

  /** The extension the save dialog proposes for a format. */
  function SaveExt(format: string): string
  {
    if format == "mp3" then "mp3" else if format == "aac" then "m4a" else "m4b"
  }

  /** The name the save dialog proposes: `audiobook` with the format's
      extension, placed in the default directory when one is set. */
  function DefaultSavePath(req: MergeRequest): (r: string)
    ensures EndsWith(r, "audiobook." + SaveExt(req.outputFormat))
    ensures req.defaultOutputDirectory == "" ==> r == "audiobook." + SaveExt(req.outputFormat)
    ensures Base(r) == "audiobook." + SaveExt(req.outputFormat)
  {
    var name := "audiobook." + SaveExt(req.outputFormat);
    NoSlash(req.outputFormat);
    JoinBase(req.defaultOutputDirectory, name);
    if req.defaultOutputDirectory != "" then Join(req.defaultOutputDirectory, name) else name
  }

  lemma NoSlash(format: string)
    ensures var name := "audiobook." + SaveExt(format); forall i :: 0 <= i < |name| ==> name[i] != '/'
  {
  }

  /** Keeping the proposed name, the merge takes the MP3 branch exactly for
      the mp3 format. */
  lemma DefaultSaveChapterless(req: MergeRequest)
    ensures Chapterless(req.outputFormat, DefaultSavePath(req)) <==> req.outputFormat == "mp3"
  {
    var p := DefaultSavePath(req);
    var name := "audiobook." + SaveExt(req.outputFormat);
    if req.outputFormat != "mp3" {
      assert p[|p| - 4..] == name[|name| - 4..];
      assert name[|name| - 4..] != ".mp3";
    }
  }

  /** The MP3 branch: an mp3 format or an output path ending in `.mp3`. */
  predicate Chapterless(format: string, outputPath: string)
  {
    format == "mp3" || EndsWith(outputPath, ".mp3")
  }

  function AudioCodec(chapterless: bool): string
  {
    if chapterless then "libmp3lame" else "aac"
  }

  /** `a || "128k"`: the given bitrate, unless it is empty. */
  function MergeBitrate(bitrate: string): string
  {
    if bitrate == "" then "128k" else bitrate
  }

  function InputLabel(i: nat): string
  {
    "[" + NatStr(i) + ":a]"
  }

  /** The labels `[i:a][i+1:a]…[n-1:a]`. */
  function LabelsFrom(i: nat, n: nat): string
    requires i <= n
    decreases n - i
  {
    if i == n then "" else InputLabel(i) + LabelsFrom(i + 1, n)
  }

  const ConcatTail: string := ":v=0:a=1[outa]"

  /** The concat filter over the first `n` inputs. */
  function FilterGraph(n: nat): string
  {
    LabelsFrom(0, n) + "concat=n=" + NatStr(n) + ConcatTail
  }

  function AudioPaths(files: seq<Track>): (ps: seq<string>)
    ensures |ps| == |files| && forall i :: 0 <= i < |files| ==> ps[i] == files[i].path
  {
    seq(|files|, i requires 0 <= i < |files| => files[i].path)
  }

  /** Whether the cover becomes an input: given, existing, and not MP3. */
  predicate CoverUsed(req: MergeRequest, coverExists: bool, chapterless: bool)
  {
    req.coverPath != "" && coverExists && !chapterless
  }

  function BaseOptions(n: nat, chapterless: bool, bitrate: string): seq<string>
  {
    ["-filter_complex", FilterGraph(n), "-map", "[outa]", "-c:a", AudioCodec(chapterless), "-b:a", MergeBitrate(bitrate)]
  }

  function CoverOptions(c: nat): seq<string>
  {
    ["-map", NatStr(c) + ":v", "-c:v", "mjpeg", "-disposition:v", "attached_pic"]
  }

  function Tag(key: string, value: string): seq<string>
  {
    if value == "" then [] else ["-metadata", key + value]
  }

  /** Book tags: title, author as artist and album_artist, genre, year as
      date, narrator as composer. */
  function TagOptions(b: Book): seq<string>
  {
    Tag("title=", b.title) + Tag("artist=", b.author) + Tag("album_artist=", b.author)
    + Tag("genre=", b.genre) + Tag("date=", b.year) + Tag("composer=", b.narrator)
  }

  function MetadataOptions(req: MergeRequest, n: nat): seq<string>
  {
    ["-map_metadata", NatStr(n)]
    + (if req.book.Some? then TagOptions(req.book.value) else [])
    + (if req.itunesCompatibility then ["-movflags", "+faststart"] else [])
  }

  function MergeInvocation(req: MergeRequest, outputPath: string, sidecarPath: string, coverExists: bool): Invocation
  {
    var n := |req.files|;
    var chapterless := Chapterless(req.outputFormat, outputPath);
    var cover := CoverUsed(req, coverExists, chapterless);
    Invocation(
      AudioPaths(req.files) + [sidecarPath] + (if cover then [req.coverPath] else []),
      BaseOptions(n, chapterless, req.bitrate)
        + (if cover then CoverOptions(n + 1) else [])
        + (if chapterless then [] else MetadataOptions(req, n)),
      outputPath)
  }

  /** The merge up to the engine run: no files is an error, a dismissed save
      dialog cancels, otherwise the sidecar and the invocation. */
  function PlanMerge(req: MergeRequest, savePath: Option<string>, sidecarPath: string, coverExists: bool): PlanOutcome
  {
    if req.files == [] then NoFiles
    else if savePath.None? || savePath.value == "" then Cancelled
    else
      var out := savePath.value;
      Planned(MergePlan(SidecarText(req.files, Chapterless(req.outputFormat, out)),
                        MergeInvocation(req, out, sidecarPath, coverExists)))
  }

  /** The handler's answer once the engine has run (the sidecar is removed
      either way, and a failure to remove it is swallowed). */
  function Process(req: MergeRequest, savePath: Option<string>, sidecarPath: string, coverExists: bool,
                   engine: EngineOutcome): (r: ProcessResult)
    ensures req.files == [] ==> r == Thrown("No files to process")
    ensures req.files != [] && (savePath.None? || savePath.value == "") ==> r == CancelledResult
    ensures r.Succeeded? ==> savePath.Some? && r.outputPath == savePath.value
    ensures req.files != [] && savePath.Some? && savePath.value != "" ==>
      && (engine.EngineDone? ==> r == Succeeded(savePath.value))
      && (engine.EngineError? ==> r == Thrown(engine.message))
  {
    match PlanMerge(req, savePath, sidecarPath, coverExists)
    case NoFiles => Thrown("No files to process")
    case Cancelled => CancelledResult
    case Planned(plan) =>
      match engine
      case EngineDone => Succeeded(plan.invocation.output)
      case EngineError(msg) => Thrown(msg)
  }

  // ---------------------------------------------------------------------
  // Reading a filter graph back

  function Range(n: nat): (r: seq<nat>)
    ensures |r| == n && forall i :: 0 <= i < n ==> r[i] == i
  {
    seq(n, i requires 0 <= i < n => i)
  }

  /** Reads a run of `[k:a]` labels, returning the input indices they name and
      the text after them. */
  function ReadLabels(s: string): (seq<nat>, string)
    decreases |s|
  {
    if |s| > 0 && s[0] == '[' then
      match ReadNat(s[1..])
      case None => ([], s)
      case Some((k, rest)) =>
        if StartsWith(rest, ":a]") then
          var r := ReadLabels(rest[3..]);
          ([k] + r.0, r.1)
        else ([], s)
    else ([], s)
  }

  /** Reads a concat filter: the input indices it consumes and its `n=`
      count, or None when the text is not of that shape. */
  function ReadFilter(s: string): Option<(seq<nat>, nat)>
  {
    var (labels, rest) := ReadLabels(s);
    if StartsWith(rest, "concat=n=") then
      match ReadNat(rest[9..])
      case None => None
      case Some((k, tail)) => if tail == ConcatTail then Some((labels, k)) else None
    else None
  }

  /** One label is read as the index it names. */
  lemma ReadOneLabel(i: nat, rest: string)
    ensures ReadLabels(InputLabel(i) + rest) == ([i] + ReadLabels(rest).0, ReadLabels(rest).1)
  {
    var after := ":a]" + rest;
    var s := InputLabel(i) + rest;
    assert s == "[" + (NatStr(i) + after);
    assert s[0] == '[';
    assert s[1..] == NatStr(i) + after;
    assert after[0] == ':';
    ReadNatStr(i, after);
    assert after[..3] == ":a]";
    assert after[3..] == rest;
  }

  lemma AppendAssoc(a: string, b: string, c: string)
    ensures (a + b) + c == a + (b + c)
  {
  }

  lemma ReadLabelsStep(i: nat, n: nat, tail: string)
    requires i < n
    requires ReadLabels(LabelsFrom(i + 1, n) + tail) == (Range(n)[i + 1..], tail)
    ensures ReadLabels(LabelsFrom(i, n) + tail) == (Range(n)[i..], tail)
  {
    LabelsFromStep(i, n, tail);
    ReadOneLabel(i, LabelsFrom(i + 1, n) + tail);
    RangeStep(i, n);
  }

  lemma LabelsFromStep(i: nat, n: nat, tail: string)
    requires i < n
    ensures LabelsFrom(i, n) + tail == InputLabel(i) + (LabelsFrom(i + 1, n) + tail)
  {
    AppendAssoc(InputLabel(i), LabelsFrom(i + 1, n), tail);
  }

  lemma RangeStep(i: nat, n: nat)
    requires i < n
    ensures Range(n)[i..] == [i] + Range(n)[i + 1..]
  {
  }

  lemma {:induction false} ReadLabelsFrom(i: nat, n: nat, tail: string)
    requires i <= n
    requires tail == [] || tail[0] != '['
    decreases n - i
    ensures ReadLabels(LabelsFrom(i, n) + tail) == (Range(n)[i..], tail)
  {
    if i == n {
      assert LabelsFrom(i, n) + tail == tail;
      assert Range(n)[i..] == [];
    } else {
      ReadLabelsFrom(i + 1, n, tail);
      ReadLabelsStep(i, n, tail);
    }
  }

  /** The filter graph names exactly the audio inputs 0..N-1, in order, and
      its concat count is N: neither the sidecar (input N) nor the cover
      (input N+1) is fed to the concat. */
  lemma FilterGraphReadsBack(n: nat)
    ensures ReadFilter(FilterGraph(n)) == Some((Range(n), n))
  {
    var L := LabelsFrom(0, n);
    var N := NatStr(n);
    var tail := "concat=n=" + N + ConcatTail;
    AppendAssoc(L, "concat=n=", N);
    AppendAssoc(L, "concat=n=" + N, ConcatTail);
    assert FilterGraph(n) == L + tail;
    ConcatCount(n);
    ReadLabelsFrom(0, n, tail);
    assert Range(n)[0..] == Range(n);
  }

  /** The text after the labels announces the count `n` and closes the graph. */
  lemma ConcatCount(n: nat)
    ensures var tail := "concat=n=" + NatStr(n) + ConcatTail;
      && tail[0] == 'c'
      && StartsWith(tail, "concat=n=")
      && ReadNat(tail[9..]) == Some((n, ConcatTail))
  {
    var N := NatStr(n);
    var tail := "concat=n=" + N + ConcatTail;
    assert tail[..9] == "concat=n=";
    assert tail[9..] == N + ConcatTail;
    assert ConcatTail[0] == ':';
    ReadNatStr(n, ConcatTail);
  }

  // ---------------------------------------------------------------------
  // Shape of the invocation

  /** MP3 outputs: the sidecar is only the header, the codec is libmp3lame, no
      cover input is added whatever cover was given, and the options are the
      eight base options and nothing else — no `-map …:v`, `-map_metadata`,
      `-metadata` or `-movflags`. */
  lemma ChapterlessShape(req: MergeRequest, out: string, sidecarPath: string, coverExists: bool)
    requires req.files != [] && out != ""
    requires Chapterless(req.outputFormat, out)
    ensures var p := PlanMerge(req, Some(out), sidecarPath, coverExists);
      && p.Planned?
      && p.plan.sidecar == Header
      && p.plan.invocation.inputs == AudioPaths(req.files) + [sidecarPath]
      && p.plan.invocation.options
           == ["-filter_complex", FilterGraph(|req.files|), "-map", "[outa]",
               "-c:a", "libmp3lame", "-b:a", MergeBitrate(req.bitrate)]
  {
  }

  /** Chaptered outputs, inputs: the N audio files in order, then the sidecar
      as input N, then a given, existing cover as input N+1 and nothing else. */
  lemma ChapteredInputs(req: MergeRequest, out: string, sidecarPath: string, coverExists: bool)
    requires !Chapterless(req.outputFormat, out)
    ensures var inputs := MergeInvocation(req, out, sidecarPath, coverExists).inputs;
      var n := |req.files|;
      var cover := req.coverPath != "" && coverExists;
      && inputs[..n] == AudioPaths(req.files)
      && inputs[n] == sidecarPath
      && |inputs| == (if cover then n + 2 else n + 1)
      && (cover ==> inputs[n + 1] == req.coverPath)
  {
    var n := |req.files|;
    var inputs := MergeInvocation(req, out, sidecarPath, coverExists).inputs;
    var head := AudioPaths(req.files) + [sidecarPath];
    assert inputs[..n + 1] == head;
    assert head[..n] == AudioPaths(req.files);
  }

  /** Chaptered outputs, options: the codec is aac; an existing cover is
      mapped from input N+1 as an mjpeg attached picture; then `-map_metadata`
      names input N, the sidecar. */
  lemma ChapteredOptions(req: MergeRequest, out: string, sidecarPath: string, coverExists: bool)
    requires !Chapterless(req.outputFormat, out)
    ensures var opts := MergeInvocation(req, out, sidecarPath, coverExists).options;
      var n := |req.files|;
      var cover := req.coverPath != "" && coverExists;
      var c := if cover then 6 else 0;
      && |opts| >= 10 + c
      && opts[..8] == BaseOptions(n, false, req.bitrate)
      && opts[5] == "aac"
      && (cover ==> opts[8..14] == CoverOptions(n + 1))
      && opts[8 + c] == "-map_metadata"
      && ReadNat(opts[9 + c]) == Some((n, ""))
  {
    var n := |req.files|;
    var cover := req.coverPath != "" && coverExists;
    var B := BaseOptions(n, false, req.bitrate);
    var Cv: seq<string> := if cover then CoverOptions(n + 1) else [];
    var M := MetadataOptions(req, n);
    var opts := MergeInvocation(req, out, sidecarPath, coverExists).options;
    ChapteredLayout(req, out, sidecarPath, coverExists);
    assert |B + Cv| == 8 + |Cv|;
    assert opts[8 + |Cv|] == M[0] && opts[9 + |Cv|] == M[1];
    assert (B + Cv)[..8] == B;
    assert ReadNat(NatStr(n)) == Some((n, "")) by {
      ReadNatStr(n, "");
      assert NatStr(n) + "" == NatStr(n);
    }
  }

  /** After the chapter map come the book tags, when book details are
      given, then `-movflags +faststart` for iTunes compatibility, and
      nothing else. */
  lemma ChapteredTail(req: MergeRequest, out: string, sidecarPath: string, coverExists: bool)
    requires !Chapterless(req.outputFormat, out)
    ensures var opts := MergeInvocation(req, out, sidecarPath, coverExists).options;
      var c := if req.coverPath != "" && coverExists then 6 else 0;
      var tail := (if req.book.Some? then TagOptions(req.book.value) else [])
        + (if req.itunesCompatibility then ["-movflags", "+faststart"] else []);
      && |opts| == 10 + c + |tail|
      && opts[10 + c..] == tail
  {
    var n := |req.files|;
    ChapteredLayout(req, out, sidecarPath, coverExists);
    AppendCut(BaseOptions(n, false, req.bitrate),
      if req.coverPath != "" && coverExists then CoverOptions(n + 1) else [],
      ["-map_metadata", NatStr(n)],
      if req.book.Some? then TagOptions(req.book.value) else [],
      if req.itunesCompatibility then ["-movflags", "+faststart"] else []);
  }

  /** Chaptered options: the base, the cover options when a cover is used,
      then the metadata options. */
  lemma ChapteredLayout(req: MergeRequest, out: string, sidecarPath: string, coverExists: bool)
    requires !Chapterless(req.outputFormat, out)
    ensures var n := |req.files|;
      MergeInvocation(req, out, sidecarPath, coverExists).options
      == BaseOptions(n, false, req.bitrate)
        + (if req.coverPath != "" && coverExists then CoverOptions(n + 1) else [])
        + MetadataOptions(req, n)
  {
  }

  /** In `a + b + (p + t + u)`, what follows `a + b + p` is `t + u`. */
  lemma AppendCut<T>(a: seq<T>, b: seq<T>, p: seq<T>, t: seq<T>, u: seq<T>)
    ensures |a + b + (p + t + u)| == |a| + |b| + |p| + |t + u|
    ensures (a + b + (p + t + u))[|a| + |b| + |p|..] == t + u
  {
    assert a + b + (p + t + u) == (a + b + p) + (t + u);
  }

  /** Chaptered outputs carry one sidecar stanza per input file. */
  lemma ChapteredSidecar(req: MergeRequest, out: string, sidecarPath: string, coverExists: bool)
    requires req.files != [] && out != ""
    requires !Chapterless(req.outputFormat, out)
    ensures var p := PlanMerge(req, Some(out), sidecarPath, coverExists);
      p.Planned? && p.plan.sidecar == Header + Stanzas(Markers(req.files))
  {
  }

  // ---------------------------------------------------------------------
  // Reading book tags back

  /** The value of the first `-metadata key=value` pair for `key`, or "". */
  function LookupTag(opts: seq<string>, key: string): string
    decreases |opts|
  {
    if |opts| < 2 then ""
    else if opts[0] == "-metadata" && StartsWith(opts[1], key) then opts[1][|key|..]
    else LookupTag(opts[2..], key)
  }

  /** The book a list of tag options describes. */
  function ReadBook(opts: seq<string>): Book
  {
    Book(LookupTag(opts, "title="), LookupTag(opts, "artist="), LookupTag(opts, "genre="),
         LookupTag(opts, "date="), LookupTag(opts, "composer="))
  }

  /** A pair for a key that differs from `key` at position `j` is skipped. */
  lemma LookupSkip(key: string, other: string, j: nat, value: string, rest: seq<string>)
    requires j < |key| && j < |other| && key[j] != other[j]
    ensures LookupTag(Tag(other, value) + rest, key) == LookupTag(rest, key)
  {
    if value != "" {
      var opts := Tag(other, value) + rest;
      var kv := other + value;
      assert opts[1] == kv;
      assert kv[j] == other[j];
      assert opts[2..] == rest;
    } else {
      assert Tag(other, value) + rest == rest;
    }
  }

  /** The pair for `key` itself yields its value; an omitted one is absent. */
  lemma LookupHit(key: string, value: string, rest: seq<string>)
    ensures value != "" ==> LookupTag(Tag(key, value) + rest, key) == value
    ensures value == "" ==> LookupTag(Tag(key, value) + rest, key) == LookupTag(rest, key)
  {
    if value != "" {
      var opts := Tag(key, value) + rest;
      var kv := key + value;
      assert opts[0] == "-metadata" && opts[1] == kv;
      assert kv[..|key|] == key && kv[|key|..] == value;
    } else {
      assert Tag(key, value) + rest == rest;
    }
  }

  lemma LookupNone(key: string)
    ensures LookupTag([], key) == ""
  {
  }

  /** The six tag groups of a book, in emission order. */
  function Groups(b: Book): seq<seq<string>>
  {
    [Tag("title=", b.title), Tag("artist=", b.author), Tag("album_artist=", b.author),
     Tag("genre=", b.genre), Tag("date=", b.year), Tag("composer=", b.narrator)]
  }

  function Suffix(b: Book, k: nat): seq<string>
    requires k <= 6
    decreases 6 - k
  {
    if k == 6 then [] else Groups(b)[k] + Suffix(b, k + 1)
  }

  lemma TagOptionsAsSuffix(b: Book)
    ensures TagOptions(b) == Suffix(b, 0)
  {
    var g := Groups(b);
    assert Suffix(b, 5) == g[5];
    assert TagOptions(b) == g[0] + g[1] + g[2] + g[3] + g[4] + g[5];
  }

  lemma ReadBackTitle(b: Book)
    ensures LookupTag(TagOptions(b), "title=") == b.title
  {
    TagOptionsAsSuffix(b);
    LookupNone("title=");
    LookupSkip("title=", "composer=", 0, b.narrator, Suffix(b, 6));
    LookupSkip("title=", "date=", 0, b.year, Suffix(b, 5));
    LookupSkip("title=", "genre=", 0, b.genre, Suffix(b, 4));
    LookupSkip("title=", "album_artist=", 0, b.author, Suffix(b, 3));
    LookupSkip("title=", "artist=", 0, b.author, Suffix(b, 2));
    LookupHit("title=", b.title, Suffix(b, 1));
  }

  lemma ReadBackAuthor(b: Book)
    ensures LookupTag(TagOptions(b), "artist=") == b.author
  {
    TagOptionsAsSuffix(b);
    LookupNone("artist=");
    LookupSkip("artist=", "composer=", 0, b.narrator, Suffix(b, 6));
    LookupSkip("artist=", "date=", 0, b.year, Suffix(b, 5));
    LookupSkip("artist=", "genre=", 0, b.genre, Suffix(b, 4));
    LookupSkip("artist=", "album_artist=", 1, b.author, Suffix(b, 3));
    LookupHit("artist=", b.author, Suffix(b, 2));
    LookupSkip("artist=", "title=", 0, b.title, Suffix(b, 1));
  }

  /** The `album_artist=` tag carries the author too. */
  lemma ReadBackAlbumArtist(b: Book)
    ensures LookupTag(TagOptions(b), "album_artist=") == b.author
  {
    TagOptionsAsSuffix(b);
    LookupNone("album_artist=");
    LookupSkip("album_artist=", "composer=", 0, b.narrator, Suffix(b, 6));
    LookupSkip("album_artist=", "date=", 0, b.year, Suffix(b, 5));
    LookupSkip("album_artist=", "genre=", 0, b.genre, Suffix(b, 4));
    LookupHit("album_artist=", b.author, Suffix(b, 3));
    LookupSkip("album_artist=", "artist=", 1, b.author, Suffix(b, 2));
    LookupSkip("album_artist=", "title=", 0, b.title, Suffix(b, 1));
  }

  lemma ReadBackGenre(b: Book)
    ensures LookupTag(TagOptions(b), "genre=") == b.genre
  {
    TagOptionsAsSuffix(b);
    LookupNone("genre=");
    LookupSkip("genre=", "composer=", 0, b.narrator, Suffix(b, 6));
    LookupSkip("genre=", "date=", 0, b.year, Suffix(b, 5));
    LookupHit("genre=", b.genre, Suffix(b, 4));
    LookupSkip("genre=", "album_artist=", 0, b.author, Suffix(b, 3));
    LookupSkip("genre=", "artist=", 0, b.author, Suffix(b, 2));
    LookupSkip("genre=", "title=", 0, b.title, Suffix(b, 1));
  }

  lemma ReadBackYear(b: Book)
    ensures LookupTag(TagOptions(b), "date=") == b.year
  {
    TagOptionsAsSuffix(b);
    LookupNone("date=");
    LookupSkip("date=", "composer=", 0, b.narrator, Suffix(b, 6));
    LookupHit("date=", b.year, Suffix(b, 5));
    LookupSkip("date=", "genre=", 0, b.genre, Suffix(b, 4));
    LookupSkip("date=", "album_artist=", 0, b.author, Suffix(b, 3));
    LookupSkip("date=", "artist=", 0, b.author, Suffix(b, 2));
    LookupSkip("date=", "title=", 0, b.title, Suffix(b, 1));
  }

  lemma ReadBackNarrator(b: Book)
    ensures LookupTag(TagOptions(b), "composer=") == b.narrator
  {
    TagOptionsAsSuffix(b);
    LookupNone("composer=");
    LookupHit("composer=", b.narrator, Suffix(b, 6));
    LookupSkip("composer=", "date=", 0, b.year, Suffix(b, 5));
    LookupSkip("composer=", "genre=", 0, b.genre, Suffix(b, 4));
    LookupSkip("composer=", "album_artist=", 0, b.author, Suffix(b, 3));
    LookupSkip("composer=", "artist=", 0, b.author, Suffix(b, 2));
    LookupSkip("composer=", "title=", 0, b.title, Suffix(b, 1));
  }

  /** Every non-empty book field can be read back from the emitted tags (the
      author from `artist=`), and an omitted field reads back as empty: the tag
      options lose nothing and invent nothing. */
  lemma TagOptionsReadBack(b: Book)
    ensures ReadBook(TagOptions(b)) == b
    ensures LookupTag(TagOptions(b), "album_artist=") == b.author
  {
    ReadBackTitle(b);
    ReadBackAuthor(b);
    ReadBackAlbumArtist(b);
    ReadBackGenre(b);
    ReadBackYear(b);
    ReadBackNarrator(b);
  }

  /** The merge passes any non-empty bitrate through unchecked, unlike the
      convert planner: only the empty one falls back to 128k. */
  lemma MergeBitrateUnchecked(bitrate: string)
    ensures bitrate != "" ==> MergeBitrate(bitrate) == bitrate
    ensures bitrate == "" ==> MergeBitrate(bitrate) == "128k"
  {
  }
}
