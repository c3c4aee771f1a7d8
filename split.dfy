/** The split-by-chapters handler: the output directory is made when missing,
    then one stream-copy extraction per chapter, in order, named from a
    template, with every chapter's outcome collected and the call reporting
    success. Whether the directory can be made, and how each engine run ends,
    are parameters. */
module Split {
  import opened Text
  import opened Paths

  /** One chapter as the renderer hands it over; `id` is 1-based. */
  datatype Chapter = Chapter(id: nat, title: string, start: real, duration: real)

  /** How one per-chapter engine run ends. */
  datatype EngineOutcome = EngineDone | EngineError(message: string)

  /** One engine job: trim `[start, start + duration)` of the input into `output`. */
  datatype Job = Job(input: string, start: real, duration: real, output: string, options: seq<string>)

  datatype ChapterResult =
    | Written(path: string, chapterId: nat)
    | ChapterFailed(error: string, chapterId: nat)

  datatype SplitResponse = SplitResponse(success: bool, results: seq<ChapterResult>)

  /** The handler's answer: a rejection when the output directory cannot be
      made, otherwise the response record. */
  datatype SplitReply = SplitRejected(error: string) | SplitReplied(response: SplitResponse)

  predicate IsAlnum(c: char)
  {
    ('a' <= c <= 'z') || ('A' <= c <= 'Z') || ('0' <= c <= '9')
  }

  /** `title.replace(/[^a-z0-9]/gi, "_")`: every character that is not an ASCII
      letter or digit becomes `_`. */
  function Sanitize(title: string): (r: string)
    ensures |r| == |title|
    ensures forall i :: 0 <= i < |r| ==> (IsAlnum(title[i]) ==> r[i] == title[i]) && (!IsAlnum(title[i]) ==> r[i] == '_')
  {
    seq(|title|, i requires 0 <= i < |title| => if IsAlnum(title[i]) then title[i] else '_')
  }

  /** Sanitized titles hold only letters, digits and `_`, and sanitizing twice
      changes nothing. */
  lemma SanitizeOnlySafe(title: string)
    ensures forall i :: 0 <= i < |Sanitize(title)| ==> IsAlnum(Sanitize(title)[i]) || Sanitize(title)[i] == '_'
    ensures Sanitize(Sanitize(title)) == Sanitize(title)
  {
  }

  /** The chapter id padded to two digits with `0`. */
  function IndexText(id: nat): string
  {
    PadTwo(NatStr(id))
  }

  /** The output file name: the first `{index}` and then the first `{title}`
      replaced, and `.format` appended. */
  function FileName(template: string, c: Chapter, format: string): string
  {
    ReplaceFirst(ReplaceFirst(template, "{index}", IndexText(c.id)), "{title}", Sanitize(c.title)) + "." + format
  }

  /** The options of one extraction: stream copy, the input's metadata, and
      the `track=id/total` and `title` tags. */
  function JobOptions(c: Chapter, total: nat): seq<string>
  {
    ["-c", "copy", "-map_metadata", "0",
     "-metadata", "track=" + NatStr(c.id) + "/" + NatStr(total),
     "-metadata", "title=" + c.title]
  }

  function JobFor(input: string, outDir: string, template: string, format: string, c: Chapter, total: nat): Job
  {
    Job(input, c.start, c.duration, Join(outDir, FileName(template, c, format)), JobOptions(c, total))
  }

  function ResultFor(job: Job, c: Chapter, outcome: EngineOutcome): ChapterResult
  {
    match outcome
    case EngineDone => Written(job.output, c.id)
    case EngineError(msg) => ChapterFailed(msg, c.id)
  }

  /** The job of every chapter, in order. */
  function Jobs(input: string, outDir: string, template: string, format: string, chapters: seq<Chapter>): (js: seq<Job>)
    ensures |js| == |chapters|
  {
    seq(|chapters|, i requires 0 <= i < |chapters| => JobFor(input, outDir, template, format, chapters[i], |chapters|))
  }

  /** The result of every chapter, in order. */
  function Results(jobs: seq<Job>, chapters: seq<Chapter>, outcomes: seq<EngineOutcome>): (rs: seq<ChapterResult>)
    requires |jobs| == |chapters| == |outcomes|
    ensures |rs| == |chapters|
  {
    seq(|chapters|, i requires 0 <= i < |chapters| => ResultFor(jobs[i], chapters[i], outcomes[i]))
  }

  /** Appending the next element of `spec` extends a prefix of it. */
  lemma PrefixStep<T>(prefix: seq<T>, x: T, spec: seq<T>)
    requires |prefix| < |spec| && prefix == spec[..|prefix|] && x == spec[|prefix|]
    ensures prefix + [x] == spec[..|prefix| + 1]
  {
  }

  /** The handler's loop: each chapter's job in order, and its result appended
      whether the run succeeded or not. */
  method SplitByChapters(input: string, outDir: string, chapters: seq<Chapter>, format: string,
                         template: string, outcomes: seq<EngineOutcome>)
    returns (jobs: seq<Job>, response: SplitResponse)
    requires |outcomes| == |chapters|
    ensures response.success
    ensures |jobs| == |chapters| && |response.results| == |chapters|
    ensures forall i :: 0 <= i < |chapters| ==>
              jobs[i] == JobFor(input, outDir, template, format, chapters[i], |chapters|)
    ensures forall i :: 0 <= i < |chapters| ==> response.results[i] == ResultFor(jobs[i], chapters[i], outcomes[i])
  {
    ghost var spec := Jobs(input, outDir, template, format, chapters);
    var results: seq<ChapterResult> := [];
    jobs := [];
    var i := 0;
    while i < |chapters|
      invariant 0 <= i <= |chapters| && |jobs| == i && |results| == i
      invariant jobs == spec[..i]
      invariant results == Results(spec, chapters, outcomes)[..i]
    {
      var c := chapters[i];
      var job := JobFor(input, outDir, template, format, c, |chapters|);
      var r := match outcomes[i]
        case EngineDone => Written(job.output, c.id)
        case EngineError(msg) => ChapterFailed(msg, c.id);
      PrefixStep(jobs, job, spec);
      PrefixStep(results, r, Results(spec, chapters, outcomes));
      jobs := jobs + [job];
      results := results + [r];
      i := i + 1;
    }
    assert spec[..|chapters|] == spec;
    assert results == Results(spec, chapters, outcomes)[..|chapters|];
    response := SplitResponse(true, results);
  }

  /** The handler: a missing output directory is made first. `dirError` is
      the error with which that fails, or None when the directory exists or
      is made. A failure rejects the call before any job runs; otherwise the
      loop's jobs run and the call answers with its response. */
  method HandleSplit(input: string, outDir: string, chapters: seq<Chapter>, format: string,
                     template: string, dirError: Option<string>, outcomes: seq<EngineOutcome>)
    returns (jobs: seq<Job>, reply: SplitReply)
    requires |outcomes| == |chapters|
    ensures dirError.Some? ==> jobs == [] && reply == SplitRejected(dirError.value)
    ensures dirError.None? ==>
      && jobs == Jobs(input, outDir, template, format, chapters)
      && reply == SplitReplied(SplitResponse(true, Results(jobs, chapters, outcomes)))
  {
    if dirError.Some? {
      jobs := [];
      reply := SplitRejected(dirError.value);
    } else {
      var response;
      jobs, response := SplitByChapters(input, outDir, chapters, format, template, outcomes);
      assert jobs == Jobs(input, outDir, template, format, chapters);
      assert response.results == Results(jobs, chapters, outcomes);
      reply := SplitReplied(response);
    }
  }

  /** Every result names its chapter, succeeds exactly when its run did, and a
      success points at the file its job wrote under the output directory. */
  lemma ResultsFollowOutcomes(input: string, outDir: string, template: string, format: string,
                              chapters: seq<Chapter>, outcomes: seq<EngineOutcome>, i: nat)
    requires |outcomes| == |chapters| && i < |chapters|
    ensures var job := JobFor(input, outDir, template, format, chapters[i], |chapters|);
      var r := ResultFor(job, chapters[i], outcomes[i]);
      && r.chapterId == chapters[i].id
      && (r.Written? <==> outcomes[i].EngineDone?)
      && (r.Written? ==> r.path == job.output && EndsWith(r.path, FileName(template, chapters[i], format)))
      && (r.ChapterFailed? ==> r.error == outcomes[i].message)
  {
  }

  /** Replacing `{index}` in the template `{index} - {title}`. */
  lemma IndexReplaced(p: string)
    ensures ReplaceFirst("{index} - {title}", "{index}", p) == p + " - {title}"
  {
    assert OccursAt("{index} - {title}", "{index}", 0);
  }

  /** After a run of digits and ` - `, the first `{title}` is the one that follows. */
  lemma TitleFound(p: string)
    requires AllDigits(p)
    ensures IndexOf(p + " - {title}", "{title}") == Some(|p| + 3)
  {
    var s1 := p + " - {title}";
    var k := |p| + 3;
    assert s1[k..k + 7] == "{title}";
    forall j | 0 <= j < k
      ensures !OccursAt(s1, "{title}", j)
    {
      if j < |p| {
        assert s1[j] == p[j];
      } else {
        assert s1[j] == " - {title}"[j - |p|];
      }
      assert s1[j] != '{';
      assert j + 7 <= |s1| ==> s1[j..j + 7][0] == s1[j];
    }
    assert OccursAt(s1, "{title}", k);
    var r := IndexOf(s1, "{title}");
    assert r.Some?;
    assert r.value == k;
  }

  /** With the template `{index} - {title}`, the name is the padded id, the
      separator, the sanitized title and the extension. */
  lemma DefaultTemplateName(c: Chapter, format: string)
    ensures FileName("{index} - {title}", c, format) == IndexText(c.id) + " - " + Sanitize(c.title) + "." + format
  {
    var p := IndexText(c.id);
    PadTwoKeepsValue(c.id);
    IndexReplaced(p);
    TitleFound(p);
    var s1 := p + " - {title}";
    assert s1[..|p| + 3] == p + " - " && s1[|p| + 10..] == [];
  }

  /** The id can be read back from the start of a file name made with the
      template `{index} - {title}`. */
  lemma DefaultTemplateReadsBackId(c: Chapter, format: string)
    ensures ReadNat(FileName("{index} - {title}", c, format)) == Some((c.id, " - " + Sanitize(c.title) + "." + format))
  {
    var p := IndexText(c.id);
    var rest := " - " + Sanitize(c.title) + "." + format;
    NameSplits(c, format, p, rest);
    PadTwoKeepsValue(c.id);
    ReadDigitsOfDigits(p, rest);
  }

  lemma ExampleParts()
    ensures IndexText(3) == "03"
    ensures Sanitize("The Dark Forest!") == "The_Dark_Forest_"
  {
    assert NatStr(3) == "3";
  }

  lemma ExampleJoined()
    ensures "03" + " - " + "The_Dark_Forest_" + "." + "mp3" == "03 - The_Dark_Forest_.mp3"
  {
    assert "03" + " - " == "03 - ";
    assert "03 - " + "The_Dark_Forest_" == "03 - The_Dark_Forest_";
    assert "03 - The_Dark_Forest_" + "." == "03 - The_Dark_Forest_.";
  }

  lemma NameSplits(c: Chapter, format: string, p: string, rest: string)
    requires p == IndexText(c.id) && rest == " - " + Sanitize(c.title) + "." + format
    ensures FileName("{index} - {title}", c, format) == p + rest
  {
    DefaultTemplateName(c, format);
    AppendAssoc3(p, " - ", Sanitize(c.title), "." + format);
  }

  lemma AppendAssoc3(a: string, b: string, c: string, d: string)
    ensures a + b + c + d == a + (b + c + d)
  {
  }

  /** Chapter 3 titled "The Dark Forest!" with the template `{index} - {title}`
      and format mp3 is written to `03 - The_Dark_Forest_.mp3`. */
  lemma ExampleName()
    ensures FileName("{index} - {title}", Chapter(3, "The Dark Forest!", 0.0, 0.0), "mp3")
         == "03 - The_Dark_Forest_.mp3"
  {
    var c := Chapter(3, "The Dark Forest!", 0.0, 0.0);
    DefaultTemplateName(c, "mp3");
    ExampleParts();
    ExampleJoined();
  }
}
