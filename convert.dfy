/** The single-file convert planner (`W` in the main process) and the batch
    handler that runs it once per request. Whether the input exists and how
    the engine run ends are parameters. */
module Convert {
  import opened Text
  import opened Paths

  const AllowedBitrates: seq<string> := ["64k", "96k", "128k", "192k", "256k", "320k"]

  /** How one engine run ends. */
  datatype EngineOutcome = EngineDone | EngineError(message: string)

  /** What the planner settles before the engine runs. */
  datatype ConvertPlan = ConvertPlan(outputPath: string, codec: string, container: string, bitrate: string)

  datatype PlanResult = PlanOk(plan: ConvertPlan) | PlanFailed(error: string)

  /** The settled value of the planner's promise: success with the output
      path, the pre-flight failure record, or a rejection carrying the engine's
      message. */
  datatype ConvertResult =
    | Converted(inputPath: string, outputPath: string)
    | Failed(inputPath: string, error: string)
    | Rejected(inputPath: string, error: string)

  /** `dir/name.fmt`, or `dir/name_converted.fmt` when the former is the input
      itself. */
  function OutputPath(input: string, format: string): (out: string)
    ensures out == Join(Dir(input), Name(input) + "." + format)
         || out == Join(Dir(input), Name(input) + "_converted." + format)
    ensures out == Join(Dir(input), Name(input) + "_converted." + format)
        <==> input == Join(Dir(input), Name(input) + "." + format)
    ensures out != input
  {
    var natural := Join(Dir(input), Name(input) + "." + format);
    var fallback := Join(Dir(input), Name(input) + "_converted." + format);
    JoinLength(Dir(input), Name(input) + "." + format, Name(input) + "_converted." + format);
    if input == natural then fallback else natural
  }

  /** A bitrate outside the allowed set becomes 128k. */
  function CoerceBitrate(bitrate: string): (r: string)
    ensures r in AllowedBitrates
    ensures bitrate in AllowedBitrates ==> r == bitrate
    ensures bitrate !in AllowedBitrates ==> r == "128k"
  {
    if bitrate in AllowedBitrates then bitrate else "128k"
  }

  /** The codec and container per target format; None for any other format. */
  function FormatTable(format: string): Option<(string, string)>
  {
    if format == "m4b" then Some(("aac", "ipod"))
    else if format == "m4a" then Some(("aac", "mp4"))
    else if format == "mp3" then Some(("libmp3lame", "mp3"))
    else if format == "aac" then Some(("aac", "adts"))
    else None
  }

  /** Pre-flight: a missing input fails first, then an unknown format. */
  function PlanConvert(input: string, format: string, bitrate: string, inputExists: bool): PlanResult
  {
    if !inputExists then PlanFailed("Input file not found: " + input)
    else match FormatTable(format)
      case None => PlanFailed("Unsupported format: " + format)
      case Some((codec, container)) =>
        PlanOk(ConvertPlan(OutputPath(input, format), codec, container, CoerceBitrate(bitrate)))
  }

  /** The engine options besides codec, bitrate and container: copy the
      input's global metadata. */
  const ConvertOptions: seq<string> := ["-map_metadata", "0"]

  /** `W`: the pre-flight failure record, or the engine's outcome. */
  function ConvertFile(input: string, format: string, bitrate: string, inputExists: bool,
                       engine: EngineOutcome): ConvertResult
  {
    match PlanConvert(input, format, bitrate, inputExists)
    case PlanFailed(msg) => Failed(input, msg)
    case PlanOk(plan) =>
      match engine
      case EngineDone => Converted(input, plan.outputPath)
      case EngineError(msg) => Rejected(input, msg)
  }

  /** The four outcomes of a conversion: a missing input or an unknown format
      gives the failure record without running the engine; otherwise the
      engine's outcome decides, and a success never writes over its input. */
  lemma ConvertOutcomes(input: string, format: string, bitrate: string, inputExists: bool, engine: EngineOutcome)
    ensures var r := ConvertFile(input, format, bitrate, inputExists, engine);
      && r.inputPath == input
      && (!inputExists ==> r == Failed(input, "Input file not found: " + input))
      && (inputExists && FormatTable(format).None? ==> r == Failed(input, "Unsupported format: " + format))
      && (inputExists && FormatTable(format).Some? && engine.EngineDone? ==>
            r.Converted? && r.outputPath != input)
      && (inputExists && FormatTable(format).Some? && engine.EngineError? ==>
            r == Rejected(input, engine.message))
  {
  }

  /** The formats the planner accepts are exactly m4b, m4a, mp3 and aac, and
      only mp3 is encoded with libmp3lame. */
  lemma FormatTableDomain(format: string)
    ensures FormatTable(format).Some? <==> format in {"m4b", "m4a", "mp3", "aac"}
    ensures FormatTable(format).Some? ==> (FormatTable(format).value.0 == "libmp3lame" <==> format == "mp3")
  {
  }

  /** The batch handler: converts the requests one after another and collects
      each settled result in order. A rejection (an engine failure) is not
      caught, so it ends the batch and becomes the batch's own outcome. */
  datatype Request = Request(inputPath: string, outputFormat: string, bitrate: string)

  datatype BatchResult = AllSettled(results: seq<ConvertResult>) | BatchRejected(error: string)

  predicate Settles(r: ConvertResult) { !r.Rejected? }

  function RunOne(q: Request, inputExists: bool, engine: EngineOutcome): ConvertResult
  {
    ConvertFile(q.inputPath, q.outputFormat, q.bitrate, inputExists, engine)
  }

  /** Request `k` is the first whose run is rejected, with message `error`. */
  predicate FirstRejection(requests: seq<Request>, present: seq<bool>, engine: seq<EngineOutcome>, k: nat, error: string)
    requires |present| == |requests| && |engine| == |requests| && k < |requests|
  {
    && RunOne(requests[k], present[k], engine[k]) == Rejected(requests[k].inputPath, error)
    && forall i :: 0 <= i < k ==> Settles(RunOne(requests[i], present[i], engine[i]))
  }

  method BatchConvert(requests: seq<Request>, present: seq<bool>, engine: seq<EngineOutcome>) returns (r: BatchResult)
    requires |present| == |requests| && |engine| == |requests|
    ensures r.AllSettled? <==> forall i :: 0 <= i < |requests| ==> Settles(RunOne(requests[i], present[i], engine[i]))
    ensures r.AllSettled? ==> |r.results| == |requests|
    ensures r.AllSettled? ==>
              forall i :: 0 <= i < |requests| ==> r.results[i] == RunOne(requests[i], present[i], engine[i])
    ensures r.BatchRejected? ==>
              exists k :: 0 <= k < |requests| && FirstRejection(requests, present, engine, k, r.error)
  {
    var results: seq<ConvertResult> := [];
    var i := 0;
    while i < |requests|
      invariant 0 <= i <= |requests| && |results| == i
      invariant forall j :: 0 <= j < i ==> results[j] == RunOne(requests[j], present[j], engine[j])
      invariant forall j :: 0 <= j < i ==> Settles(results[j])
    {
      var s := RunOne(requests[i], present[i], engine[i]);
      if s.Rejected? {
        assert FirstRejection(requests, present, engine, i, s.error);
        return BatchRejected(s.error);
      }
      ghost var prev := results;
      results := results + [s];
      assert forall j :: 0 <= j < i ==> results[j] == prev[j];
      i := i + 1;
    }
    return AllSettled(results);
  }

  /** Finding: with two requests whose first engine run fails, the batch is
      rejected at the first request and the second one gets no result, where
      every failure was meant to become that request's own result. */
  lemma BatchAbortExample()
    ensures var requests := [Request("/in/a.wav", "mp3", "128k"), Request("/in/b.wav", "mp3", "128k")];
      var present := [true, true];
      var engine := [EngineError("Conversion failed"), EngineDone];
      && !(forall i :: 0 <= i < |requests| ==> Settles(RunOne(requests[i], present[i], engine[i])))
      && FirstRejection(requests, present, engine, 0, "Conversion failed")
  {
    var q := Request("/in/a.wav", "mp3", "128k");
    ConvertOutcomes(q.inputPath, q.outputFormat, q.bitrate, true, EngineError("Conversion failed"));
  }

  /** A run's result with a rejection recorded as the request's failure. */
  function Isolated(r: ConvertResult): (s: ConvertResult)
    ensures Settles(s) && s.inputPath == r.inputPath
    ensures Settles(r) ==> s == r
    ensures r.Rejected? ==> s == Failed(r.inputPath, r.error)
  {
    match r
    case Rejected(input, msg) => Failed(input, msg)
    case _ => r
  }

  /** The batch with each failure kept to its own request: one result per
      request, in order, each the request's own result with a rejection
      recorded as its failure. */
  method BatchConvertIsolated(requests: seq<Request>, present: seq<bool>, engine: seq<EngineOutcome>)
    returns (results: seq<ConvertResult>)
    requires |present| == |requests| && |engine| == |requests|
    ensures |results| == |requests|
    ensures forall i :: 0 <= i < |requests| ==> results[i] == Isolated(RunOne(requests[i], present[i], engine[i]))
  {
    results := [];
    var i := 0;
    while i < |requests|
      invariant 0 <= i <= |requests| && |results| == i
      invariant forall j :: 0 <= j < i ==> results[j] == Isolated(RunOne(requests[j], present[j], engine[j]))
    {
      var s := Isolated(RunOne(requests[i], present[i], engine[i]));
      ghost var prev := results;
      results := results + [s];
      assert forall j :: 0 <= j < i ==> results[j] == prev[j];
      i := i + 1;
    }
  }

  /** In the isolated batch every request settles, and one whose engine run
      fails records the engine's message as its own failure. */
  lemma IsolatedOutcome(q: Request, inputExists: bool, engine: EngineOutcome)
    ensures var s := Isolated(RunOne(q, inputExists, engine));
      && Settles(s) && s.inputPath == q.inputPath
      && (inputExists && FormatTable(q.outputFormat).Some? && engine.EngineError? ==>
            s == Failed(q.inputPath, engine.message))
      && (Settles(RunOne(q, inputExists, engine)) ==> s == RunOne(q, inputExists, engine))
  {
    ConvertOutcomes(q.inputPath, q.outputFormat, q.bitrate, inputExists, engine);
  }
}
