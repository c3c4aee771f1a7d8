/** The conversion queue of the converter view: files are added as pending,
    converted one after another (pending, converting, then done or error),
    retried, cleared and updated by progress events. Every transition is a
    function from the queue before to the queue after, as the view's state
    updaters are. File ids come from a random generator and are inputs; the
    main process's reply to each conversion request is an input. */
module Converter {
  import opened Text
  import opened Lists
  import Convert
  import Presets

  datatype Status = Pending | Converting | Done | Error

  datatype QueueFile = QueueFile(id: string, name: string, path: string, size: nat, status: Status,
                                 progress: real, outputPath: Option<string>, error: Option<string>)

  /** A file the user picked or dropped. */
  datatype Picked = Picked(name: string, path: string, size: nat)

  /** What a conversion request ends with in the view: the reply object of a
      settled request, or the message of the error a rejected request throws. */
  datatype Reply =
    | Settled(success: bool, outputPath: Option<string>, error: Option<string>)
    | Thrown(message: string)

  predicate UniqueIds(q: seq<QueueFile>)
  {
    forall i, j :: 0 <= i < j < |q| ==> q[i].id != q[j].id
  }

  // ---------------------------------------------------------------------
  // Adding and removing files

  function NewEntry(p: Picked, id: string): QueueFile
  {
    QueueFile(id, p.name, p.path, p.size, Pending, 0.0, None, None)
  }

  /** `handleFileSelect`: nothing when there is no selection, otherwise one
      pending entry per picked file appended after the queue. */
  function AddFiles(q: seq<QueueFile>, picked: Option<seq<Picked>>, ids: seq<string>): (r: seq<QueueFile>)
    requires picked.Some? ==> |ids| == |picked.value|
    ensures picked.None? ==> r == q
    ensures picked.Some? ==> |r| == |q| + |picked.value| && r[..|q|] == q
    ensures picked.Some? ==> forall k :: 0 <= k < |picked.value| ==>
      && r[|q| + k].status == Pending && r[|q| + k].progress == 0.0
      && r[|q| + k].path == picked.value[k].path && r[|q| + k].id == ids[k]
  {
    match picked
    case None => q
    case Some(ps) => q + seq(|ps|, k requires 0 <= k < |ps| => NewEntry(ps[k], ids[k]))
  }

  /** Fresh, distinct ids keep the queue's ids unique. */
  lemma AddFilesKeepsUnique(q: seq<QueueFile>, ps: seq<Picked>, ids: seq<string>)
    requires |ids| == |ps| && UniqueIds(q)
    requires forall k, l :: 0 <= k < l < |ids| ==> ids[k] != ids[l]
    requires forall k, i :: 0 <= k < |ids| && 0 <= i < |q| ==> ids[k] != q[i].id
    ensures UniqueIds(AddFiles(q, Some(ps), ids))
  {
    var r := AddFiles(q, Some(ps), ids);
    forall i, j | 0 <= i < j < |r|
      ensures r[i].id != r[j].id
    {
      if j >= |q| && i >= |q| {
        assert r[i].id == ids[i - |q|] && r[j].id == ids[j - |q|];
      } else if j >= |q| {
        assert r[i] == q[i] && r[j].id == ids[j - |q|];
      } else {
        assert r[i] == q[i] && r[j] == q[j];
      }
    }
  }

  function OtherId(id: string): QueueFile -> bool
  {
    (f: QueueFile) => f.id != id
  }

  /** `removeFile`. */
  function RemoveFile(q: seq<QueueFile>, id: string): seq<QueueFile>
  {
    Filter(q, OtherId(id))
  }

  /** Removing drops exactly the entries with that id: the result holds the
      entries at the increasing positions of the entries with another id. */
  lemma RemoveFileExactly(q: seq<QueueFile>, id: string)
    ensures var r := RemoveFile(q, id);
      var ks := Positions(q, OtherId(id));
      && |r| == |ks|
      && (forall i :: 0 <= i < |ks| ==> r[i] == q[ks[i]] && r[i].id != id)
      && (forall f :: f in r <==> f in q && f.id != id)
  {
    FilterAt(q, OtherId(id));
    FilterMembers(q, OtherId(id));
  }

  predicate NotDone(f: QueueFile)
  {
    f.status != Done
  }

  /** `handleClearCompleted`. */
  function ClearCompleted(q: seq<QueueFile>): seq<QueueFile>
  {
    Filter(q, NotDone)
  }

  /** Clearing completed files drops exactly the done entries and keeps the
      others in order. */
  lemma ClearCompletedExactly(q: seq<QueueFile>)
    ensures var r := ClearCompleted(q);
      var ks := Positions(q, NotDone);
      && |r| == |ks|
      && (forall i :: 0 <= i < |ks| ==> r[i] == q[ks[i]] && r[i].status != Done)
      && (forall f :: f in r <==> f in q && f.status != Done)
  {
    FilterAt(q, NotDone);
    FilterMembers(q, NotDone);
  }

  /** `handleClearAll`: empties the queue unless a batch is converting. */
  function ClearAll(q: seq<QueueFile>, converting: bool): (r: seq<QueueFile>)
    ensures converting ==> r == q
    ensures !converting ==> r == []
  {
    if converting then q else []
  }

  /** The entry a retry makes of a failed one. */
  function Retried(f: QueueFile): QueueFile
  {
    f.(status := Pending, error := None, progress := 0.0)
  }

  /** `handleRetryFailed`. */
  function RetryFailed(q: seq<QueueFile>): (r: seq<QueueFile>)
    ensures |r| == |q|
  {
    seq(|q|, i requires 0 <= i < |q| => if q[i].status == Error then Retried(q[i]) else q[i])
  }

  /** A retry turns every failed entry into a pending one with no progress
      and no error, keeps its id, name and path, leaves every other entry as
      it was, and leaves no failed entry behind; a second retry changes
      nothing. */
  lemma RetryFailedEffect(q: seq<QueueFile>)
    ensures var r := RetryFailed(q);
      && (forall i :: 0 <= i < |q| && q[i].status == Error ==>
            r[i].status == Pending && r[i].progress == 0.0 && r[i].error.None?
            && r[i].id == q[i].id && r[i].path == q[i].path && r[i].name == q[i].name)
      && (forall i :: 0 <= i < |q| && q[i].status != Error ==> r[i] == q[i])
      && (forall i :: 0 <= i < |q| ==> r[i].status != Error)
      && RetryFailed(r) == r
  {
  }

  /** The progress handler: sets the progress of the entries for that input
      path. */
  function ApplyProgress(q: seq<QueueFile>, inputPath: string, percent: real): (r: seq<QueueFile>)
    ensures |r| == |q|
  {
    seq(|q|, i requires 0 <= i < |q| => if q[i].path == inputPath then q[i].(progress := percent) else q[i])
  }

  /** A progress event changes only the progress, and only on the entries
      whose path is the event's input path. */
  lemma ApplyProgressEffect(q: seq<QueueFile>, inputPath: string, percent: real)
    ensures var r := ApplyProgress(q, inputPath, percent);
      && (forall i :: 0 <= i < |q| && q[i].path == inputPath ==>
            r[i].progress == percent && r[i].(progress := q[i].progress) == q[i])
      && (forall i :: 0 <= i < |q| && q[i].path != inputPath ==> r[i] == q[i])
  {
  }

  // ---------------------------------------------------------------------
  // Converting one file

  /** The entry while its request is in flight. */
  function Started(f: QueueFile): QueueFile
  {
    f.(status := Converting, progress := 0.0)
  }

  /** The entry once its request has ended: a settled reply sets the status
      from its success flag, progress 100, and its output path and error; a
      thrown error sets the error status and message only. */
  function Settle(f: QueueFile, reply: Reply): QueueFile
  {
    match reply
    case Settled(ok, out, err) =>
      f.(status := if ok then Done else Error, progress := 100.0, outputPath := out, error := err)
    case Thrown(msg) => f.(status := Error, error := Some(msg))
  }

  /** The first update of `convertFile`. */
  function MarkConverting(q: seq<QueueFile>, id: string): (r: seq<QueueFile>)
    ensures |r| == |q|
  {
    seq(|q|, i requires 0 <= i < |q| => if q[i].id == id then Started(q[i]) else q[i])
  }

  /** The second update of `convertFile`, on the queue as it then is. */
  function ApplyReply(q: seq<QueueFile>, id: string, reply: Reply): (r: seq<QueueFile>)
    ensures |r| == |q|
  {
    seq(|q|, i requires 0 <= i < |q| => if q[i].id == id then Settle(q[i], reply) else q[i])
  }

  /** `convertFile` for the entry with id `id`. */
  function ConvertOne(q: seq<QueueFile>, id: string, reply: Reply): (r: seq<QueueFile>)
    ensures |r| == |q|
  {
    ApplyReply(MarkConverting(q, id), id, reply)
  }

  /** The outcome of a request as the entry records it. */
  predicate Succeeded(reply: Reply)
  {
    reply.Settled? && reply.success
  }

  /** Converting one file: while in flight the entry is converting with no
      progress; afterwards it is done exactly when the reply reports success
      and failed otherwise, with progress 100 and the reply's output path and
      error when the request settled, and with the thrown message when it did
      not. Its id, name and path stay, and every other entry is untouched. */
  lemma ConvertOneEffect(q: seq<QueueFile>, id: string, reply: Reply)
    ensures forall i :: 0 <= i < |q| && q[i].id == id ==>
      MarkConverting(q, id)[i].status == Converting && MarkConverting(q, id)[i].progress == 0.0
    ensures var r := ConvertOne(q, id, reply);
      && (forall i :: 0 <= i < |q| && q[i].id != id ==> r[i] == q[i])
      && (forall i :: 0 <= i < |q| && q[i].id == id ==>
            && (r[i].status == Done <==> Succeeded(reply))
            && (r[i].status == Error <==> !Succeeded(reply))
            && r[i].id == q[i].id && r[i].name == q[i].name && r[i].path == q[i].path
            && (reply.Settled? ==> r[i].progress == 100.0 && r[i].outputPath == reply.outputPath
                                   && r[i].error == reply.error)
            && (reply.Thrown? ==> r[i].progress == 0.0 && r[i].error == Some(reply.message)))
  {
  }

  /** The reply the view receives for the main process's conversion result:
      a pre-flight failure or success is a settled reply; an engine failure
      rejects the request, and the view sees the error `bridgeMessage` the
      inter-process bridge raises for it. */
  function ReplyOf(r: Convert.ConvertResult, bridgeMessage: string): Reply
  {
    match r
    case Converted(_, out) => Settled(true, Some(out), None)
    case Failed(_, err) => Settled(false, None, Some(err))
    case Rejected(_, _) => Thrown(bridgeMessage)
  }

  /** An entry converted to FLAC from the view always ends failed with the
      main process's unsupported-format error, or its missing-input error. */
  lemma FlacChoiceFails(q: seq<QueueFile>, i: nat, bitrate: string, inputExists: bool,
                        engine: Convert.EngineOutcome, bridgeMessage: string)
    requires i < |q|
    ensures var res := Convert.ConvertFile(q[i].path, Presets.WireName(Presets.FLAC), bitrate, inputExists, engine);
      var r := ConvertOne(q, q[i].id, ReplyOf(res, bridgeMessage));
      && r[i].status == Error
      && (inputExists ==> r[i].error == Some("Unsupported format: flac"))
  {
    var res := Convert.ConvertFile(q[i].path, Presets.WireName(Presets.FLAC), bitrate, inputExists, engine);
    assert Presets.WireName(Presets.FLAC) == "flac";
    Convert.ConvertOutcomes(q[i].path, "flac", bitrate, inputExists, engine);
    ConvertOneEffect(q, q[i].id, ReplyOf(res, bridgeMessage));
    if inputExists {
      assert Convert.FormatTable("flac").None?;
      assert res == Convert.Failed(q[i].path, "Unsupported format: " + "flac");
      assert "Unsupported format: " + "flac" == "Unsupported format: flac";
    }
  }

  // ---------------------------------------------------------------------
  // Converting all pending files

  predicate IsPending(f: QueueFile)
  {
    f.status == Pending
  }

  /** The entries that were pending when the batch started, in queue order. */
  function PendingOf(q: seq<QueueFile>): seq<QueueFile>
  {
    Filter(q, IsPending)
  }

  /** `convertFile` on each of `pend`, in order, each with its reply. */
  function RunAll(q: seq<QueueFile>, pend: seq<QueueFile>, replies: seq<Reply>): (r: seq<QueueFile>)
    requires |replies| == |pend|
    ensures |r| == |q|
    decreases |pend|
  {
    if pend == [] then q
    else RunAll(ConvertOne(q, pend[0].id, replies[0]), pend[1..], replies[1..])
  }

  /** The toast that ends a batch. */
  datatype Toast = NoToast | SuccessToast(text: string) | WarningToast(text: string)

  predicate IsDone(f: QueueFile)
  {
    f.status == Done
  }

  predicate IsError(f: QueueFile)
  {
    f.status == Error
  }

  /** The completion toast for a batch's entries: success when every entry is
      done, a warning when some are done and some failed, and none when none
      is done. */
  function ToastFor(results: seq<QueueFile>): (t: Toast)
    ensures t != NoToast <==> |Filter(results, IsDone)| > 0
    ensures t.SuccessToast? <==> |Filter(results, IsDone)| > 0 && |Filter(results, IsError)| == 0
  {
    var done := |Filter(results, IsDone)|;
    var failed := |Filter(results, IsError)|;
    if failed == 0 && done > 0 then SuccessToast("Converted " + NatStr(done) + " file" + (if done != 1 then "s" else ""))
    else if done > 0 then WarningToast("Converted " + NatStr(done) + " files, " + NatStr(failed) + " failed")
    else NoToast
  }

  /** Whether the entry `f` belongs to the batch `pend`. */
  predicate InBatchOf(pend: seq<QueueFile>, f: QueueFile)
  {
    exists k :: 0 <= k < |pend| && pend[k].id == f.id
  }

  function InBatch(pend: seq<QueueFile>): QueueFile -> bool
  {
    (f: QueueFile) => InBatchOf(pend, f)
  }

  /** The toast as the view computes it: from the queue it held when the
      batch started. */
  function ToastAsWritten(start: seq<QueueFile>, pend: seq<QueueFile>): Toast
  {
    ToastFor(Filter(start, InBatch(pend)))
  }

  /** The toast computed from the queue after the batch. */
  function ToastFromQueue(final: seq<QueueFile>, pend: seq<QueueFile>): Toast
  {
    ToastFor(Filter(final, InBatch(pend)))
  }

  /** `handleConvertAll`: converts the entries pending at the start one at a
      time in queue order, sending each one's path with the chosen format's
      wire name and the chosen bitrate, and ends with the corrected toast,
      counted over the batch's entries in the final queue (ToastFromQueue;
      the program's own toast is ToastAsWritten). The pause check never
      fires (the flag is only ever cleared), so it is not modelled. */
  method ConvertAll(files: seq<QueueFile>, format: Presets.AudioFormat, bitrate: string, replies: seq<Reply>)
    returns (requests: seq<Convert.Request>, q: seq<QueueFile>, toast: Toast)
    requires |replies| == |PendingOf(files)|
    ensures |requests| == |PendingOf(files)|
    ensures forall k :: 0 <= k < |requests| ==>
      requests[k] == Convert.Request(PendingOf(files)[k].path, Presets.WireName(format), bitrate)
    ensures q == RunAll(files, PendingOf(files), replies)
    ensures toast == ToastFromQueue(q, PendingOf(files))
  {
    var pend := PendingOf(files);
    q := files;
    requests := [];
    var i := 0;
    while i < |pend|
      invariant 0 <= i <= |pend| && |requests| == i
      invariant RunAll(files, pend, replies) == RunAll(q, pend[i..], replies[i..])
      invariant forall k :: 0 <= k < i ==> requests[k] == Convert.Request(pend[k].path, Presets.WireName(format), bitrate)
    {
      var f := pend[i];
      requests := requests + [Convert.Request(f.path, Presets.WireName(format), bitrate)];
      assert pend[i..][1..] == pend[i + 1..] && replies[i..][1..] == replies[i + 1..];
      q := MarkConverting(q, f.id);
      q := ApplyReply(q, f.id, replies[i]);
      i := i + 1;
    }
    toast := ToastFromQueue(q, pend);
  }

  /** After the batch, each entry of the batch is its entry converted with
      its own reply, every entry outside the batch is as it was, and no entry
      changes id. */
  lemma {:induction false} RunAllEffect(q: seq<QueueFile>, pend: seq<QueueFile>, replies: seq<Reply>)
    requires |replies| == |pend| && UniqueIds(pend)
    ensures forall i :: 0 <= i < |q| ==> RunAll(q, pend, replies)[i].id == q[i].id
    ensures forall i, k :: 0 <= i < |q| && 0 <= k < |pend| && q[i].id == pend[k].id ==>
      RunAll(q, pend, replies)[i] == Settle(Started(q[i]), replies[k])
    ensures forall i :: 0 <= i < |q| && !InBatchOf(pend, q[i]) ==> RunAll(q, pend, replies)[i] == q[i]
    decreases |pend|
  {
    if pend != [] {
      var id := pend[0].id;
      var q1 := ConvertOne(q, id, replies[0]);
      var rest := pend[1..];
      assert forall i :: 0 <= i < |q| ==> q1[i] == if q[i].id == id then Settle(Started(q[i]), replies[0]) else q[i];
      assert UniqueIds(rest);
      RunAllEffect(q1, rest, replies[1..]);
      var r := RunAll(q, pend, replies);
      forall i, k | 0 <= i < |q| && 0 <= k < |pend| && q[i].id == pend[k].id
        ensures r[i] == Settle(Started(q[i]), replies[k])
      {
        if k == 0 {
          assert !InBatchOf(rest, q1[i]);
        } else {
          assert rest[k - 1] == pend[k] && replies[1..][k - 1] == replies[k];
        }
      }
    }
  }

  /** The entries of a queue with unique ids that are pending have unique
      ids, and an entry belongs to the batch of pending entries exactly when
      it is pending. */
  lemma PendingBatch(files: seq<QueueFile>)
    requires UniqueIds(files)
    ensures UniqueIds(PendingOf(files))
    ensures forall i :: 0 <= i < |files| ==> (InBatchOf(PendingOf(files), files[i]) <==> files[i].status == Pending)
  {
    var pend := PendingOf(files);
    var ks := Positions(files, IsPending);
    FilterAt(files, IsPending);
    forall a, b | 0 <= a < b < |pend|
      ensures pend[a].id != pend[b].id
    {
      assert pend[a] == files[ks[a]] && pend[b] == files[ks[b]] && ks[a] < ks[b];
    }
    forall i | 0 <= i < |files|
      ensures InBatchOf(pend, files[i]) <==> files[i].status == Pending
    {
      if files[i].status == Pending {
        assert i in ks;
        var a :| 0 <= a < |ks| && ks[a] == i;
        assert pend[a] == files[i];
      }
      if InBatchOf(pend, files[i]) {
        var k :| 0 <= k < |pend| && pend[k].id == files[i].id;
        assert pend[k] == files[ks[k]];
        assert ks[k] == i;
      }
    }
  }

  /** The batch, stated outright: an entry that was pending ends done when
      its reply reports success and failed otherwise, keeping its id, name
      and path; every other entry is unchanged. */
  lemma ConvertAllOutcome(files: seq<QueueFile>, replies: seq<Reply>)
    requires UniqueIds(files) && |replies| == |PendingOf(files)|
    ensures var pend := PendingOf(files);
      var r := RunAll(files, pend, replies);
      && (forall i :: 0 <= i < |files| && files[i].status != Pending ==> r[i] == files[i])
      && (forall i, k :: 0 <= i < |files| && 0 <= k < |pend| && files[i].id == pend[k].id ==>
            && (r[i].status == Done <==> Succeeded(replies[k]))
            && (r[i].status == Error <==> !Succeeded(replies[k]))
            && r[i].id == files[i].id && r[i].name == files[i].name && r[i].path == files[i].path)
  {
    PendingBatch(files);
    RunAllEffect(files, PendingOf(files), replies);
  }

  /** A filtered list is non-empty exactly when some element is accepted. */
  lemma FilterNonEmpty<T>(xs: seq<T>, keep: T -> bool)
    ensures |Filter(xs, keep)| > 0 <==> exists x :: x in xs && keep(x)
  {
    FilterMembers(xs, keep);
    if |Filter(xs, keep)| > 0 {
      assert Filter(xs, keep)[0] in Filter(xs, keep);
    }
  }

  /** Finding: the view computes the toast from the queue it held when the
      batch started, in which every entry of the batch is still pending, so
      no toast is ever shown. */
  lemma ToastAsWrittenSilent(files: seq<QueueFile>)
    requires UniqueIds(files)
    ensures ToastAsWritten(files, PendingOf(files)) == NoToast
  {
    var pend := PendingOf(files);
    var results := Filter(files, InBatch(pend));
    PendingBatch(files);
    FilterMembers(files, InBatch(pend));
    FilterNonEmpty(results, IsDone);
    forall x | x in results
      ensures !IsDone(x)
    {
      var i :| 0 <= i < |files| && files[i] == x;
    }
  }

  /** The status of an entry agrees with the reply it got. */
  predicate Reflects(x: QueueFile, reply: Reply)
  {
    (x.status == Done <==> Succeeded(reply)) && (x.status == Error <==> !Succeeded(reply))
  }

  /** Every entry of the batch in the final queue reflects one of the
      replies. */
  lemma BatchEntryReplied(files: seq<QueueFile>, replies: seq<Reply>, x: QueueFile)
    requires UniqueIds(files) && |replies| == |PendingOf(files)|
    requires x in RunAll(files, PendingOf(files), replies) && InBatchOf(PendingOf(files), x)
    ensures exists k :: 0 <= k < |replies| && Reflects(x, replies[k])
  {
    var pend := PendingOf(files);
    var r := RunAll(files, pend, replies);
    PendingBatch(files);
    RunAllEffect(files, pend, replies);
    var i :| 0 <= i < |r| && r[i] == x;
    var k :| 0 <= k < |pend| && pend[k].id == x.id;
    assert files[i].id == pend[k].id;
    assert Reflects(x, replies[k]);
  }

  /** Every reply is reflected by an entry of the batch in the final queue. */
  lemma BatchReplyEntered(files: seq<QueueFile>, replies: seq<Reply>, k: nat)
    requires UniqueIds(files) && |replies| == |PendingOf(files)| && k < |replies|
    ensures var pend := PendingOf(files);
      exists x :: x in RunAll(files, pend, replies) && InBatchOf(pend, x) && Reflects(x, replies[k])
  {
    var pend := PendingOf(files);
    var r := RunAll(files, pend, replies);
    PendingBatch(files);
    RunAllEffect(files, pend, replies);
    FilterAt(files, IsPending);
    var i := Positions(files, IsPending)[k];
    assert files[i] == pend[k];
    assert r[i].id == pend[k].id;
    assert r[i] in r && InBatchOf(pend, r[i]) && Reflects(r[i], replies[k]);
  }

  /** The corrected toast after a batch is shown exactly when some conversion
      succeeded. */
  lemma ToastFromQueueShown(files: seq<QueueFile>, replies: seq<Reply>)
    requires UniqueIds(files) && |replies| == |PendingOf(files)|
    ensures ToastFromQueue(RunAll(files, PendingOf(files), replies), PendingOf(files)) != NoToast
      <==> exists k :: 0 <= k < |replies| && Succeeded(replies[k])
  {
    var pend := PendingOf(files);
    var r := RunAll(files, pend, replies);
    var results := Filter(r, InBatch(pend));
    FilterMembers(r, InBatch(pend));
    FilterNonEmpty(results, IsDone);
    if exists k :: 0 <= k < |replies| && Succeeded(replies[k]) {
      var k :| 0 <= k < |replies| && Succeeded(replies[k]);
      BatchReplyEntered(files, replies, k);
      var x :| x in r && InBatchOf(pend, x) && Reflects(x, replies[k]);
      assert x in results && IsDone(x);
    }
    if |Filter(results, IsDone)| > 0 {
      var x :| x in results && IsDone(x);
      BatchEntryReplied(files, replies, x);
    }
  }

  /** The corrected toast after a batch is the success toast exactly when the
      batch was not empty and every conversion succeeded. */
  lemma ToastFromQueueSuccess(files: seq<QueueFile>, replies: seq<Reply>)
    requires UniqueIds(files) && |replies| == |PendingOf(files)|
    ensures ToastFromQueue(RunAll(files, PendingOf(files), replies), PendingOf(files)).SuccessToast?
      <==> |replies| > 0 && forall k :: 0 <= k < |replies| ==> Succeeded(replies[k])
  {
    var pend := PendingOf(files);
    var r := RunAll(files, pend, replies);
    var results := Filter(r, InBatch(pend));
    ToastFromQueueShown(files, replies);
    FilterMembers(r, InBatch(pend));
    FilterNonEmpty(results, IsError);
    if exists k :: 0 <= k < |replies| && !Succeeded(replies[k]) {
      var k :| 0 <= k < |replies| && !Succeeded(replies[k]);
      BatchReplyEntered(files, replies, k);
      var x :| x in r && InBatchOf(pend, x) && Reflects(x, replies[k]);
      assert x in results && IsError(x);
    }
    if |Filter(results, IsError)| > 0 {
      var x :| x in results && IsError(x);
      BatchEntryReplied(files, replies, x);
    }
  }

  /** Finding, on one pending file whose conversion succeeds: the view shows
      no toast, where the toast computed from the final queue is the success
      toast. */
  lemma ToastExample()
    ensures var files := [QueueFile("f1", "book.mp3", "/in/book.mp3", 1000, Pending, 0.0, None, None)];
      var replies := [Settled(true, Some("/in/book.m4b"), None)];
      && ToastAsWritten(files, PendingOf(files)) == NoToast
      && ToastFromQueue(RunAll(files, PendingOf(files), replies), PendingOf(files)).SuccessToast?
  {
    var files := [QueueFile("f1", "book.mp3", "/in/book.mp3", 1000, Pending, 0.0, None, None)];
    var replies := [Settled(true, Some("/in/book.m4b"), None)];
    assert PendingOf(files) == files by {
      FilterAll(files, IsPending);
    }
    ToastAsWrittenSilent(files);
    ToastFromQueueSuccess(files, replies);
  }
}
