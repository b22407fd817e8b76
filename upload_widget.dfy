/**
 * The upload widget: choosing a file (checked against an extension allow-list),
 * uploading it, and following the ingestion job the backend creates by polling its
 * status on a single timer until the job completes or fails.
 */
module Upload {
  import opened Wrappers
  import opened JsValue
  import opened Api
  import JsText

  /** The accepted extensions, in the order the widget lists them. */
  const Accepted: seq<string> := [".pdf", ".docx", ".txt", ".csv", ".xlsx"]

  /** `ACCEPTED.join(', ')`, the allow-list as the widget shows it. */
  const AllowedText: string := JsText.JoinWith(Accepted, ", ")

  /** The extension a file name is checked by: a dot and the lower-cased text after the name's last dot. */
  function Extension(name: string): (ext: string)
    ensures |ext| >= 1 && ext[0] == '.' && '.' !in ext[1..]
    ensures forall k :: 1 <= k < |ext| ==> !('A' <= ext[k] <= 'Z')
  {
    "." + JsText.ToLowerAscii(JsText.LastSegment(name))
  }

  /** A name with dots is judged by the text after its last dot alone, whatever comes before. */
  lemma {:induction false} ExtensionAfterLastDot(stem: string, tail: string)
    requires '.' !in tail
    ensures Extension(stem + "." + tail) == "." + JsText.ToLowerAscii(tail)
  {
    JsText.SegmentStartAfterDot(stem, tail);
    assert (stem + "." + tail)[|stem| + 1..] == tail;
  }

  /** A name without a dot is judged as a whole. */
  lemma {:induction false} ExtensionWithoutDot(name: string)
    requires '.' !in name
    ensures Extension(name) == "." + JsText.ToLowerAscii(name)
  {
    JsText.SegmentStartNoDot(name);
  }

  /** The allow-list text is the five extensions separated by a comma and a space. */
  lemma AllowedTextValue()
    ensures AllowedText == ".pdf, .docx, .txt, .csv, .xlsx"
  {
    var sep := ", ";
    calc {
      AllowedText;
      JsText.JoinWith([".pdf"] + [".docx", ".txt", ".csv", ".xlsx"], sep);
      { JsText.JoinWithCons(".pdf", [".docx", ".txt", ".csv", ".xlsx"], sep); }
      ".pdf" + sep + JsText.JoinWith([".docx"] + [".txt", ".csv", ".xlsx"], sep);
      { JsText.JoinWithCons(".docx", [".txt", ".csv", ".xlsx"], sep); }
      ".pdf" + sep + ".docx" + sep + JsText.JoinWith([".txt"] + [".csv", ".xlsx"], sep);
      { JsText.JoinWithCons(".txt", [".csv", ".xlsx"], sep); }
      ".pdf" + sep + ".docx" + sep + ".txt" + sep + JsText.JoinWith([".csv"] + [".xlsx"], sep);
      { JsText.JoinWithCons(".csv", [".xlsx"], sep); }
      ".pdf" + sep + ".docx" + sep + ".txt" + sep + ".csv" + sep + JsText.JoinWith([".xlsx"], sep);
      ".pdf, .docx, .txt, .csv, .xlsx";
    }
  }

  /** What picking a file does: nothing without a file, an error for a refused extension, or a choice. */
  datatype Pick = Ignored | Rejected(message: string) | Chosen(file: File)

  /**
   * The decision `onFilePicked` makes: an absent file is ignored, a file whose extension is
   * not on the allow-list is rejected with a message naming the extension and the list,
   * and any other file is chosen.
   */
  function PickFile(f: Option<File>): (p: Pick)
    ensures p.Ignored? <==> f.None?
    ensures p.Chosen? <==> f.Some? && Extension(f.value.name) in Accepted
    ensures p.Chosen? ==> p.file == f.value
    ensures p.Rejected? ==> p.message == RejectionMessage(Extension(f.value.name))
  {
    if f.None? then Ignored
    else
      var ext := Extension(f.value.name);
      if ext !in Accepted then Rejected(RejectionMessage(ext)) else Chosen(f.value)
  }

  /** The error for a refused extension names the extension and the whole allow-list. */
  function RejectionMessage(ext: string): (m: string)
    ensures m == "Unsupported file type: " + ext + ". Allowed: .pdf, .docx, .txt, .csv, .xlsx"
  {
    AllowedTextValue();
    "Unsupported file type: " + ext + ". Allowed: " + AllowedText
  }

  /** The file `e.dataTransfer.files?.[0]` or `e.target.files?.[0]` names: the first one, if any. */
  function FirstFile(files: seq<File>): (r: Option<File>)
    ensures r.None? <==> |files| == 0
    ensures r.Some? ==> r.value == files[0]
  {
    if |files| > 0 then Some(files[0]) else None
  }

  /** The widget's status record: a JavaScript object with `state`, `message`, `jobId`, `progress`, ... */
  type Status = map<string, Json>

  /** `status?.key` */
  function StatusField(status: Option<Status>, key: string): Option<Json> {
    if status.Some? && key in status.value then Some(status.value[key]) else None
  }

  /** The status shown while the upload request is in flight. */
  const UploadingStatus: Status := map["state" := JStr("uploading"), "message" := JStr("Uploading...")]

  /** The uploading status names no job, so it never starts polling. */
  lemma UploadingNotPolled()
    ensures StatusField(Some(UploadingStatus), "state") == Some(JStr("uploading"))
    ensures StatusField(Some(UploadingStatus), "jobId") == None && !PollWanted(Some(UploadingStatus))
  {
  }

  /** The status after an upload the backend queued as job `jobId`. */
  function QueuedStatus(jobId: Json): (s: Status)
    ensures StatusField(Some(s), "jobId") == Some(jobId)
    ensures StatusField(Some(s), "state") == Some(JStr("queued"))
    ensures PollWanted(Some(s)) <==> Truthy(jobId)
  {
    map["state" := JStr("queued"), "message" := JStr("Queued for processing"), "jobId" := jobId]
  }

  /** The status after an upload the backend finished at once, with its message or a default. */
  function CompletedStatus(resp: Json): (s: Status)
    ensures "jobId" !in s && !PollWanted(Some(s))
    ensures StatusField(Some(s), "state") == Some(JStr("completed"))
    ensures TruthyOpt(Field(resp, "message")) ==> StatusField(Some(s), "message") == Field(resp, "message")
    ensures !TruthyOpt(Field(resp, "message")) ==> StatusField(Some(s), "message") == Some(JStr("Upload completed"))
  {
    map["state" := JStr("completed"), "message" := Or(Field(resp, "message"), JStr("Upload completed"))]
  }

  /**
   * `{ ...prev, ...s }`: the poll response's properties overwrite the previous status,
   * and every property the response lacks keeps its previous value.
   */
  function Merge(prev: Status, s: map<string, Json>): (m: Status)
    ensures m.Keys == prev.Keys + s.Keys
    ensures forall k :: k in s ==> m[k] == s[k]
    ensures forall k :: k in prev && k !in s ==> m[k] == prev[k]
  {
    prev + s
  }

  /** The values the polling effect depends on: `status?.jobId` and `status?.state`. */
  function Deps(status: Option<Status>): (Option<Json>, Option<Json>) {
    (StatusField(status, "jobId"), StatusField(status, "state"))
  }

  /** The effect polls only for a status with a truthy job id whose state is `queued` or `processing`. */
  predicate PollWanted(status: Option<Status>)
    ensures PollWanted(status) ==> status.Some? && "jobId" in status.value && "state" in status.value
    ensures PollWanted(status) ==> status.value["state"] in {JStr("queued"), JStr("processing")}
  {
    TruthyOpt(StatusField(status, "jobId"))
    && StatusField(status, "state") in {Some(JStr("queued")), Some(JStr("processing"))}
  }

  /** The single timer slot: when the next poll fires and which job it asks about. */
  datatype PendingPoll = PendingPoll(delay: nat, jobId: Json)

  /** What the effect body schedules for a status: a poll after 1000 ms when one is wanted, else nothing. */
  function Scheduled(status: Option<Status>): (p: Option<PendingPoll>)
    ensures p.Some? <==> PollWanted(status)
    ensures p.Some? ==> p.value.delay == 1000 && Some(p.value.jobId) == StatusField(status, "jobId")
  {
    if PollWanted(status) then Some(PendingPoll(1000, StatusField(status, "jobId").value)) else None
  }

  /**
   * The timer after a render: when the job id or state changed, the effect's cleanup clears
   * the pending timer and the effect schedules afresh; otherwise the timer stays as it was.
   */
  function AfterRender(before: Option<Status>, after: Option<Status>, timer: Option<PendingPoll>): (r: Option<PendingPoll>)
    ensures Deps(before) == Deps(after) ==> r == timer
    ensures Deps(before) != Deps(after) ==> (r.Some? <==> PollWanted(after))
    ensures Deps(before) != Deps(after) && r.Some? ==>
      r.value.delay == 1000 && Some(r.value.jobId) == StatusField(after, "jobId")
  {
    if Deps(before) == Deps(after) then timer else Scheduled(after)
  }

  /** Whether a poll is wanted depends on the effect's dependencies alone. */
  lemma PollWantedByDeps(a: Option<Status>, b: Option<Status>)
    requires Deps(a) == Deps(b)
    ensures PollWanted(a) == PollWanted(b)
  {
  }

  /** The message V8 raises when the poll reads `state` of a `null` response. */
  const NullStateError: string := "Cannot read properties of null (reading 'state')"

  /** The state a poll response reports. */
  function ReportedState(v: Json): Option<Json> {
    Field(v, "state")
  }

  class UploadWidget {
    /** The chosen file. */
    var file: Option<File>
    /** An upload request is in flight. */
    var busy: bool
    /** The error shown, or "" for none. */
    var error: string
    /** The status shown, or `None` for `null`. */
    var status: Option<Status>
    /** The one pending poll timer. */
    var timer: Option<PendingPoll>
    /** The widget is on screen; after teardown it receives no further updates. */
    var mounted: bool
    /** An `onUploadComplete` callback was passed in. */
    const hasCallback: bool
    /** The values passed to `onUploadComplete`, in order. */
    var completions: seq<Json>
    /** The forms posted to the upload endpoint, in order. */
    var uploads: seq<seq<FormField>>
    /** The job ids whose status was requested, in order. */
    var statusRequests: seq<Json>

    /**
     * A pending poll belongs to the job shown in a status that still wants polling, and
     * while an upload is in flight the status says so and no poll is pending.
     */
    ghost predicate Valid()
      reads this
    {
      && (timer.Some? ==>
            mounted && PollWanted(status) && Some(timer.value.jobId) == StatusField(status, "jobId")
            && timer.value.delay in {1000, 1500})
      && (busy ==> status == Some(UploadingStatus) && timer.None?)
    }

    constructor (hasCallback: bool)
      ensures Valid() && this.hasCallback == hasCallback
      ensures file.None? && !busy && error == "" && status.None? && timer.None? && mounted
      ensures completions == [] && uploads == [] && statusRequests == []
    {
      this.hasCallback := hasCallback;
      file, busy, error, status, timer, mounted := None, false, "", None, None, true;
      completions, uploads, statusRequests := [], [], [];
    }

    /** The render that follows an event: React re-runs the polling effect if its dependencies changed. */
    method Render(before: Option<Status>)
      modifies this`timer
      ensures timer == AfterRender(before, status, old(timer))
    {
      if Deps(before) != Deps(status) {
        timer := Scheduled(status);
      }
    }

    /** `onFilePicked(f)` changes the file and the error as `PickFile(f)` decides, and nothing else. */
    twostate predicate PickedBy(f: Option<File>)
      reads this
    {
      Applied(PickFile(f))
    }

    /** The file and the error change as the pick `p` says, and nothing else. */
    twostate predicate Applied(p: Pick)
      reads this
    {
      && (match p
          case Ignored => file == old(file) && error == old(error)
          case Rejected(m) => file == old(file) && error == m
          case Chosen(g) => file == Some(g) && error == "")
      && busy == old(busy) && status == old(status) && timer == old(timer) && mounted == old(mounted)
      && completions == old(completions) && uploads == old(uploads)
      && statusRequests == old(statusRequests)
    }

    /** `onFilePicked`: the file input's change handler. */
    method PickFileEvent(f: Option<File>)
      requires Valid() && mounted
      modifies this
      ensures Valid() && PickedBy(f)
    {
      Apply(PickFile(f));
    }

    /** Carries out a pick decision: an error for a rejection, the file (and no error) for a choice. */
    method Apply(p: Pick)
      requires Valid() && mounted
      modifies this
      ensures Valid() && Applied(p)
    {
      match p
      case Ignored =>
      case Rejected(m) =>
        error := m;
      case Chosen(g) =>
        error := "";
        file := Some(g);
    }

    /** `onDrop`: a drop while an upload is in flight does nothing; otherwise its first file is picked. */
    method Drop(files: seq<File>)
      requires Valid() && mounted
      modifies this
      ensures Valid()
      ensures old(busy) ==> unchanged(this)
      ensures !old(busy) ==> PickedBy(FirstFile(files))
    {
      if busy {
        return;
      }
      PickFileEvent(FirstFile(files));
    }

    /**
     * The Upload button up to the backend call: without a file, or while busy (the button
     * is disabled), nothing happens; otherwise the widget turns busy, clears the error,
     * shows the uploading status and posts a form holding only the file.
     */
    method BeginUpload() returns (started: bool)
      requires Valid() && mounted
      modifies this
      ensures Valid()
      ensures started <==> old(file).Some? && !old(busy)
      ensures !started ==> unchanged(this)
      ensures started ==>
        && busy && error == "" && status == Some(UploadingStatus) && timer.None?
        && uploads == old(uploads) + [UploadForm(old(file).value, None)]
        && file == old(file) && mounted && completions == old(completions)
        && statusRequests == old(statusRequests)
    {
      if file.None? || busy {
        return false;
      }
      var before := status;
      busy := true;
      error := "";
      status := Some(UploadingStatus);
      uploads := uploads + [UploadForm(file.value, None)];
      Render(before);
      return true;
    }

    /**
     * The rest of `onUpload`, once the upload call settles. A response with a truthy `jobId`
     * queues the job and keeps the file; a response without one completes at once, hands the
     * response to the callback and clears the file; a raised error is shown and the status
     * cleared. The widget is never busy afterwards. A widget already torn down keeps its state
     * (React ignores the updates), but an immediate completion still reaches the callback.
     */
    method CompleteUpload(outcome: Outcome)
      requires Valid() && busy
      modifies this
      ensures Valid()
      ensures !old(mounted) ==>
        && file == old(file) && busy == old(busy) && error == old(error) && status == old(status)
        && timer == old(timer) && !mounted && uploads == old(uploads) && statusRequests == old(statusRequests)
        && completions == old(completions)
             + (if hasCallback && outcome.Returned? && !TruthyOpt(Field(outcome.value, "jobId"))
                then [outcome.value] else [])
      ensures old(mounted) ==> !busy && mounted && uploads == old(uploads) && statusRequests == old(statusRequests)
      ensures old(mounted) && outcome.Returned? && TruthyOpt(Field(outcome.value, "jobId")) ==>
        var jobId := Field(outcome.value, "jobId").value;
        && status == Some(QueuedStatus(jobId)) && timer == Some(PendingPoll(1000, jobId))
        && file == old(file) && error == old(error) && completions == old(completions)
      ensures old(mounted) && outcome.Returned? && !TruthyOpt(Field(outcome.value, "jobId")) ==>
        && status == Some(CompletedStatus(outcome.value)) && timer.None?
        && file.None? && error == old(error)
        && completions == old(completions) + (if hasCallback then [outcome.value] else [])
      ensures old(mounted) && outcome.Threw? ==>
        && error == MessageOr(outcome.message, "Upload failed") && status.None? && timer.None?
        && file == old(file) && completions == old(completions)
    {
      if !mounted {
        // React drops the state updates, but the callback still receives an immediate completion.
        if hasCallback && outcome.Returned? && !TruthyOpt(Field(outcome.value, "jobId")) {
          completions := completions + [outcome.value];
        }
        return;
      }
      var before := status;
      match outcome {
        case Returned(resp) =>
          var jobId := Field(resp, "jobId");
          if TruthyOpt(jobId) {
            status := Some(QueuedStatus(jobId.value));
          } else {
            status := Some(CompletedStatus(resp));
            if hasCallback {
              completions := completions + [resp];
            }
            file := None;
          }
        case Threw(m) =>
          error := MessageOr(m, "Upload failed");
          status := None;
      }
      busy := false;
      Render(before);
    }

    /**
     * The pending timer fires: the poll asks for the status of its job. A returned status is
     * merged over the shown one; `completed` hands the response to the callback and clears the
     * file, `failed` shows the response's message, and any other state sets the next poll
     * 1500 ms on. A raised error is shown and nothing is scheduled. With no timer pending
     * (none was set, or the widget was torn down) nothing happens.
     */
    method TimerFires(outcome: Outcome)
      requires Valid()
      modifies this
      ensures Valid()
      ensures old(timer).None? ==> unchanged(this)
      ensures old(timer).Some? ==>
        && statusRequests == old(statusRequests) + [old(timer).value.jobId]
        && busy == old(busy) && mounted == old(mounted) && uploads == old(uploads)
      ensures old(timer).Some? && outcome.Returned? && outcome.value.JNull? ==>
        && status == old(status) && error == NullStateError && timer.None?
        && file == old(file) && completions == old(completions)
      ensures old(timer).Some? && outcome.Returned? && !outcome.value.JNull? ==>
        status == Some(Merge(old(status).value, Spread(outcome.value)))
      ensures old(timer).Some? && outcome.Returned? && ReportedState(outcome.value) == Some(JStr("completed")) ==>
        && timer.None? && file.None? && error == old(error)
        && completions == old(completions) + (if hasCallback then [outcome.value] else [])
      ensures old(timer).Some? && outcome.Returned? && ReportedState(outcome.value) == Some(JStr("failed")) ==>
        && timer.None? && file == old(file) && completions == old(completions)
        && error == ToJsString(Or(Field(outcome.value, "message"), JStr("Ingestion failed")))
      ensures (old(timer).Some? && outcome.Returned? && !outcome.value.JNull?
               && ReportedState(outcome.value) !in {Some(JStr("completed")), Some(JStr("failed"))}) ==>
        && file == old(file) && error == old(error) && completions == old(completions)
        && timer == AfterRender(old(status), status, Some(PendingPoll(1500, old(timer).value.jobId)))
      ensures old(timer).Some? && outcome.Threw? ==>
        && error == MessageOr(outcome.message, "Status polling failed") && timer.None?
        && status == old(status) && file == old(file) && completions == old(completions)
    {
      if timer.None? {
        return;
      }
      var jobId := timer.value.jobId;
      var before := status;
      timer := None;
      statusRequests := statusRequests + [jobId];
      match outcome {
        case Returned(s) =>
          if s.JNull? {
            error := NullStateError;
          } else {
            ReceiveStatus(s, jobId);
          }
        case Threw(m) =>
          error := MessageOr(m, "Status polling failed");
      }
      Render(before);
    }

    /**
     * The poll's handling of a returned status `s` for job `jobId`, before the render: the
     * merge, then the reaction to the reported state.
     */
    method ReceiveStatus(s: Json, jobId: Json)
      requires status.Some? && timer.None?
      modifies this`status, this`file, this`error, this`completions, this`timer
      ensures status == Some(Merge(old(status).value, Spread(s)))
      ensures ReportedState(s) == Some(JStr("completed")) ==>
        && timer.None? && file.None? && error == old(error)
        && completions == old(completions) + (if hasCallback then [s] else [])
      ensures ReportedState(s) == Some(JStr("failed")) ==>
        && timer.None? && file == old(file) && completions == old(completions)
        && error == ToJsString(Or(Field(s, "message"), JStr("Ingestion failed")))
      ensures ReportedState(s) !in {Some(JStr("completed")), Some(JStr("failed"))} ==>
        && timer == Some(PendingPoll(1500, jobId))
        && file == old(file) && error == old(error) && completions == old(completions)
    {
      status := Some(Merge(status.value, Spread(s)));
      var state := ReportedState(s);
      if state == Some(JStr("completed")) {
        if hasCallback {
          completions := completions + [s];
        }
        file := None;
      } else if state == Some(JStr("failed")) {
        error := ToJsString(Or(Field(s, "message"), JStr("Ingestion failed")));
      } else {
        timer := Some(PendingPoll(1500, jobId));
      }
    }

    /** The Reset button: disabled while busy, otherwise it clears the file, the error and the status. */
    method Reset()
      requires Valid() && mounted
      modifies this
      ensures Valid()
      ensures old(busy) ==> unchanged(this)
      ensures !old(busy) ==>
        && file.None? && error == "" && status.None? && timer.None? && !busy && mounted
        && completions == old(completions) && uploads == old(uploads)
        && statusRequests == old(statusRequests)
    {
      if busy {
        return;
      }
      var before := status;
      file := None;
      error := "";
      status := None;
      Render(before);
    }

    /** Teardown: the effect's cleanup clears the pending timer, so no pending poll fires afterwards. */
    method Teardown()
      requires Valid() && mounted
      modifies this
      ensures Valid() && !mounted && timer.None?
      ensures file == old(file) && busy == old(busy) && error == old(error) && status == old(status)
      ensures completions == old(completions) && uploads == old(uploads)
      ensures statusRequests == old(statusRequests)
    {
      timer := None;
      mounted := false;
    }
  }

  /** A file named `notes.txt` passes the extension check. */
  lemma NotesTxtAccepted()
    ensures PickFile(Some(File("notes.txt", 10))) == Chosen(File("notes.txt", 10))
  {
    NotesTxtExtension();
    assert Extension("notes.txt") in Accepted;
  }

  /** The extension checked for `notes.txt` is `.txt`. */
  lemma NotesTxtExtension()
    ensures Extension("notes.txt") == ".txt"
  {
    calc {
      Extension("notes.txt");
      { assert "notes.txt" == "notes" + "." + "txt"; }
      Extension("notes" + "." + "txt");
      { ExtensionAfterLastDot("notes", "txt"); }
      "." + JsText.ToLowerAscii("txt");
      { assert JsText.ToLowerAscii("txt") == "txt"; }
      ".txt";
    }
  }

  /** A widget that has uploaded `notes.txt` and been told the upload was queued as job `j1`. */
  method QueuedWidget() returns (w: UploadWidget)
    ensures fresh(w) && w.Valid() && w.mounted && w.hasCallback && !w.busy
    ensures w.status == Some(QueuedStatus(JStr("j1"))) && w.timer == Some(PendingPoll(1000, JStr("j1")))
    ensures w.statusRequests == [] && w.completions == []
  {
    w := new UploadWidget(true);
    NotesTxtAccepted();
    w.PickFileEvent(Some(File("notes.txt", 10)));
    var started := w.BeginUpload();
    var r0 := JObj(map["jobId" := JStr("j1")]);
    assert Field(r0, "jobId") == Some(JStr("j1"));
    w.CompleteUpload(Returned(r0));
  }

  /**
   * Job `j1` reports processing at 10%, processing at 55%, then completion: three status
   * requests for `j1`, the first poll's state change re-arms the 1000 ms timer, the
   * unchanged state keeps the poll's own 1500 ms timer, the merged status keeps the job id
   * and the last progress, and the callback receives the last response.
   */
  method PollUntilCompleted() returns (status: Option<Status>, requests: seq<Json>, delivered: seq<Json>)
    ensures status.Some? && status.value.Keys == {"state", "message", "jobId", "progress"}
    ensures StatusField(status, "state") == Some(JStr("completed"))
    ensures StatusField(status, "message") == Some(JStr("done"))
    ensures StatusField(status, "jobId") == Some(JStr("j1"))
    ensures StatusField(status, "progress") == Some(JNum(55))
    ensures requests == [JStr("j1"), JStr("j1"), JStr("j1")]
    ensures delivered == [JObj(map["state" := JStr("completed"), "message" := JStr("done")])]
  {
    var w := QueuedWidget();
    var j1 := JStr("j1");
    var f1 := map["state" := JStr("processing"), "progress" := JNum(10)];
    var f2 := map["state" := JStr("processing"), "progress" := JNum(55)];
    var f3 := map["state" := JStr("completed"), "message" := JStr("done")];
    ProcessingPoll(w, JObj(f1), 1000);
    assert w.status == Some(Merge(QueuedStatus(j1), f1)) && w.statusRequests == [j1];
    ProcessingPoll(w, JObj(f2), 1500);
    assert w.status == Some(Merge(Merge(QueuedStatus(j1), f1), f2)) && w.statusRequests == [j1, j1];
    CompletedPoll(w, JObj(f3));
    MergedProgress();
    status, requests, delivered := w.status, w.statusRequests, w.completions;
  }

  /**
   * Merging the two progress reports and the completion into the queued status keeps the
   * job id and the last progress and takes the final state and message.
   */
  lemma MergedProgress()
    ensures var m := Merge(Merge(Merge(QueuedStatus(JStr("j1")),
                                       map["state" := JStr("processing"), "progress" := JNum(10)]),
                                 map["state" := JStr("processing"), "progress" := JNum(55)]),
                           map["state" := JStr("completed"), "message" := JStr("done")]);
      && m.Keys == {"state", "message", "jobId", "progress"}
      && m["state"] == JStr("completed") && m["message"] == JStr("done")
      && m["jobId"] == JStr("j1") && m["progress"] == JNum(55)
  {
    var m2 := Merge(Merge(QueuedStatus(JStr("j1")), map["state" := JStr("processing"), "progress" := JNum(10)]),
                    map["state" := JStr("processing"), "progress" := JNum(55)]);
    assert m2["jobId"] == JStr("j1") && m2["progress"] == JNum(55);
  }

  /** The poll of job `j1` that reports `completed`: merged in, polling stops, the callback receives it. */
  method CompletedPoll(w: UploadWidget, r: Json)
    requires w.Valid() && w.status.Some? && w.timer.Some? && w.timer.value.jobId == JStr("j1") && w.hasCallback
    requires r.JObj? && "state" in r.fields && r.fields["state"] == JStr("completed")
    modifies w
    ensures w.status == Some(Merge(old(w.status).value, r.fields)) && w.timer.None?
    ensures w.statusRequests == old(w.statusRequests) + [JStr("j1")] && w.completions == old(w.completions) + [r]
  {
    assert ReportedState(r) == Some(JStr("completed"));
    w.TimerFires(Returned(r));
  }

  /**
   * One poll of job `j1` that reports `processing`: the response is merged in, `j1` is
   * asked about once more, and the next poll is due after `delay`: 1000 ms when the state
   * changed (the effect re-arms), 1500 ms when it did not (the poll's own timer).
   */
  method ProcessingPoll(w: UploadWidget, r: Json, delay: nat)
    requires w.Valid() && w.status.Some? && w.timer.Some? && w.timer.value.jobId == JStr("j1")
    requires r.JObj? && r.fields.Keys == {"state", "progress"} && r.fields["state"] == JStr("processing")
    requires delay == if StatusField(w.status, "state") == Some(JStr("processing")) then 1500 else 1000
    modifies w
    ensures w.Valid() && w.status == Some(Merge(old(w.status).value, r.fields))
    ensures w.timer == Some(PendingPoll(delay, JStr("j1")))
    ensures w.statusRequests == old(w.statusRequests) + [JStr("j1")] && w.completions == old(w.completions)
  {
    assert ReportedState(r) == Some(JStr("processing"));
    w.TimerFires(Returned(r));
    assert StatusField(w.status, "jobId") == StatusField(old(w.status), "jobId");
  }

  /** A widget torn down while its first poll is pending asks for no status at all. */
  method TeardownBeforePoll() returns (requests: seq<Json>)
    ensures requests == []
  {
    var w := QueuedWidget();
    w.Teardown();
    w.TimerFires(Returned(JObj(map["state" := JStr("completed")])));
    requests := w.statusRequests;
  }

  /** A widget torn down while its upload is in flight still hands an immediate completion to the callback. */
  method TeardownDuringUpload() returns (delivered: seq<Json>, shown: Option<Status>)
    ensures delivered == [JObj(map["message" := JStr("ok")])]
    ensures shown == Some(UploadingStatus)
  {
    var w := new UploadWidget(true);
    NotesTxtAccepted();
    w.PickFileEvent(Some(File("notes.txt", 10)));
    var started := w.BeginUpload();
    w.Teardown();
    var r := JObj(map["message" := JStr("ok")]);
    assert Field(r, "jobId") == None;
    w.CompleteUpload(Returned(r));
    delivered, shown := w.completions, w.status;
  }
}
