/** The call lifecycle of controllers/callController.js: the incoming-call prompt, extension
    routing, and the recording and status webhooks that update the `Call` table. The voice
    markup the telephony provider receives is an abstract list of verbs. */
module CallController {
  import opened Http
  import opened Store
  import opened CallModel
  import opened ExtensionModel

  /** One instruction of a voice response. */
  datatype Verb =
    | Say(text: string)
    | Gather(numDigits: nat, action: string, httpMethod: string)
    | Dial(number: string, record: string, action: string, statusCallbackEvent: seq<string>, httpMethod: string)

  /** What a handler answers. `Voice` is a 200 voice-markup document; `StatusUpdated` is the
      JSON `{ success: true, message }`; `Logs` is the JSON array of calls. */
  datatype Reply =
    | Voice(verbs: seq<Verb>)
    | StatusUpdated(success: bool, message: string)
    | Logs(calls: seq<Call>)
    | Failure(code: nat, error: string)

  const WelcomeText := "Welcome! Please enter your extension followed by the pound key."
  const InvalidExtensionText := "Invalid extension. Please try again."
  const HandleExtensionPath := "/api/calls/handle-extension"
  const RecordingPath := "/api/calls/recording"
  const MissingDigitsError := "Extension input is missing."
  const InvalidRecordingError := "Invalid recording data."
  const MissingCallSidError := "CallSid is missing."
  const InternalError := "Internal server error."
  const StatusUpdatedText := "Call status updated."

  /** The gather that asks for a three-digit extension and posts it back to `handleExtension`. */
  function ExtensionPrompt(serverUrl: string): Verb
  {
    Gather(3, serverUrl + HandleExtensionPath, "POST")
  }

  /** `incomingCall`: greet the caller, then collect three digits for `/api/calls/handle-extension`. */
  function IncomingCall(serverUrl: string): (r: Reply)
    ensures r.Voice? && |r.verbs| == 2 && r.verbs[0] == Say(WelcomeText)
    ensures r.verbs[1].Gather? && r.verbs[1].numDigits == 3 && r.verbs[1].httpMethod == "POST"
    ensures r.verbs[1].action == serverUrl + "/api/calls/handle-extension"
  {
    Voice([Say(WelcomeText), ExtensionPrompt(serverUrl)])
  }

  /** The answer to an unknown extension: an apology followed by the very same gather the
      incoming-call prompt ends with, so the caller loops back to `handleExtension`. */
  function RetryPrompt(serverUrl: string): (r: Reply)
    ensures r.Voice? && |r.verbs| == 2 && r.verbs[0] == Say(InvalidExtensionText)
    ensures r.verbs[1..] == IncomingCall(serverUrl).verbs[1..]
    ensures forall v :: v in r.verbs ==> !v.Dial?
  {
    Voice([Say(InvalidExtensionText), ExtensionPrompt(serverUrl)])
  }

  /** The answer to a known extension: announce it, then bridge the call to `number`, recording
      from answer and posting the recording callback to `/api/calls/recording`. No status
      callback URL is subscribed. */
  function ConnectReply(digits: string, number: string, serverUrl: string): (r: Reply)
    ensures r.Voice? && |r.verbs| == 2 && r.verbs[0] == Say("Connecting you to extension " + digits + ".")
    ensures r.verbs[1].Dial? && r.verbs[1].number == number && r.verbs[1].record == "record-from-answer"
    ensures r.verbs[1].action == serverUrl + "/api/calls/recording"
    ensures r.verbs[1].statusCallbackEvent == ["completed"] && r.verbs[1].httpMethod == "POST"
    ensures forall v :: v in r.verbs ==> !v.Gather?
  {
    Voice([Say("Connecting you to extension " + digits + "."),
           Dial(number, "record-from-answer", serverUrl + RecordingPath, ["completed"], "POST")])
  }

  /** `Extension.findOne({ where: { extension: code } })` over the directory in table order. */
  function FindEntry(directory: seq<Extension>, code: string): Option<nat>
  {
    FindFirst(directory, (e: Extension) => e.extension == code)
  }

  /** The update a recording callback runs: the call is completed and its recording known. */
  function RecordingPatch(recordingUrl: string): (p: Patch)
    ensures p.status == "completed" && p.recordingUrl == Some(recordingUrl)
  {
    Patch("completed", Some(recordingUrl))
  }

  /** The update a status callback runs: the reported status, or "completed" when none is
      reported; the recording URL is left alone. */
  function StatusPatch(callStatus: Option<string>): (p: Patch)
    ensures Truthy(callStatus) ==> p.status == callStatus.value
    ensures !Truthy(callStatus) ==> p.status == "completed"
    ensures p.recordingUrl.None?
  {
    Patch(OrElse(callStatus, "completed"), None)
  }

  /** A recording callback followed by a status callback for the same call: every row of that
      call ends with the recording URL and the status written last; the other rows and the
      other columns are untouched. */
  lemma RecordingThenStatus(rows: seq<Call>, sid: string, url: string, callStatus: Option<string>, t1: int, t2: int)
    ensures var after := UpdateWhere(UpdateWhere(rows, sid, RecordingPatch(url), t1), sid, StatusPatch(callStatus), t2);
      |after| == |rows| &&
      forall i :: 0 <= i < |rows| ==>
        after[i] == if rows[i].callSid == sid
                    then rows[i].(status := OrElse(callStatus, "completed"), recordingUrl := Some(url), updatedAt := t2)
                    else rows[i]
  {
  }

  /** A status callback followed by a recording callback for the same call: every row of that
      call ends with the recording URL and status "completed", whatever status was reported
      first; the other rows and the other columns are untouched. */
  lemma StatusThenRecording(rows: seq<Call>, sid: string, url: string, callStatus: Option<string>, t1: int, t2: int)
    ensures var after := UpdateWhere(UpdateWhere(rows, sid, StatusPatch(callStatus), t1), sid, RecordingPatch(url), t2);
      |after| == |rows| &&
      forall i :: 0 <= i < |rows| ==>
        after[i] == if rows[i].callSid == sid
                    then rows[i].(status := "completed", recordingUrl := Some(url), updatedAt := t2)
                    else rows[i]
  {
  }

  /** The `Call` table: its rows in insertion order and the next key to hand out. */
  class CallLog {
    var rows: seq<Call>
    var nextId: nat

    /** Keys increase along the table and lie below the next key. */
    ghost predicate Valid()
      reads this
    {
      && (forall i, j :: 0 <= i < j < |rows| ==> rows[i].id < rows[j].id)
      && (forall i :: 0 <= i < |rows| ==> rows[i].id < nextId)
    }

    constructor ()
      ensures Valid() && rows == [] && nextId == 1
    {
      rows := [];
      nextId := 1;
    }

    /** `handleExtension`: reject missing digits, re-prompt for an unknown extension, or dial
        the entry's number and log exactly one new `ongoing` call. `directory` is the
        `Extension` table in key order; `storeFails` says that the store raises an error;
        `now` is the insertion time. */
    method HandleExtension(directory: seq<Extension>, digits: Option<string>, from: Option<string>,
                           callSid: Option<string>, serverUrl: string, now: int, storeFails: bool)
      returns (reply: Reply)
      requires Valid()
      modifies this
      ensures Valid()
      ensures !Truthy(digits) ==>
        reply == Failure(400, MissingDigitsError) && rows == old(rows) && nextId == old(nextId)
      ensures Truthy(digits) && storeFails ==>
        reply == Failure(500, InternalError) && rows == old(rows) && nextId == old(nextId)
      ensures Truthy(digits) && !storeFails && FindEntry(directory, digits.value).None? ==>
        reply == RetryPrompt(serverUrl) && rows == old(rows) && nextId == old(nextId)
      ensures Truthy(digits) && !storeFails && FindEntry(directory, digits.value).Some? ==>
        var entry := directory[FindEntry(directory, digits.value).value];
        if from.Some? && callSid.Some? then
          && reply == ConnectReply(digits.value, entry.number, serverUrl)
          && rows == old(rows) + [Call(old(nextId), from.value, entry.number, Some(digits.value),
                                       callSid.value, "ongoing", None, now, now)]
          && nextId == old(nextId) + 1
        else
          reply == Failure(500, InternalError) && rows == old(rows) && nextId == old(nextId)
    {
      if !Truthy(digits) {
        return Failure(400, MissingDigitsError);
      }
      if storeFails {
        return Failure(500, InternalError);
      }
      var found := FindEntry(directory, digits.value);
      if found.None? {
        return RetryPrompt(serverUrl);
      }
      var entry := directory[found.value];
      var twiml := ConnectReply(digits.value, entry.number, serverUrl);
      var created := Create(nextId, Attributes(from, Some(entry.number), digits, callSid, Some("ongoing"), None), now);
      if created.None? {
        return Failure(500, InternalError);
      }
      rows := rows + [created.value];
      nextId := nextId + 1;
      reply := twiml;
    }

    /** `saveRecording`: with both fields present, mark every call with that `callSid` completed
        and store its recording URL, answering an empty voice response even when no row
        matches. */
    method SaveRecording(callSid: Option<string>, recordingUrl: Option<string>, now: int, storeFails: bool)
      returns (reply: Reply)
      requires Valid()
      modifies this
      ensures Valid() && nextId == old(nextId)
      ensures !Truthy(callSid) || !Truthy(recordingUrl) ==>
        reply == Failure(400, InvalidRecordingError) && rows == old(rows)
      ensures Truthy(callSid) && Truthy(recordingUrl) && storeFails ==>
        reply == Failure(500, InternalError) && rows == old(rows)
      ensures Truthy(callSid) && Truthy(recordingUrl) && !storeFails ==>
        reply == Voice([]) && rows == UpdateWhere(old(rows), callSid.value, RecordingPatch(recordingUrl.value), now)
    {
      if !Truthy(callSid) || !Truthy(recordingUrl) {
        return Failure(400, InvalidRecordingError);
      }
      if storeFails {
        return Failure(500, InternalError);
      }
      rows := UpdateWhere(rows, callSid.value, RecordingPatch(recordingUrl.value), now);
      reply := Voice([]);
    }

    /** `callStatusUpdate`: with a `callSid`, set the status of every call with that `callSid`
        to the reported status (or "completed") and answer success, whether or not a row
        matched. */
    method CallStatusUpdate(callSid: Option<string>, callStatus: Option<string>, now: int, storeFails: bool)
      returns (reply: Reply)
      requires Valid()
      modifies this
      ensures Valid() && nextId == old(nextId)
      ensures !Truthy(callSid) ==> reply == Failure(400, MissingCallSidError) && rows == old(rows)
      ensures Truthy(callSid) && storeFails ==> reply == Failure(500, InternalError) && rows == old(rows)
      ensures Truthy(callSid) && !storeFails ==>
        reply == StatusUpdated(true, StatusUpdatedText) &&
        rows == UpdateWhere(old(rows), callSid.value, StatusPatch(callStatus), now)
    {
      if !Truthy(callSid) {
        return Failure(400, MissingCallSidError);
      }
      if storeFails {
        return Failure(500, InternalError);
      }
      rows := UpdateWhere(rows, callSid.value, StatusPatch(callStatus), now);
      reply := StatusUpdated(true, StatusUpdatedText);
    }

    /** `getCallLogs`: every call, unfiltered and unpaginated, without changing the table; each
        call is listed once, in key order. */
    method GetCallLogs(storeFails: bool) returns (reply: Reply)
      requires Valid()
      ensures storeFails ==> reply == Failure(500, InternalError)
      ensures !storeFails ==> reply.Logs? && reply.calls == rows
      ensures !storeFails ==> forall i, j :: 0 <= i < j < |reply.calls| ==> reply.calls[i].id < reply.calls[j].id
    {
      if storeFails {
        return Failure(500, InternalError);
      }
      reply := Logs(rows);
    }
  }
}
