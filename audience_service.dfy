/**
 * The audience service of the backend (mailchimp-backend/services/audience.js):
 * adding one subscriber, the CSV bulk import without a local store,
 * creating a segment and adding members to it.
 */
module AudienceService {
  import opened Wrappers
  import opened Js
  import opened Remote
  import opened ImportRows

  /** One remote call and what the service function returns, or the message of the Error it throws. */
  datatype Attempt<+T> = Attempt(call: Call, result: Result<T, string>)

  const AddSubscriberPrefix := "Failed to add subscriber: "
  const BulkImportPrefix := "Failed to bulk import: "
  const CreateSegmentPrefix := "Failed to create segment: "

  /** `addSubscriber(listId, email, fields = {})` */
  function AddSubscriber(listId: string, email: string, fields: Option<map<string, string>>, reply: Reply<MemberRecord>): (a: Attempt<MemberRecord>)
    ensures a.call.ListsAddMember? && a.call.listId == listId
    ensures a.call.member.emailAddress == email && a.call.member.status == "subscribed"
    ensures a.call.member.mergeFields == (if fields.Some? then fields.value else map[])
    ensures a.result.Success? <==> reply.Ok?
    ensures reply.Ok? ==> a.result.value == reply.value
    ensures reply.Rejected? ==> a.result.error == AddSubscriberPrefix + reply.error.message
  {
    var call := ListsAddMember(listId, MemberRequest(email, "subscribed", if fields.Some? then fields.value else map[]));
    match reply
    case Ok(member) => Attempt(call, Success(member))
    case Rejected(e) => Attempt(call, Failure(AddSubscriberPrefix + e.message))
  }

  /** One row of `bulkImport`; the rejection text carries addSubscriber's own prefix. */
  function BulkRowVerdict(listId: string, row: Row, reply: Reply<MemberRecord>): (v: Verdict)
    ensures !HasEmail(row) ==> v == Failed(MissingEmail)
    ensures HasEmail(row) ==> (v.Succeeded? <==> reply.Ok?)
    ensures HasEmail(row) && reply.Rejected? ==>
      v == Failed(ErrorAdding(Email(row), AddSubscriberPrefix + reply.error.message))
  {
    if !HasEmail(row) then Failed(MissingEmail)
    else
      match AddSubscriber(listId, Email(row), Some(map["FNAME" := FirstName(row), "LNAME" := LastName(row)]), reply).result
      case Success(_) => Succeeded
      case Failure(message) => Failed(ErrorAdding(Email(row), message))
  }

  function BulkVerdicts(listId: string, rows: seq<Row>, replies: seq<Reply<MemberRecord>>): (vs: seq<Verdict>)
    requires |replies| == |rows|
  {
    seq(|rows|, i requires 0 <= i < |rows| => BulkRowVerdict(listId, rows[i], replies[i]))
  }

  /**
   * `bulkImport(listId, file)`: `parsed` is what reading the CSV resolved to
   * (the rows) or rejected with (a message); `replies[i]` is the API's reply
   * to row i's add-member call, if the row makes one.
   */
  method BulkImport(listId: string, parsed: Result<seq<Row>, string>, replies: seq<Reply<MemberRecord>>)
    returns (r: Result<ImportResult, string>, calls: seq<Call>)
    requires parsed.Success? ==> |replies| == |parsed.value|
    ensures parsed.Failure? ==> r == Failure(BulkImportPrefix + parsed.error) && calls == []
    ensures parsed.Success? ==> r == Success(Summary(BulkVerdicts(listId, parsed.value, replies)))
    ensures parsed.Success? ==> calls == ImportCalls(listId, parsed.value)
  {
    calls := [];
    if parsed.Failure? {
      r := Failure(BulkImportPrefix + parsed.error);
      return;
    }
    var rows := parsed.value;
    ghost var vs := BulkVerdicts(listId, rows, replies);
    var success: nat, failed: nat, errors: seq<string> := 0, 0, [];
    var i := 0;
    while i < |rows|
      invariant 0 <= i <= |rows|
      invariant success == Successes(vs[..i])
      invariant errors == Errors(vs[..i]) && failed == |errors|
      invariant calls == ImportCalls(listId, rows[..i])
    {
      ImportCallsStep(listId, rows, i);
      var row := rows[i];
      if !HasEmail(row) {
        FailedStep(vs, i, MissingEmail);
        failed := failed + 1;
        errors := errors + [MissingEmail];
      } else {
        var a := AddSubscriber(listId, Email(row), Some(map["FNAME" := FirstName(row), "LNAME" := LastName(row)]), replies[i]);
        calls := calls + [a.call];
        match a.result {
          case Success(_) =>
            SucceededStep(vs, i);
            success := success + 1;
          case Failure(message) =>
            FailedStep(vs, i, ErrorAdding(Email(row), message));
            failed := failed + 1;
            errors := errors + [ErrorAdding(Email(row), message)];
        }
      }
      i := i + 1;
    }
    assert vs[..|rows|] == vs && rows[..|rows|] == rows;
    r := Success(ImportResult(success, failed, errors));
  }

  /** `createSegment(listId, name, conditions)`: match is always 'all', conditions default to []. */
  function CreateSegment(listId: string, name: string, conditions: Option<seq<Condition>>, reply: Reply<SegmentRecord>): (a: Attempt<SegmentRecord>)
    ensures a.call.ListsCreateSegment? && a.call.listId == listId && a.call.segment.name == name
    ensures a.call.segment.matchMode == "all"
    ensures a.call.segment.conditions == (if conditions.Some? then conditions.value else [])
    ensures a.result.Success? <==> reply.Ok?
    ensures reply.Ok? ==> a.result.value == reply.value
    ensures reply.Rejected? ==> a.result.error == CreateSegmentPrefix + reply.error.message
  {
    var call := ListsCreateSegment(listId, SegmentRequest(name, "all", if conditions.Some? then conditions.value else []));
    match reply
    case Ok(segment) => Attempt(call, Success(segment))
    case Rejected(e) => Attempt(call, Failure(CreateSegmentPrefix + e.message))
  }

  /** One email of `addMembersToSegment`. */
  function SegmentVerdict(email: string, reply: Reply<Ack>): (v: Verdict)
    ensures v.Succeeded? <==> reply.Ok?
    ensures reply.Rejected? ==> v == Failed(ErrorAdding(email, reply.error.message))
  {
    match reply
    case Ok(_) => Succeeded
    case Rejected(e) => Failed(ErrorAdding(email, e.message))
  }

  function SegmentVerdicts(emails: seq<string>, replies: seq<Reply<Ack>>): seq<Verdict>
    requires |replies| == |emails|
  {
    seq(|emails|, i requires 0 <= i < |emails| => SegmentVerdict(emails[i], replies[i]))
  }

  /**
   * `addMembersToSegment(listId, segmentId, emails)`: one call per email, in
   * order, whatever the earlier calls answered.
   */
  method AddMembersToSegment(listId: string, segmentId: string, emails: seq<string>, replies: seq<Reply<Ack>>)
    returns (r: ImportResult, calls: seq<Call>)
    requires |replies| == |emails|
    ensures r == Summary(SegmentVerdicts(emails, replies))
    ensures |calls| == |emails|
    ensures forall i | 0 <= i < |emails| :: calls[i] == ListsAddSegmentMember(listId, segmentId, emails[i])
  {
    ghost var vs := SegmentVerdicts(emails, replies);
    var success: nat, failed: nat, errors: seq<string> := 0, 0, [];
    calls := [];
    var i := 0;
    while i < |emails|
      invariant 0 <= i <= |emails|
      invariant success == Successes(vs[..i])
      invariant errors == Errors(vs[..i]) && failed == |errors|
      invariant |calls| == i
      invariant forall j | 0 <= j < i :: calls[j] == ListsAddSegmentMember(listId, segmentId, emails[j])
    {
      calls := calls + [ListsAddSegmentMember(listId, segmentId, emails[i])];
      match replies[i] {
        case Ok(_) =>
          SucceededStep(vs, i);
          success := success + 1;
        case Rejected(e) =>
          FailedStep(vs, i, ErrorAdding(emails[i], e.message));
          failed := failed + 1;
          errors := errors + [ErrorAdding(emails[i], e.message)];
      }
      i := i + 1;
    }
    assert vs[..|emails|] == vs;
    r := ImportResult(success, failed, errors);
  }
}
