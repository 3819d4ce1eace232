/**
 * The backend server's own handlers (mailchimp-backend/server.js): the
 * inline bulk-import route, which adds members without a local store, and
 * the two trailing middlewares, the 404 fallback and the error handler.
 */
module Server {
  import opened Wrappers
  import opened Js
  import opened Remote
  import opened ImportRows
  import opened Http

  /** One row of the inline import. */
  function InlineVerdict(row: Row, reply: Reply<MemberRecord>): (v: Verdict)
    ensures !HasEmail(row) ==> v == Failed(MissingEmail)
    ensures HasEmail(row) ==> (v.Succeeded? <==> reply.Ok?)
    ensures HasEmail(row) && reply.Rejected? ==> v == Failed(ErrorAdding(Email(row), reply.error.message))
  {
    if !HasEmail(row) then Failed(MissingEmail)
    else
      match reply
      case Ok(_) => Succeeded
      case Rejected(e) => Failed(ErrorAdding(Email(row), e.message))
  }

  function InlineVerdicts(rows: seq<Row>, replies: seq<Reply<MemberRecord>>): seq<Verdict>
    requires |replies| == |rows|
  {
    seq(|rows|, i requires 0 <= i < |rows| => InlineVerdict(rows[i], replies[i]))
  }

  /**
   * `POST /api/audience/lists/:listId/bulk-import`: `file` is the uploaded
   * file's parsed rows, None when no file was uploaded; `replies[i]` is the
   * API's reply to row i's add-member call, if the row makes one.
   */
  method PostBulkImport(listId: string, file: Option<seq<Row>>, replies: seq<Reply<MemberRecord>>)
    returns (h: Handled)
    requires file.Some? ==> |replies| == |file.value|
    ensures file.None? ==> h == Handled(Response(400, ErrorJson("No file uploaded")), [])
    ensures file.Some? ==> h.response == Response(200, ImportReport(Summary(InlineVerdicts(file.value, replies))))
    ensures file.Some? ==> h.calls == ImportCalls(listId, file.value)
  {
    if file.None? {
      return Handled(Response(400, ErrorJson("No file uploaded")), []);
    }
    var rows := file.value;
    ghost var vs := InlineVerdicts(rows, replies);
    var success: nat, failed: nat, errors: seq<string> := 0, 0, [];
    var calls: seq<Call> := [];
    var i := 0;
    while i < |rows|
      invariant 0 <= i <= |rows|
      invariant success == Successes(vs[..i])
      invariant errors == Errors(vs[..i]) && failed == |errors|
      invariant calls == ImportCalls(listId, rows[..i])
    {
      ImportCallsStep(listId, rows, i);
      var row := rows[i];
      if !HasEmail(row) {
        FailedStep(vs, i, MissingEmail);
        failed := failed + 1;
        errors := errors + [MissingEmail];
      } else {
        var email := Email(row);
        calls := calls + [ListsAddMember(listId, MemberRequest(email, "subscribed",
          map["FNAME" := Or(Field(row, "first_name"), ""), "LNAME" := Or(Field(row, "last_name"), "")]))];
        match replies[i] {
          case Ok(_) =>
            SucceededStep(vs, i);
            success := success + 1;
          case Rejected(e) =>
            FailedStep(vs, i, ErrorAdding(email, e.message));
            failed := failed + 1;
            errors := errors + [ErrorAdding(email, e.message)];
        }
      }
      i := i + 1;
    }
    assert vs[..|rows|] == vs && rows[..|rows|] == rows;
    h := Handled(Response(200, ImportReport(ImportResult(success, failed, errors))), calls);
  }

  /** The fallback after every route: whatever the method and path, 404 'Not Found'. */
  function NotFound(verb: string, path: string): (r: Response)
    ensures r.status == 404 && r.body == Text("Not Found")
  {
    Response(404, Text("Not Found"))
  }

  /** A JavaScript Error as the error middleware sees it. */
  datatype JsError = JsError(name: string, message: string, stack: string)

  /**
   * The error middleware: an upload error from multer is the client's fault
   * (400), everything else is 500; the stack goes out only in development.
   */
  function HandleError(err: JsError, nodeEnv: Option<string>): (r: Response)
    ensures r.status == 400 <==> err.name == "MulterError"
    ensures r.status == 400 || r.status == 500
    ensures r.status == 400 ==> r.body == ErrorWithDetails("File upload error", err.message)
    ensures r.status == 500 ==> r.body.InternalError? && r.body.message == err.message
    ensures r.status == 500 ==> (r.body.stack.Some? <==> nodeEnv == Some("development"))
    ensures r.body.InternalError? && r.body.stack.Some? ==> r.body.stack.value == err.stack
  {
    if err.name == "MulterError" then
      Response(400, ErrorWithDetails("File upload error", err.message))
    else
      Response(500, InternalError(err.message, if nodeEnv == Some("development") then Some(err.stack) else None))
  }
}
