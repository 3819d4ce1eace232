/**
 * The audience routes (routes/audience.js): listing lists, adding one
 * member, the CSV bulk import that also upserts each added subscriber into
 * the local store, creating a segment and adding members to it.
 */
module AudienceRoutes {
  import opened Wrappers
  import opened Js
  import opened Remote
  import opened ImportRows
  import opened SubscriberModel
  import opened Store
  import opened Http
  import AudienceService

  /** `GET /lists` */
  function GetLists(reply: Reply<seq<ListInfo>>): (h: Handled)
    ensures h.calls == [ListsGetAll]
    ensures reply.Ok? ==> h.response == Response(200, ListsJson(reply.value))
    ensures reply.Rejected? ==> h.response == Response(500, ErrorWithDetails("Failed to fetch Mailchimp lists", reply.error.message))
  {
    match reply
    case Ok(lists) => Handled(Response(200, ListsJson(lists)), [ListsGetAll])
    case Rejected(e) => Handled(Response(500, ErrorWithDetails("Failed to fetch Mailchimp lists", e.message)), [ListsGetAll])
  }

  /** `POST /lists/:listId/members`: no email, no call. */
  function PostMember(listId: string, email: Option<string>, fields: Option<map<string, string>>, reply: Reply<MemberRecord>): (h: Handled)
    ensures !Truthy(email) ==> h == Handled(Response(400, ErrorJson("Email is required")), [])
    ensures Truthy(email) ==> h.calls == [AudienceService.AddSubscriber(listId, email.value, fields, reply).call]
    ensures Truthy(email) ==> (h.response.status == 201 <==> reply.Ok?)
    ensures Truthy(email) && reply.Ok? ==> h.response.body == MemberJson(reply.value)
    ensures Truthy(email) && reply.Rejected? ==>
      h.response == Response(500, ErrorJson(AudienceService.AddSubscriberPrefix + reply.error.message))
  {
    if !Truthy(email) then Handled(Response(400, ErrorJson("Email is required")), [])
    else
      var a := AudienceService.AddSubscriber(listId, email.value, fields, reply);
      match a.result
      case Success(member) => Handled(Response(201, MemberJson(member)), [a.call])
      case Failure(message) => Handled(Response(500, ErrorJson(message)), [a.call])
  }

  /** What the environment answers for one row: the API's reply, a store failure if any, and the clock. */
  datatype RowEnv = RowEnv(remote: Reply<MemberRecord>, storeFault: Option<string>, now: int)

  /** A row is written to the store when it has an email, the remote add succeeds and so does the upsert. */
  predicate Writes(row: Row, env: RowEnv)
  {
    HasEmail(row) && env.remote.Ok? && env.storeFault.None?
  }

  /** One row of the import: it succeeds exactly when it is written to the store. */
  function StoredVerdict(row: Row, env: RowEnv): (v: Verdict)
    ensures v.Succeeded? <==> Writes(row, env)
    ensures !HasEmail(row) ==> v == Failed(MissingEmail)
    ensures HasEmail(row) ==> (v.Succeeded? <==> env.remote.Ok? && env.storeFault.None?)
    ensures HasEmail(row) && env.remote.Rejected? ==> v == Failed(ErrorAdding(Email(row), env.remote.error.message))
    ensures HasEmail(row) && env.remote.Ok? && env.storeFault.Some? ==> v == Failed(ErrorAdding(Email(row), env.storeFault.value))
  {
    if !HasEmail(row) then Failed(MissingEmail)
    else
      match env.remote
      case Rejected(e) => Failed(ErrorAdding(Email(row), e.message))
      case Ok(_) =>
        if env.storeFault.Some? then Failed(ErrorAdding(Email(row), env.storeFault.value)) else Succeeded
  }

  function StoredVerdicts(rows: seq<Row>, envs: seq<RowEnv>): seq<Verdict>
    requires |envs| == |rows|
  {
    seq(|rows|, i requires 0 <= i < |rows| => StoredVerdict(rows[i], envs[i]))
  }

  /** The Subscriber collection after one row: the row's upsert when it is written, unchanged otherwise. */
  function ImportRow(t: SubscriberTable, listId: string, row: Row, env: RowEnv): (r: SubscriberTable)
    ensures t.docs.Keys <= r.docs.Keys
  {
    if Writes(row, env) then t.Upsert(Email(row), listId, FirstName(row), LastName(row), env.now) else t
  }

  /** The Subscriber collection after importing `rows` into `listId`: one upsert per succeeding row. */
  function ImportedTable(t: SubscriberTable, listId: string, rows: seq<Row>, envs: seq<RowEnv>): (r: SubscriberTable)
    requires |envs| == |rows|
    ensures t.docs.Keys <= r.docs.Keys
    decreases |rows|
  {
    if rows == [] then t
    else
      var n := |rows| - 1;
      ImportRow(ImportedTable(t, listId, rows[..n], envs[..n]), listId, rows[n], envs[n])
  }

  /** The import keeps the store well formed. */
  lemma {:induction false} ImportedTableValid(t: SubscriberTable, listId: string, rows: seq<Row>, envs: seq<RowEnv>)
    requires t.Valid() && |envs| == |rows|
    ensures ImportedTable(t, listId, rows, envs).Valid()
  {
    if rows != [] {
      var n := |rows| - 1;
      ImportedTableValid(t, listId, rows[..n], envs[..n]);
      var before := ImportedTable(t, listId, rows[..n], envs[..n]);
      if Writes(rows[n], envs[n]) {
        before.UpsertValid(Email(rows[n]), listId, FirstName(rows[n]), LastName(rows[n]), envs[n].now);
      }
    }
  }

  lemma ImportedTableStep(t: SubscriberTable, listId: string, rows: seq<Row>, envs: seq<RowEnv>, i: nat)
    requires |envs| == |rows| && i < |rows|
    ensures ImportedTable(t, listId, rows[..i + 1], envs[..i + 1]) ==
      ImportRow(ImportedTable(t, listId, rows[..i], envs[..i]), listId, rows[i], envs[i])
  {
    assert rows[..i + 1][..i] == rows[..i];
    assert envs[..i + 1][..i] == envs[..i];
  }

  /** Importing a concatenation is importing the second part into the result of the first. */
  lemma {:induction false} ImportedTableConcat(t: SubscriberTable, listId: string, a: seq<Row>, ea: seq<RowEnv>, b: seq<Row>, eb: seq<RowEnv>)
    requires |ea| == |a| && |eb| == |b|
    ensures ImportedTable(t, listId, a + b, ea + eb) == ImportedTable(ImportedTable(t, listId, a, ea), listId, b, eb)
  {
    if b == [] {
      assert a + b == a && ea + eb == ea;
    } else {
      var n := |b| - 1;
      var m := |a + b| - 1;
      assert (a + b)[..m] == a + b[..n] && (a + b)[m] == b[n];
      assert (ea + eb)[..m] == ea + eb[..n] && (ea + eb)[m] == eb[n];
      assert ImportedTable(t, listId, a + b, ea + eb)
        == ImportRow(ImportedTable(t, listId, a + b[..n], ea + eb[..n]), listId, b[n], eb[n]);
      ImportedTableConcat(t, listId, a, ea, b[..n], eb[..n]);
    }
  }

  /**
   * A failed row leaves the store as it was: a row without an email, a row
   * the API rejected and a row whose upsert failed change nothing, so the
   * import gives the same store as the import without that row.
   */
  lemma FailedRowLeavesStore(t: SubscriberTable, listId: string, rows: seq<Row>, envs: seq<RowEnv>, i: nat)
    requires |envs| == |rows| && i < |rows|
    requires StoredVerdict(rows[i], envs[i]).Failed?
    ensures ImportedTable(t, listId, rows, envs) ==
      ImportedTable(t, listId, rows[..i] + rows[i + 1..], envs[..i] + envs[i + 1..])
  {
    assert rows == rows[..i + 1] + rows[i + 1..];
    assert envs == envs[..i + 1] + envs[i + 1..];
    ImportedTableConcat(t, listId, rows[..i + 1], envs[..i + 1], rows[i + 1..], envs[i + 1..]);
    ImportedTableStep(t, listId, rows, envs, i);
    ImportedTableConcat(t, listId, rows[..i], envs[..i], rows[i + 1..], envs[i + 1..]);
  }

  /** The keys the import writes: (email, listId) of every succeeding row. */
  function WrittenKeys(listId: string, rows: seq<Row>, envs: seq<RowEnv>): set<Key>
    requires |envs| == |rows|
  {
    if rows == [] then {}
    else
      var n := |rows| - 1;
      WrittenKeys(listId, rows[..n], envs[..n])
      + (if Writes(rows[n], envs[n]) then {Key(Email(rows[n]), listId)} else {})
  }

  /** Every key the import writes is in `listId`. */
  lemma {:induction false} WrittenKeysInList(listId: string, rows: seq<Row>, envs: seq<RowEnv>)
    requires |envs| == |rows|
    ensures forall k | k in WrittenKeys(listId, rows, envs) :: k.listId == listId
  {
    if rows != [] {
      WrittenKeysInList(listId, rows[..|rows| - 1], envs[..|rows| - 1]);
    }
  }

  /** The import adds exactly the keys it writes. */
  lemma {:induction false} ImportedTableKeys(t: SubscriberTable, listId: string, rows: seq<Row>, envs: seq<RowEnv>)
    requires |envs| == |rows|
    ensures ImportedTable(t, listId, rows, envs).docs.Keys == t.docs.Keys + WrittenKeys(listId, rows, envs)
  {
    if rows != [] {
      var n := |rows| - 1;
      ImportedTableKeys(t, listId, rows[..n], envs[..n]);
    }
  }

  /**
   * Every document the import does not write stays as it was, and a document
   * already present keeps its id (it is updated, never inserted a second time).
   */
  lemma {:induction false} ImportedTableFrame(t: SubscriberTable, listId: string, rows: seq<Row>, envs: seq<RowEnv>)
    requires |envs| == |rows|
    ensures forall k | k in t.docs && k !in WrittenKeys(listId, rows, envs) ::
      ImportedTable(t, listId, rows, envs).docs[k] == t.docs[k]
    ensures forall k | k in t.docs :: ImportedTable(t, listId, rows, envs).docs[k].id == t.docs[k].id
  {
    if rows != [] {
      var n := |rows| - 1;
      ImportedTableKeys(t, listId, rows[..n], envs[..n]);
      ImportedTableFrame(t, listId, rows[..n], envs[..n]);
      var before := ImportedTable(t, listId, rows[..n], envs[..n]);
      if Writes(rows[n], envs[n]) {
        assert ImportedTable(t, listId, rows, envs) ==
          before.Upsert(Email(rows[n]), listId, FirstName(rows[n]), LastName(rows[n]), envs[n].now);
      }
    }
  }

  /**
   * Upsert semantics: when several rows share an email, the store holds the
   * one document of that (email, listId) with the names, status and time of
   * the last row that succeeded.
   */
  lemma {:induction false} LastSuccessfulRowWins(t: SubscriberTable, listId: string, rows: seq<Row>, envs: seq<RowEnv>, j: nat)
    requires |envs| == |rows| && j < |rows|
    requires StoredVerdict(rows[j], envs[j]).Succeeded?
    requires forall k | j < k < |rows| && StoredVerdict(rows[k], envs[k]).Succeeded? ::
      Field(rows[k], "email") != Field(rows[j], "email")
    ensures Key(Email(rows[j]), listId) in ImportedTable(t, listId, rows, envs).docs
    ensures var d := ImportedTable(t, listId, rows, envs).docs[Key(Email(rows[j]), listId)];
      && d.firstName == FirstName(rows[j]) && d.lastName == LastName(rows[j])
      && d.status == Subscribed && d.subscriptionDate == envs[j].now
  {
    var n := |rows| - 1;
    if j < n {
      LastSuccessfulRowWins(t, listId, rows[..n], envs[..n], j);
    }
  }

  /**
   * The body of the import loop for one row: skip a row without an email,
   * otherwise add the member remotely and, when that succeeds, upsert the
   * Subscriber; `v` is how the row is counted, `calls` what it sent.
   */
  method ImportOneRow(db: Database, listId: string, row: Row, env: RowEnv) returns (v: Verdict, calls: seq<Call>)
    requires db.Valid()
    modifies db
    ensures db.Valid() && db.campaigns == old(db.campaigns)
    ensures db.subscribers == ImportRow(old(db.subscribers), listId, row, env)
    ensures v == StoredVerdict(row, env)
    ensures calls == RowCalls(listId, row)
  {
    if !HasEmail(row) {
      return Failed(MissingEmail), [];
    }
    var email := Email(row);
    var firstName, lastName := Or(Field(row, "first_name"), ""), Or(Field(row, "last_name"), "");
    calls := [ListsAddMember(listId, MemberRequest(email, "subscribed", map["FNAME" := firstName, "LNAME" := lastName]))];
    match env.remote {
      case Rejected(e) =>
        v := Failed(ErrorAdding(email, e.message));
      case Ok(_) =>
        if env.storeFault.Some? {
          v := Failed(ErrorAdding(email, env.storeFault.value));
        } else {
          db.UpsertSubscriber(email, listId, firstName, lastName, env.now);
          v := Succeeded;
        }
    }
  }

  /**
   * `POST /lists/:listId/bulk-import`: `file` is the uploaded file's parsed
   * rows, None when no file was uploaded; `envs[i]` is what the API, the store
   * and the clock answer for row i.
   */
  method PostBulkImport(db: Database, listId: string, file: Option<seq<Row>>, envs: seq<RowEnv>) returns (h: Handled)
    requires db.Valid()
    requires file.Some? ==> |envs| == |file.value|
    modifies db
    ensures db.Valid() && db.campaigns == old(db.campaigns)
    ensures file.None? ==> h == Handled(Response(400, ErrorJson("No file uploaded")), []) && db.subscribers == old(db.subscribers)
    ensures file.Some? ==> h.response == Response(200, ImportReport(Summary(StoredVerdicts(file.value, envs))))
    ensures file.Some? ==> h.calls == ImportCalls(listId, file.value)
    ensures file.Some? ==> db.subscribers == ImportedTable(old(db.subscribers), listId, file.value, envs)
  {
    if file.None? {
      return Handled(Response(400, ErrorJson("No file uploaded")), []);
    }
    var rows := file.value;
    ghost var t0 := db.subscribers;
    ghost var vs := StoredVerdicts(rows, envs);
    var success: nat, failed: nat, errors: seq<string> := 0, 0, [];
    var calls: seq<Call> := [];
    var i := 0;
    while i < |rows|
      invariant 0 <= i <= |rows|
      invariant db.Valid() && db.campaigns == old(db.campaigns)
      invariant db.subscribers == ImportedTable(t0, listId, rows[..i], envs[..i])
      invariant success == Successes(vs[..i])
      invariant errors == Errors(vs[..i]) && failed == |errors|
      invariant calls == ImportCalls(listId, rows[..i])
    {
      ImportCallsStep(listId, rows, i);
      ImportedTableStep(t0, listId, rows, envs, i);
      var v, rowCalls := ImportOneRow(db, listId, rows[i], envs[i]);
      calls := calls + rowCalls;
      if v.Succeeded? {
        SucceededStep(vs, i);
        success := success + 1;
      } else {
        FailedStep(vs, i, v.error);
        failed := failed + 1;
        errors := errors + [v.error];
      }
      i := i + 1;
    }
    assert vs[..|rows|] == vs && rows[..|rows|] == rows && envs[..|rows|] == envs;
    h := Handled(Response(200, ImportReport(ImportResult(success, failed, errors))), calls);
  }

  /** The three-row example: a@x.com, an empty email, c@x.com, every call accepted. */
  const ExampleRows: seq<Row> := [map["email" := "a@x.com", "first_name" := "A"], map["email" := "", "first_name" := "B"], map["email" := "c@x.com"]]
  const ExampleEnvs: seq<RowEnv> := [RowEnv(Ok(MemberRecord("a")), None, 0), RowEnv(Ok(MemberRecord("b")), None, 0), RowEnv(Ok(MemberRecord("c")), None, 0)]

  /** Two rows succeed and the empty one fails with the missing-email text. */
  lemma ExampleSummary()
    ensures Summary(StoredVerdicts(ExampleRows, ExampleEnvs)) == ImportResult(2, 1, [MissingEmail])
  {
    var vs := StoredVerdicts(ExampleRows, ExampleEnvs);
    assert !HasEmail(ExampleRows[1]);
    assert vs == [Succeeded, Failed(MissingEmail), Succeeded];
    assert vs[..2] == [Succeeded, Failed(MissingEmail)] && vs[..2][..1] == [Succeeded] && vs[..2][..1][..0] == [];
    assert Successes([Succeeded]) == 1 && Errors([Succeeded]) == [];
    assert Successes(vs[..2]) == 1 && Errors(vs[..2]) == [MissingEmail];
    assert Successes(vs) == 2 && Errors(vs) == [MissingEmail];
  }

  /** Only the two rows with an email make an add-member call, in row order. */
  lemma ExampleCalls(listId: string)
    ensures ImportCalls(listId, ExampleRows) == [
      ListsAddMember(listId, MemberRequest("a@x.com", "subscribed", map["FNAME" := "A", "LNAME" := ""])),
      ListsAddMember(listId, MemberRequest("c@x.com", "subscribed", map["FNAME" := "", "LNAME" := ""]))]
  {
    var rows := ExampleRows;
    assert !HasEmail(rows[1]) && HasEmail(rows[0]) && HasEmail(rows[2]);
    assert FirstName(rows[0]) == "A" && LastName(rows[0]) == "";
    assert FirstName(rows[2]) == "" && LastName(rows[2]) == "";
    assert rows[..2][..1] == rows[..1] && rows[..1][..0] == [];
    assert ImportCalls(listId, rows[..1]) == RowCalls(listId, rows[0]);
    assert ImportCalls(listId, rows[..2]) == RowCalls(listId, rows[0]);
    assert ImportCalls(listId, rows) == RowCalls(listId, rows[0]) + RowCalls(listId, rows[2]);
  }

  lemma ExampleWritten(listId: string)
    ensures WrittenKeys(listId, ExampleRows, ExampleEnvs) == {Key("a@x.com", listId), Key("c@x.com", listId)}
  {
    var rows, envs := ExampleRows, ExampleEnvs;
    assert !Writes(rows[1], envs[1]) && Writes(rows[0], envs[0]) && Writes(rows[2], envs[2]);
    assert rows[..2][..1] == rows[..1] && rows[..1][..0] == [];
    assert envs[..2][..1] == envs[..1] && envs[..1][..0] == [];
    assert WrittenKeys(listId, rows[..1], envs[..1]) == {Key("a@x.com", listId)};
    assert WrittenKeys(listId, rows[..2], envs[..2]) == {Key("a@x.com", listId)};
  }

  /** An empty store ends with exactly the documents of a@x.com and c@x.com. */
  lemma ExampleStore(listId: string)
    ensures ImportedTable(SubscriberTable(map[], 0), listId, ExampleRows, ExampleEnvs).docs.Keys
      == {Key("a@x.com", listId), Key("c@x.com", listId)}
  {
    ImportedTableKeys(SubscriberTable(map[], 0), listId, ExampleRows, ExampleEnvs);
    ExampleWritten(listId);
  }

  /** `POST /lists/:listId/segments`: no name, no call. */
  function PostSegment(listId: string, name: Option<string>, conditions: Option<seq<Condition>>, reply: Reply<SegmentRecord>): (h: Handled)
    ensures !Truthy(name) ==> h == Handled(Response(400, ErrorJson("Segment name is required")), [])
    ensures Truthy(name) ==> h.calls == [AudienceService.CreateSegment(listId, name.value, conditions, reply).call]
    ensures Truthy(name) ==> (h.response.status == 201 <==> reply.Ok?)
    ensures Truthy(name) && reply.Ok? ==> h.response.body == SegmentJson(reply.value)
    ensures Truthy(name) && reply.Rejected? ==>
      h.response == Response(500, ErrorJson(AudienceService.CreateSegmentPrefix + reply.error.message))
  {
    if !Truthy(name) then Handled(Response(400, ErrorJson("Segment name is required")), [])
    else
      var a := AudienceService.CreateSegment(listId, name.value, conditions, reply);
      match a.result
      case Success(segment) => Handled(Response(201, SegmentJson(segment)), [a.call])
      case Failure(message) => Handled(Response(500, ErrorJson(message)), [a.call])
  }

  /** `POST /lists/:listId/segments/:segmentId/members`: `emails` is None when the body's emails is not an array. */
  method PostSegmentMembers(listId: string, segmentId: string, emails: Option<seq<string>>, replies: seq<Reply<Ack>>)
    returns (h: Handled)
    requires emails.Some? ==> |replies| == |emails.value|
    ensures emails.None? || emails.value == [] ==>
      h == Handled(Response(400, ErrorJson("Array of emails is required")), [])
    ensures emails.Some? && emails.value != [] ==>
      h.response == Response(200, ResultsJson(Summary(AudienceService.SegmentVerdicts(emails.value, replies))))
      && |h.calls| == |emails.value|
      && forall i | 0 <= i < |emails.value| :: h.calls[i] == ListsAddSegmentMember(listId, segmentId, emails.value[i])
  {
    if emails.None? || emails.value == [] {
      return Handled(Response(400, ErrorJson("Array of emails is required")), []);
    }
    var result, calls := AudienceService.AddMembersToSegment(listId, segmentId, emails.value, replies);
    h := Handled(Response(200, ResultsJson(result)), calls);
  }
}
