/**
 * What the bulk-import loops and the segment-member loop have in common:
 * how a CSV row is read, the add-member request built from it, and the
 * results object `{success, failed, errors}` every loop accumulates.
 *
 * Each loop decides one Verdict per item; the results object after the loop
 * is the Summary of those verdicts in item order.
 */
module ImportRows {
  import opened Js
  import opened Remote

  const MissingEmail := "Missing email address"

  /** The per-item error text `Error adding <email>: <message>`. */
  function ErrorAdding(email: string, message: string): string
  {
    "Error adding " + email + ": " + message
  }

  /** The loops' `!subscriber.email` test, negated. */
  predicate HasEmail(row: Row)
  {
    Truthy(Field(row, "email"))
  }

  function Email(row: Row): string
    requires HasEmail(row)
  {
    row["email"]
  }

  /** `subscriber.first_name || ''` */
  function FirstName(row: Row): string
  {
    Or(Field(row, "first_name"), "")
  }

  /** `subscriber.last_name || ''` */
  function LastName(row: Row): string
  {
    Or(Field(row, "last_name"), "")
  }

  /** The add-member request that every import sends for a row with an email. */
  function MemberRequestFor(row: Row): MemberRequest
    requires HasEmail(row)
  {
    MemberRequest(Email(row), "subscribed", map["FNAME" := FirstName(row), "LNAME" := LastName(row)])
  }

  /** The remote calls one row causes: one add-member call, or none when the email is missing. */
  function RowCalls(listId: string, row: Row): seq<Call>
  {
    if HasEmail(row) then [ListsAddMember(listId, MemberRequestFor(row))] else []
  }

  /** The remote calls an import of `rows` makes, in row order. */
  function ImportCalls(listId: string, rows: seq<Row>): seq<Call>
  {
    if rows == [] then []
    else ImportCalls(listId, rows[..|rows| - 1]) + RowCalls(listId, rows[|rows| - 1])
  }

  lemma ImportCallsStep(listId: string, rows: seq<Row>, i: nat)
    requires i < |rows|
    ensures ImportCalls(listId, rows[..i + 1]) == ImportCalls(listId, rows[..i]) + RowCalls(listId, rows[i])
  {
    assert rows[..i + 1][..i] == rows[..i];
  }

  /** Rows are handled one after the other: the calls of a concatenation are the concatenated calls. */
  lemma {:induction false} ImportCallsConcat(listId: string, a: seq<Row>, b: seq<Row>)
    ensures ImportCalls(listId, a + b) == ImportCalls(listId, a) + ImportCalls(listId, b)
  {
    if b == [] {
      assert a + b == a;
    } else {
      var n := |b| - 1;
      assert (a + b)[..|a + b| - 1] == a + b[..n];
      ImportCallsConcat(listId, a, b[..n]);
    }
  }

  /**
   * One row on its own: no call when the email is missing or empty, otherwise
   * one add-member call with status 'subscribed' whose FNAME and LNAME are
   * the name columns, or '' when a column is absent.
   */
  lemma ImportCallsOfRow(listId: string, row: Row)
    ensures !HasEmail(row) ==> ImportCalls(listId, [row]) == []
    ensures HasEmail(row) ==> (
      ImportCalls(listId, [row]) ==
        [ListsAddMember(listId, MemberRequest(row["email"], "subscribed",
          map["FNAME" := (if "first_name" in row then row["first_name"] else ""),
              "LNAME" := (if "last_name" in row then row["last_name"] else "")]))])
  {
    assert [row][..0] == [];
  }

  /** Every call an import makes adds a member to the given list with status 'subscribed', one call per row at most. */
  lemma {:induction false} ImportCallsSubscribed(listId: string, rows: seq<Row>)
    ensures |ImportCalls(listId, rows)| <= |rows|
    ensures forall c | c in ImportCalls(listId, rows) ::
      c.ListsAddMember? && c.listId == listId && c.member.status == "subscribed"
      && c.member.mergeFields.Keys == {"FNAME", "LNAME"}
  {
    if rows != [] {
      ImportCallsSubscribed(listId, rows[..|rows| - 1]);
    }
  }

  /** How one item of a loop ended. */
  datatype Verdict = Succeeded | Failed(error: string)

  /** The results object `{success, failed, errors}`. */
  datatype ImportResult = ImportResult(success: nat, failed: nat, errors: seq<string>)

  function Successes(vs: seq<Verdict>): nat
  {
    if vs == [] then 0
    else Successes(vs[..|vs| - 1]) + (if vs[|vs| - 1].Succeeded? then 1 else 0)
  }

  /** The error texts of the failed items, in item order. */
  function Errors(vs: seq<Verdict>): seq<string>
  {
    if vs == [] then []
    else Errors(vs[..|vs| - 1]) + (if vs[|vs| - 1].Failed? then [vs[|vs| - 1].error] else [])
  }

  lemma {:induction false} CountsCover(vs: seq<Verdict>)
    ensures Successes(vs) + |Errors(vs)| == |vs|
  {
    if vs != [] {
      CountsCover(vs[..|vs| - 1]);
    }
  }

  /** The results object after a loop over items whose verdicts are `vs`. */
  function Summary(vs: seq<Verdict>): (r: ImportResult)
    ensures r.success + r.failed == |vs|
    ensures |r.errors| == r.failed
  {
    CountsCover(vs);
    ImportResult(Successes(vs), |Errors(vs)|, Errors(vs))
  }

  lemma PrefixStep(vs: seq<Verdict>, i: nat)
    requires i < |vs|
    ensures Successes(vs[..i + 1]) == Successes(vs[..i]) + (if vs[i].Succeeded? then 1 else 0)
    ensures Errors(vs[..i + 1]) == Errors(vs[..i]) + (if vs[i].Failed? then [vs[i].error] else [])
  {
    assert vs[..i + 1][..i] == vs[..i];
  }

  /** A loop step over a succeeding item: one more success, no new error. */
  lemma SucceededStep(vs: seq<Verdict>, i: nat)
    requires i < |vs| && vs[i] == Succeeded
    ensures Successes(vs[..i + 1]) == Successes(vs[..i]) + 1
    ensures Errors(vs[..i + 1]) == Errors(vs[..i])
  {
    PrefixStep(vs, i);
  }

  /** A loop step over a failed item: no new success, its error appended. */
  lemma FailedStep(vs: seq<Verdict>, i: nat, e: string)
    requires i < |vs| && vs[i] == Failed(e)
    ensures Successes(vs[..i + 1]) == Successes(vs[..i])
    ensures Errors(vs[..i + 1]) == Errors(vs[..i]) + [e]
  {
    PrefixStep(vs, i);
  }

  lemma {:induction false} ErrorsConcat(a: seq<Verdict>, b: seq<Verdict>)
    ensures Successes(a + b) == Successes(a) + Successes(b)
    ensures Errors(a + b) == Errors(a) + Errors(b)
  {
    if b == [] {
      assert a + b == a;
    } else {
      var n := |b| - 1;
      assert (a + b)[..|a + b| - 1] == a + b[..n];
      ErrorsConcat(a, b[..n]);
    }
  }

  /**
   * A failed item does not stop the loop: the results of a concatenation
   * add up the counts and concatenate the errors.
   */
  lemma SummaryConcat(a: seq<Verdict>, b: seq<Verdict>)
    ensures Summary(a + b) == ImportResult(
      Summary(a).success + Summary(b).success,
      Summary(a).failed + Summary(b).failed,
      Summary(a).errors + Summary(b).errors)
  {
    ErrorsConcat(a, b);
  }

  /**
   * Errors are in item order: the error of failed item `i` stands right after
   * the errors of the items before it.
   */
  lemma ErrorOfItem(vs: seq<Verdict>, i: nat)
    requires i < |vs| && vs[i].Failed?
    ensures |Errors(vs[..i])| < |Summary(vs).errors|
    ensures Summary(vs).errors[|Errors(vs[..i])|] == vs[i].error
  {
    PrefixStep(vs, i);
    assert vs == vs[..i + 1] + vs[i + 1..];
    ErrorsConcat(vs[..i + 1], vs[i + 1..]);
  }
}
