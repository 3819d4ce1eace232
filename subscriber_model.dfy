/**
 * The Subscriber document: its fields, the two required ones, the defaults
 * and the status enum, and what building a document from given fields
 * yields (a document, or the schema paths that fail validation).
 */
module SubscriberModel {
  import opened Wrappers
  import opened Js

  datatype Status = Subscribed | Unsubscribed | Cleaned | Pending

  const DefaultStatus: Status := Subscribed

  function StatusName(s: Status): string
  {
    match s
    case Subscribed => "subscribed"
    case Unsubscribed => "unsubscribed"
    case Cleaned => "cleaned"
    case Pending => "pending"
  }

  /** The enum check: exactly the four status names are accepted. */
  function ParseStatus(name: string): (r: Option<Status>)
    ensures forall s :: r == Some(s) <==> StatusName(s) == name
  {
    if name == "subscribed" then Some(Subscribed)
    else if name == "unsubscribed" then Some(Unsubscribed)
    else if name == "cleaned" then Some(Cleaned)
    else if name == "pending" then Some(Pending)
    else None
  }

  /** A stored Subscriber; `id` stands for the document's `_id`. */
  datatype Subscriber = Subscriber(
    id: nat,
    email: string,
    firstName: string,
    lastName: string,
    listId: string,
    subscriptionDate: int,
    status: Status)

  /** The fields a Subscriber is built from; None is an undefined field. */
  datatype SubscriberFields = SubscriberFields(
    email: Option<string>,
    firstName: Option<string>,
    lastName: Option<string>,
    listId: Option<string>,
    subscriptionDate: Option<int>,
    status: Option<string>)

  /** `email` and `listId` are required; a required string may be neither undefined nor ''. */
  predicate RequiredPresent(f: SubscriberFields)
  {
    Truthy(f.email) && Truthy(f.listId)
  }

  /** An undefined status takes the default; a given one must be an enum value. */
  predicate StatusAllowed(f: SubscriberFields)
  {
    f.status.None? || ParseStatus(f.status.value).Some?
  }

  /** The schema paths that fail validation, in schema order. */
  function InvalidPaths(f: SubscriberFields): (paths: seq<string>)
    ensures "email" in paths <==> !Truthy(f.email)
    ensures "listId" in paths <==> !Truthy(f.listId)
    ensures "status" in paths <==> !StatusAllowed(f)
    ensures paths == [] <==> RequiredPresent(f) && StatusAllowed(f)
  {
    (if Truthy(f.email) then [] else ["email"])
    + (if Truthy(f.listId) then [] else ["listId"])
    + (if StatusAllowed(f) then [] else ["status"])
  }

  /** `new Subscriber(fields)` followed by validation; `now` is the creation time. */
  function NewSubscriber(id: nat, f: SubscriberFields, now: int): (r: Result<Subscriber, seq<string>>)
    ensures r.Success? <==> RequiredPresent(f) && StatusAllowed(f)
    ensures r.Failure? ==> r.error == InvalidPaths(f) && r.error != []
    ensures r.Success? ==> r.value.id == id && r.value.email == f.email.value && r.value.listId == f.listId.value
    ensures r.Success? ==> r.value.firstName == (if f.firstName.Some? then f.firstName.value else "")
    ensures r.Success? ==> r.value.lastName == (if f.lastName.Some? then f.lastName.value else "")
    ensures r.Success? ==> r.value.subscriptionDate == (if f.subscriptionDate.Some? then f.subscriptionDate.value else now)
    ensures r.Success? ==> StatusName(r.value.status) == (if f.status.Some? then f.status.value else "subscribed")
  {
    var paths := InvalidPaths(f);
    if paths != [] then Failure(paths)
    else
      Success(Subscriber(
        id,
        f.email.value,
        if f.firstName.Some? then f.firstName.value else "",
        if f.lastName.Some? then f.lastName.value else "",
        f.listId.value,
        if f.subscriptionDate.Some? then f.subscriptionDate.value else now,
        if f.status.Some? then ParseStatus(f.status.value).value else DefaultStatus))
  }
}
