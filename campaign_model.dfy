/**
 * The Campaign document: subject, content and listId are required, listName
 * defaults to '', both dates default to the creation time, and subscribers
 * is an ordered list of Subscriber ids.
 */
module CampaignModel {
  import opened Wrappers
  import opened Js

  datatype Campaign = Campaign(
    subject: string,
    content: string,
    sentDate: int,
    listId: string,
    listName: string,
    createdAt: int,
    subscribers: seq<nat>)

  /** The fields a Campaign is built from; None is an undefined field. */
  datatype CampaignFields = CampaignFields(
    subject: Option<string>,
    content: Option<string>,
    sentDate: Option<int>,
    listId: Option<string>,
    listName: Option<string>,
    createdAt: Option<int>,
    subscribers: Option<seq<nat>>)

  predicate RequiredPresent(f: CampaignFields)
  {
    Truthy(f.subject) && Truthy(f.content) && Truthy(f.listId)
  }

  /** The schema paths that fail validation, in schema order. */
  function InvalidPaths(f: CampaignFields): (paths: seq<string>)
    ensures "subject" in paths <==> !Truthy(f.subject)
    ensures "content" in paths <==> !Truthy(f.content)
    ensures "listId" in paths <==> !Truthy(f.listId)
    ensures paths == [] <==> RequiredPresent(f)
  {
    (if Truthy(f.subject) then [] else ["subject"])
    + (if Truthy(f.content) then [] else ["content"])
    + (if Truthy(f.listId) then [] else ["listId"])
  }

  /** `new Campaign(fields)` followed by validation; `now` is the creation time. */
  function NewCampaign(f: CampaignFields, now: int): (r: Result<Campaign, seq<string>>)
    ensures r.Success? <==> RequiredPresent(f)
    ensures r.Failure? ==> r.error == InvalidPaths(f) && r.error != []
    ensures r.Success? ==> r.value.subject == f.subject.value && r.value.content == f.content.value
    ensures r.Success? ==> r.value.listId == f.listId.value
    ensures r.Success? ==> r.value.listName == (if f.listName.Some? then f.listName.value else "")
    ensures r.Success? ==> r.value.sentDate == (if f.sentDate.Some? then f.sentDate.value else now)
    ensures r.Success? ==> r.value.createdAt == (if f.createdAt.Some? then f.createdAt.value else now)
    ensures r.Success? ==> r.value.subscribers == (if f.subscribers.Some? then f.subscribers.value else [])
  {
    var paths := InvalidPaths(f);
    if paths != [] then Failure(paths)
    else
      Success(Campaign(
        f.subject.value,
        f.content.value,
        if f.sentDate.Some? then f.sentDate.value else now,
        f.listId.value,
        if f.listName.Some? then f.listName.value else "",
        if f.createdAt.Some? then f.createdAt.value else now,
        if f.subscribers.Some? then f.subscribers.value else []))
  }
}
