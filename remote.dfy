/**
 * The email-marketing API as the handlers see it: each call is a request
 * value, and each reply is either a value or a rejection. The API itself is
 * not modelled; its replies are parameters of the handlers.
 */
module Remote {
  import opened Wrappers

  /** A rejected call: its message, the provider's response body if any, and the stack. */
  datatype ApiError = ApiError(message: string, responseBody: Option<string>, stack: string)

  /** The reply to one call. */
  datatype Reply<+T> = Ok(value: T) | Rejected(error: ApiError)

  /** The acknowledgement of a call whose reply carries nothing the handlers use. */
  datatype Ack = Ack

  datatype MemberRecord = MemberRecord(id: string)

  datatype SegmentRecord = SegmentRecord(id: string)

  /** What `campaigns.create` resolves to; only its id is used. */
  datatype CampaignRecord = CampaignRecord(id: string)

  datatype ListInfo = ListInfo(id: string, name: string, memberCount: nat)

  /** The body of `lists.addListMember`: `{email_address, status, merge_fields}`. */
  datatype MemberRequest = MemberRequest(emailAddress: string, status: string, mergeFields: map<string, string>)

  datatype Condition = Condition(conditionType: string, field: string, op: string, value: string)

  /** The body of `lists.createSegment`: `{name, options: {match, conditions}}`. */
  datatype SegmentRequest = SegmentRequest(name: string, matchMode: string, conditions: seq<Condition>)

  /** The body of `campaigns.create`: `{type, recipients: {list_id}, settings: {subject_line, from_name, reply_to, title}}`. */
  datatype CampaignRequest = CampaignRequest(
    campaignType: string,
    listId: string,
    subjectLine: string,
    fromName: string,
    replyTo: string,
    title: string)

  /** One call on the API client, named after the client's own namespaces. */
  datatype Call =
    | ListsGetAll
    | ListsAddMember(listId: string, member: MemberRequest)
    | ListsCreateSegment(listId: string, segment: SegmentRequest)
    | ListsAddSegmentMember(listId: string, segmentId: string, email: string)
    | CampaignsCreate(request: CampaignRequest)
    | CampaignsSetContent(campaignId: string, html: string)
    | CampaignsSend(campaignId: string)
}
