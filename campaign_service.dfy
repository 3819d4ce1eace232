/**
 * The campaign service (services/campaign.js): the request `createCampaign`
 * sends, and `createAndSendCampaign`, which creates a campaign, sets its
 * content and sends it, stopping at the first step the API rejects.
 */
module CampaignService {
  import opened Wrappers
  import opened Js
  import opened Remote

  /** The `campaignData` argument: the recipients list, the settings and an optional title. */
  datatype CampaignData = CampaignData(listId: string, subject: string, fromName: string, replyTo: string, title: Option<string>)

  const TitlePrefix := "Campaign "
  const SentMessage := "Campaign created and sent successfully"

  /** The body of `campaigns.create`; `nowIso` is `new Date().toISOString()`. */
  function CampaignRequestFor(data: CampaignData, nowIso: string): (req: CampaignRequest)
    ensures req.campaignType == "regular" && req.listId == data.listId
    ensures req.subjectLine == data.subject && req.fromName == data.fromName && req.replyTo == data.replyTo
    ensures Truthy(data.title) ==> req.title == data.title.value
    ensures !Truthy(data.title) ==> req.title == TitlePrefix + nowIso
  {
    CampaignRequest("regular", data.listId, data.subject, data.fromName, data.replyTo, Or(data.title, TitlePrefix + nowIso))
  }

  /** The three calls of a run in which no step is rejected, all on the created campaign's id. */
  function Planned(request: CampaignRequest, id: string, html: string): seq<Call>
  {
    [CampaignsCreate(request), CampaignsSetContent(id, html), CampaignsSend(id)]
  }

  /** The id a create reply carries ('' when it was rejected and no later call is made). */
  function CreatedId(create: Reply<CampaignRecord>): string
  {
    if create.Ok? then create.value.id else ""
  }

  /** The first rejection among the three steps, in step order. */
  function FirstError(create: Reply<CampaignRecord>, content: Reply<Ack>, send: Reply<Ack>): Option<ApiError>
  {
    if create.Rejected? then Some(create.error)
    else if content.Rejected? then Some(content.error)
    else if send.Rejected? then Some(send.error)
    else None
  }

  /** How many of the three calls are made: every step up to and including the first rejected one. */
  function StepsMade(create: Reply<CampaignRecord>, content: Reply<Ack>, send: Reply<Ack>): nat
  {
    if create.Rejected? then 1 else if content.Rejected? then 2 else 3
  }

  /** What is thrown when a step fails: `{success: false, error: message, details: response body || stack}`. */
  datatype Thrown = Thrown(error: string, details: string)

  /** What a full run returns: `{success: true, campaignId, message}`. */
  datatype Sent = Sent(campaignId: string, message: string)

  function ThrownBy(e: ApiError): (t: Thrown)
    ensures t.error == e.message
    ensures Truthy(e.responseBody) ==> t.details == e.responseBody.value
    ensures !Truthy(e.responseBody) ==> t.details == e.stack
  {
    Thrown(e.message, Or(e.responseBody, e.stack))
  }

  /**
   * `createAndSendCampaign(campaignData, htmlContent)`: `create`, `content`
   * and `send` are the API's replies to the three steps, of which only those
   * the run reaches are used.
   */
  method CreateAndSendCampaign(data: CampaignData, html: string, nowIso: string,
                               create: Reply<CampaignRecord>, content: Reply<Ack>, send: Reply<Ack>)
    returns (r: Result<Sent, Thrown>, calls: seq<Call>)
    ensures calls == Planned(CampaignRequestFor(data, nowIso), CreatedId(create), html)[..StepsMade(create, content, send)]
    ensures r.Success? <==> FirstError(create, content, send).None?
    ensures r.Success? ==> r.value == Sent(create.value.id, SentMessage)
    ensures r.Failure? ==> r.error == ThrownBy(FirstError(create, content, send).value)
  {
    var request := CampaignRequestFor(data, nowIso);
    calls := [CampaignsCreate(request)];
    if create.Rejected? {
      return Failure(ThrownBy(create.error)), calls;
    }
    var id := create.value.id;
    calls := calls + [CampaignsSetContent(id, html)];
    if content.Rejected? {
      return Failure(ThrownBy(content.error)), calls;
    }
    calls := calls + [CampaignsSend(id)];
    if send.Rejected? {
      return Failure(ThrownBy(send.error)), calls;
    }
    r := Success(Sent(id, SentMessage));
  }

  /**
   * The step sequence in the terms createAndSendCampaign promises: create comes first,
   * a rejected step is the last call made, a full run makes all three calls,
   * and every call after create names the id create returned.
   */
  lemma StepOrder(request: CampaignRequest, html: string, create: Reply<CampaignRecord>, content: Reply<Ack>, send: Reply<Ack>)
    ensures var calls := Planned(request, CreatedId(create), html)[..StepsMade(create, content, send)];
      && 1 <= |calls| <= 3 && calls[0] == CampaignsCreate(request)
      && (create.Rejected? ==> |calls| == 1)
      && (create.Ok? && content.Rejected? ==> |calls| == 2)
      && (FirstError(create, content, send).None? <==> |calls| == 3 && send.Ok?)
      && (forall i | 1 <= i < |calls| :: calls[i].campaignId == create.value.id)
  {
  }
}
