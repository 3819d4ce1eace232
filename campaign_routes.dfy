/**
 * The campaign routes (routes/campaign.js): storing a Campaign document,
 * setting a campaign's content, sending it, the one-request bulk send that
 * records the sent campaign with a snapshot of the list's subscribers, and
 * reading stored campaigns back.
 */
module CampaignRoutes {
  import opened Wrappers
  import opened Js
  import opened Remote
  import opened CampaignModel
  import opened Store
  import opened Http
  import CampaignService

  /**
   * `POST /campaigns`: `new Campaign(req.body)` then `save()`; `saveFault` is
   * the error the store raises on save, if any.
   */
  method PostCampaign(db: Database, fields: CampaignFields, now: int, saveFault: Option<string>) returns (r: Response)
    requires db.Valid()
    modifies db
    ensures db.Valid() && db.subscribers == old(db.subscribers)
    ensures !RequiredPresent(fields) ==> r == Response(400, InvalidDocument(InvalidPaths(fields))) && db.campaigns == old(db.campaigns)
    ensures RequiredPresent(fields) && saveFault.Some? ==> r == Response(400, ErrorJson(saveFault.value)) && db.campaigns == old(db.campaigns)
    ensures RequiredPresent(fields) && saveFault.None? ==>
      db.campaigns == old(db.campaigns) + [NewCampaign(fields, now).value]
      && r == Response(201, CampaignJson(|old(db.campaigns)|, NewCampaign(fields, now).value))
  {
    var made := NewCampaign(fields, now);
    match made {
      case Failure(paths) =>
        return Response(400, InvalidDocument(paths));
      case Success(c) =>
        if saveFault.Some? {
          return Response(400, ErrorJson(saveFault.value));
        }
        var id := db.SaveCampaign(c);
        r := Response(201, CampaignJson(id, c));
    }
  }

  const HtmlRequired := "HTML content is required"

  /** `PUT /campaigns/:campaignId/content`: no html, no call; the API's error message is passed on unchanged. */
  function PutContent(campaignId: string, html: Option<string>, reply: Reply<Ack>): (h: Handled)
    ensures !Truthy(html) ==> h == Handled(Response(400, ErrorJson(HtmlRequired)), [])
    ensures Truthy(html) ==> h.calls == [CampaignsSetContent(campaignId, html.value)]
    ensures Truthy(html) && reply.Ok? ==> h.response == Response(200, AckJson)
    ensures Truthy(html) && reply.Rejected? ==> h.response == Response(500, ErrorJson(reply.error.message))
  {
    if !Truthy(html) then Handled(Response(400, ErrorJson(HtmlRequired)), [])
    else
      var calls := [CampaignsSetContent(campaignId, html.value)];
      match reply
      case Ok(_) => Handled(Response(200, AckJson), calls)
      case Rejected(e) => Handled(Response(500, ErrorJson(e.message)), calls)
  }

  /** `POST /campaigns/:campaignId/send` */
  function PostSend(campaignId: string, reply: Reply<Ack>): (h: Handled)
    ensures h.calls == [CampaignsSend(campaignId)]
    ensures reply.Ok? <==> h.response.status == 200
    ensures reply.Ok? ==> h.response.body == AckJson
    ensures reply.Rejected? ==> h.response == Response(500, ErrorJson(reply.error.message))
  {
    match reply
    case Ok(_) => Handled(Response(200, AckJson), [CampaignsSend(campaignId)])
    case Rejected(e) => Handled(Response(500, ErrorJson(e.message)), [CampaignsSend(campaignId)])
  }

  /** The body of `POST /campaigns/bulk-send`; None is an undefined field. */
  datatype BulkSendBody = BulkSendBody(
    listId: Option<string>,
    subject: Option<string>,
    fromName: Option<string>,
    replyTo: Option<string>,
    htmlContent: Option<string>)

  predicate HasRequiredFields(b: BulkSendBody)
  {
    Truthy(b.listId) && Truthy(b.subject) && Truthy(b.fromName) && Truthy(b.replyTo) && Truthy(b.htmlContent)
  }

  const MissingFields := "Missing required fields"

  /**
   * The create request of the bulk send. It is the service's mapping for the
   * same settings with no title, so the title is always the timestamped one.
   */
  function BulkSendRequest(b: BulkSendBody, nowIso: string): (req: CampaignRequest)
    requires HasRequiredFields(b)
    ensures req == CampaignService.CampaignRequestFor(
      CampaignService.CampaignData(b.listId.value, b.subject.value, b.fromName.value, b.replyTo.value, None), nowIso)
  {
    CampaignRequest("regular", b.listId.value, b.subject.value, b.fromName.value, b.replyTo.value, CampaignService.TitlePrefix + nowIso)
  }

  /**
   * `POST /campaigns/bulk-send`. `create`, `content` and `send` are the API's
   * replies to the three steps; `now` and `nowIso` are the clock;
   * `saveFault` is the error the store raises when saving the Campaign.
   * The Subscriber collection is only read.
   */
  method PostBulkSend(db: Database, b: BulkSendBody, nowIso: string, now: int,
                      create: Reply<CampaignRecord>, content: Reply<Ack>, send: Reply<Ack>, saveFault: Option<string>)
    returns (h: Handled)
    requires db.Valid()
    modifies db
    ensures db.Valid() && db.subscribers == old(db.subscribers)
    ensures !HasRequiredFields(b) ==>
      h == Handled(Response(400, FailureJson(MissingFields)), []) && db.campaigns == old(db.campaigns)
    ensures HasRequiredFields(b) ==>
      h.calls == CampaignService.Planned(BulkSendRequest(b, nowIso), CampaignService.CreatedId(create), b.htmlContent.value)
        [..CampaignService.StepsMade(create, content, send)]
    ensures HasRequiredFields(b) && CampaignService.FirstError(create, content, send).Some? ==>
      h.response == Response(500, FailureJson(CampaignService.FirstError(create, content, send).value.message))
      && db.campaigns == old(db.campaigns)
    ensures HasRequiredFields(b) && CampaignService.FirstError(create, content, send).None? && saveFault.Some? ==>
      h.response == Response(500, FailureJson(saveFault.value)) && db.campaigns == old(db.campaigns)
    ensures HasRequiredFields(b) && CampaignService.FirstError(create, content, send).None? && saveFault.None? ==>
      && |db.campaigns| == |old(db.campaigns)| + 1
      && db.campaigns[..|old(db.campaigns)|] == old(db.campaigns)
      && SentCampaign(db.campaigns[|old(db.campaigns)|], b, now, db.subscribers)
      && h.response == Response(200, SentReport(create.value.id, |db.subscribers.KeysOfList(b.listId.value)|))
  {
    if !HasRequiredFields(b) {
      return Handled(Response(400, FailureJson(MissingFields)), []);
    }
    var listId, html := b.listId.value, b.htmlContent.value;
    var request := BulkSendRequest(b, nowIso);
    var calls := [CampaignsCreate(request)];
    if create.Rejected? {
      return Handled(Response(500, FailureJson(create.error.message)), calls);
    }
    var id := create.value.id;
    calls := calls + [CampaignsSetContent(id, html)];
    if content.Rejected? {
      return Handled(Response(500, FailureJson(content.error.message)), calls);
    }
    calls := calls + [CampaignsSend(id)];
    if send.Rejected? {
      return Handled(Response(500, FailureJson(send.error.message)), calls);
    }
    var made := NewCampaign(CampaignFields(Some(b.subject.value), Some(html), Some(now), Some(listId), None, None, None), now);
    var subscribers := db.FindSubscriberIds(listId);
    var doc := made.value.(subscribers := subscribers);
    if saveFault.Some? {
      return Handled(Response(500, FailureJson(saveFault.value)), calls);
    }
    var _ := db.SaveCampaign(doc);
    h := Handled(Response(200, SentReport(id, |subscribers|)), calls);
  }

  /**
   * The Campaign the bulk send stores: the request's subject, html and list,
   * sent and created now, no list name, and as subscribers the ids of
   * exactly the stored Subscribers of that list, each once.
   */
  ghost predicate SentCampaign(c: Campaign, b: BulkSendBody, now: int, t: SubscriberTable)
    requires HasRequiredFields(b)
  {
    && c.subject == b.subject.value && c.content == b.htmlContent.value && c.listId == b.listId.value
    && c.listName == "" && c.sentDate == now && c.createdAt == now
    && IsSnapshot(c.subscribers, t, b.listId.value)
  }

  const CampaignNotFound := "Campaign not found"

  /** `GET /campaigns/:id` */
  function GetCampaignById(db: Database, id: nat): (r: Response)
    reads db
    ensures r.status == 404 <==> db.FindCampaign(id).None?
    ensures db.FindCampaign(id).None? ==> r.body == ErrorJson(CampaignNotFound)
    ensures id < |db.campaigns| ==> r == Response(200, CampaignJson(id, db.campaigns[id]))
  {
    match db.FindCampaign(id)
    case None => Response(404, ErrorJson(CampaignNotFound))
    case Some(c) => Response(200, CampaignJson(id, c))
  }
}
