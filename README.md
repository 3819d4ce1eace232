# email-tool core, modelled in Dafny

email-tool is an Express backend in front of an email-marketing API (Mailchimp)
with a MongoDB store. This project models the part of it that has logic:

- **The CSV bulk import.** The routes version (`routes/audience.js`) adds each row's
  address to a list through the API and then upserts a local Subscriber document
  keyed by (email, listId). The service version (`mailchimp-backend/services/audience.js`)
  and the server's inline version (`mailchimp-backend/server.js`) only call the API.
  Every version counts each row as a success or a failure and collects
  `Error adding <email>: <message>` texts in row order.
- **The segment-member loop** (`addMembersToSegment`), which uses the same counting pattern.
- **The campaign orchestration.** It runs create, then set-content, then send on one
  campaign id. The route version (`routes/campaign.js`, `/bulk-send`) then saves a
  Campaign document with a snapshot of the list's stored subscribers.
- **The smaller handlers around them.** These are the required-field checks, the 404
  fallback and the error-to-status middleware.
- **The two document schemas** (`models/Subscriber.js`, `models/Campaign.js`), with
  their required fields, defaults and the status enum.

How the model is built:

- **The API is an oracle.** Each remote call is a `Remote.Call` value. Each handler
  takes the API's replies as parameters, one reply per call it might make. It returns
  the calls it made in order, so "no call was made" is a checkable fact.
- **The store is a class.** `Store.Database` holds the Subscriber collection as a
  `SubscriberTable` (a map from (email, listId) to document, plus the next fresh id)
  and the Campaign collection as a sequence. Handlers that write the store are methods
  that modify it. Each one is specified by functions on the old table (`ImportedTable`,
  `Upsert`), and the upsert semantics are proved as lemmas about those functions.
- **The loops are `while` loops.** Each loop keeps the results object equal to the
  `Summary` of the per-item `Verdict`s decided so far. The counting facts
  (`success + failed == n`, `errors.length == failed`, errors in item order, a failure
  does not stop later items) are proved once about `Summary` in `ImportRows`.
- **JavaScript truthiness is explicit.** An optional field is `Option<string>`.
  `!x` is `!Truthy(x)`, so undefined and `''` are both falsy, and `x || d` is `Or(x, d)`.

Modules: `Wrappers`, `Js`, `Remote`, `Http`, `ImportRows`, `SubscriberModel`,
`CampaignModel`, `Store`, `AudienceService`, `Server`, `AudienceRoutes`,
`CampaignService`, `CampaignRoutes`.

Three details of the code that the model follows:

- **The campaign title** falls back to `'Campaign ' + timestamp` whenever `campaignData.title`
  is falsy (`||`), so an empty title also gets the default, not only a missing one.
- **The error middleware** sends the stack only when `NODE_ENV` is exactly `'development'`.
  It is not sent in any other mode.
- **Subscriber uniqueness is left open.** The schema declares `email` unique on its
  own, but the upsert filters on (email, listId). The model keys the collection by
  (email, listId) and does not enforce the single-field index. A write the index would
  refuse is one of the store failures the import takes as an input (`RowEnv.storeFault`).

## Model

| member | source | states |
|---|---|---|
| ImportRows.ImportCallsOfRow | routes/audience.js:79-94 | A row whose email is missing or `''` makes no call. Any other row makes exactly one add-member call with its email, status `'subscribed'`, and FNAME/LNAME from `first_name`/`last_name`, or `''` when the column is absent. |
| ImportRows.ImportCallsSubscribed | routes/audience.js:78-94 | An import makes at most one call per row. Every call adds a member to the given list with status `'subscribed'` and exactly the merge fields FNAME and LNAME. |
| ImportRows.ImportCallsConcat | routes/audience.js:78-113 | Rows are handled in order, independently: the calls for `a + b` are the calls for `a` followed by the calls for `b`. |
| ImportRows.CountsCover | routes/audience.js:78-113 | Every item is counted exactly once: successes plus errors equal the number of items. |
| ImportRows.Summary | routes/audience.js:72-113 | In the results object, `success + failed` equals the number of items and `errors.length == failed`. |
| ImportRows.ErrorsConcat | routes/audience.js:78-113 | A failure does not stop later items: the successes and errors of `a + b` are those of `a` combined with those of `b`. |
| ImportRows.SummaryConcat | routes/audience.js:78-113 | The results of `a + b` add up the counts of `a` and `b` and concatenate their error lists. |
| ImportRows.ErrorOfItem | routes/audience.js:109-112 | Errors are in item order: the error of failed item `i` is at the position right after the errors of the items before it. |
| SubscriberModel.ParseStatus | models/Subscriber.js:25-29 | Exactly the four names `subscribed`, `unsubscribed`, `cleaned` and `pending` are accepted, each as its own status. |
| SubscriberModel.InvalidPaths | models/Subscriber.js:3-30 | `email` fails validation iff it is missing or `''`, and likewise `listId`. `status` fails iff it is given and is not an enum value. No failing path iff the document is valid. |
| SubscriberModel.NewSubscriber | models/Subscriber.js:3-30 | A document is built iff the required fields are present and the status is allowed, and otherwise the failing paths are reported. Name fields default to `''`, the date to now, the status to `subscribed`. |
| CampaignModel.InvalidPaths | models/Campaign.js:4-19 | `subject`, `content` and `listId` each fail validation iff missing or `''`. No failing path iff all three are present. |
| CampaignModel.NewCampaign | models/Campaign.js:3-32 | A document is built iff subject, content and listId are present. `listName` defaults to `''`, `sentDate` and `createdAt` to now, `subscribers` to the empty list. |
| Store.SubscriberTable.Upsert | routes/audience.js:97-106 | After an upsert the key (email, listId) is present and no other document changes. The document gets the new names, status `subscribed` and the new date. An existing document keeps its id; a new one gets the next fresh id. |
| Store.SubscriberTable.UpsertValid | routes/audience.js:97-106 | An upsert keeps the collection well formed: each document sits under its own email and listId, and ids stay distinct and below the next fresh id. |
| Store.KeysToSnapshot | routes/campaign.js:97-98 | Reading each stored key of the list once, in any order, gives each list member's id exactly once. |
| Store.Database.UpsertSubscriber | routes/audience.js:97-106 | The stored collection becomes the upsert of the old one. The Campaign collection is untouched. |
| Store.Database.FindSubscriberIds | routes/campaign.js:97-98 | `Subscriber.find({listId})` mapped to ids returns the ids of exactly the list's documents, each once, as many as the list has. |
| Store.Database.SaveCampaign | routes/campaign.js:100 | Saving appends the document to the Campaign collection, and its id is its position. |
| Store.Database.FindCampaign | routes/campaign.js:130 | `findById` finds a campaign iff the id is stored, and then returns that document. |
| AudienceService.AddSubscriber | mailchimp-backend/services/audience.js:24-35 | One add-member call with status `'subscribed'` and the given merge fields, `{}` when none are given. It returns the reply, or on rejection the message prefixed with `'Failed to add subscriber: '`. |
| AudienceService.BulkRowVerdict | mailchimp-backend/services/audience.js:56-72 | A row without an email fails with `'Missing email address'`. Otherwise the row succeeds iff the API accepts it, and a rejection gives `Error adding <email>: Failed to add subscriber: <message>`. |
| AudienceService.BulkImport | mailchimp-backend/services/audience.js:38-79 | A CSV read failure gives `'Failed to bulk import: ' + message` and makes no call. Otherwise the result is the Summary of the row verdicts, and the calls are exactly the per-row calls in order. |
| AudienceService.CreateSegment | mailchimp-backend/services/audience.js:82-95 | One create-segment call with the name, match mode `'all'` and the conditions, with `[]` when they are undefined. A rejection is rethrown with the prefix `'Failed to create segment: '`. |
| AudienceService.SegmentVerdict | mailchimp-backend/services/audience.js:107-115 | An email succeeds iff its add call is accepted. Otherwise it fails with `Error adding <email>: <message>`. |
| AudienceService.AddMembersToSegment | mailchimp-backend/services/audience.js:98-122 | Exactly one add-segment-member call per email, in email order, whatever the earlier calls answered. The result is the Summary of the verdicts, so `success + failed == emails.length` and the errors are in email order. |
| Server.InlineVerdict | mailchimp-backend/server.js:125-146 | A row without an email fails with `'Missing email address'`. Otherwise the row succeeds iff the API accepts it, and a rejection gives `Error adding <email>: <message>`. |
| Server.PostBulkImport | mailchimp-backend/server.js:99-160 | No file gives 400 `'No file uploaded'` and makes no call. Otherwise the response is 200 with the Summary of the row verdicts, and the calls are exactly the per-row calls in order. |
| Server.NotFound | mailchimp-backend/server.js:168-170 | Any unmatched request gets 404 with the text `'Not Found'`. |
| Server.HandleError | mailchimp-backend/server.js:172-187 | The status is 400 iff the error is a `MulterError`, and 500 otherwise. The 500 body carries the message, and the stack iff `NODE_ENV` is `'development'`. |
| AudienceRoutes.GetLists | routes/audience.js:22-33 | One list call. Returns the lists with 200, or 500 `'Failed to fetch Mailchimp lists'` with the message as details. |
| AudienceRoutes.PostMember | routes/audience.js:36-50 | A missing or empty email gives 400 `'Email is required'` with no call. Otherwise it makes addSubscriber's one call and answers 201 iff that call is accepted, or 500 with the prefixed message. |
| AudienceRoutes.StoredVerdict | routes/audience.js:78-113 | A row succeeds iff it has an email, the API accepts it and the upsert succeeds. A missing email fails with `'Missing email address'`. An API or store error fails with `Error adding <email>: <message>`. |
| AudienceRoutes.ImportRow | routes/audience.js:96-106 | One row never removes a document. |
| AudienceRoutes.ImportedTable | routes/audience.js:78-113 | An import never removes a document. |
| AudienceRoutes.ImportedTableValid | routes/audience.js:97-106 | An import keeps the Subscriber collection well formed. |
| AudienceRoutes.ImportedTableConcat | routes/audience.js:78-113 | Importing `a + b` is importing `b` into the result of importing `a`. |
| AudienceRoutes.FailedRowLeavesStore | routes/audience.js:85-112 | A failed row does not change the store: the import gives the same collection as the import without that row. |
| AudienceRoutes.WrittenKeysInList | routes/audience.js:97-98 | Every key the import writes has the import's listId. |
| AudienceRoutes.ImportedTableKeys | routes/audience.js:97-106 | The keys after an import are the old keys plus exactly the (email, listId) of the succeeding rows. |
| AudienceRoutes.ImportedTableFrame | routes/audience.js:97-106 | A document whose key no succeeding row writes stays as it was. Every existing document keeps its id, because it is updated and never inserted again. |
| AudienceRoutes.LastSuccessfulRowWins | routes/audience.js:97-106 | When several rows share an email, the one document for (email, listId) holds the names, status and time of the last succeeding row. |
| AudienceRoutes.ImportOneRow | routes/audience.js:79-112 | One row: no call and no store change without an email. Otherwise one add-member call, and an upsert only when the API accepts it. The verdict is the row's StoredVerdict. |
| AudienceRoutes.PostBulkImport | routes/audience.js:53-127 | No file gives 400 with no call and no store change. Otherwise the response is 200 `Import completed` with the Summary of the row verdicts. The calls are the per-row calls in order, the store becomes ImportedTable of the old one, and campaigns are untouched. |
| AudienceRoutes.ExampleSummary | routes/audience.js:78-113 | The example rows a@x.com, an empty email and c@x.com, fully accepted, give `{success: 2, failed: 1, errors: ['Missing email address']}`. |
| AudienceRoutes.ExampleCalls | routes/audience.js:79-94 | In the same example exactly two add-member calls are made, in row order: a@x.com with FNAME 'A' and LNAME '', then c@x.com with FNAME and LNAME ''. |
| AudienceRoutes.ExampleWritten | routes/audience.js:97-106 | In the same example the written keys are those of a@x.com and c@x.com. |
| AudienceRoutes.ExampleStore | routes/audience.js:97-106 | In the same example an empty store ends with exactly the documents of a@x.com and c@x.com. |
| AudienceRoutes.PostSegment | routes/audience.js:130-144 | A missing or empty name gives 400 `'Segment name is required'` with no call. Otherwise it makes createSegment's one call and answers 201 iff that call is accepted, or 500 with the prefixed message. |
| AudienceRoutes.PostSegmentMembers | routes/audience.js:147-161 | A non-array or empty `emails` gives 400 `'Array of emails is required'` with no call. Otherwise it makes one call per email in order and answers 200 with the Summary. |
| CampaignService.CampaignRequestFor | services/campaign.js:4-23 | The create request has type `'regular'`, the list as `list_id`, and the subject, from-name and reply-to. The title is the given one when it is truthy, and `'Campaign ' + timestamp` otherwise. |
| CampaignService.ThrownBy | services/campaign.js:71-77 | The thrown object carries the error's message, with the provider's response body as details when present and the stack otherwise. |
| CampaignService.CreateAndSendCampaign | services/campaign.js:50-79 | Create, then set-content, then send on the created id, stopping after the first rejected step. It succeeds iff no step is rejected, returning the created id. Otherwise it throws built from the first rejection. |
| CampaignService.StepOrder | services/campaign.js:55-63 | Create is always the first call. A rejected create is the only call, and a rejected set-content is the second and last. All three calls happen iff no step failed, and every later call names the id create returned. |
| CampaignRoutes.PostCampaign | routes/campaign.js:10-18 | An invalid document gives 400 with its failing paths, and a save error gives 400 with the message. Either way nothing is stored. Otherwise the document is appended and returned with 201 and its id. |
| CampaignRoutes.PutContent | routes/campaign.js:21-35 | A missing or empty html gives 400 `'HTML content is required'` with no call. Otherwise one set-content call returns 200, or 500 with the API's message unchanged. |
| CampaignRoutes.PostSend | routes/campaign.js:38-46 | One send call returns 200 iff it is accepted, or 500 with the API's message unchanged. |
| CampaignRoutes.BulkSendRequest | routes/campaign.js:68-79 | The bulk-send create request is the service mapping of the same list, subject, from-name and reply-to with no title, so its title is always `'Campaign ' + timestamp`. |
| CampaignRoutes.PostBulkSend | routes/campaign.js:49-116 | A missing field gives 400 `{success: false}` with no call and no save. Otherwise the calls are create, set-content, send on the created id, up to the first rejected step. A rejected step gives 500 `{success: false, error}` with no save. On full success one Campaign is appended, with the subject, html, list, the time and exactly the list's stored subscriber ids, and the response is 200 with the created id and the list's subscriber count. Subscribers are never changed. |
| CampaignRoutes.GetCampaignById | routes/campaign.js:128-138 | 404 `'Campaign not found'` iff no campaign has the id. Otherwise 200 with that document. |

## Left out

- CSV parsing (`csv-parser`) is not modelled. Each import takes the parsed rows as a sequence of column-to-text maps.
- File handling is not modelled: multer uploads, the uploads directory, and creating and unlinking the temporary file (routes/audience.js:15-19, 63-70, 122-124; mailchimp-backend/server.js:109-116, 155-157).
- Async and stream events are not modelled. Each handler is one sequential method. The routes import's outer try/catch (routes/audience.js:120-126) only sees errors raised before the stream starts, so it is not modelled.
- The Mailchimp client configuration, `setConfig` and the ping check are not modelled (mailchimp-backend/config/mailchimp.js). Neither is the CORS, dotenv and `listen` plumbing of mailchimp-backend/server.js.
- `mailchimp-backend/routes/api.js` is an HTTP client wrapper with no logic and is not modelled.
- `POST /upload`, `GET /` (routes/audience.js:164-191) and `GET /` of the server only parse a file or echo a constant, and are not modelled.
- `getAllLists` in the service and `getAllCampaigns` in services/campaign.js are pass-throughs of one call and are not modelled.
- `GET /campaigns` (routes/campaign.js:119-126) is a plain read of the collection and is not modelled.
- Store.Database: MongoDB is a map. Enforcement of the unique index on `email` is not modelled; its refusals are part of the per-row `storeFault` input. A failing `find` in `/bulk-send` is not modelled either; a failing save is (`saveFault`).
- Store.Database: ids are natural numbers. A malformed ObjectId in `GET /campaigns/:id`, which Mongoose rejects with a CastError and a 500, is not modelled.
- SubscriberModel.NewSubscriber, CampaignModel.NewCampaign: Mongoose's exact validation message is modelled as the list of failing paths, not as its text.
- Store.SubscriberTable.Upsert: the upsert does not run schema validation (Mongoose's default). The model inserts the filter fields together with the update fields, as MongoDB does.
- The clock (`new Date()`, `Date.now`, `toISOString()`) is an input: an integer time and an ISO text.
- CampaignService.CampaignData: the settings fields are strings. A `campaignData` with `listId`, `subject`, `fromName` or `replyTo` undefined is not modelled; only `title` is optional.
- CampaignService.CreateAndSendCampaign: the error's `response.body` is modelled as optional text, not as an arbitrary object.
- AudienceService.AddMembersToSegment: the outer catch (mailchimp-backend/services/audience.js:119-121), which throws `Failed to add members to segment: …` when `emails` is not iterable, is not modelled. `emails` is a sequence here, and the route (routes/audience.js:152) rejects anything that is not an array first.
- The `console` logging in every handler is not modelled.
- The root `services/audience.js`, which routes/audience.js imports, is not part of this model. The routes come with the `mailchimp-backend/services/audience.js` behaviour, whose AddSubscriber and CreateSegment are used for it.
- `middleware/upload.js` (the routes' upload middleware) is not part of this model. A missing file is an absent input.
