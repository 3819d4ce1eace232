/** HTTP responses as the handlers send them: a status code and a JSON (or text) body. */
module Http {
  import opened Wrappers
  import opened Remote
  import opened ImportRows
  import opened CampaignModel

  datatype Body =
    | ErrorJson(error: string)                              // { error }
    | ErrorWithDetails(error: string, details: string)     // { error, details }
    | FailureJson(error: string)                            // { success: false, error }
    | InvalidDocument(paths: seq<string>)                   // { error: <validation message naming the paths> }
    | ImportReport(results: ImportResult)                   // { message: 'Import completed', results }
    | ResultsJson(results: ImportResult)                    // the results object itself
    | SentReport(campaignId: string, subscriberCount: nat)  // { success: true, message, campaignId, subscriberCount }
    | MemberJson(member: MemberRecord)
    | SegmentJson(segment: SegmentRecord)
    | ListsJson(lists: seq<ListInfo>)
    | AckJson                                               // the provider's reply, passed through
    | CampaignJson(id: nat, campaign: Campaign)             // a stored document with its _id
    | Text(text: string)
    | InternalError(message: string, stack: Option<string>) // { error: 'Internal server error', message, stack }

  datatype Response = Response(status: nat, body: Body)

  /** A handled request: the response and the remote calls made on the way, in order. */
  datatype Handled = Handled(response: Response, calls: seq<Call>)
}
