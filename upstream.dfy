/** The upstream reporting service as the handlers see it: their
    configuration, the GET request they send, and what comes back once the
    reply has been parsed from XML. */
module Upstream {
  import opened Js
  import opened XmlFeed

  /** FLUENT_BASE_URL, FLUENT_API_KEY and FLUENT_AFFILIATE_ID, as read from the environment. */
  datatype Config = Config(baseUrl: string, apiKey: string, affiliateId: string)

  /** One GET request: the endpoint and its query parameters. */
  datatype Call = Call(url: string, params: map<string, Value>)

  /** The awaited result of the request and of `parseXML`: either one of them
      threw (a network, HTTP or XML error, with its message), or the parsed
      document yielded the feed of items the handler looks for. */
  datatype Reply<R> = Failed(message: string) | Received(feed: Feed<R>)

  /** The query parameters every SubIDSummary request carries. */
  const SummaryKeys: set<string> :=
    {"api_key", "start_date", "end_date", "source_affiliate_id", "site_offer_id", "event_id", "revenue_filter"}

  function SummaryUrl(config: Config): string
  {
    config.baseUrl + "/api/1/reports.asmx/SubIDSummary"
  }

  /** The SubIDSummary parameters for a destructured request body. */
  function SummaryParams(config: Config, request: map<string, Value>): (params: map<string, Value>)
    ensures params.Keys == SummaryKeys
    ensures params["site_offer_id"] == Prop(request, "offer_id")
    ensures params["start_date"] == Prop(request, "start_date") && params["end_date"] == Prop(request, "end_date")
    ensures params["api_key"] == Str(config.apiKey) && params["source_affiliate_id"] == Str(config.affiliateId)
    ensures params["event_id"] == Num(0.0) && params["revenue_filter"] == Str("conversions_and_events")
  {
    map[
      "api_key" := Str(config.apiKey),
      "start_date" := Prop(request, "start_date"),
      "end_date" := Prop(request, "end_date"),
      "source_affiliate_id" := Str(config.affiliateId),
      "site_offer_id" := Prop(request, "offer_id"),
      "event_id" := Num(0.0),
      "revenue_filter" := Str("conversions_and_events")
    ]
  }

  function OfferFeedUrl(config: Config): string
  {
    config.baseUrl + "/affiliates/api/2/offers.asmx/OfferFeed"
  }

  /** The OfferFeed parameters: the configured credentials and status 3, active offers only. */
  function OfferFeedParams(config: Config): (params: map<string, Value>)
    ensures params.Keys == {"api_key", "affiliate_id", "offer_status_id"}
    ensures params["offer_status_id"] == Num(3.0)
    ensures params["api_key"] == Str(config.apiKey) && params["affiliate_id"] == Str(config.affiliateId)
  {
    map["api_key" := Str(config.apiKey), "affiliate_id" := Str(config.affiliateId), "offer_status_id" := Num(3.0)]
  }
}
