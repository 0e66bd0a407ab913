/** The offers endpoint (netlify/functions/offers.js): fetch the affiliate's
    active offers and answer with three fields of each, in upstream order. */
module Offers {
  import opened Wrappers
  import opened Js
  import opened XmlFeed
  import opened Upstream
  import opened Handler

  /** An `offer` element of the OfferFeed: the text of each child element. */
  type Row = map<string, string>

  /** The three fields an offer is reduced to. */
  const OfferKeys: set<string> := {"offer_id", "offer_name", "campaign_id"}

  /** One element of the listing, `{ offer_id, offer_name, campaign_id }`. */
  datatype OfferSummary = OfferSummary(offerId: Option<string>, offerName: Option<string>, campaignId: Option<string>)

  /** The three fields of one offer, each `undefined` when the offer lacks it. */
  function Project(row: Row): (o: OfferSummary)
    ensures o.offerId.Some? <==> "offer_id" in row
    ensures o.offerName.Some? <==> "offer_name" in row
    ensures o.campaignId.Some? <==> "campaign_id" in row
    ensures o.offerId.Some? ==> o.offerId.value == row["offer_id"]
    ensures o.offerName.Some? ==> o.offerName.value == row["offer_name"]
    ensures o.campaignId.Some? ==> o.campaignId.value == row["campaign_id"]
  {
    OfferSummary(Field(row, "offer_id"), Field(row, "offer_name"), Field(row, "campaign_id"))
  }

  /** The JSON of one offer; `JSON.stringify` leaves out undefined fields. */
  function OfferJson(o: OfferSummary): (j: Json)
    ensures j.JObj? && Keys(j) <= OfferKeys
  {
    var a, b, c := Optional("offer_id", o.offerId), Optional("offer_name", o.offerName), Optional("campaign_id", o.campaignId);
    KeysConcat(a + b, c);
    KeysConcat(a, b);
    OptionalMember("offer_id", o.offerId, "");
    OptionalMember("offer_name", o.offerName, "");
    OptionalMember("campaign_id", o.campaignId, "");
    JObj(Optional("offer_id", o.offerId) + Optional("offer_name", o.offerName) + Optional("campaign_id", o.campaignId))
  }

  /** `offers.map(offer => ({ ... }))`, as JSON. */
  function ListJson(rows: seq<Row>): (j: Json)
    ensures j.JArr? && |j.items| == |rows|
    ensures forall i :: 0 <= i < |rows| ==> j.items[i] == OfferJson(Project(rows[i]))
    ensures Keys(j) <= OfferKeys
  {
    JArr(seq(|rows|, i requires 0 <= i < |rows| => OfferJson(Project(rows[i]))))
  }

  /** The keys of a rendered offer are the offer fields the row has. */
  lemma OfferKeysPresent(row: Row)
    ensures Keys(OfferJson(Project(row))) == OfferKeys * row.Keys
  {
    var o := Project(row);
    var a, b, c := Optional("offer_id", o.offerId), Optional("offer_name", o.offerName), Optional("campaign_id", o.campaignId);
    KeysConcat(a + b, c);
    KeysConcat(a, b);
    OptionalMember("offer_id", o.offerId, "");
    OptionalMember("offer_name", o.offerName, "");
    OptionalMember("campaign_id", o.campaignId, "");
  }

  /** Reading one key of a rendered offer gives the row's own text for an
      offer field the row has, and nothing for any other key. */
  lemma OfferLookup(row: Row, key: string)
    ensures Lookup(OfferJson(Project(row)), key) == (if key in OfferKeys && key in row then Some(JStr(row[key])) else None)
  {
    var o := Project(row);
    var a, b, c := Optional("offer_id", o.offerId), Optional("offer_name", o.offerName), Optional("campaign_id", o.campaignId);
    LookupConcat(a + b, c, key);
    LookupConcat(a, b, key);
    OptionalMember("offer_id", o.offerId, key);
    OptionalMember("offer_name", o.offerName, key);
    OptionalMember("campaign_id", o.campaignId, key);
  }

  /** A rendered offer is the upstream row cut down to the three offer
      fields: each of them that the row has is copied unchanged, and no
      other key appears. */
  lemma OfferIsRestriction(row: Row)
    ensures Keys(OfferJson(Project(row))) == OfferKeys * row.Keys
    ensures forall key :: Lookup(OfferJson(Project(row)), key)
                          == (if key in OfferKeys && key in row then Some(JStr(row[key])) else None)
  {
    OfferKeysPresent(row);
    forall key {
      OfferLookup(row, key);
    }
  }

  /** Everything after the request has been sent. */
  function Respond(reply: Reply<Row>): (r: Response)
    ensures r.status == 200 || r.status == 500
    ensures r.status == 500 ==> IsFailure(r)
    ensures r.status == 500 <==> reply.Failed? || Normalise(reply.feed).Failure?
    ensures r.status == 200 ==> r.body.Text? && Keys(r.body.json) <= {"success", "offers"} + OfferKeys
  {
    match reply
    case Failed(message) => Fail(message)
    case Received(feed) =>
      match Normalise(feed)
      case Failure(fault) => Fail(FaultMessage(fault, "offer_feed_response", "offer_id"))
      case Success(rows) => Succeed("offers", ListJson(rows))
  }

  /** One invocation of the handler, given the upstream reply it would receive. */
  function Exchange(httpMethod: string, config: Config, reply: Reply<Row>): (o: Outcome)
    ensures o.call.None? <==> IsPreflight(httpMethod)
    ensures IsPreflight(httpMethod) ==> o.response == Preflight
    ensures !IsPreflight(httpMethod) ==> o.response == Respond(reply)
  {
    if IsPreflight(httpMethod) then Outcome(None, Preflight)
    else Outcome(Some(Call(OfferFeedUrl(config), OfferFeedParams(config))), Respond(reply))
  }

  /** A preflight request is answered with an empty 200 before anything else happens. */
  lemma PreflightFirst(config: Config, reply: Reply<Row>)
    ensures Exchange("OPTIONS", config, reply) == Outcome(None, Response(200, Blank))
  {
  }

  /** Any other request asks the OfferFeed for the configured affiliate's
      active offers, with no parameter taken from the caller. */
  lemma UpstreamRequest(httpMethod: string, config: Config, reply: Reply<Row>)
    requires !IsPreflight(httpMethod)
    ensures var call := Exchange(httpMethod, config, reply).call;
      && call.Some?
      && call.value.url == config.baseUrl + "/affiliates/api/2/offers.asmx/OfferFeed"
      && call.value.params == map["api_key" := Str(config.apiKey), "affiliate_id" := Str(config.affiliateId), "offer_status_id" := Num(3.0)]
  {
  }

  /** A successful listing has one element per upstream offer, in upstream
      order, and the element at each position is that offer cut down to
      its three fields. */
  lemma Listing(httpMethod: string, config: Config, rows: seq<Row>)
    requires !IsPreflight(httpMethod)
    ensures var r := Exchange(httpMethod, config, Received(Collapse(rows))).response;
      && r == Succeed("offers", ListJson(rows))
      && |ListJson(rows).items| == |rows|
      && forall i, key :: 0 <= i < |rows| ==>
           Lookup(ListJson(rows).items[i], key) == (if key in OfferKeys && key in rows[i] then Some(JStr(rows[i][key])) else None)
  {
    NormaliseCollapse(rows);
    forall i | 0 <= i < |rows| {
      OfferIsRestriction(rows[i]);
    }
  }

  /** No response carries any key but the envelope's and the three offer fields. */
  lemma Redaction(httpMethod: string, config: Config, reply: Reply<Row>)
    ensures var r := Exchange(httpMethod, config, reply).response;
      r.body.Text? ==> Keys(r.body.json) <= {"success", "error", "offers"} + OfferKeys
  {
    var r := Exchange(httpMethod, config, reply).response;
    if r.status == 200 && r.body.Text? {
      var rows := Normalise(reply.feed).value;
      var j := ListJson(rows);
      forall i | 0 <= i < |rows| ensures Keys(j.items[i]) <= OfferKeys {
        OfferIsRestriction(rows[i]);
      }
    }
  }

  /** An absent `offers` container gives an empty list. */
  lemma AbsentContainerIsEmpty(httpMethod: string, config: Config)
    requires !IsPreflight(httpMethod)
    ensures Exchange(httpMethod, config, Received(NoContainer)).response == Succeed("offers", JArr([]))
  {
  }

  /** A single unwrapped offer is listed exactly as a one-element array. */
  lemma SingleOfferAsArray(httpMethod: string, config: Config, row: Row)
    ensures Exchange(httpMethod, config, Received(One(row))) == Exchange(httpMethod, config, Received(Many([row])))
  {
  }

  /** Every failure is answered with status 500 and `{ success: false, error }`;
      it happens exactly when the upstream call or the XML parse fails, the
      document is empty, or the offer item is missing, and the error carries
      the message of what was thrown. */
  lemma Failures(httpMethod: string, config: Config, reply: Reply<Row>)
    ensures var r := Exchange(httpMethod, config, reply).response;
      && (r.status == 200 || r.status == 500)
      && (r.status == 500 ==> IsFailure(r))
      && (r.status == 500 <==>
            !IsPreflight(httpMethod) && (reply.Failed? || reply.feed.NullDocument? || reply.feed.MissingItem?))
      && (!IsPreflight(httpMethod) && reply.Failed? ==> r == Fail(reply.message))
      && (!IsPreflight(httpMethod) && reply.Received? && reply.feed.NullDocument? ==>
            r == Fail(FaultMessage(ReadOfNull, "offer_feed_response", "offer_id")))
      && (!IsPreflight(httpMethod) && reply.Received? && reply.feed.MissingItem? ==>
            r == Fail(FaultMessage(ReadOfUndefined, "offer_feed_response", "offer_id")))
  {
  }
}
