/** The ROAS endpoint (netlify/functions/calculate-roas.js): sum the revenue of
    the sub-ID rows of an offer, divide by the caller's ad spend, and answer
    with the ratio and the ad spend alone. */
module CalculateRoas {
  import opened Wrappers
  import opened Js
  import opened XmlFeed
  import opened Upstream
  import opened Handler

  /** A sub_id_summary row, each numeric field as `parseFloat` reads its text. */
  type Row = map<string, real>

  /** The figures that are computed but must never reach the caller. */
  const Withheld: set<string> := {"revenue", "profit", "conversions", "clicks"}

  /** `parseFloat(sub.<key> || 0)`: an absent field counts as 0. */
  function Amount(row: Row, key: string): (a: real)
    ensures key !in row ==> a == 0.0
    ensures key in row ==> a == row[key]
  {
    if key in row then row[key] else 0.0
  }

  /** `parseInt(sub.clicks || 0)`, modelled as truncation toward zero of the
      number the click text holds. */
  function Trunc(x: real): (n: int)
    ensures 0.0 <= x ==> 0 <= n && n as real <= x < n as real + 1.0
    ensures x < 0.0 ==> n <= 0 && n as real - 1.0 < x <= n as real
  {
    if x >= 0.0 then x.Floor else -((-x).Floor)
  }

  /** The running sum of one field over the rows, in row order; amounts that
      are never negative add up to a total that is not negative. */
  function Total(rows: seq<Row>, key: string): (t: real)
    ensures (forall i :: 0 <= i < |rows| ==> 0.0 <= Amount(rows[i], key)) ==> 0.0 <= t
  {
    if rows == [] then 0.0 else Total(rows[..|rows| - 1], key) + Amount(rows[|rows| - 1], key)
  }

  /** The running sum of the truncated click counts: each row's truncation
      is off by less than one click, so the sum is within one click per row
      of the exact total. */
  function ClickTotal(rows: seq<Row>): (c: int)
    ensures c as real - |rows| as real <= Total(rows, "clicks") <= c as real + |rows| as real
  {
    if rows == [] then 0 else ClickTotal(rows[..|rows| - 1]) + Trunc(Amount(rows[|rows| - 1], "clicks"))
  }

  /** The `forEach` loop: accumulates revenue, conversions and clicks over the rows. */
  method AccumulateTotals(rows: seq<Row>) returns (totalRevenue: real, totalConversions: real, totalClicks: int)
    ensures totalRevenue == Total(rows, "revenue")
    ensures totalConversions == Total(rows, "macro_event_conversions")
    ensures totalClicks == ClickTotal(rows)
  {
    totalRevenue, totalConversions, totalClicks := 0.0, 0.0, 0;
    for i := 0 to |rows|
      invariant totalRevenue == Total(rows[..i], "revenue")
      invariant totalConversions == Total(rows[..i], "macro_event_conversions")
      invariant totalClicks == ClickTotal(rows[..i])
    {
      var sub := rows[i];
      assert rows[..i + 1][..i] == rows[..i];
      totalRevenue := totalRevenue + Amount(sub, "revenue");
      totalConversions := totalConversions + Amount(sub, "macro_event_conversions");
      totalClicks := totalClicks + Trunc(Amount(sub, "clicks"));
    }
    assert rows[..|rows|] == rows;
  }

  /** Summing over two runs of rows adds their sums. */
  lemma {:induction false} TotalAppend(a: seq<Row>, b: seq<Row>, key: string)
    ensures Total(a + b, key) == Total(a, key) + Total(b, key)
  {
    if b == [] {
      assert a + b == a;
    } else {
      TotalAppend(a, b[..|b| - 1], key);
      assert (a + b)[..|a + b| - 1] == a + b[..|b| - 1];
    }
  }

  /** Taking one row out of the middle takes its amount off the total. */
  lemma TotalWithout(b: seq<Row>, j: nat, key: string)
    requires j < |b|
    ensures Total(b, key) == Total(b[..j] + b[j + 1..], key) + Amount(b[j], key)
  {
    assert b == (b[..j] + [b[j]]) + b[j + 1..];
    TotalAppend(b[..j] + [b[j]], b[j + 1..], key);
    TotalAppend(b[..j], [b[j]], key);
    TotalAppend(b[..j], b[j + 1..], key);
    assert [b[j]][..0] == [];
  }

  /** Removing the same row from two permutations of each other leaves two
      permutations of each other. */
  lemma RemoveMatching(a: seq<Row>, b: seq<Row>, j: nat)
    requires multiset(a) == multiset(b) && a != [] && j < |b| && b[j] == a[|a| - 1]
    ensures multiset(a[..|a| - 1]) == multiset(b[..j] + b[j + 1..])
  {
    var last := a[|a| - 1];
    assert a == a[..|a| - 1] + [last];
    assert b == b[..j] + [last] + b[j + 1..];
    assert multiset(a[..|a| - 1]) == multiset(a) - multiset{last};
    calc {
      multiset(b);
      multiset(b[..j] + [last] + b[j + 1..]);
      multiset(b[..j]) + multiset([last]) + multiset(b[j + 1..]);
      multiset(b[..j] + b[j + 1..]) + multiset{last};
    }
  }

  /** The total does not depend on the order in which the rows arrive. */
  lemma {:induction false} TotalPermutation(a: seq<Row>, b: seq<Row>, key: string)
    requires multiset(a) == multiset(b)
    ensures Total(a, key) == Total(b, key)
  {
    if a == [] {
      assert |b| == |multiset(b)| == 0;
    } else {
      var last := a[|a| - 1];
      assert last in multiset(b) by {
        assert a == a[..|a| - 1] + [last];
        assert last in multiset(a);
      }
      var j :| 0 <= j < |b| && b[j] == last;
      RemoveMatching(a, b, j);
      TotalPermutation(a[..|a| - 1], b[..j] + b[j + 1..], key);
      TotalWithout(b, j, key);
    }
  }

  /** The ROAS rule with its divide-by-zero guard. */
  function RoasOf(totalRevenue: real, adSpend: real): (roas: real)
    ensures adSpend > 0.0 ==> roas * adSpend == totalRevenue
    ensures adSpend <= 0.0 ==> roas == 0.0
  {
    if adSpend > 0.0 then totalRevenue / adSpend else 0.0
  }

  /** `parseFloat(x.toFixed(2))`: the nearest whole number of cents, halves
      rounded away from zero. */
  function Round2(x: real): (r: real)
    ensures (r * 100.0).Floor as real == r * 100.0
    ensures x - 0.005 <= r <= x + 0.005
    ensures 0.0 <= x ==> x - 0.005 < r
    ensures x < 0.0 ==> r < x + 0.005
  {
    var cents := if x >= 0.0 then HalfUpCents(x) else -HalfUpCents(-x);
    CentsAreWhole(cents);
    cents as real / 100.0
  }

  /** The whole number of cents `toFixed(2)` picks for a non-negative amount:
      the nearest one, the larger on a tie. */
  function HalfUpCents(x: real): (n: int)
    requires 0.0 <= x
    ensures 0 <= n
    ensures x * 100.0 - 0.5 < n as real <= x * 100.0 + 0.5
    ensures x - 0.005 <= n as real / 100.0 <= x + 0.005
  {
    (x * 100.0 + 0.5).Floor
  }

  /** A whole number of cents, scaled back up, is that whole number. */
  lemma CentsAreWhole(n: int)
    ensures ((n as real / 100.0) * 100.0).Floor as real == (n as real / 100.0) * 100.0
  {
  }

  /** An amount already in whole cents comes back unchanged from the rounding. */
  lemma Round2OfCents(cents: int)
    ensures Round2(cents as real / 100.0) == cents as real / 100.0
  {
    var x := cents as real / 100.0;
    if x >= 0.0 {
      assert x * 100.0 == cents as real;
      assert HalfUpCents(x) == cents;
    } else {
      assert -x * 100.0 == -cents as real;
      assert HalfUpCents(-x) == -cents;
    }
  }

  /** `ad_spend.toFixed(2)`: only a number has that method; `undefined`,
      `null`, strings, booleans and objects throw there. */
  function AdSpend(v: Value): (r: Result<real, string>)
    ensures r.Success? <==> v.Num?
    ensures r.Success? ==> r.value == v.x
  {
    match v
    case Num(x) => Success(x)
    case Undefined => Failure(CannotRead("undefined", "toFixed"))
    case Null => Failure(CannotRead("null", "toFixed"))
    case _ => Failure("ad_spend.toFixed is not a function")
  }

  /** `sub_id && sub_id !== 'all'`: whether the report is narrowed to one sub-ID. */
  predicate FiltersBySubId(subId: Value)
    ensures FiltersBySubId(subId) <==>
      || (subId.Str? && subId.s != "" && subId.s != "all")
      || (subId.Num? && subId.x != 0.0)
      || subId == Bool(true)
      || subId.Composite?
  {
    Truthy(subId) && subId != Str("all")
  }

  /** The request parameters: the seven SubIDSummary keys, plus `subid_id`
      exactly when the caller names one sub-ID. */
  function RoasParams(config: Config, request: map<string, Value>): (params: map<string, Value>)
    ensures params.Keys == SummaryKeys + (if FiltersBySubId(Prop(request, "sub_id")) then {"subid_id"} else {})
    ensures "subid_id" in params ==> params["subid_id"] == Prop(request, "sub_id")
    ensures forall key :: key in SummaryKeys ==> params[key] == SummaryParams(config, request)[key]
  {
    var base := SummaryParams(config, request);
    assert "subid_id" !in SummaryKeys;
    if FiltersBySubId(Prop(request, "sub_id")) then base["subid_id" := Prop(request, "sub_id")] else base
  }

  /** `results: { roas, ad_spend }`, both rounded to cents. */
  function ResultJson(roas: real, adSpend: real): (j: Json)
    ensures Keys(j) == {"roas", "ad_spend"}
    ensures Lookup(j, "roas") == Some(JNum(Round2(roas))) && Lookup(j, "ad_spend") == Some(JNum(Round2(adSpend)))
  {
    var j := JObj([Member("roas", JNum(Round2(roas))), Member("ad_spend", JNum(Round2(adSpend)))]);
    assert Keys(j) == {"roas", "ad_spend"} by {
      assert j.members[0].key == "roas" && j.members[1].key == "ad_spend";
    }
    assert j.members[1..] == [Member("ad_spend", JNum(Round2(adSpend)))];
    assert "ad_spend" != "roas" by { assert "ad_spend"[0] != "roas"[0]; }
    assert LookupMember(j.members[1..], "ad_spend") == Some(JNum(Round2(adSpend)));
    j
  }

  /** Everything after the request has been sent: the reply, the totals, the
      ROAS rule and the result. */
  function Respond(request: map<string, Value>, reply: Reply<Row>): (r: Response)
    ensures r.status == 200 || r.status == 500
    ensures r.status == 500 ==> IsFailure(r)
    ensures r.status == 500 <==>
      reply.Failed? || Normalise(reply.feed).Failure? || !Prop(request, "ad_spend").Num?
    ensures r.status == 200 ==> r.body.Text? && Keys(r.body.json) == {"success", "results", "roas", "ad_spend"}
  {
    match reply
    case Failed(message) => Fail(message)
    case Received(feed) =>
      match Normalise(feed)
      case Failure(fault) => Fail(FaultMessage(fault, "sub_id_summary_response", "revenue"))
      case Success(rows) =>
        match AdSpend(Prop(request, "ad_spend"))
        case Failure(message) => Fail(message)
        case Success(adSpend) => Succeed("results", ResultJson(RoasOf(Total(rows, "revenue"), adSpend), adSpend))
  }

  /** One invocation of the handler, given the upstream reply it would receive. */
  function Exchange(httpMethod: string, body: Body, config: Config, reply: Reply<Row>): (o: Outcome)
    ensures IsPreflight(httpMethod) ==> o == Outcome(None, Preflight)
    ensures o.call.Some? <==> !IsPreflight(httpMethod) && Destructure(body).Success?
    ensures !IsPreflight(httpMethod) && Destructure(body).Failure? ==> o.response == Fail(Destructure(body).error)
  {
    if IsPreflight(httpMethod) then Outcome(None, Preflight)
    else
      match Destructure(body)
      case Failure(message) => Outcome(None, Fail(message))
      case Success(request) => Outcome(Some(Call(SummaryUrl(config), RoasParams(config, request))), Respond(request, reply))
  }

  /** The handler, step by step as the source runs it. */
  method HandleRoas(httpMethod: string, body: Body, config: Config, reply: Reply<Row>) returns (outcome: Outcome)
    ensures outcome == Exchange(httpMethod, body, config, reply)
  {
    if httpMethod == "OPTIONS" {
      return Outcome(None, Preflight);
    }
    var decoded := Destructure(body);
    if decoded.Failure? {
      return Outcome(None, Fail(decoded.error));
    }
    var request := decoded.value;
    var params := SummaryParams(config, request);
    var subId := Prop(request, "sub_id");
    if Truthy(subId) && subId != Str("all") {
      params := params["subid_id" := subId];
    }
    var call := Call(SummaryUrl(config), params);
    if reply.Failed? {
      return Outcome(Some(call), Fail(reply.message));
    }
    var items := Normalise(reply.feed);
    if items.Failure? {
      return Outcome(Some(call), Fail(FaultMessage(items.error, "sub_id_summary_response", "revenue")));
    }
    var totalRevenue, totalConversions, totalClicks := AccumulateTotals(items.value);
    var adSpend := AdSpend(Prop(request, "ad_spend"));
    if adSpend.Failure? {
      return Outcome(Some(call), Fail(adSpend.error));
    }
    var roas := if adSpend.value > 0.0 then totalRevenue / adSpend.value else 0.0;
    outcome := Outcome(Some(call), Succeed("results", ResultJson(roas, adSpend.value)));
  }

  /** The number the response reports under `results.<key>`, if any. */
  function Reported(r: Response, key: string): Option<real>
  {
    if r.body.Text? then
      match Lookup(r.body.json, "results")
      case Some(results) =>
        (match Lookup(results, key)
         case Some(JNum(x)) => Some(x)
         case _ => None)
      case None => None
    else None
  }

  /** A preflight request is answered with an empty 200 before anything else happens. */
  lemma PreflightFirst(body: Body, config: Config, reply: Reply<Row>)
    ensures Exchange("OPTIONS", body, config, reply) == Outcome(None, Response(200, Blank))
  {
  }

  /** The upstream request is sent exactly when the method is not OPTIONS and
      the body decodes; it names a sub-ID exactly when the caller picked one
      other than 'all'. */
  lemma UpstreamRequest(httpMethod: string, body: Body, config: Config, reply: Reply<Row>)
    ensures var out := Exchange(httpMethod, body, config, reply);
      && (out.call.Some? <==> !IsPreflight(httpMethod) && (body.NonObject? || body.Object?))
      && (out.call.Some? ==> out.call.value.url == config.baseUrl + "/api/1/reports.asmx/SubIDSummary")
      && (out.call.Some? && body.NonObject? ==> out.call.value.params.Keys == SummaryKeys)
      && (out.call.Some? && body.Object? ==>
            ("subid_id" in out.call.value.params <==> FiltersBySubId(Prop(body.fields, "sub_id"))))
  {
  }

  /** No response, successful or not, carries revenue, profit, conversions or
      clicks; a successful one carries exactly the ratio and the ad spend. */
  lemma Redaction(httpMethod: string, body: Body, config: Config, reply: Reply<Row>)
    ensures var r := Exchange(httpMethod, body, config, reply).response;
      && (r.body.Text? ==> Keys(r.body.json) !! Withheld)
      && (r.status == 200 && r.body.Text? ==> Keys(r.body.json) == {"success", "results", "roas", "ad_spend"})
  {
    var r := Exchange(httpMethod, body, config, reply).response;
    assert {"success", "error"} !! Withheld;
    assert {"success", "results", "roas", "ad_spend"} !! Withheld;
  }

  /** Every failure, wherever it is thrown, is answered with status 500 and
      `{ success: false, error }`; it happens exactly when the body does not
      decode, the upstream call or the XML parse fails, the document is empty,
      the item is missing, or `ad_spend` is not a number, and the error
      carries the message of what was thrown. */
  lemma Failures(httpMethod: string, body: Body, config: Config, reply: Reply<Row>)
    ensures var r := Exchange(httpMethod, body, config, reply).response;
      && (r.status == 200 || r.status == 500)
      && (r.status == 500 ==> IsFailure(r))
      && (r.status == 500 <==>
            !IsPreflight(httpMethod) &&
            (|| body.Unparsable? || body.NullBody? || reply.Failed?
             || reply.feed.NullDocument? || reply.feed.MissingItem?
             || !Prop(Destructure(body).value, "ad_spend").Num?))
      && (!IsPreflight(httpMethod) && Destructure(body).Failure? ==> r == Fail(Destructure(body).error))
      && (!IsPreflight(httpMethod) && body.Unparsable? ==> r == Fail(body.message))
      && (!IsPreflight(httpMethod) && Destructure(body).Success? && reply.Failed? ==> r == Fail(reply.message))
      && (!IsPreflight(httpMethod) && Destructure(body).Success? && reply.Received? && reply.feed.NullDocument? ==>
            r == Fail(FaultMessage(ReadOfNull, "sub_id_summary_response", "revenue")))
      && (!IsPreflight(httpMethod) && Destructure(body).Success? && reply.Received? && reply.feed.MissingItem? ==>
            r == Fail(FaultMessage(ReadOfUndefined, "sub_id_summary_response", "revenue")))
      && (!IsPreflight(httpMethod) && Destructure(body).Success? && reply.Received? && Normalise(reply.feed).Success?
            && !Prop(Destructure(body).value, "ad_spend").Num? ==>
            r == Fail(AdSpend(Prop(Destructure(body).value, "ad_spend")).error))
  {
  }

  /** The reported ROAS is the total revenue divided by the ad spend, to the
      cent, when the ad spend is positive, and 0 otherwise. */
  lemma ReportedRoas(httpMethod: string, body: Body, config: Config, reply: Reply<Row>)
    requires !IsPreflight(httpMethod) && body.Object? && Prop(body.fields, "ad_spend").Num?
    requires reply.Received? && Normalise(reply.feed).Success?
    ensures var adSpend := Prop(body.fields, "ad_spend").x;
      var totalRevenue := Total(Normalise(reply.feed).value, "revenue");
      var r := Exchange(httpMethod, body, config, reply).response;
      && r.status == 200 && Reported(r, "roas").Some? && Reported(r, "ad_spend").Some?
      && (adSpend > 0.0 ==> Reported(r, "roas").value == Round2(totalRevenue / adSpend))
      && (adSpend > 0.0 ==> totalRevenue / adSpend - 0.005 <= Reported(r, "roas").value <= totalRevenue / adSpend + 0.005)
      && (adSpend <= 0.0 ==> Reported(r, "roas").value == 0.0)
      && Reported(r, "ad_spend") == Some(Round2(adSpend))
      && adSpend - 0.005 <= Reported(r, "ad_spend").value <= adSpend + 0.005
  {
  }

  /** An absent `sub_ids` container leaves every total at 0, so the ROAS is 0. */
  lemma AbsentContainerIsZero(httpMethod: string, body: Body, config: Config)
    requires !IsPreflight(httpMethod) && body.Object? && Prop(body.fields, "ad_spend").Num?
    ensures Reported(Exchange(httpMethod, body, config, Received(NoContainer)).response, "roas") == Some(0.0)
  {
  }

  /** A field that no row has counts as 0 throughout, however many rows there are. */
  lemma {:induction false} AbsentFieldAddsNothing(rows: seq<Row>, key: string)
    requires forall i :: 0 <= i < |rows| ==> key !in rows[i]
    ensures Total(rows, key) == 0.0
    ensures key == "clicks" ==> ClickTotal(rows) == 0
  {
    if rows != [] {
      AbsentFieldAddsNothing(rows[..|rows| - 1], key);
    }
  }

  /** A single unwrapped row is counted exactly as a one-element array. */
  lemma SingleRowAsArray(httpMethod: string, body: Body, config: Config, row: Row)
    ensures Exchange(httpMethod, body, config, Received(One(row))) == Exchange(httpMethod, body, config, Received(Many([row])))
  {
  }

  /** The response does not depend on the order of the upstream rows. */
  lemma RowOrderIrrelevant(httpMethod: string, body: Body, config: Config, rows: seq<Row>, reordered: seq<Row>)
    requires multiset(rows) == multiset(reordered)
    ensures Exchange(httpMethod, body, config, Received(Many(rows))) == Exchange(httpMethod, body, config, Received(Many(reordered)))
  {
    TotalPermutation(rows, reordered, "revenue");
    if !IsPreflight(httpMethod) && Destructure(body).Success? {
      var request := Destructure(body).value;
      assert Respond(request, Received(Many(rows))) == Respond(request, Received(Many(reordered)));
    }
  }

  /** A worked case: rows summing to 1250.00 against an ad spend of 500
      report a ROAS of 2.5 and an ad spend of 500. */
  lemma Example(config: Config)
    ensures var body := Object(map["offer_id" := Str("123"), "start_date" := Str("2024-01-01"),
                                   "end_date" := Str("2024-01-31"), "ad_spend" := Num(500.0)]);
      var reply := Received(Many([map["revenue" := 1000.0], map["revenue" := 250.0]]));
      Exchange("POST", body, config, reply).response
        == Succeed("results", JObj([Member("roas", JNum(2.5)), Member("ad_spend", JNum(500.0))]))
  {
    var fields := map["offer_id" := Str("123"), "start_date" := Str("2024-01-01"),
                      "end_date" := Str("2024-01-31"), "ad_spend" := Num(500.0)];
    var rows: seq<Row> := [map["revenue" := 1000.0], map["revenue" := 250.0]];
    assert Prop(fields, "ad_spend") == Num(500.0);
    assert Total(rows[..1], "revenue") == 1000.0 by {
      assert rows[..1][..0] == [];
    }
    assert Total(rows, "revenue") == 1250.0;
    assert RoasOf(1250.0, 500.0) == 250.0 / 100.0;
    Round2OfCents(250);
    Round2OfCents(50000);
    assert ResultJson(RoasOf(1250.0, 500.0), 500.0) == JObj([Member("roas", JNum(2.5)), Member("ad_spend", JNum(500.0))]);
    assert Destructure(Object(fields)) == Success(fields);
    assert Normalise(Many(rows)) == Success(rows);
    assert AdSpend(Prop(fields, "ad_spend")) == Success(500.0);
    assert Respond(fields, Received(Many(rows))) == Succeed("results", ResultJson(RoasOf(1250.0, 500.0), 500.0));
  }
}
