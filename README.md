# Response shaping of the affiliate-report proxy endpoints

This project models, in Dafny, the three serverless handlers that sit in front
of an affiliate network's XML reporting API:

- **calculate-roas** (`netlify/functions/calculate-roas.js`) asks the
  SubIDSummary report for an offer. It may narrow the report to one sub-ID.
  It sums the revenue of the rows and answers with the return on ad spend
  (ROAS) and the ad spend only. Revenue, profit, conversions and clicks are
  never sent back.
- **subids** (`subids.js`) asks the same report and lists the sub-IDs as
  `{sub_id, sub_id_name}`. A missing or empty name becomes `"Sub ID <id>"`.
  The list is sorted by display name, not by revenue.
- **offers** (`netlify/functions/offers.js`) asks the OfferFeed for the
  affiliate's active offers (`offer_status_id = 3`). It lists each offer as
  `{offer_id, offer_name, campaign_id}`, in upstream order.

Each handler is modelled as one invocation, `Exchange`. Its inputs are the
HTTP method, the decoded request body, the configuration and the reply the
upstream service would give. Its result is an `Outcome`: the upstream request
the handler sends, if it sends one, and the response (status code and body).
The body is a JSON tree, so that "which keys can ever appear" is a theorem
about every input.

The parts that work step by step are methods proved against `Exchange`:
- `CalculateRoas.HandleRoas` mutates `params` conditionally and runs the
  accumulation loop `AccumulateTotals`.
- `SubIds.HandleSubIds` sorts an array in place with `SortByNameInPlace`.

The offers handler is pure, so it is modelled only as functions.

Modules:
- `Wrappers`: `Option` and `Result`.
- `Js`: request values, truthiness, destructuring, the JSON tree and its `Keys`.
- `Upstream`: configuration, the two report requests and the parsed reply.
- `Handler`: response shapes, the preflight answer and the failure envelope.
- `XmlFeed`: what `xml2js` yields with `explicitArray: false`, and the
  single-versus-many normalisation.
- `CalculateRoas`, `SubIds`, `Offers`: one module per handler.

`xml2js` with `explicitArray: false` gives each handler one of five shapes:
- `NullDocument`: an empty document, which xml2js turns into `null`.
- `NoContainer`: the response element or the container is missing, or the
  container is empty with no text at all.
- `MissingItem`: the container is present but holds no item element. This
  includes a container holding only whitespace (an indented empty one),
  which xml2js turns into that truthy whitespace string.
- `One(item)`: exactly one item, not wrapped in an array.
- `Many(items)`: several items, in an array.

`NoContainer` yields an empty result. `NullDocument` and `MissingItem` make
the handler read a property of `null` or `undefined`, which ends on the 500
path. `Collapse` models how xml2js lays out a list of items when the
container holds no whitespace text, and `Normalise(Collapse(xs)) ==
Success(xs)` holds for every list.

Three behaviours of the code are worth noting:
- A missing or non-numeric `ad_spend` does not give a ROAS of 0. The code
  still calls upstream, then throws at `ad_spend.toFixed(2)` and answers
  with status 500. Only a JSON number gets through.
- Zero items give an empty list only when the container is absent or
  empty with no text. A present container with no item element throws and
  answers 500. That includes an indented empty container
  (`<sub_ids>\n  </sub_ids>`), which is a truthy whitespace string, so
  all three endpoints answer 500 for it. So does an empty upstream document.
- The sub-ID filter is added only when `sub_id` is truthy and not `'all'`.

## Model

| member | source | states |
|---|---|---|
| `XmlFeed.Collapse` | netlify/functions/offers.js:50-58 | the layout xml2js gives a list of items when the container has no whitespace text: never a null document or a missing item; an empty container exactly for no items; an array only for two or more |
| `XmlFeed.Normalise` | subids.js:55-64 | normalisation fails exactly on a null document or a missing item; a null document is the `null`-read fault |
| `XmlFeed.NormaliseCollapse` | netlify/functions/offers.js:49-58 | for any list of items in the layout of a container without whitespace text, normalisation returns exactly that list in document order (no items gives `[]`) |
| `XmlFeed.NormaliseSingle` | netlify/functions/calculate-roas.js:68 | a single unwrapped item normalises to a one-element list, the same as a one-element array |
| `Js.Truthy` | netlify/functions/calculate-roas.js:53 | a value is falsy exactly when it is `undefined`, `null`, `false`, `0` or `""` |
| `Js.Destructure` | netlify/functions/calculate-roas.js:38-39 | destructuring fails exactly on a SyntaxError (with its own message) or a `null` body; otherwise each property is the body's own or `undefined` |
| `Upstream.SummaryParams` | netlify/functions/calculate-roas.js:41-50 | the SubIDSummary parameters are exactly the seven base keys: the caller's offer id and dates passed through, the configured key and affiliate, `event_id` 0 and `revenue_filter` `conversions_and_events` |
| `Upstream.OfferFeedParams` | netlify/functions/offers.js:38-43 | the OfferFeed parameters are exactly `api_key`, `affiliate_id` and `offer_status_id = 3` |
| `Handler.Fail` | netlify/functions/calculate-roas.js:101-107 | a failure is status 500 with exactly the keys `success` (false) and `error` (the message) |
| `Handler.Succeed` | subids.js:79-83 | a success is status 200 with `success: true` and the payload under its key; its keys are those two plus the payload's |
| `CalculateRoas.Amount` | netlify/functions/calculate-roas.js:71-73 | a field the row lacks reads as 0, as the source's fallback to 0 does; a present field reads as its own value |
| `CalculateRoas.Trunc` | netlify/functions/calculate-roas.js:73 | the click count of one row, as truncation toward zero of the number its text holds: within 1 of that number and never further from 0 |
| `CalculateRoas.Total` | netlify/functions/calculate-roas.js:70-72 | the running sum of one field over the rows in row order; non-negative amounts give a non-negative total |
| `CalculateRoas.ClickTotal` | netlify/functions/calculate-roas.js:73 | the sum of the truncated click counts is within one click per row of the exact click total |
| `CalculateRoas.AccumulateTotals` | netlify/functions/calculate-roas.js:61-74 | the `forEach` loop yields the revenue, conversion and click totals over all rows, with missing fields counted as 0 |
| `CalculateRoas.TotalAppend` | netlify/functions/calculate-roas.js:70-71 | the revenue total over two runs of rows is the sum of their totals |
| `CalculateRoas.TotalPermutation` | netlify/functions/calculate-roas.js:70-71 | the total is the same for any reordering of the rows |
| `CalculateRoas.RoasOf` | netlify/functions/calculate-roas.js:78 | with positive ad spend, ROAS times ad spend is the revenue; otherwise ROAS is 0, so there is no division by zero |
| `CalculateRoas.Round2` | netlify/functions/calculate-roas.js:91-92 | `parseFloat(x.toFixed(2))` is a whole number of cents within half a cent of `x`, and a tie goes away from zero |
| `CalculateRoas.Round2OfCents` | netlify/functions/calculate-roas.js:91-92 | an amount already in whole cents is left unchanged by rounding |
| `CalculateRoas.AdSpend` | netlify/functions/calculate-roas.js:92 | `ad_spend.toFixed` succeeds exactly when `ad_spend` is a number, and yields that number |
| `CalculateRoas.FiltersBySubId` | netlify/functions/calculate-roas.js:53 | `sub_id && sub_id !== 'all'` holds exactly for a non-empty string other than `'all'`, a non-zero number, `true` or an object |
| `CalculateRoas.RoasParams` | netlify/functions/calculate-roas.js:42-55 | the parameters are the seven base keys, plus `subid_id` (the caller's `sub_id`) exactly when `sub_id` is truthy and not `'all'` |
| `CalculateRoas.ResultJson` | netlify/functions/calculate-roas.js:88-97 | `results` has exactly the keys `roas` and `ad_spend`, both rounded to cents |
| `CalculateRoas.Respond` | netlify/functions/calculate-roas.js:57-107 | after the request: status 200 or 500; 500 is the failure envelope and happens exactly when the reply fails, the feed faults or `ad_spend` is not a number; 200 carries exactly `success`, `results`, `roas`, `ad_spend` |
| `CalculateRoas.Exchange` | netlify/functions/calculate-roas.js:24-109 | one invocation: OPTIONS is answered with the empty 200 alone; a request goes upstream exactly otherwise when the body destructures; a body that does not is answered with its error |
| `CalculateRoas.HandleRoas` | netlify/functions/calculate-roas.js:33-108 | the step-by-step handler, with its conditional parameter update and accumulation loop, produces exactly the modelled outcome |
| `CalculateRoas.PreflightFirst` | netlify/functions/calculate-roas.js:33-35 | OPTIONS returns 200 with an empty body and sends no upstream request |
| `CalculateRoas.UpstreamRequest` | netlify/functions/calculate-roas.js:41-57 | a request goes upstream exactly when the method is not OPTIONS and the body decodes; it goes to SubIDSummary and names a sub-ID exactly when the caller picked one other than `'all'` |
| `CalculateRoas.Redaction` | netlify/functions/calculate-roas.js:81-97 | no response has a key `revenue`, `profit`, `conversions` or `clicks`; a success has exactly `success`, `results`, `roas`, `ad_spend` |
| `CalculateRoas.Failures` | netlify/functions/calculate-roas.js:101-107 | status is 200 or 500; 500 happens exactly on a bad body, an upstream or parse failure, an empty document, a missing item or a non-numeric `ad_spend`, and its `error` is the message of that very throw |
| `CalculateRoas.ReportedRoas` | netlify/functions/calculate-roas.js:77-92 | on success the reported ROAS is `round(revenue / ad_spend, 2)` when ad spend is positive and 0 otherwise, and the reported ad spend is exactly `Round2(ad_spend)`, so within half a cent of the input |
| `CalculateRoas.AbsentContainerIsZero` | netlify/functions/calculate-roas.js:61-65 | with no `sub_ids` container the reported ROAS is 0 |
| `CalculateRoas.AbsentFieldAddsNothing` | netlify/functions/calculate-roas.js:71-73 | a field that no row has adds nothing: its total (and the click total) is 0 over any number of rows |
| `CalculateRoas.SingleRowAsArray` | netlify/functions/calculate-roas.js:68 | a single unwrapped row gives the same outcome as a one-element array |
| `CalculateRoas.RowOrderIrrelevant` | netlify/functions/calculate-roas.js:70-74 | reordering the upstream rows does not change the outcome |
| `CalculateRoas.Example` | netlify/functions/calculate-roas.js:77-97 | rows summing to 1250 with ad spend 500 give `{success: true, results: {roas: 2.5, ad_spend: 500}}` |
| `SubIds.Project` | subids.js:68-73 | the id is copied unchanged; the name is the upstream name when it is non-empty, else `"Sub ID " + sub_id`, so it is never empty |
| `SubIds.Projected` | subids.js:68-73 | entry `i` is the projection of row `i`: one entry per row, in row order, each with the row's own `sub_id` and a non-empty name |
| `SubIds.EntryJson` | subids.js:68-73 | an entry's JSON has `sub_id_name`, plus `sub_id` exactly when it is defined, and no other key |
| `SubIds.ListJson` | subids.js:82 | the listing has one JSON element per entry, element `i` rendering entry `i`, and only the keys `sub_id` and `sub_id_name` |
| `SubIds.Insert` | subids.js:76 | one insertion step of the stable sort adds exactly one element |
| `SubIds.SortedByName` | subids.js:76 | the stable sort by display name keeps the length of the list |
| `SubIds.InsertPermutes` | subids.js:76 | inserting one entry adds exactly that entry |
| `SubIds.InsertSorted` | subids.js:76 | inserting into a name-sorted list keeps it sorted, for a consistent comparator |
| `SubIds.InsertAt` | subids.js:76 | an entry goes in right behind the last entry whose name is not greater than its own |
| `SubIds.SortedByNamePermutes` | subids.js:76 | sorting keeps the length and the same multiset of entries |
| `SubIds.SortedByNameSorted` | subids.js:76 | sorting with a consistent comparator gives non-decreasing display names |
| `SubIds.InsertInPlace` | subids.js:76 | moving `a[i]` left into the sorted prefix does one insertion step and leaves the rest of the array unchanged |
| `SubIds.SortByNameInPlace` | subids.js:76 | the in-place sort leaves the array equal to the stable sort by name of its old contents |
| `SubIds.Respond` | subids.js:52-91 | after the request: status 200 or 500; 500 is the failure envelope and happens exactly when the reply fails or the feed faults; 200 carries only `success`, `subIds`, `sub_id`, `sub_id_name` |
| `SubIds.Exchange` | subids.js:24-93 | one invocation: OPTIONS is answered with the empty 200 alone; a request goes upstream exactly otherwise when the body destructures; a body that does not is answered with its error |
| `SubIds.HandleSubIds` | subids.js:33-92 | the step-by-step handler, with its in-place sort, produces exactly the modelled outcome |
| `SubIds.PreflightFirst` | subids.js:33-35 | OPTIONS returns 200 with an empty body and sends no upstream request |
| `SubIds.UpstreamRequest` | subids.js:41-52 | a request goes upstream exactly when the method is not OPTIONS and the body decodes; it never narrows the report to one sub-ID |
| `SubIds.Redaction` | subids.js:66-73 | no response has a revenue, conversion or click key; a success has only `success`, `subIds`, `sub_id`, `sub_id_name` |
| `SubIds.Listing` | subids.js:55-77 | a success lists one entry per upstream row: the multiset of the rows' projections, sorted by name |
| `SubIds.AbsentContainerIsEmpty` | subids.js:55-56 | with no `sub_ids` container the list is empty |
| `SubIds.SingleRowAsArray` | subids.js:59-64 | a single unwrapped row gives the same outcome as a one-element array |
| `SubIds.Failures` | subids.js:85-91 | status is 200 or 500; 500 happens exactly on a bad body, an upstream or parse failure, an empty document or a missing item, and its `error` is the message of that very throw |
| `Offers.Project` | netlify/functions/offers.js:61-65 | each of `offer_id`, `offer_name`, `campaign_id` is defined exactly when the offer has it, with the offer's own text |
| `Offers.OfferJson` | netlify/functions/offers.js:61-65 | a rendered offer is an object whose keys are among the three offer fields |
| `Offers.ListJson` | netlify/functions/offers.js:61-71 | one JSON element per offer, in order, element `i` rendering offer `i`, and no key outside the three offer fields |
| `Offers.OfferKeysPresent` | netlify/functions/offers.js:61-65 | a rendered offer's keys are exactly the offer fields that the upstream row has |
| `Offers.OfferLookup` | netlify/functions/offers.js:61-65 | each offer field the row has is copied unchanged; every other key reads as absent |
| `Offers.OfferIsRestriction` | netlify/functions/offers.js:60-65 | a rendered offer is the upstream row restricted to `offer_id`, `offer_name`, `campaign_id` |
| `Offers.Respond` | netlify/functions/offers.js:45-80 | after the request: status 200 or 500; 500 is the failure envelope and happens exactly when the reply fails or the feed faults; 200 carries only `success`, `offers` and the three offer fields |
| `Offers.Exchange` | netlify/functions/offers.js:24-82 | one invocation: OPTIONS is answered with the empty 200 and no request; any other method sends the request and answers with `Respond` |
| `Offers.PreflightFirst` | netlify/functions/offers.js:33-35 | OPTIONS returns 200 with an empty body and sends no upstream request |
| `Offers.UpstreamRequest` | netlify/functions/offers.js:38-45 | any other request goes to the OfferFeed with exactly the configured key, the configured affiliate and status 3 |
| `Offers.Listing` | netlify/functions/offers.js:49-66 | a success lists one element per upstream offer, in order; element `i` is offer `i` restricted to the three fields |
| `Offers.Redaction` | netlify/functions/offers.js:60-71 | no response has a key other than `success`, `error`, `offers` and the three offer fields |
| `Offers.AbsentContainerIsEmpty` | netlify/functions/offers.js:49-50 | with no `offers` container the list is empty |
| `Offers.SingleOfferAsArray` | netlify/functions/offers.js:53-58 | a single unwrapped offer gives the same outcome as a one-element array |
| `Offers.Failures` | netlify/functions/offers.js:74-80 | status is 200 or 500; 500 happens exactly on an upstream or parse failure, an empty document or a missing offer item, and its `error` is the message of that very throw |

## Left out

- The HTTP call through axios and its async plumbing are network I/O. The reply is an input (`Reply`), and the request the handler would send is part of the outcome.
- XML parsing by xml2js is a foreign library. Its output is the `Feed` datatype. Items that are text-only elements (which xml2js turns into strings) and attribute objects are not modelled.
- `JSON.parse` of the request body is not modelled. Its result is an input (`Body`), and its SyntaxError message is carried through unchanged.
- Configuration from `process.env` is a `Config` parameter. The fallback credentials embedded in the source are deliberately not reproduced.
- The CORS header literals and `console.error` logging are constant or side-effect-only.
- `profit` is computed by the ROAS handler but never used or sent, so it is not modelled.
- Numbers are exact reals, not IEEE doubles. NaN from `parseFloat` on non-numeric text is not modelled. Neither is `toFixed`'s exponent form for values of 1e21 and above.
- ROAS rows carry each numeric field as the number `parseFloat` reads from its text, so the ROAS model reads `map<string, real>` rows. The sub-ID and offer models read text rows.
- ClickTotal: the clicks are summed as `Trunc` of the number `parseFloat` reads, while the source calls `parseInt` on the click text itself (calculate-roas.js:73). The two differ on text such as `"1e3"` (1 against 1000), `"0x1A"` (26 against 0) and `".5"` (NaN against 0). The click total never reaches a response, so no response changes.
- `localeCompare` depends on the ICU locale. It is the comparator parameter `le(x, y)`, read as `x.localeCompare(y) <= 0`. Sortedness is proved for any total preorder.
- The engine's sorting algorithm is modelled as a stable insertion sort. Any stable sort yields the same order for a consistent comparator. That uniqueness is not proved here.
- Error messages use V8's TypeError wording. Other engines word them differently.
- How axios serialises query parameters (for instance, dropping undefined ones) is not modelled. The parameters are a map of the values the handler sets.
