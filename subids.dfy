/** The sub-ID endpoint (subids.js): list an offer's sub-IDs by display name
    only, with every financial figure of the upstream rows dropped and the
    list ordered by name rather than by revenue. */
module SubIds {
  import opened Wrappers
  import opened Js
  import opened XmlFeed
  import opened Upstream
  import opened Handler

  /** A sub_id_summary row: the text of each child element. */
  type Row = map<string, string>

  /** Keys of the upstream rows that must never reach the caller. */
  const Withheld: set<string> := {"revenue", "conversions", "macro_event_conversions", "clicks"}

  /** The only keys a successful response may carry. */
  const ListingKeys: set<string> := {"success", "subIds", "sub_id", "sub_id_name"}

  /** `${v}` for a value that may be `undefined`. */
  function Interpolate(v: Option<string>): string
  {
    if v.Some? then v.value else "undefined"
  }

  /** One element of the listing, `{ sub_id, sub_id_name }`. */
  datatype SubIdEntry = SubIdEntry(subId: Option<string>, name: string)

  /** The projection of one row: the id unchanged, and the upstream name when
      it is truthy, `"Sub ID " + sub_id` otherwise. */
  function Project(row: Row): (e: SubIdEntry)
    ensures e.subId == Field(row, "sub_id")
    ensures e.name != ""
    ensures "sub_id_name" in row && row["sub_id_name"] != "" ==> e.name == row["sub_id_name"]
    ensures !("sub_id_name" in row && row["sub_id_name"] != "") ==> e.name == "Sub ID " + Interpolate(Field(row, "sub_id"))
  {
    var name := Field(row, "sub_id_name");
    SubIdEntry(Field(row, "sub_id"), if name.Some? && name.value != "" then name.value else "Sub ID " + Interpolate(Field(row, "sub_id")))
  }

  /** `subIds.map(sub => ...)`. */
  function Projected(rows: seq<Row>): (es: seq<SubIdEntry>)
    ensures |es| == |rows|
    ensures forall i :: 0 <= i < |rows| ==> es[i] == Project(rows[i])
    ensures forall i :: 0 <= i < |rows| ==> es[i].subId == Field(rows[i], "sub_id") && es[i].name != ""
  {
    seq(|rows|, i requires 0 <= i < |rows| => Project(rows[i]))
  }

  /** The JSON of one entry; `JSON.stringify` leaves out an undefined `sub_id`. */
  function EntryJson(e: SubIdEntry): (j: Json)
    ensures Keys(j) == {"sub_id_name"} + (if e.subId.Some? then {"sub_id"} else {})
    ensures Lookup(j, "sub_id_name") == Some(JStr(e.name))
    ensures Lookup(j, "sub_id") == (if e.subId.Some? then Some(JStr(e.subId.value)) else None)
  {
    var ms := Optional("sub_id", e.subId) + [Member("sub_id_name", JStr(e.name))];
    assert "sub_id" != "sub_id_name";
    assert LookupMember(ms, "sub_id_name") == Some(JStr(e.name)) by {
      if e.subId.Some? {
        assert ms[1..] == [Member("sub_id_name", JStr(e.name))];
        assert LookupMember(ms[1..], "sub_id_name") == Some(JStr(e.name));
      }
    }
    assert LookupMember(ms, "sub_id") == (if e.subId.Some? then Some(JStr(e.subId.value)) else None) by {
      if e.subId.None? {
        assert ms[1..] == [];
      }
    }
    assert Keys(JObj(ms)) == {"sub_id_name"} + (if e.subId.Some? then {"sub_id"} else {}) by {
      assert forall i :: 0 <= i < |ms| ==> ms[i].value.JStr? && Keys(ms[i].value) == {};
      if e.subId.Some? {
        assert ms[0].key == "sub_id" && ms[1].key == "sub_id_name";
      } else {
        assert ms[0].key == "sub_id_name";
      }
    }
    JObj(ms)
  }

  /** The JSON array of the listing. */
  function ListJson(es: seq<SubIdEntry>): (j: Json)
    ensures j.JArr? && |j.items| == |es|
    ensures forall i :: 0 <= i < |es| ==> j.items[i] == EntryJson(es[i])
    ensures Keys(j) <= {"sub_id", "sub_id_name"}
  {
    var j := JArr(seq(|es|, i requires 0 <= i < |es| => EntryJson(es[i])));
    assert forall i :: 0 <= i < |es| ==> Keys(j.items[i]) <= {"sub_id", "sub_id_name"};
    j
  }

  /** What the comparator `a.sub_id_name.localeCompare(b.sub_id_name)` needs
      of `le(x, y)`, read as `x.localeCompare(y) <= 0`, to sort consistently:
      any two names compare, and the order is transitive. */
  ghost predicate TotalPreorder(le: (string, string) -> bool)
  {
    && (forall x, y :: le(x, y) || le(y, x))
    && (forall x, y, z :: le(x, y) && le(y, z) ==> le(x, z))
  }

  /** Non-decreasing by display name. */
  ghost predicate NameSorted(es: seq<SubIdEntry>, le: (string, string) -> bool)
  {
    forall i, j :: 0 <= i < j < |es| ==> le(es[i].name, es[j].name)
  }

  /** Insert `e` behind every entry that is not strictly greater than it. */
  function Insert(sorted: seq<SubIdEntry>, e: SubIdEntry, le: (string, string) -> bool): (r: seq<SubIdEntry>)
    ensures |r| == |sorted| + 1
  {
    if sorted == [] || le(sorted[|sorted| - 1].name, e.name) then sorted + [e]
    else Insert(sorted[..|sorted| - 1], e, le) + [sorted[|sorted| - 1]]
  }

  /** The stable sort by display name, as insertion from left to right. */
  function SortedByName(es: seq<SubIdEntry>, le: (string, string) -> bool): (r: seq<SubIdEntry>)
    ensures |r| == |es|
  {
    if es == [] then [] else Insert(SortedByName(es[..|es| - 1], le), es[|es| - 1], le)
  }

  lemma {:induction false} InsertPermutes(sorted: seq<SubIdEntry>, e: SubIdEntry, le: (string, string) -> bool)
    ensures multiset(Insert(sorted, e, le)) == multiset(sorted) + multiset{e}
  {
    if sorted == [] || le(sorted[|sorted| - 1].name, e.name) {
    } else {
      var init, last := sorted[..|sorted| - 1], sorted[|sorted| - 1];
      InsertPermutes(init, e, le);
      assert sorted == init + [last];
    }
  }

  lemma {:induction false} InsertSorted(sorted: seq<SubIdEntry>, e: SubIdEntry, le: (string, string) -> bool)
    requires TotalPreorder(le) && NameSorted(sorted, le)
    ensures NameSorted(Insert(sorted, e, le), le)
  {
    if sorted == [] {
    } else if le(sorted[|sorted| - 1].name, e.name) {
      var r := sorted + [e];
      forall i, j | 0 <= i < j < |r| ensures le(r[i].name, r[j].name) {
        if j == |sorted| && i < |sorted| - 1 {
          assert le(sorted[i].name, sorted[|sorted| - 1].name);
        }
      }
    } else {
      var init, last := sorted[..|sorted| - 1], sorted[|sorted| - 1];
      assert le(e.name, last.name);
      InsertSorted(init, e, le);
      InsertPermutes(init, e, le);
      var front := Insert(init, e, le);
      forall x | x in front ensures le(x.name, last.name) {
        assert x in multiset(front);
        if x != e {
          assert x in multiset(init);
          var k :| 0 <= k < |init| && init[k] == x;
          assert sorted[k] == x;
        }
      }
      var r := front + [last];
      forall i, j | 0 <= i < j < |r| ensures le(r[i].name, r[j].name) {
        if j == |front| {
          assert r[i] in front;
        }
      }
    }
  }

  /** The sorted listing holds exactly the entries it was given. */
  lemma {:induction false} SortedByNamePermutes(es: seq<SubIdEntry>, le: (string, string) -> bool)
    ensures multiset(SortedByName(es, le)) == multiset(es)
    ensures |SortedByName(es, le)| == |es|
  {
    if es != [] {
      var init, last := es[..|es| - 1], es[|es| - 1];
      SortedByNamePermutes(init, le);
      InsertPermutes(SortedByName(init, le), last, le);
      assert es == init + [last];
      assert |SortedByName(es, le)| == |multiset(SortedByName(es, le))|;
    }
  }

  /** Under a consistent comparator, the listing is in non-decreasing order of name. */
  lemma {:induction false} SortedByNameSorted(es: seq<SubIdEntry>, le: (string, string) -> bool)
    requires TotalPreorder(le)
    ensures NameSorted(SortedByName(es, le), le)
  {
    if es != [] {
      SortedByNameSorted(es[..|es| - 1], le);
      InsertSorted(SortedByName(es[..|es| - 1], le), es[|es| - 1], le);
    }
  }

  /** Insertion puts `e` right behind the last entry that is not strictly
      greater than it, when every entry after that one is. */
  lemma {:induction false} InsertAt(sorted: seq<SubIdEntry>, j: nat, e: SubIdEntry, le: (string, string) -> bool)
    requires j <= |sorted| && (j == 0 || le(sorted[j - 1].name, e.name))
    requires forall k :: j <= k < |sorted| ==> !le(sorted[k].name, e.name)
    ensures Insert(sorted, e, le) == sorted[..j] + [e] + sorted[j..]
  {
    if |sorted| == j {
      assert sorted[..j] == sorted && sorted[j..] == [];
    } else {
      var init, last := sorted[..|sorted| - 1], sorted[|sorted| - 1];
      assert !le(last.name, e.name);
      assert Insert(sorted, e, le) == Insert(init, e, le) + [last];
      InsertAt(init, j, e, le);
      assert init[..j] == sorted[..j];
      assert init[j..] + [last] == sorted[j..];
      assert sorted[..j] + [e] + sorted[j..] == (init[..j] + [e] + init[j..]) + [last];
    }
  }

  /** Moves `a[i]` left into the sorted prefix `a[..i]`, past every entry
      whose name is strictly greater. */
  method InsertInPlace(a: array<SubIdEntry>, i: nat, le: (string, string) -> bool)
    requires i < a.Length
    modifies a
    ensures a[..i + 1] == Insert(old(a[..i]), old(a[i]), le)
    ensures forall k :: i < k < a.Length ==> a[k] == old(a[k])
  {
    ghost var sorted := a[..i];
    var e := a[i];
    var j := i;
    while j > 0 && !le(a[j - 1].name, e.name)
      invariant 0 <= j <= i
      invariant a[j] == e
      invariant forall k :: 0 <= k < j ==> a[k] == sorted[k]
      invariant forall k :: j < k <= i ==> a[k] == sorted[k - 1]
      invariant forall k :: i < k < a.Length ==> a[k] == old(a[k])
      invariant forall k :: j <= k < i ==> !le(sorted[k].name, e.name)
    {
      a[j - 1], a[j] := a[j], a[j - 1];
      j := j - 1;
    }
    InsertAt(sorted, j, e, le);
    ghost var result := sorted[..j] + [e] + sorted[j..];
    assert forall k :: 0 <= k <= i ==> a[k] == result[k];
    assert a[..i + 1] == result;
  }

  /** `subIds.sort(...)`: sorts the array in place, stably, by display name. */
  method SortByNameInPlace(a: array<SubIdEntry>, le: (string, string) -> bool)
    modifies a
    ensures a[..] == SortedByName(old(a[..]), le)
  {
    for i := 0 to a.Length
      invariant a[..i] == SortedByName(old(a[..i]), le)
      invariant forall k :: i <= k < a.Length ==> a[k] == old(a[k])
    {
      InsertInPlace(a, i, le);
      assert old(a[..i + 1])[..i] == old(a[..i]);
    }
    assert a[..] == a[..a.Length];
    assert old(a[..]) == old(a[..a.Length]);
  }

  /** Everything after the request has been sent. */
  function Respond(reply: Reply<Row>, le: (string, string) -> bool): (r: Response)
    ensures r.status == 200 || r.status == 500
    ensures r.status == 500 ==> IsFailure(r)
    ensures r.status == 500 <==> reply.Failed? || Normalise(reply.feed).Failure?
    ensures r.status == 200 ==> r.body.Text? && Keys(r.body.json) <= ListingKeys
  {
    match reply
    case Failed(message) => Fail(message)
    case Received(feed) =>
      match Normalise(feed)
      case Failure(fault) => Fail(FaultMessage(fault, "sub_id_summary_response", "sub_id"))
      case Success(rows) => Succeed("subIds", ListJson(SortedByName(Projected(rows), le)))
  }

  /** One invocation of the handler, given the upstream reply it would
      receive and the collation order `le`. */
  function Exchange(httpMethod: string, body: Body, config: Config, reply: Reply<Row>, le: (string, string) -> bool): (o: Outcome)
    ensures IsPreflight(httpMethod) ==> o == Outcome(None, Preflight)
    ensures o.call.Some? <==> !IsPreflight(httpMethod) && Destructure(body).Success?
    ensures !IsPreflight(httpMethod) && Destructure(body).Failure? ==> o.response == Fail(Destructure(body).error)
  {
    if IsPreflight(httpMethod) then Outcome(None, Preflight)
    else
      match Destructure(body)
      case Failure(message) => Outcome(None, Fail(message))
      case Success(request) => Outcome(Some(Call(SummaryUrl(config), SummaryParams(config, request))), Respond(reply, le))
  }

  /** The handler, step by step as the source runs it. */
  method HandleSubIds(httpMethod: string, body: Body, config: Config, reply: Reply<Row>, le: (string, string) -> bool)
    returns (outcome: Outcome)
    ensures outcome == Exchange(httpMethod, body, config, reply, le)
  {
    if httpMethod == "OPTIONS" {
      return Outcome(None, Preflight);
    }
    var decoded := Destructure(body);
    if decoded.Failure? {
      return Outcome(None, Fail(decoded.error));
    }
    var call := Call(SummaryUrl(config), SummaryParams(config, decoded.value));
    if reply.Failed? {
      return Outcome(Some(call), Fail(reply.message));
    }
    var items := Normalise(reply.feed);
    if items.Failure? {
      return Outcome(Some(call), Fail(FaultMessage(items.error, "sub_id_summary_response", "sub_id")));
    }
    var subIds: seq<SubIdEntry> := [];
    if !reply.feed.NoContainer? {
      var entries := Projected(items.value);
      var a := new SubIdEntry[|entries|](i requires 0 <= i < |entries| => entries[i]);
      assert a[..] == entries;
      SortByNameInPlace(a, le);
      subIds := a[..];
    }
    outcome := Outcome(Some(call), Succeed("subIds", ListJson(subIds)));
  }

  /** A preflight request is answered with an empty 200 before anything else happens. */
  lemma PreflightFirst(body: Body, config: Config, reply: Reply<Row>, le: (string, string) -> bool)
    ensures Exchange("OPTIONS", body, config, reply, le) == Outcome(None, Response(200, Blank))
  {
  }

  /** The upstream request is sent exactly when the method is not OPTIONS and
      the body decodes, and it never narrows the report to one sub-ID. */
  lemma UpstreamRequest(httpMethod: string, body: Body, config: Config, reply: Reply<Row>, le: (string, string) -> bool)
    ensures var out := Exchange(httpMethod, body, config, reply, le);
      && (out.call.Some? <==> !IsPreflight(httpMethod) && (body.NonObject? || body.Object?))
      && (out.call.Some? ==> out.call.value.url == config.baseUrl + "/api/1/reports.asmx/SubIDSummary")
      && (out.call.Some? ==> out.call.value.params.Keys == SummaryKeys)
  {
  }

  /** No response carries a revenue, conversion or click key; a successful
      one carries only the listing's own keys. */
  lemma Redaction(httpMethod: string, body: Body, config: Config, reply: Reply<Row>, le: (string, string) -> bool)
    ensures var r := Exchange(httpMethod, body, config, reply, le).response;
      && (r.body.Text? ==> Keys(r.body.json) !! Withheld)
      && (r.status == 200 && r.body.Text? ==> Keys(r.body.json) <= ListingKeys)
  {
    assert {"success", "error"} !! Withheld;
    assert ListingKeys !! Withheld;
  }

  /** A successful listing holds one entry per upstream row, each the
      projection of a row, exactly as many times as that row projects to it,
      in non-decreasing order of display name. */
  lemma Listing(httpMethod: string, body: Body, config: Config, rows: seq<Row>, le: (string, string) -> bool)
    requires !IsPreflight(httpMethod) && (body.NonObject? || body.Object?)
    requires TotalPreorder(le)
    ensures var listed := SortedByName(Projected(rows), le);
      && Exchange(httpMethod, body, config, Received(Collapse(rows)), le).response == Succeed("subIds", ListJson(listed))
      && |listed| == |rows|
      && multiset(listed) == multiset(Projected(rows))
      && NameSorted(listed, le)
  {
    NormaliseCollapse(rows);
    SortedByNamePermutes(Projected(rows), le);
    SortedByNameSorted(Projected(rows), le);
  }

  /** An absent `sub_ids` container gives an empty list. */
  lemma AbsentContainerIsEmpty(httpMethod: string, body: Body, config: Config, le: (string, string) -> bool)
    requires !IsPreflight(httpMethod) && (body.NonObject? || body.Object?)
    ensures Exchange(httpMethod, body, config, Received(NoContainer), le).response == Succeed("subIds", JArr([]))
  {
  }

  /** A single unwrapped row is listed exactly as a one-element array. */
  lemma SingleRowAsArray(httpMethod: string, body: Body, config: Config, row: Row, le: (string, string) -> bool)
    ensures Exchange(httpMethod, body, config, Received(One(row)), le) == Exchange(httpMethod, body, config, Received(Many([row])), le)
  {
    NormaliseSingle(row);
    assert Respond(Received(One(row)), le) == Respond(Received(Many([row])), le);
  }

  /** Every failure is answered with status 500 and `{ success: false, error }`;
      it happens exactly when the body does not decode, the upstream call or
      the XML parse fails, the document is empty, or the item is missing, and
      the error carries the message of what was thrown. */
  lemma Failures(httpMethod: string, body: Body, config: Config, reply: Reply<Row>, le: (string, string) -> bool)
    ensures var r := Exchange(httpMethod, body, config, reply, le).response;
      && (r.status == 200 || r.status == 500)
      && (r.status == 500 ==> IsFailure(r))
      && (r.status == 500 <==>
            !IsPreflight(httpMethod) &&
            (|| body.Unparsable? || body.NullBody? || reply.Failed?
             || reply.feed.NullDocument? || reply.feed.MissingItem?))
      && (!IsPreflight(httpMethod) && Destructure(body).Failure? ==> r == Fail(Destructure(body).error))
      && (!IsPreflight(httpMethod) && body.Unparsable? ==> r == Fail(body.message))
      && (!IsPreflight(httpMethod) && Destructure(body).Success? && reply.Failed? ==> r == Fail(reply.message))
      && (!IsPreflight(httpMethod) && Destructure(body).Success? && reply.Received? && reply.feed.NullDocument? ==>
            r == Fail(FaultMessage(ReadOfNull, "sub_id_summary_response", "sub_id")))
      && (!IsPreflight(httpMethod) && Destructure(body).Success? && reply.Received? && reply.feed.MissingItem? ==>
            r == Fail(FaultMessage(ReadOfUndefined, "sub_id_summary_response", "sub_id")))
  {
  }
}
