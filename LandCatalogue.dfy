/** The seller's land portfolio page: API records turned into list entries,
    the summary figures over the list, the search-and-filter view, and the
    list updates keyed by id (publish toggle, verified toggle, removal). */
module LandCatalogue {
  import opened Wrappers
  import opened JsText
  import opened JsNumber
  import opened Sequences

  // ---------------------------------------------------------------- API records

  /** A JSON value the API may send for a field; `JNull` also stands for a
      field the record does not have. */
  datatype Json = JNull | JStr(s: string) | JNum(n: real) | JBool(b: bool)

  /** JavaScript truthiness: the empty string, 0, `false`, `null` and
      `undefined` are false. */
  predicate Truthy(j: Json) {
    match j
    case JNull => false
    case JStr(s) => s != []
    case JNum(n) => n != 0.0
    case JBool(b) => b
  }

  /** `Number(j)`; `None` is `NaN`. `null` reads as 0 and an absent field
      as `NaN`, but both are falsy and every use below guards them or maps
      `NaN` to 0, so the model does not separate the two. */
  function ToNumber(j: Json): Option<real> {
    match j
    case JNull => Some(0.0)
    case JStr(s) => StringToNumber(s)
    case JNum(n) => Some(n)
    case JBool(b) => Some(if b then 1.0 else 0.0)
  }

  /** How numbers are written: `${n}` and `n.toLocaleString()`. Both are
      left to the runtime, so the model takes them as parameters. */
  datatype Format = Format(plain: real -> string, grouped: real -> string)

  /** `${j}`: text as it is, numbers through the runtime's formatting. */
  function ShowJson(j: Json, fmt: Format): string {
    match j
    case JNull => "null"
    case JStr(s) => s
    case JNum(n) => fmt.plain(n)
    case JBool(b) => if b then "true" else "false"
  }

  /** A record as the API sends it. The quarter, the status and the
      document type are text when the record has them. */
  datatype ApiRecord = ApiRecord(
    id: string, title: string, quarter: Option<string>, sizeValue: Json, sizeUnit: Json,
    price: Json, status: Option<string>, documentType: Option<string>, updatedAt: Json)

  /** An entry of the portfolio list. */
  datatype Land = Land(
    id: string, title: string, quarter: string, size: string, price: string,
    priceNum: real, status: string, verified: bool,
    documentType: Option<string>, inquiries: nat, lastUpdated: Option<string>)

  /** `x || fallback` for a text field. */
  function TextOr(j: Json, fallback: string, fmt: Format): string {
    if Truthy(j) then ShowJson(j, fmt) else fallback
  }

  /** `x || undefined` for a text field. */
  function TextOrNone(j: Json, fmt: Format): Option<string> {
    if Truthy(j) then Some(ShowJson(j, fmt)) else None
  }

  /** A text field the record may leave out is truthy when present and not empty. */
  predicate Given(t: Option<string>) {
    t.Some? && t.value != []
  }

  /** The list entry built from an API record: the id and title are kept,
      a missing quarter becomes empty, the size and price are written out
      only when present, the price as a number is 0 unless it reads as one,
      the status is capitalised with "Draft" as the default, an empty
      document type counts as none, and nothing starts out verified or with
      inquiries. */
  function ToLand(d: ApiRecord, fmt: Format): (l: Land)
    ensures l.id == d.id && l.title == d.title
    ensures l.quarter == d.quarter.GetOr("")
    ensures l.size == [] <==> !Truthy(d.sizeValue)
    ensures Truthy(d.price) ==> StartsWith(l.price, "XAF ")
    ensures !Truthy(d.price) ==> l.price == []
    ensures ToNumber(d.price).None? ==> l.priceNum == 0.0
    ensures ToNumber(d.price).Some? ==> l.priceNum == ToNumber(d.price).value
    ensures !Given(d.status) ==> l.status == "Draft"
    ensures Given(d.status) ==>
              |l.status| == |d.status.value| && l.status[0] == UpperChar(d.status.value[0])
              && l.status[1..] == d.status.value[1..]
    ensures l.documentType.Some? <==> Given(d.documentType)
    ensures l.documentType.Some? ==> l.documentType == d.documentType
    ensures !l.verified && l.inquiries == 0
  {
    var size := if Truthy(d.sizeValue) then ShowJson(d.sizeValue, fmt) + " " + TextOr(d.sizeUnit, "sqm", fmt) else "";
    var price := if Truthy(d.price) then "XAF " + ShowNumber(ToNumber(d.price), fmt) else "";
    assert Truthy(d.sizeValue) ==> |size| >= 1;
    assert Truthy(d.price) ==> price[..4] == "XAF ";
    Land(
      d.id,
      d.title,
      if Given(d.quarter) then d.quarter.value else "",
      size,
      price,
      OrZero(ToNumber(d.price)),
      if Given(d.status) then Capitalize(d.status.value) else "Draft",
      false,
      if Given(d.documentType) then d.documentType else None,
      0,
      TextOrNone(d.updatedAt, fmt))
  }

  /** `n.toLocaleString()`, where `NaN` is written "NaN". */
  function ShowNumber(n: Option<real>, fmt: Format): string {
    match n
    case Some(v) => fmt.grouped(v)
    case None => "NaN"
  }

  function ToLands(records: seq<ApiRecord>, fmt: Format): (r: seq<Land>)
    ensures |r| == |records|
    ensures forall i :: 0 <= i < |r| ==> r[i] == ToLand(records[i], fmt)
  {
    if records == [] then [] else [ToLand(records[0], fmt)] + ToLands(records[1..], fmt)
  }

  // ---------------------------------------------------------------- summary figures

  function CountStatus(lands: seq<Land>, status: string): (n: nat)
    ensures n <= |lands|
  {
    if lands == [] then 0
    else (if lands[0].status == status then 1 else 0) + CountStatus(lands[1..], status)
  }

  function TotalValue(lands: seq<Land>): real {
    if lands == [] then 0.0 else lands[0].priceNum + TotalValue(lands[1..])
  }

  function TotalInquiries(lands: seq<Land>): nat {
    if lands == [] then 0 else lands[0].inquiries + TotalInquiries(lands[1..])
  }

  datatype Stats = Stats(total: nat, published: nat, drafts: nat, pending: nat, inquiries: nat, totalValue: real)

  /** The five figures at the top of the page. */
  function StatsOf(lands: seq<Land>): (st: Stats)
    ensures st.total == |lands|
    ensures st.published + st.drafts + st.pending <= st.total
  {
    StatusCountsBounded(lands);
    Stats(|lands|, CountStatus(lands, "Published"), CountStatus(lands, "Draft"),
          CountStatus(lands, "Pending"), TotalInquiries(lands), TotalValue(lands))
  }

  /** No entry is counted under two statuses. */
  lemma {:induction false} StatusCountsBounded(lands: seq<Land>)
    ensures CountStatus(lands, "Published") + CountStatus(lands, "Draft") + CountStatus(lands, "Pending") <= |lands|
  {
    if lands != [] {
      StatusCountsBounded(lands[1..]);
    }
  }

  /** The counts and the portfolio value add up over any split of the list. */
  lemma {:induction false} StatsSplit(a: seq<Land>, b: seq<Land>, status: string)
    ensures CountStatus(a + b, status) == CountStatus(a, status) + CountStatus(b, status)
    ensures TotalValue(a + b) == TotalValue(a) + TotalValue(b)
  {
    if a == [] {
      assert a + b == b;
    } else {
      assert (a + b)[0] == a[0] && (a + b)[1..] == a[1..] + b;
      StatsSplit(a[1..], b, status);
    }
  }

  // ---------------------------------------------------------------- search and filters

  /** The page's filter inputs, all free text. */
  datatype Filters = Filters(
    query: string, quarter: string, status: string, documentType: string,
    minPrice: string, maxPrice: string)

  const NoFilters := Filters("", "", "", "", "", "")

  /** `${documentType}`: an entry without a document type shows "undefined". */
  function DocText(documentType: Option<string>): string {
    match documentType
    case Some(t) => t
    case None => "undefined"
  }

  /** The text the query searches: title, quarter and document type. */
  function SearchText(l: Land): string {
    l.title + " " + l.quarter + " " + DocText(l.documentType)
  }

  predicate MatchesQuery(l: Land, query: string) {
    query == [] || Contains(ToLower(SearchText(l)), ToLower(query))
  }

  /** The price bounds: only the digits of the inputs count, and a bound
      that reads as 0 is no bound. */
  predicate WithinBounds(l: Land, minPrice: string, maxPrice: string) {
    var min, max := DigitsOnlyValue(minPrice), DigitsOnlyValue(maxPrice);
    (min == 0 || l.priceNum >= min as real) && (max == 0 || l.priceNum <= max as real)
  }

  /** The test each entry must pass; an empty input imposes nothing, and a
      document-type filter hides the entries that have no document type. */
  predicate Keep(l: Land, f: Filters)
    ensures f == NoFilters ==> Keep(l, f)
    ensures Keep(l, f) && f.documentType != [] ==> l.documentType == Some(f.documentType)
  {
    && MatchesQuery(l, f.query)
    && (f.quarter == [] || l.quarter == f.quarter)
    && (f.status == [] || l.status == f.status)
    && (f.documentType == [] || l.documentType == Some(f.documentType))
    && WithinBounds(l, f.minPrice, f.maxPrice)
  }

  /** `lands.filter(...)`: the entries that pass, in their order. */
  function Filtered(lands: seq<Land>, f: Filters): (r: seq<Land>)
    ensures forall l :: l in r <==> l in lands && Keep(l, f)
    ensures |r| <= |lands|
  {
    if lands == [] then []
    else (if Keep(lands[0], f) then [lands[0]] else []) + Filtered(lands[1..], f)
  }

  /** Filtering keeps the list's order: the result is a subsequence. */
  lemma {:induction false} FilteredIsSubsequence(lands: seq<Land>, f: Filters)
    ensures SubsequenceOf(Filtered(lands, f), lands)
  {
    if lands != [] {
      FilteredIsSubsequence(lands[1..], f);
      var rest := Filtered(lands[1..], f);
      if Keep(lands[0], f) {
        assert Filtered(lands, f) == [lands[0]] + rest;
        KeepFront(rest, lands);
      } else {
        assert Filtered(lands, f) == rest;
        SkipFront(rest, lands);
      }
    }
  }

  /** With every input empty the whole list is shown. */
  lemma {:induction false} NoFiltersShowAll(lands: seq<Land>)
    ensures Filtered(lands, NoFilters) == lands
  {
    if lands != [] {
      NoFiltersShowAll(lands[1..]);
      assert DigitsOnlyValue("") == 0;
    }
  }

  /** A non-empty query keeps exactly the entries whose lower-cased search
      text contains the lower-cased query somewhere. */
  lemma QueryIsSubstring(l: Land, query: string)
    requires query != []
    ensures MatchesQuery(l, query) ==> exists i :: OccursAt(ToLower(SearchText(l)), ToLower(query), i)
    ensures forall i :: OccursAt(ToLower(SearchText(l)), ToLower(query), i) ==> MatchesQuery(l, query)
  {
    ContainsIff(ToLower(SearchText(l)), ToLower(query));
  }

  /** Every entry shown respects the bounds the inputs' digits spell out. */
  lemma FilteredWithinBounds(lands: seq<Land>, f: Filters, l: Land)
    requires l in Filtered(lands, f)
    ensures DigitsOnlyValue(f.minPrice) != 0 ==> l.priceNum >= DigitsOnlyValue(f.minPrice) as real
    ensures DigitsOnlyValue(f.maxPrice) != 0 ==> l.priceNum <= DigitsOnlyValue(f.maxPrice) as real
  {
  }

  /** Characters other than digits in a bound are ignored: "XAF 1,000" is
      the bound 1000. */
  lemma BoundIgnoresNonDigits(s: string)
    ensures DigitsOnlyValue(s) == DigitsOnlyValue(KeepDigits(s))
  {
    KeepDigitsOfDigits(KeepDigits(s));
  }

  // ---------------------------------------------------------------- updates by id

  /** `lands.find(l => l.id === id)`: the first entry with that id. */
  function FindById(lands: seq<Land>, id: string): (r: Option<Land>)
    ensures r.None? <==> forall i :: 0 <= i < |lands| ==> lands[i].id != id
    ensures r.Some? ==> exists i :: 0 <= i < |lands| && lands[i] == r.value
                          && r.value.id == id && forall j :: 0 <= j < i ==> lands[j].id != id
  {
    if lands == [] then None
    else if lands[0].id == id then Some(lands[0])
    else
      var r := FindById(lands[1..], id);
      if r.Some? then
        var k :| 0 <= k < |lands[1..]| && lands[1..][k] == r.value && r.value.id == id
                 && forall j :: 0 <= j < k ==> lands[1..][j].id != id;
        assert lands[k + 1] == r.value;
        r
      else r
  }

  /** The status the publish button asks the server for. */
  function RequestedStatus(current: string): string {
    if current == "Published" then "draft" else "published"
  }

  /** The local status after a successful request: the requested one,
      capitalised. Published listings become drafts; anything else, a
      pending listing included, becomes published. */
  lemma ToggledStatus(current: string)
    ensures Capitalize(RequestedStatus(current)) == if current == "Published" then "Draft" else "Published"
  {
    var r := RequestedStatus(current);
    if current == "Published" {
      assert r == ['d'] + "raft";
    } else {
      assert r == ['p'] + "ublished";
    }
  }

  /** `prev.map(l => l.id === id ? { ...l, status } : l)`. */
  function WithStatus(lands: seq<Land>, id: string, status: string): (r: seq<Land>)
    ensures |r| == |lands|
    ensures forall i :: 0 <= i < |r| ==>
              r[i] == if lands[i].id == id then lands[i].(status := status) else lands[i]
  {
    if lands == [] then []
    else [if lands[0].id == id then lands[0].(status := status) else lands[0]]
         + WithStatus(lands[1..], id, status)
  }

  /** `prev.map(l => l.id === id ? { ...l, verified: !l.verified } : l)`. */
  function FlipVerified(lands: seq<Land>, id: string): (r: seq<Land>)
    ensures |r| == |lands|
    ensures forall i :: 0 <= i < |r| ==>
              r[i] == if lands[i].id == id then lands[i].(verified := !lands[i].verified) else lands[i]
  {
    if lands == [] then []
    else [if lands[0].id == id then lands[0].(verified := !lands[0].verified) else lands[0]]
         + FlipVerified(lands[1..], id)
  }

  /** Toggling the verified mark twice restores the list. */
  lemma FlipVerifiedTwice(lands: seq<Land>, id: string)
    ensures FlipVerified(FlipVerified(lands, id), id) == lands
  {
    var once := FlipVerified(lands, id);
    var twice := FlipVerified(once, id);
    assert forall i :: 0 <= i < |lands| ==> twice[i] == lands[i];
  }

  /** Toggling one listing leaves the ids, and every other listing, alone. */
  lemma UpdatesKeepIds(lands: seq<Land>, id: string, status: string)
    ensures forall i :: 0 <= i < |lands| ==>
              WithStatus(lands, id, status)[i].id == lands[i].id
              && FlipVerified(lands, id)[i].id == lands[i].id
  {
  }

  /** `prev.filter(l => l.id !== id)`. */
  function WithoutId(lands: seq<Land>, id: string): (r: seq<Land>)
    ensures forall l :: l in r <==> l in lands && l.id != id
    ensures |r| <= |lands|
  {
    if lands == [] then []
    else (if lands[0].id != id then [lands[0]] else []) + WithoutId(lands[1..], id)
  }

  /** Removal keeps the other listings in their order, and removing an id
      no listing has changes nothing. */
  lemma {:induction false} WithoutIdFacts(lands: seq<Land>, id: string)
    ensures SubsequenceOf(WithoutId(lands, id), lands)
    ensures (forall l :: l in lands ==> l.id != id) ==> WithoutId(lands, id) == lands
  {
    if lands != [] {
      WithoutIdFacts(lands[1..], id);
      var rest := WithoutId(lands[1..], id);
      if lands[0].id != id {
        assert WithoutId(lands, id) == [lands[0]] + rest;
        KeepFront(rest, lands);
      } else {
        assert WithoutId(lands, id) == rest;
        SkipFront(rest, lands);
      }
    }
  }

  /** `DELETE` counts as done on 204 or any other 2xx answer. */
  predicate DeleteAccepted(status: int) {
    status == 204 || 200 <= status <= 299
  }

  // ---------------------------------------------------------------- the page's list

  class Catalogue {
    var lands: seq<Land>

    constructor()
      ensures lands == []
    {
      lands := [];
    }

    /** The fetch effect: on a successful answer to a still-mounted page the
        list becomes the mapped records (`data || []`); otherwise it stays. */
    method Load(ok: bool, data: Option<seq<ApiRecord>>, mounted: bool, fmt: Format)
      modifies this
      ensures ok && mounted ==> lands == ToLands(data.GetOr([]), fmt)
      ensures !(ok && mounted) ==> lands == old(lands)
    {
      if ok && mounted {
        lands := ToLands(data.GetOr([]), fmt);
      }
    }

    /** `togglePublish`: nothing for an unknown id; on a failed request an
        alert and no change; otherwise every listing with the id takes the
        toggled status of the first one. */
    method TogglePublish(id: string, requestOk: bool) returns (alert: Option<string>)
      modifies this
      ensures FindById(old(lands), id).None? ==> lands == old(lands) && alert.None?
      ensures FindById(old(lands), id).Some? && !requestOk ==>
                lands == old(lands) && alert == Some("Failed to toggle publish status")
      ensures FindById(old(lands), id).Some? && requestOk ==>
                alert.None? &&
                lands == WithStatus(old(lands), id,
                                    if FindById(old(lands), id).value.status == "Published" then "Draft" else "Published")
    {
      var land := FindById(lands, id);
      if land.None? {
        return None;
      }
      var newStatus := RequestedStatus(land.value.status);
      if !requestOk {
        return Some("Failed to toggle publish status");
      }
      ToggledStatus(land.value.status);
      lands := WithStatus(lands, id, Capitalize(newStatus));
      alert := None;
    }

    /** `toggleVerify`: flips the mark of the listings with the id. */
    method ToggleVerify(id: string)
      modifies this
      ensures lands == FlipVerified(old(lands), id)
    {
      lands := FlipVerified(lands, id);
    }

    /** `removeLand`: nothing unless the user confirms; an alert and no
        change when the request fails (`None`) or is refused; otherwise the
        listings with the id leave the list. */
    method RemoveLand(id: string, confirmed: bool, response: Option<int>) returns (alert: Option<string>)
      modifies this
      ensures !confirmed ==> lands == old(lands) && alert.None?
      ensures confirmed && (response.None? || !DeleteAccepted(response.value)) ==>
                lands == old(lands) && alert == Some("Failed to delete listing")
      ensures confirmed && response.Some? && DeleteAccepted(response.value) ==>
                lands == WithoutId(old(lands), id) && alert.None?
    {
      if !confirmed {
        return None;
      }
      if response.None? || !DeleteAccepted(response.value) {
        return Some("Failed to delete listing");
      }
      lands := WithoutId(lands, id);
      alert := None;
    }
  }
}
