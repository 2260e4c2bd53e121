/** What the Publish button sends: the form's free text turned into the
    backend's schema (sizes parsed, select values mapped to enumeration
    codes, defaults filled in), then checked for required fields before any
    request is made. */
module ListingPayload {
  import opened Wrappers
  import opened JsText
  import opened JsNumber
  import Form = ListingForm

  // ---------------------------------------------------------------- sizes

  datatype AreaUnit = Sqm | Hectare | Plot

  function UnitName(u: AreaUnit): string {
    match u
    case Sqm => "sqm"
    case Hectare => "hectare"
    case Plot => "plot"
  }

  datatype ParsedSize = ParsedSize(value: real, unit: AreaUnit)

  /** The unit a free-text size names: "ha" or "hect" anywhere means
      hectares, otherwise "plot" means plots, and square metres are the
      default (the source's explicit test for "m", "sqm" or "m²" also yields
      square metres). The text is lower-cased first. */
  function UnitOf(s: string): AreaUnit {
    var lower := ToLower(s);
    if Contains(lower, "ha") || Contains(lower, "hect") then Hectare
    else if Contains(lower, "plot") then Plot
    else Sqm
  }

  /** `parseSize`: the empty text is 0 square metres; otherwise the first
      decimal numeral of the text with its commas removed, and the unit the
      text names. */
  function ParseSize(s: string): (r: ParsedSize)
    ensures s == [] ==> r == ParsedSize(0.0, Sqm)
    ensures r.value >= 0.0
  {
    if s == [] then ParsedSize(0.0, Sqm)
    else
      var value := match FirstNumeral(Without(s, ','))
        case None => 0.0
        case Some(m) => NumeralValue(m.whole, m.frac);
      ParsedSize(value, UnitOf(s))
  }

  lemma {:induction false} WithoutTwice(s: string, c: char)
    ensures Without(Without(s, c), c) == Without(s, c)
  {
    if s != [] {
      WithoutTwice(s[1..], c);
      var w := Without(s, c);
      if s[0] == c {
        assert w == Without(s[1..], c);
      } else {
        assert w == [s[0]] + Without(s[1..], c);
        assert w[0] == s[0] && w[1..] == Without(s[1..], c);
      }
    }
  }

  /** Commas never affect the number: "1,500" and "1500" read the same. */
  lemma CommasIgnored(s: string)
    requires Without(s, ',') != []
    ensures ParseSize(s).value == ParseSize(Without(s, ',')).value
  {
    WithoutTwice(s, ',');
  }

  /** Hectare keywords win over "plot", and square metres are the fallback. */
  lemma UnitPriority(s: string)
    requires s != []
    ensures Contains(ToLower(s), "ha") || Contains(ToLower(s), "hect") ==> ParseSize(s).unit == Hectare
    ensures Contains(ToLower(s), "plot") && !Contains(ToLower(s), "ha") && !Contains(ToLower(s), "hect")
            ==> ParseSize(s).unit == Plot
    ensures ParseSize(s).unit == Sqm <==>
            !Contains(ToLower(s), "ha") && !Contains(ToLower(s), "hect") && !Contains(ToLower(s), "plot")
  {
  }

  lemma {:induction false} WithoutAbsent(s: string, c: char)
    requires c !in s
    ensures Without(s, c) == s
  {
    if s != [] {
      WithoutAbsent(s[1..], c);
    }
  }

  /** No keyword occurs in a text of digits. */
  lemma NoKeywordInDigits(ds: string, word: string)
    requires AllDigits(ds) && word != [] && !IsDigit(word[0])
    ensures !Contains(ToLower(ds), word)
  {
    LowerOfNoUpper(ds);
    ContainsIff(ds, word);
    forall i | 0 <= i && i + |word| <= |ds|
      ensures !OccursAt(ds, word, i)
    {
      assert ds[i..i + |word|][0] == ds[i];
    }
  }

  /** A bare number such as "1500" is that many square metres. */
  lemma PlainNumberIsSqm(ds: string)
    requires ds != [] && AllDigits(ds)
    ensures ParseSize(ds) == ParsedSize(DigitsValue(ds) as real, Sqm)
  {
    WithoutAbsent(ds, ',');
    var m := FirstNumeral(ds);
    assert m.Some?;
    assert m.value.start == 0;
    assert m.value.whole == ds;
    NoKeywordInDigits(ds, "ha");
    NoKeywordInDigits(ds, "hect");
    NoKeywordInDigits(ds, "plot");
  }

  /** What may follow a numeral without joining it: nothing, or a character
      that is no digit and does not start a fraction (a dot and a digit). */
  predicate EndsNumeral(rest: string) {
    rest == [] || (!IsDigit(rest[0]) && !(|rest| >= 2 && rest[0] == '.' && IsDigit(rest[1])))
  }

  /** The maximal run of digits at position `p` of `t` is `ds` when `ds`
      starts there and no digit follows it. */
  lemma DigitRunIs(t: string, p: nat, ds: string)
    requires p + |ds| <= |t| && t[p..p + |ds|] == ds && AllDigits(ds)
    requires p + |ds| < |t| ==> !IsDigit(t[p + |ds|])
    ensures DigitRunAt(t, p) == ds
  {
  }

  /** A text that starts with digits and goes on with `rest` has those
      digits, with no fraction, as its first numeral. */
  lemma LeadingNumeral(ds: string, rest: string)
    requires ds != [] && AllDigits(ds) && EndsNumeral(rest)
    ensures FirstNumeral(ds + rest) == Some(Numeral(0, ds, ""))
  {
    var t := ds + rest;
    assert IsDigit(t[0]);
    assert t[0..|ds|] == ds;
    if rest != [] {
      assert t[|ds|] == rest[0];
    }
    DigitRunIs(t, 0, ds);
    if |ds| + 1 < |t| {
      assert t[|ds| + 1] == rest[1];
    }
  }

  /** A size that starts with a whole number once its commas are gone, such
      as "500 m²" or "2 ha", has that number as its value. */
  lemma NumberThenText(s: string, ds: string, rest: string)
    requires ds != [] && AllDigits(ds) && EndsNumeral(rest)
    requires Without(s, ',') == ds + rest
    ensures ParseSize(s).value == DigitsValue(ds) as real
  {
    LeadingNumeral(ds, rest);
    assert NumeralValue(ds, "") == DigitsValue(ds) as real by {
      assert DigitsValue("") == 0 && Pow10(0) == 1;
    }
  }

  /** A text that starts with `ws.fs` and goes on with no digit has that
      decimal numeral as its first match. */
  lemma LeadingDecimal(ws: string, fs: string, rest: string)
    requires ws != [] && AllDigits(ws) && fs != [] && AllDigits(fs)
    requires rest == [] || !IsDigit(rest[0])
    ensures FirstNumeral(ws + "." + fs + rest) == Some(Numeral(0, ws, fs))
  {
    var t := ws + "." + fs + rest;
    var e := |ws|;
    assert IsDigit(t[0]);
    assert t[0..e] == ws && t[e] == '.';
    DigitRunIs(t, 0, ws);
    assert t[e + 1] == fs[0];
    assert t[e + 1..e + 1 + |fs|] == fs;
    if rest != [] {
      assert t[e + 1 + |fs|] == rest[0];
    }
    DigitRunIs(t, e + 1, fs);
  }

  /** A size that starts with a decimal numeral, such as "2.5 ha", has the
      numeral's value. */
  lemma DecimalThenText(s: string, ws: string, fs: string, rest: string)
    requires ws != [] && AllDigits(ws) && fs != [] && AllDigits(fs)
    requires rest == [] || !IsDigit(rest[0])
    requires Without(s, ',') == ws + "." + fs + rest
    ensures ParseSize(s).value == NumeralValue(ws, fs)
  {
    LeadingDecimal(ws, fs, rest);
  }

  /** Digits written one after the other: the first group is shifted left
      by the length of the second. */
  lemma {:induction false} DigitsConcat(a: string, b: string)
    ensures DigitsValue(a + b) == DigitsValue(a) * Pow10(|b|) + DigitsValue(b)
    decreases |b|
  {
    if b == [] {
      assert a + b == a;
    } else {
      var init := b[..|b| - 1];
      var d := DigitVal(b[|b| - 1]);
      assert (a + b)[..|a + b| - 1] == a + init;
      assert (a + b)[|a + b| - 1] == b[|b| - 1];
      DigitsConcat(a, init);
      ShiftOneMore(DigitsValue(a), Pow10(|init|), DigitsValue(init), d);
    }
  }

  lemma ShiftOneMore(x: nat, p: nat, y: nat, d: nat)
    ensures (x * p + y) * 10 + d == x * (10 * p) + (y * 10 + d)
  {
  }

  lemma {:induction false} WithoutAppend(x: string, y: string, c: char)
    ensures Without(x + y, c) == Without(x, c) + Without(y, c)
  {
    if x == [] {
      assert x + y == y;
    } else {
      assert (x + y)[1..] == x[1..] + y;
      WithoutAppend(x[1..], y, c);
    }
  }

  /** A thousands separator is read through: "1,500 m²" is 1500. */
  lemma GroupedThousands(a: string, b: string, rest: string)
    requires a != [] && AllDigits(a) && |b| == 3 && AllDigits(b)
    requires EndsNumeral(rest) && ',' !in rest
    ensures ParseSize(a + "," + b + rest).value == (DigitsValue(a) * 1000 + DigitsValue(b)) as real
  {
    WithoutSeparator(a, b, rest);
    AllDigitsAppend(a, b);
    NumberThenText(a + "," + b + rest, a + b, rest);
    DigitsConcat(a, b);
    assert Pow10(3) == 1000;
  }

  /** Removing the commas of digits, a comma, digits and comma-free text. */
  lemma WithoutSeparator(a: string, b: string, rest: string)
    requires AllDigits(a) && AllDigits(b) && ',' !in rest
    ensures Without(a + "," + b + rest, ',') == a + b + rest
  {
    NoCommaInDigits(a);
    NoCommaInDigits(b);
    WithoutAbsent(a, ',');
    WithoutAbsent(b, ',');
    WithoutAbsent(rest, ',');
    assert Without(",", ',') == [];
    WithoutAppend(a, ",", ',');
    assert Without(a + ",", ',') == a;
    WithoutAppend(a + ",", b, ',');
    assert Without(a + "," + b, ',') == a + b;
    WithoutAppend(a + "," + b, rest, ',');
  }

  lemma NoCommaInDigits(ds: string)
    requires AllDigits(ds)
    ensures ',' !in ds
  {
  }

  lemma AllDigitsAppend(a: string, b: string)
    requires AllDigits(a) && AllDigits(b)
    ensures AllDigits(a + b)
  {
    assert forall i :: |a| <= i < |a + b| ==> (a + b)[i] == b[i - |a|];
  }

  /** "2 ha" is two hectares. */
  lemma TwoHectares(s: string)
    requires s == "2 ha"
    ensures ParseSize(s) == ParsedSize(2.0, Hectare)
  {
    TwoHectaresValue(s);
    TwoHectaresUnit(s);
  }

  lemma TwoHectaresValue(s: string)
    requires s == "2 ha"
    ensures ParseSize(s).value == 2.0
  {
    assert Without(s, ',') == "2" + " ha" by {
      WithoutAbsent(s, ',');
    }
    assert DigitsValue("2") == 2 by {
      OneDigit('2');
    }
    NumberThenText(s, "2", " ha");
  }

  lemma OneDigit(c: char)
    requires IsDigit(c)
    ensures DigitsValue([c]) == DigitVal(c)
  {
    assert [c][..0] == [];
  }

  lemma TwoHectaresUnit(s: string)
    requires s == "2 ha"
    ensures ParseSize(s).unit == Hectare
  {
    LowerOfNoUpper(s);
    assert s[1..][1..] == "ha";
    assert Contains(s, "ha");
  }

  /** "500 m²" is five hundred square metres. */
  lemma FiveHundredSquareMetres(s: string)
    requires s == "500 m²"
    ensures ParseSize(s) == ParsedSize(500.0, Sqm)
  {
    FiveHundredValue(s);
    SquareMetreUnit(s);
  }

  /** The square-metre examples name no other unit. */
  lemma SquareMetreUnit(s: string)
    requires s == "500 m²" || s == "1,500 m²"
    ensures ParseSize(s).unit == Sqm
  {
    SqmText(s);
  }

  lemma FiveHundredValue(s: string)
    requires s == "500 m²"
    ensures ParseSize(s).value == 500.0
  {
    assert Without(s, ',') == "500" + " m²" by {
      WithoutAbsent(s, ',');
    }
    FiveHundred();
    NumberThenText(s, "500", " m²");
  }

  lemma FiveHundred()
    ensures DigitsValue("500") == 500
  {
    assert "500"[..2] == "50" && "50"[..1] == "5" && "5"[..0] == [];
  }

  /** "1,500 m²" is fifteen hundred square metres. */
  lemma GroupedSquareMetres(s: string)
    requires s == "1,500 m²"
    ensures ParseSize(s) == ParsedSize(1500.0, Sqm)
  {
    GroupedValue(s);
    SquareMetreUnit(s);
  }

  lemma GroupedValue(s: string)
    requires s == "1,500 m²"
    ensures ParseSize(s).value == 1500.0
  {
    assert s == "1" + "," + "500" + " m²";
    GroupedThousands("1", "500", " m²");
    FiveHundred();
    OneDigit('1');
  }

  /** A text with no 'h' and no 'p' and no capital letter names square metres. */
  lemma SqmText(s: string)
    requires s != [] && NoUpper(s)
    requires forall i :: 0 <= i < |s| ==> s[i] != 'h' && s[i] != 'p'
    ensures ParseSize(s).unit == Sqm
  {
    LowerOfNoUpper(s);
    FirstCharAbsent(s, "ha");
    FirstCharAbsent(s, "hect");
    FirstCharAbsent(s, "plot");
  }

  /** A word whose first character does not occur in `s` is not in `s`. */
  lemma {:induction false} FirstCharAbsent(s: string, word: string)
    requires word != [] && forall i :: 0 <= i < |s| ==> s[i] != word[0]
    ensures !Contains(s, word)
  {
    if s != [] {
      assert s[0] != word[0];
      FirstCharAbsent(s[1..], word);
    }
  }

  // ---------------------------------------------------------------- options

  /** A lookup table written as an object literal: its entries in order. */
  type Table = seq<(string, string)>

  /** `table[key]`, or nothing when the table has no entry for `key`. */
  function Lookup(table: Table, key: string): (r: Option<string>)
    ensures r.None? <==> forall j :: 0 <= j < |table| ==> table[j].0 != key
    ensures r.Some? ==> exists i :: 0 <= i < |table| && table[i] == (key, r.value)
                          && forall j :: 0 <= j < i ==> table[j].0 != key
  {
    if table == [] then None
    else if table[0].0 == key then
      assert table[0] == (key, table[0].1);
      Some(table[0].1)
    else
      var r := Lookup(table[1..], key);
      if r.Some? then
        var k :| 0 <= k < |table[1..]| && table[1..][k] == (key, r.value)
                 && forall j :: 0 <= j < k ==> table[1..][j].0 != key;
        assert table[k + 1] == (key, r.value);
        r
      else r
  }

  /** `mapOption`: the empty text gives nothing; otherwise the text is
      trimmed and lower-cased, and the table's entry for that key is taken,
      or the key itself when the table has none. */
  function MapOption(value: string, table: Table): (r: Option<string>)
    ensures value == [] <==> r.None?
    ensures r.Some? ==> r.value == Lookup(table, ToLower(Trim(value))).GetOr(ToLower(Trim(value)))
  {
    if value == [] then None
    else
      var key := ToLower(Trim(value));
      Some(Lookup(table, key).GetOr(key))
  }

  const LandTypeMap: Table := [
    ("residential", "residential"), ("commercial", "commercial"),
    ("mixed-use", "mixed"), ("mixed", "mixed"), ("agricultural", "agricultural")]

  const DocTypeMap: Table := [
    ("layout plan", "layout_plan"), ("land certificate", "land_certificate"),
    ("sales agreement", "sales_agreement"), ("attestation", "attestation"),
    ("allocation", "allocation")]

  const VerificationMap: Table := [
    ("verified", "verified"), ("pending", "pending"), ("unverified", "unverified")]

  const OwnershipMap: Table := [
    ("individual", "individual"), ("family-held", "family"), ("family", "family"),
    ("community land", "community"), ("community", "community"), ("company", "company")]

  const TopographyMap: Table := [
    ("flat", "flat"), ("gently sloping", "gentle_slope"), ("steep", "steep")]

  const FloodMap: Table := [("low", "low"), ("medium", "medium"), ("high", "high")]

  const SoilMap: Table := [
    ("volcanic", "volcanic"), ("clay", "clay"), ("sandy", "sand"), ("mixed", "mixed")]

  const VegetationMap: Table := [
    ("cleared", "cleared"), ("partially cleared", "bush"),
    ("densely vegetated", "semi_bush"), ("bush", "bush")]

  const SellerMap: Table := [("agent", "agent"), ("owner", "owner"), ("company", "company")]

  lemma {:induction false} TrimStartOfLower(s: string)
    ensures TrimStart(ToLower(s)) == ToLower(TrimStart(s))
  {
    if s != [] {
      var l := ToLower(s);
      assert l == [LowerChar(s[0])] + ToLower(s[1..]);
      assert l[0] == LowerChar(s[0]) && l[1..] == ToLower(s[1..]);
      if IsSpace(s[0]) {
        TrimStartOfLower(s[1..]);
      }
    }
  }

  lemma {:induction false} TrimEndOfLower(s: string)
    ensures TrimEnd(ToLower(s)) == ToLower(TrimEnd(s))
  {
    if s != [] {
      var n := |s| - 1;
      ToLowerPrefix(s, n);
      ToLowerAt(s, n);
      if IsSpace(s[n]) {
        TrimEndOfLower(s[..n]);
      }
    }
  }

  /** A normalised key normalises to itself: trimming and lower-casing an
      already trimmed, lower-cased text changes nothing. */
  lemma NormaliseTwice(s: string)
    ensures ToLower(Trim(ToLower(Trim(s)))) == ToLower(Trim(s))
  {
    var t := Trim(s);
    var a := TrimStart(s);
    TrimStartOfLower(t);
    TrimEndOfLower(TrimStart(t));
    assert TrimStart(t) == t by {
      assert t == TrimEnd(a) && t == a[..|t|];
      if t != [] {
        assert t[0] == a[0];
      }
    }
    assert TrimEnd(t) == t;
    LowerTwice(t);
  }

  /** Case and surrounding white space never matter: any text maps like its
      trimmed, lower-cased form. */
  lemma MapOptionNormalises(value: string, table: Table)
    requires Trim(value) != []
    ensures MapOption(value, table) == MapOption(ToLower(Trim(value)), table)
  {
    NormaliseTwice(value);
  }

  /** A text that normalises to "family-held", in any case and with any
      surrounding white space, is sent as the code "family". */
  lemma FamilyHeldIsFamily(value: string)
    requires ToLower(Trim(value)) == "family-held"
    ensures MapOption(value, OwnershipMap) == Some("family")
  {
    assert Lookup(OwnershipMap, "family-held") == Some("family");
  }

  /** A text that is no key of the table is sent as its normalised self. */
  lemma UnknownKeyPassesThrough(value: string, table: Table)
    requires value != []
    requires forall j :: 0 <= j < |table| ==> table[j].0 != ToLower(Trim(value))
    ensures MapOption(value, table) == Some(ToLower(Trim(value)))
  {
  }

  // ---------------------------------------------------------------- payload

  /** A JSON value in the request body. */
  datatype Value = Str(s: string) | Num(n: real) | Bool(b: bool) | Null

  /** The payload's keys; `Name` gives the JSON property name. */
  datatype Key =
    | Title | Description | Price | IsNegotiable | SizeValue | SizeUnit | LandType
    | Quarter | City | Latitude | Longitude | DistanceFromMainRoad | Landmarks
    | Topography | FloodRisk | SoilType | Vegetation
    | DocumentType | DocumentNumber | DocumentStatus | OwnershipType | IsDisputed | DisputeDetails
    | SellerType | SellerPhone | SellerWhatsapp | RoadAccess | SellerName | Status
  {
    function Name(): string {
      match this
      case Title => "title"
      case Description => "description"
      case Price => "price"
      case IsNegotiable => "is_negotiable"
      case SizeValue => "size_value"
      case SizeUnit => "size_unit"
      case LandType => "land_type"
      case Quarter => "quarter"
      case City => "city"
      case Latitude => "latitude"
      case Longitude => "longitude"
      case DistanceFromMainRoad => "distance_from_main_road"
      case Landmarks => "landmarks"
      case Topography => "topography"
      case FloodRisk => "flood_risk"
      case SoilType => "soil_type"
      case Vegetation => "vegetation"
      case DocumentType => "document_type"
      case DocumentNumber => "document_number"
      case DocumentStatus => "document_status"
      case OwnershipType => "ownership_type"
      case IsDisputed => "is_disputed"
      case DisputeDetails => "dispute_details"
      case SellerType => "seller_type"
      case SellerPhone => "seller_phone"
      case SellerWhatsapp => "seller_whatsapp"
      case RoadAccess => "road_access"
      case SellerName => "seller_name"
      case Status => "status"
    }
  }

  type Payload = map<Key, Value>

  /** `mapOption(...) || fallback`: an absent or empty code is replaced. */
  function OrDefault(code: Option<string>, fallback: string): string {
    if code.Some? && code.value != [] then code.value else fallback
  }

  /** `mapOption(...) || null`. */
  function OrNull(code: Option<string>): Value {
    if code.Some? && code.value != [] then Str(code.value) else Null
  }

  /** `text ? Number(text) : null`; a `NaN` is written as `null` in JSON.
      An empty field sends null, and a field of digits sends their value. */
  function Coordinate(text: string): (r: Value)
    ensures text == [] ==> r == Null
    ensures text != [] && AllDigits(text) ==> r == Num(DigitsValue(text) as real)
    ensures r.Num? ==> StringToNumber(text) == Some(r.n)
  {
    if text == [] then Null
    else match StringToNumber(text)
      case Some(v) => Num(v)
      case None => Null
  }

  /** `Number(String(price).replace(/[^0-9.-]+/g, '')) || 0`. A price with
      no digit, such as "negotiable", reads as 0; one typed with a currency
      name or grouping commas but no dot or minus sign reads as the number
      its digits spell: "XAF 1,500,000" is 1500000. */
  function PriceValue(price: string): (r: real)
    ensures (forall i :: 0 <= i < |price| ==> !IsDigit(price[i])) ==> r == 0.0
    ensures (forall i :: 0 <= i < |price| ==> price[i] != '.' && price[i] != '-') ==>
              r == DigitsOnlyValue(price) as real
  {
    NoDigitPriceReadsZero(price);
    DigitPriceReadsDigits(price);
    OrZero(StringToNumber(KeepNumberChars(price)))
  }

  /** `dispute_details` is sent only when the details are not blank. */
  predicate SendsDisputeDetails(form: Form.FormData) {
    !IsBlank(Form.TextOf(form, Form.DisputeDetails))
  }

  /** The value the payload gives key `k`: only the coordinates, the site
      codes, the ownership and the road access can be null, exactly the two
      checkboxes are booleans, and numbers go only to the price, the size and
      the coordinates. */
  function ValueOf(form: Form.FormData, k: Key): (r: Value)
    ensures r.Null? ==> k.Latitude? || k.Longitude? || k.Topography? || k.FloodRisk? || k.SoilType?
                        || k.Vegetation? || k.OwnershipType? || k.RoadAccess?
    ensures r.Bool? <==> k.IsNegotiable? || k.IsDisputed?
    ensures r.Num? ==> k.Price? || k.SizeValue? || k.Latitude? || k.Longitude?
  {
    match k
    case Title => Str(Form.TextOf(form, Form.Title))
    case Description => Str(Form.TextOf(form, Form.Description))
    case Price => Num(PriceValue(Form.TextOf(form, Form.Price)))
    case IsNegotiable => Bool(Form.Checked(form, Form.Negotiable))
    case SizeValue => Num(ParseSize(Form.TextOf(form, Form.Size)).value)
    case SizeUnit => Str(UnitName(ParseSize(Form.TextOf(form, Form.Size)).unit))
    case LandType => Str(OrDefault(MapOption(Form.TextOf(form, Form.LandType), LandTypeMap), "residential"))
    case Quarter => Str(Form.TextOf(form, Form.Quarter))
    case City => Str(if Form.TextOf(form, Form.City) == [] then "Buea" else Form.TextOf(form, Form.City))
    case Latitude => Coordinate(Form.TextOf(form, Form.Latitude))
    case Longitude => Coordinate(Form.TextOf(form, Form.Longitude))
    case DistanceFromMainRoad => Str(Form.TextOf(form, Form.DistanceToRoad))
    case Landmarks => Str(Form.TextOf(form, Form.Landmarks))
    case Topography => OrNull(MapOption(Form.TextOf(form, Form.Topography), TopographyMap))
    case FloodRisk => OrNull(MapOption(Form.TextOf(form, Form.FloodRisk), FloodMap))
    case SoilType => OrNull(MapOption(Form.TextOf(form, Form.SoilType), SoilMap))
    case Vegetation => OrNull(MapOption(Form.TextOf(form, Form.Vegetation), VegetationMap))
    case DocumentType => Str(OrDefault(MapOption(Form.TextOf(form, Form.DocumentType), DocTypeMap), "other"))
    case DocumentNumber => Str(Form.TextOf(form, Form.DocumentNumber))
    case DocumentStatus => Str(OrDefault(MapOption(Form.TextOf(form, Form.VerificationStatus), VerificationMap), "pending"))
    case OwnershipType => OrNull(MapOption(Form.TextOf(form, Form.OwnershipType), OwnershipMap))
    case IsDisputed => Bool(Form.Checked(form, Form.HasDisputes))
    case DisputeDetails => Str(Form.TextOf(form, Form.DisputeDetails))
    case SellerType => Str(OrDefault(MapOption(Form.TextOf(form, Form.SellerType), SellerMap), "agent"))
    case SellerPhone => Str(Form.TextOf(form, Form.Phone))
    case SellerWhatsapp => Str(Form.TextOf(form, Form.Whatsapp))
    case RoadAccess => Null
    case SellerName => Str("")
    case Status => Str("published")
  }

  /** The keys in the order the object literal lists them. */
  const KeyOrder: seq<Key> := [
    Title, Description, Price, IsNegotiable, SizeValue, SizeUnit, LandType,
    Quarter, City, Latitude, Longitude, DistanceFromMainRoad, Landmarks,
    Topography, FloodRisk, SoilType, Vegetation,
    DocumentType, DocumentNumber, DocumentStatus, OwnershipType, IsDisputed, DisputeDetails,
    SellerType, SellerPhone, SellerWhatsapp, RoadAccess, SellerName, Status
  ]

  lemma KeyListed(k: Key)
    ensures k in KeyOrder
  {
    match k {
      case Title => case Description => case Price => case IsNegotiable =>
      case SizeValue => case SizeUnit => case LandType => case Quarter =>
      case City => case Latitude => case Longitude => case DistanceFromMainRoad =>
      case Landmarks => case Topography => case FloodRisk => case SoilType =>
      case Vegetation => case DocumentType => case DocumentNumber => case DocumentStatus =>
      case OwnershipType => case IsDisputed => case DisputeDetails => case SellerType =>
      case SellerPhone => case SellerWhatsapp => case RoadAccess => case SellerName =>
      case Status =>
    }
  }

  /** The entries the object literal writes for `keys`; the spread of
      `dispute_details` writes nothing when the details are blank. */
  function EntriesFor(form: Form.FormData, keys: seq<Key>): (p: Payload)
    ensures forall k :: k in p <==> k in keys && (k != DisputeDetails || SendsDisputeDetails(form))
  {
    if keys == [] then map[]
    else
      var rest := EntriesFor(form, keys[1..]);
      if keys[0] == DisputeDetails && !SendsDisputeDetails(form) then rest
      else rest[keys[0] := ValueOf(form, keys[0])]
  }

  /** The request body: every key but `dispute_details`, which is present
      only when the seller described a dispute. */
  function BuildPayload(form: Form.FormData): (p: Payload)
    ensures forall k :: k in p <==> k != DisputeDetails || SendsDisputeDetails(form)
  {
    var p := EntriesFor(form, KeyOrder);
    assert forall k: Key :: k in KeyOrder by {
      forall k: Key ensures k in KeyOrder {
        KeyListed(k);
      }
    }
    p
  }

  /** Each entry the object literal writes holds the value of its key. */
  lemma {:induction false} EntriesForValue(form: Form.FormData, keys: seq<Key>, k: Key)
    requires k in EntriesFor(form, keys)
    ensures EntriesFor(form, keys)[k] == ValueOf(form, k)
  {
    if keys[0] != k || (keys[0] == DisputeDetails && !SendsDisputeDetails(form)) {
      EntriesForValue(form, keys[1..], k);
    }
  }

  /** Every key but `dispute_details` is in the payload, with its value;
      `dispute_details` is there, with its value, when it is sent at all. */
  lemma Entry(form: Form.FormData, k: Key)
    ensures k in BuildPayload(form) <==> k != DisputeDetails || SendsDisputeDetails(form)
    ensures k in BuildPayload(form) ==> BuildPayload(form)[k] == ValueOf(form, k)
  {
    if k in BuildPayload(form) {
      EntriesForValue(form, KeyOrder, k);
    }
  }

  /** The defaults stand in for empty selects, so the codes the backend
      requires are never empty. */
  lemma CodesNeverEmpty(form: Form.FormData)
    ensures ValueOf(form, LandType).Str? && ValueOf(form, LandType).s != []
    ensures ValueOf(form, SellerType).Str? && ValueOf(form, SellerType).s != []
    ensures ValueOf(form, DocumentType).Str? && ValueOf(form, DocumentType).s != []
    ensures ValueOf(form, DocumentStatus).Str? && ValueOf(form, DocumentStatus).s != []
    ensures ValueOf(form, SizeUnit).Str? && ValueOf(form, SizeUnit).s != []
  {
  }

  /** The price and the size are always numbers, 0 when nothing reads as one. */
  lemma NumbersAlwaysSent(form: Form.FormData)
    ensures ValueOf(form, Price).Num? && ValueOf(form, SizeValue).Num?
    ensures ValueOf(form, SizeValue).n >= 0.0
  {
  }

  /** The publish status and the constant entries are fixed, and an empty
      city is sent as Buea. */
  lemma PayloadConstants(form: Form.FormData)
    ensures BuildPayload(form)[Status] == Str("published")
    ensures BuildPayload(form)[RoadAccess] == Null && BuildPayload(form)[SellerName] == Str("")
    ensures Form.TextOf(form, Form.City) == [] ==> BuildPayload(form)[City] == Str("Buea")
  {
    Entry(form, Status);
    Entry(form, RoadAccess);
    Entry(form, SellerName);
    Entry(form, City);
  }

  /** The payload's enumeration codes are never empty. */
  lemma PayloadCodes(form: Form.FormData)
    ensures BuildPayload(form)[LandType].Str? && BuildPayload(form)[LandType].s != []
    ensures BuildPayload(form)[SellerType].Str? && BuildPayload(form)[SellerType].s != []
    ensures BuildPayload(form)[DocumentType].Str? && BuildPayload(form)[DocumentType].s != []
    ensures BuildPayload(form)[DocumentStatus].Str? && BuildPayload(form)[DocumentStatus].s != []
  {
    CodesNeverEmpty(form);
    Entry(form, LandType);
    Entry(form, SellerType);
    Entry(form, DocumentType);
    Entry(form, DocumentStatus);
  }

  // ---------------------------------------------------------------- required fields

  const Required: seq<Key> := [Title, Price, SizeValue, SizeUnit, LandType, Quarter, SellerType]

  /** `!payload[field] && payload[field] !== 0`: absent, the empty string,
      `false` or `null`; the number 0 is accepted. */
  predicate IsMissing(p: Payload, k: Key) {
    k !in p || FalsyNotZero(p[k])
  }

  /** The values JavaScript treats as false, except the number 0. */
  predicate FalsyNotZero(v: Value) {
    v == Str("") || v == Bool(false) || v == Null
  }

  /** A key is missing from the payload exactly when the object literal
      leaves it out or writes a false value for it. */
  lemma MissingIff(form: Form.FormData, k: Key)
    ensures IsMissing(BuildPayload(form), k)
        <==> (k == DisputeDetails && !SendsDisputeDetails(form)) || FalsyNotZero(ValueOf(form, k))
  {
    Entry(form, k);
  }

  /** `required.filter(...)`: the missing keys, in the order listed. */
  function MissingAmong(p: Payload, keys: seq<Key>): (r: seq<Key>)
    ensures |r| <= |keys|
  {
    if keys == [] then []
    else (if IsMissing(p, keys[0]) then [keys[0]] else []) + MissingAmong(p, keys[1..])
  }

  /** The filter keeps exactly the listed keys that are missing. */
  lemma {:induction false} MissingAmongMembers(p: Payload, keys: seq<Key>)
    ensures forall k :: k in MissingAmong(p, keys) <==> k in keys && IsMissing(p, k)
  {
    if keys != [] {
      MissingAmongMembers(p, keys[1..]);
      assert keys == [keys[0]] + keys[1..];
    }
  }

  /** Of the required keys only the title and the quarter can be missing,
      and each is missing exactly when the seller left it empty; a price or
      size that reads as 0 passes. */
  lemma MissingFieldsOf(form: Form.FormData)
    ensures MissingAmong(BuildPayload(form), Required)
      == (if Form.TextOf(form, Form.Title) == [] then [Title] else [])
       + (if Form.TextOf(form, Form.Quarter) == [] then [Quarter] else [])
  {
    AlwaysPresent(form);
    TitleAndQuarter(form);
    OnlyTitleOrQuarterMissing(BuildPayload(form));
  }

  /** When the five always-filled entries are there, the missing required
      keys are the title and the quarter, in that order, as they are missing. */
  lemma OnlyTitleOrQuarterMissing(p: Payload)
    requires !IsMissing(p, Price) && !IsMissing(p, SizeValue) && !IsMissing(p, SizeUnit)
    requires !IsMissing(p, LandType) && !IsMissing(p, SellerType)
    ensures MissingAmong(p, Required)
      == (if IsMissing(p, Title) then [Title] else []) + (if IsMissing(p, Quarter) then [Quarter] else [])
  {
    RequiredAfterTitle(p);
    MissingFrom(p, Required, 0);
    assert Required[0..] == Required;
  }

  /** Past the title, only the quarter can be missing. */
  lemma RequiredAfterTitle(p: Payload)
    requires !IsMissing(p, Price) && !IsMissing(p, SizeValue) && !IsMissing(p, SizeUnit)
    requires !IsMissing(p, LandType) && !IsMissing(p, SellerType)
    ensures MissingAmong(p, Required[1..]) == (if IsMissing(p, Quarter) then [Quarter] else [])
  {
    assert Required[1] == Price && Required[2] == SizeValue && Required[3] == SizeUnit;
    assert Required[4] == LandType;
    RequiredFromQuarter(p);
    MissingSkip(p, Required, 4);
    MissingSkip(p, Required, 3);
    MissingSkip(p, Required, 2);
    MissingSkip(p, Required, 1);
  }

  /** From the quarter on, only the quarter can be missing. */
  lemma RequiredFromQuarter(p: Payload)
    requires !IsMissing(p, SellerType)
    ensures MissingAmong(p, Required[5..]) == (if IsMissing(p, Quarter) then [Quarter] else [])
  {
    assert Required[5] == Quarter && Required[6] == SellerType;
    MissingSkip(p, Required, 6);
    assert Required[7..] == [];
    MissingFrom(p, Required, 5);
  }

  /** `filter` looks at the key at `i`, then at the ones after it. */
  lemma MissingFrom(p: Payload, keys: seq<Key>, i: nat)
    requires i < |keys|
    ensures MissingAmong(p, keys[i..])
      == (if IsMissing(p, keys[i]) then [keys[i]] else []) + MissingAmong(p, keys[i + 1..])
  {
    assert keys[i..][1..] == keys[i + 1..];
  }

  /** A key that is present drops out of the filter. */
  lemma MissingSkip(p: Payload, keys: seq<Key>, i: nat)
    requires i < |keys| && !IsMissing(p, keys[i])
    ensures MissingAmong(p, keys[i..]) == MissingAmong(p, keys[i + 1..])
  {
    MissingFrom(p, keys, i);
  }

  /** The price and the size are numbers (0 included) and the unit and the
      codes are never empty, so these required entries are never missing. */
  lemma AlwaysPresent(form: Form.FormData)
    ensures !IsMissing(BuildPayload(form), Price) && !IsMissing(BuildPayload(form), SizeValue)
    ensures !IsMissing(BuildPayload(form), SizeUnit) && !IsMissing(BuildPayload(form), LandType)
    ensures !IsMissing(BuildPayload(form), SellerType)
  {
    PricePresent(form);
    SizeValuePresent(form);
    SizeUnitPresent(form);
    LandTypePresent(form);
    SellerTypePresent(form);
  }

  lemma PricePresent(form: Form.FormData)
    ensures !IsMissing(BuildPayload(form), Price)
  {
    Entry(form, Price);
    NumbersAlwaysSent(form);
  }

  lemma SizeValuePresent(form: Form.FormData)
    ensures !IsMissing(BuildPayload(form), SizeValue)
  {
    Entry(form, SizeValue);
    NumbersAlwaysSent(form);
  }

  lemma SizeUnitPresent(form: Form.FormData)
    ensures !IsMissing(BuildPayload(form), SizeUnit)
  {
    Entry(form, SizeUnit);
    CodesNeverEmpty(form);
  }

  lemma LandTypePresent(form: Form.FormData)
    ensures !IsMissing(BuildPayload(form), LandType)
  {
    Entry(form, LandType);
    CodesNeverEmpty(form);
  }

  lemma SellerTypePresent(form: Form.FormData)
    ensures !IsMissing(BuildPayload(form), SellerType)
  {
    Entry(form, SellerType);
    CodesNeverEmpty(form);
  }

  /** The title and the quarter are sent as typed, so each is missing
      exactly when the seller left it empty. */
  lemma TitleAndQuarter(form: Form.FormData)
    ensures IsMissing(BuildPayload(form), Title) <==> Form.TextOf(form, Form.Title) == []
    ensures IsMissing(BuildPayload(form), Quarter) <==> Form.TextOf(form, Form.Quarter) == []
  {
    TitleMissing(form);
    QuarterMissing(form);
  }

  /** A text entry is missing exactly when the text is empty. */
  lemma TextMissingIff(p: Payload, k: Key, s: string)
    requires k in p && p[k] == Str(s)
    ensures IsMissing(p, k) <==> s == []
  {
  }

  lemma TitleMissing(form: Form.FormData)
    ensures IsMissing(BuildPayload(form), Title) <==> Form.TextOf(form, Form.Title) == []
  {
    Entry(form, Title);
    TextMissingIff(BuildPayload(form), Title, Form.TextOf(form, Form.Title));
  }

  lemma QuarterMissing(form: Form.FormData)
    ensures IsMissing(BuildPayload(form), Quarter) <==> Form.TextOf(form, Form.Quarter) == []
  {
    Entry(form, Quarter);
    TextMissingIff(BuildPayload(form), Quarter, Form.TextOf(form, Form.Quarter));
  }

  /** What pressing Publish leads to: an error naming the missing fields,
      raised before any request, or the create request with this body. */
  datatype PublishOutcome = Rejected(message: string, missing: seq<Key>) | Submitted(body: Payload)

  function KeyNames(keys: seq<Key>): (r: seq<string>)
    ensures |r| == |keys|
  {
    if keys == [] then [] else [keys[0].Name()] + KeyNames(keys[1..])
  }

  /** `handlePublish` up to the create request: a request is made only when
      no required key is missing, and a rejection names exactly the missing
      required keys. */
  function Publish(form: Form.FormData): (r: PublishOutcome)
    ensures r.Submitted? ==> r.body == BuildPayload(form) && forall k :: k in Required ==> !IsMissing(r.body, k)
    ensures r.Rejected? ==> r.missing != [] && StartsWith(r.message, "Missing required fields: ")
    ensures r.Rejected? ==> forall k :: k in r.missing <==> k in Required && IsMissing(BuildPayload(form), k)
  {
    var p := BuildPayload(form);
    MissingAmongMembers(p, Required);
    var missing := MissingAmong(p, Required);
    if |missing| > 0 then Rejected("Missing required fields: " + Join(KeyNames(missing), ", "), missing)
    else Submitted(p)
  }

  /** A listing is sent exactly when it has a title and a quarter, and then
      with the payload built from the form. */
  lemma PublishGate(form: Form.FormData)
    ensures Publish(form).Submitted? <==>
            Form.TextOf(form, Form.Title) != [] && Form.TextOf(form, Form.Quarter) != []
    ensures Publish(form).Submitted? ==> Publish(form).body == BuildPayload(form)
    ensures Publish(form).Rejected? ==> |Publish(form).missing| > 0
  {
    MissingFieldsOf(form);
  }

  /** The quarter select's placeholder is an ordinary option value: choosing
      "-- Select quarter --" lets the location step pass, and a listing with
      a title and that quarter is sent. */
  lemma PlaceholderQuarterPasses(form: Form.FormData)
    requires Form.TextOf(form, Form.Quarter) == "-- Select quarter --"
    ensures Form.Guard(1, form).None?
    ensures Form.TextOf(form, Form.Title) != [] ==> Publish(form).Submitted?
  {
    var q := Form.TextOf(form, Form.Quarter);
    assert q != [] && q[0] == '-';
    ChosenQuarter(form);
  }

  /** A quarter that starts with a visible character passes both the
      location step and the publish check. */
  lemma ChosenQuarter(form: Form.FormData)
    requires Form.TextOf(form, Form.Quarter) != [] && !IsSpace(Form.TextOf(form, Form.Quarter)[0])
    ensures Form.Guard(1, form).None?
    ensures Form.TextOf(form, Form.Title) != [] ==> Publish(form).Submitted?
  {
    BlankIffAllSpace(Form.TextOf(form, Form.Quarter));
    PublishGate(form);
  }

  /** A price with no digits, such as "negotiable", is sent as 0 and is not
      reported missing. */
  lemma PriceWithoutDigitsIsZero(form: Form.FormData)
    requires forall i :: 0 <= i < |Form.TextOf(form, Form.Price)| ==> !IsDigit(Form.TextOf(form, Form.Price)[i])
    ensures BuildPayload(form)[Price] == Num(0.0)
    ensures !IsMissing(BuildPayload(form), Price)
  {
    PricePresent(form);
    PriceEntry(form);
    NoDigitPriceIsZero(Form.TextOf(form, Form.Price));
  }

  lemma NoDigitPriceIsZero(price: string)
    requires forall i :: 0 <= i < |price| ==> !IsDigit(price[i])
    ensures PriceValue(price) == 0.0
  {
  }

  /** The payload sends the price the price text reads as. */
  lemma PriceEntry(form: Form.FormData)
    ensures Price in BuildPayload(form)
    ensures BuildPayload(form)[Price] == Num(PriceValue(Form.TextOf(form, Form.Price)))
  {
    Entry(form, Price);
  }

  /** Without a digit, the kept number characters read as 0. */
  lemma NoDigitPriceReadsZero(price: string)
    ensures (forall i :: 0 <= i < |price| ==> !IsDigit(price[i])) ==>
              OrZero(StringToNumber(KeepNumberChars(price))) == 0.0
  {
    if forall i :: 0 <= i < |price| ==> !IsDigit(price[i]) {
      KeepNumberCharsNoDigits(price);
      NoDigitNumber(KeepNumberChars(price));
    }
  }

  /** Without a dot or a minus sign, the kept number characters are the digits. */
  lemma DigitPriceReadsDigits(price: string)
    ensures (forall i :: 0 <= i < |price| ==> price[i] != '.' && price[i] != '-') ==>
              OrZero(StringToNumber(KeepNumberChars(price))) == DigitsOnlyValue(price) as real
  {
    if forall i :: 0 <= i < |price| ==> price[i] != '.' && price[i] != '-' {
      NumberCharsAreDigits(price);
      var ds := KeepDigits(price);
      if ds == [] {
        NoDigitNumber(ds);
      }
    }
  }

  lemma {:induction false} NumberCharsAreDigits(s: string)
    requires forall i :: 0 <= i < |s| ==> s[i] != '.' && s[i] != '-'
    ensures KeepNumberChars(s) == KeepDigits(s)
  {
    if s != [] {
      NumberCharsAreDigits(s[1..]);
    }
  }

  lemma {:induction false} KeepNumberCharsNoDigits(s: string)
    requires forall i :: 0 <= i < |s| ==> !IsDigit(s[i])
    ensures forall i :: 0 <= i < |KeepNumberChars(s)| ==> !IsDigit(KeepNumberChars(s)[i])
  {
    if s != [] {
      KeepNumberCharsNoDigits(s[1..]);
    }
  }

  /** Without a digit, `Number` yields 0 (for the empty text) or `NaN`. */
  lemma NoDigitNumber(t: string)
    requires forall i :: 0 <= i < |t| ==> !IsDigit(t[i])
    ensures OrZero(StringToNumber(t)) == 0.0
  {
    var u := Trim(t);
    TrimNoDigit(t);
    if u != [] {
      var body := if u[0] == '-' || u[0] == '+' then u[1..] else u;
      assert forall i :: 0 <= i < |body| ==> !IsDigit(body[i]);
      NoDigitDecimal(body);
    }
  }

  /** Trimming takes no digit into a text that has none. */
  lemma TrimNoDigit(t: string)
    requires forall i :: 0 <= i < |t| ==> !IsDigit(t[i])
    ensures forall i :: 0 <= i < |Trim(t)| ==> !IsDigit(Trim(t)[i])
  {
    forall i | 0 <= i < |Trim(t)|
      ensures !IsDigit(Trim(t)[i])
    {
      TrimEndAt(TrimStart(t), i);
      TrimStartAt(t, i);
    }
  }

  /** A decimal literal needs a digit. */
  lemma NoDigitDecimal(b: string)
    requires forall i :: 0 <= i < |b| ==> !IsDigit(b[i])
    ensures UnsignedDecimal(b) == None
  {
    assert LeadingDigits(b) == 0;
    if |b| > 0 && b[0] == '.' {
      assert LeadingDigits(b[1..]) == 0;
    }
  }
}
