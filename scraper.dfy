/**
 * The listing scraper: relative URL resolution, the numeric and phone-number
 * extractors, the private/commercial seller classifier, the mapping of one
 * advert of the embedded search-result JSON to a vehicle record, the fallback
 * parse of listing blocks in the page markup, and the source selection and
 * price ceiling applied to a scraped page.
 *
 * The regular expressions that find the phone-number candidates and the
 * listing blocks (with their title, seller, price and link captures) are not
 * modelled: each phone pattern is a function returning its leftmost match, and
 * a listing block arrives as its captured groups. The network fetch and
 * `JSON.parse` are not modelled either: a page arrives already split into the
 * adverts of its embedded JSON and its listing blocks.
 */
module Scraper {
  import opened Wrappers
  import opened Text
  import Lists

  // ---------------------------------------------------------------------
  // Relative URL resolution at the top of fetchPage
  // ---------------------------------------------------------------------

  /** The URL a page was fetched from, with the parts `new URL(...)` gives of it. */
  datatype BaseUrl = BaseUrl(href: string, protocol: string, host: string)

  /**
   * The URL fetchPage requests: an `http...` URL as it is; otherwise, given a
   * non-empty base, a root-relative path joined to the base's origin and any
   * other path joined to the whole base with a `/`. A URL that still does not
   * start with `http` is rejected.
   */
  function ResolveUrl(url: string, base: Option<BaseUrl>): (r: Result<string>)
    ensures r.Ok? <==> StartsWith(JoinedUrl(url, base), "http")
    ensures r.Ok? ==> StartsWith(r.value, "http")
    ensures r.Err? ==> r.message == "Invalid URL: " + JoinedUrl(url, base)
    ensures StartsWith(url, "http") ==> r == Ok(url)
  {
    var full := JoinedUrl(url, base);
    if StartsWith(full, "http") then Ok(full) else Err("Invalid URL: " + full)
  }

  function JoinedUrl(url: string, base: Option<BaseUrl>): string {
    if !StartsWith(url, "http") && base.Some? && base.value.href != "" then
      if StartsWith(url, "/") then base.value.protocol + "//" + base.value.host + url
      else base.value.href + "/" + url
    else url
  }

  lemma StartsWithConcat(a: string, b: string, p: string)
    requires StartsWith(a, p)
    ensures StartsWith(a + b, p)
  {
    assert (a + b)[..|p|] == a[..|p|];
  }

  /**
   * A redirect `Location` resolved against a page fetched over http(s) always
   * passes the URL check: root-relative paths keep the base's scheme, other
   * relative paths keep the whole base URL as prefix.
   */
  lemma RedirectAlwaysResolves(location: string, base: BaseUrl)
    requires StartsWith(base.href, "http") && StartsWith(base.protocol, "http")
    ensures ResolveUrl(location, Some(base)).Ok?
    ensures !StartsWith(location, "http") && StartsWith(location, "/") ==>
      ResolveUrl(location, Some(base)) == Ok(base.protocol + "//" + base.host + location)
    ensures !StartsWith(location, "http") && !StartsWith(location, "/") ==>
      ResolveUrl(location, Some(base)) == Ok(base.href + "/" + location)
  {
    if !StartsWith(location, "http") {
      if StartsWith(location, "/") {
        StartsWithConcat(base.protocol, "//" + base.host + location, "http");
        assert base.protocol + "//" + base.host + location == base.protocol + ("//" + base.host + location);
      } else {
        StartsWithConcat(base.href, "/" + location, "http");
        assert base.href + "/" + location == base.href + ("/" + location);
      }
    }
  }

  // ---------------------------------------------------------------------
  // Numeric extractors
  // ---------------------------------------------------------------------

  /** `extractPrice`: null for absent or digit-free text, else the number formed by all its digits. */
  function ExtractPrice(text: Option<string>): (r: Option<nat>)
    ensures r.None? <==> text.None? || forall i :: 0 <= i < |text.value| ==> !IsDigit(text.value[i])
    ensures r.Some? ==> r.value == DecimalValue(Keep(text.value, IsDigit))
  {
    if text.None? || text.value == "" then None
    else
      var digits := Keep(text.value, IsDigit);
      if digits == [] then
        None
      else
        assert digits[0] in text.value;
        Some(DecimalValue(digits))
  }

  /** Any separators around a rendered amount are ignored: "€ 9990,-" reads back as 9990. */
  lemma ExtractPriceOfNumeral(prefix: string, n: nat, suffix: string)
    requires forall i :: 0 <= i < |prefix| ==> !IsDigit(prefix[i])
    requires forall i :: 0 <= i < |suffix| ==> !IsDigit(suffix[i])
    ensures ExtractPrice(Some(prefix + NatToString(n) + suffix)) == Some(n)
  {
    var d := NatToString(n);
    var t := prefix + d + suffix;
    KeepConcat(prefix + d, suffix, IsDigit);
    KeepConcat(prefix, d, IsDigit);
    KeepNone(prefix, IsDigit);
    KeepNone(suffix, IsDigit);
    KeepAll(d, IsDigit);
    var digits := Keep(t, IsDigit);
    assert digits == d by {
      assert Keep(prefix + d, IsDigit) == [] + d;
      assert digits == Keep(prefix + d, IsDigit) + [];
    }
    assert t != "" && digits != [];
    DecimalOfNatToString(n);
  }

  /** The four characters at `i` match `\b(19|20)\d{2}\b`. */
  predicate YearAt(s: string, i: nat)
    requires i + 4 <= |s|
  {
    ((s[i] == '1' && s[i + 1] == '9') || (s[i] == '2' && s[i + 1] == '0'))
    && IsDigit(s[i + 2]) && IsDigit(s[i + 3])
    && (i == 0 || !IsWordChar(s[i - 1]))
    && (i + 4 == |s| || !IsWordChar(s[i + 4]))
  }

  /** The leftmost position at or after `from` where the year pattern matches. */
  function FindYear(s: string, from: nat): (r: Option<nat>)
    requires from <= |s|
    ensures r.Some? ==> from <= r.value && r.value + 4 <= |s| && YearAt(s, r.value)
    ensures r.Some? ==> forall k :: from <= k < r.value ==> !YearAt(s, k)
    ensures r.None? ==> forall k :: from <= k && k + 4 <= |s| ==> !YearAt(s, k)
    decreases |s| - from
  {
    if from + 4 > |s| then None
    else if YearAt(s, from) then Some(from)
    else FindYear(s, from + 1)
  }

  lemma DecimalValueOfFour(w: string)
    requires |w| == 4
    ensures DecimalValue(w) == 1000 * DigitValue(w[0]) + 100 * DigitValue(w[1]) + 10 * DigitValue(w[2]) + DigitValue(w[3])
  {
    assert DecimalValue(w) == DecimalValue(w[..3]) * 10 + DigitValue(w[3]);
    assert w[..3][..2] == w[..2];
    assert DecimalValue(w[..3]) == DecimalValue(w[..2]) * 10 + DigitValue(w[2]);
    assert w[..2][..1] == w[..1];
    assert DecimalValue(w[..2]) == DecimalValue(w[..1]) * 10 + DigitValue(w[1]);
    assert w[..1][..0] == [];
    assert DecimalValue(w[..1]) == DigitValue(w[0]);
  }

  /** `extractYear`: the leftmost stand-alone 19xx or 20xx in the text. */
  function ExtractYear(text: Option<string>): (r: Option<nat>)
    ensures r.Some? ==> 1900 <= r.value <= 2099
    ensures r.Some? <==> text.Some? && exists i: nat :: i + 4 <= |text.value| && YearAt(text.value, i)
    ensures r.Some? ==>
      exists i: nat ::
        i + 4 <= |text.value| && YearAt(text.value, i)
        && (forall k: nat :: k < i ==> !YearAt(text.value, k))
        && r.value == DecimalValue(text.value[i..i + 4])
  {
    if text.None? || text.value == "" then None
    else
      match FindYear(text.value, 0)
      case None => None
      case Some(i) =>
        var w := text.value[i..i + 4];
        DecimalValueOfFour(w);
        Some(DecimalValue(w))
  }

  predicate IsNumeralChar(c: char) {
    IsDigit(c) || c == '.'
  }

  predicate NotDot(c: char) {
    c != '.'
  }

  /** The end of the run of characters satisfying `p` that starts at `i`. */
  function RunEnd(s: string, i: nat, p: char -> bool): (e: nat)
    requires i <= |s|
    ensures i <= e <= |s|
    ensures forall k :: i <= k < e ==> p(s[k])
    ensures e < |s| ==> !p(s[e])
    decreases |s| - i
  {
    if i < |s| && p(s[i]) then RunEnd(s, i + 1, p) else i
  }

  /** A run ends exactly where the test first fails. */
  lemma {:induction false} RunEndAt(s: string, i: nat, e: nat, p: char -> bool)
    requires i <= e <= |s|
    requires forall k :: i <= k < e ==> p(s[k])
    requires e < |s| ==> !p(s[e])
    ensures RunEnd(s, i, p) == e
    decreases e - i
  {
    if i < e {
      RunEndAt(s, i + 1, e, p);
    }
  }

  /**
   * `([\d.]+)\s*km` (case-insensitive) matches at `i`. `[\d.]+` can only end
   * where its greedy run ends (neither white space nor `k` is in the class),
   * and `\s*` likewise, so this is the whole matching condition.
   */
  predicate MileageAt(s: string, i: nat)
    requires i < |s|
  {
    IsNumeralChar(s[i]) &&
    var e := RunEnd(s, RunEnd(s, i, IsNumeralChar), IsSpace);
    e + 2 <= |s| && LowerChar(s[e]) == 'k' && LowerChar(s[e + 1]) == 'm'
  }

  function FindMileage(s: string, from: nat): (r: Option<nat>)
    requires from <= |s|
    ensures r.Some? ==> from <= r.value < |s| && MileageAt(s, r.value)
    ensures r.Some? ==> forall k :: from <= k < r.value ==> !MileageAt(s, k)
    ensures r.None? ==> forall k :: from <= k < |s| ==> !MileageAt(s, k)
    decreases |s| - from
  {
    if from == |s| then None
    else if MileageAt(s, from) then Some(from)
    else FindMileage(s, from + 1)
  }

  /**
   * `extractMileage`: null when nothing matches; otherwise `parseInt` of the
   * matched run of digits and dots with the dots removed (NaN when the run
   * holds dots only).
   */
  function ExtractMileage(text: Option<string>): (r: Option<JsNumber>)
    ensures r.None? <==> text.None? || forall i :: 0 <= i < |text.value| ==> !MileageAt(text.value, i)
    ensures r.Some? ==>
      exists i: nat ::
        i < |text.value| && MileageAt(text.value, i)
        && (forall k: nat :: k < i ==> !MileageAt(text.value, k))
        && r.value == ParseInt(Keep(text.value[i..RunEnd(text.value, i, IsNumeralChar)], NotDot))
  {
    if text.None? || text.value == "" then None
    else
      match FindMileage(text.value, 0)
      case None => None
      case Some(i) =>
        var run := text.value[i..RunEnd(text.value, i, IsNumeralChar)];
        Some(ParseInt(Keep(run, NotDot)))
  }

  /** A rendered kilometre count reads back: "45000 km" gives 45000. */
  lemma ExtractMileageOfNumeral(n: nat)
    ensures ExtractMileage(Some(NatToString(n) + " km")) == Some(Num(n))
  {
    var d := NatToString(n);
    var s := d + " km";
    DigitsKmMatch(d);
    assert FindMileage(s, 0) == Some(0);
    assert ExtractMileage(Some(s)) == Some(ParseInt(Keep(d, NotDot)));
    KeepAll(d, NotDot);
    ParseIntOfNumeral("", "", n, "");
    NoPrefix(d);
  }

  /** Digits followed by " km" match at the start, and the matched run is the digits. */
  lemma DigitsKmMatch(d: string)
    requires d != [] && forall k :: 0 <= k < |d| ==> IsDigit(d[k])
    ensures MileageAt(d + " km", 0)
    ensures RunEnd(d + " km", 0, IsNumeralChar) == |d|
    ensures (d + " km")[0..|d|] == d
  {
    var s := d + " km";
    DigitsKmRuns(d);
    assert s[|d| + 1] == 'k' && s[|d| + 2] == 'm';
    assert IsNumeralChar(s[0]) by {
      assert s[0] == d[0];
    }
  }

  /** In digits followed by " km" the digit run ends at the space, and the space run at the `k`. */
  lemma DigitsKmRuns(d: string)
    requires d != [] && forall k :: 0 <= k < |d| ==> IsDigit(d[k])
    ensures RunEnd(d + " km", 0, IsNumeralChar) == |d|
    ensures RunEnd(d + " km", |d|, IsSpace) == |d| + 1
  {
    var s := d + " km";
    assert s[|d|] == ' ' && s[|d| + 1] == 'k';
    assert forall k :: 0 <= k < |d| ==> s[k] == d[k] && IsNumeralChar(s[k]);
    RunEndAt(s, 0, |d|, IsNumeralChar);
    RunEndAt(s, |d|, |d| + 1, IsSpace);
  }

  // ---------------------------------------------------------------------
  // Austrian phone-number extraction
  // ---------------------------------------------------------------------

  /** One phone pattern applied to a text: its leftmost match, or none. */
  type Matcher = string -> Option<string>

  /** `[\s\-\/]`: the separators removed from a matched number. */
  predicate IsPhoneSeparator(c: char) {
    IsSpace(c) || c == '-' || c == '/'
  }

  predicate NotSeparator(c: char) {
    !IsPhoneSeparator(c)
  }

  /**
   * A matched number with its separators removed and a single leading `0`
   * (the national trunk prefix) replaced by `+43`; a number starting with
   * `00` or `+` is left as it is.
   */
  function NormalizePhone(m: string): (r: string)
    ensures forall i :: 0 <= i < |r| ==> !IsPhoneSeparator(r[i])
    ensures var p := Keep(m, NotSeparator);
      if StartsWith(p, "0") && !StartsWith(p, "00") then r == "+43" + p[1..] else r == p
  {
    var p := Keep(m, NotSeparator);
    if StartsWith(p, "0") && !StartsWith(p, "00") then "+43" + p[1..] else p
  }

  /** Normalising twice gives the same number: the output never starts with a single `0`. */
  lemma NormalizePhoneIdempotent(m: string)
    ensures NormalizePhone(NormalizePhone(m)) == NormalizePhone(m)
  {
    var r := NormalizePhone(m);
    KeepAll(r, NotSeparator);
    var p := Keep(m, NotSeparator);
    if StartsWith(p, "0") && !StartsWith(p, "00") {
      assert r[0] == '+';
      assert !StartsWith(r, "0");
    }
  }

  /** The leftmost match of the first pattern that matches at all. */
  function FirstMatch(text: string, patterns: seq<Matcher>): (r: Option<string>)
    ensures r.None? <==> forall k :: 0 <= k < |patterns| ==> patterns[k](text).None?
    ensures r.Some? ==>
      exists k ::
        0 <= k < |patterns| && patterns[k](text) == r
        && forall j :: 0 <= j < k ==> patterns[j](text).None?
  {
    if patterns == [] then None
    else if patterns[0](text).Some? then patterns[0](text)
    else
      var r := FirstMatch(text, patterns[1..]);
      if r.Some? then
        var k :| 0 <= k < |patterns[1..]| && patterns[1..][k](text) == r
          && forall j :: 0 <= j < k ==> patterns[1..][j](text).None?;
        assert patterns[k + 1](text) == r;
        r
      else
        r
  }

  /**
   * The number `extractPhoneNumber` finds: none for empty text or when no
   * pattern matches, else the first matching pattern's leftmost match, normalised.
   */
  function PhoneOf(text: string, patterns: seq<Matcher>): (r: Option<string>)
    ensures r.None? <==> text == "" || forall k :: 0 <= k < |patterns| ==> patterns[k](text).None?
    ensures r.Some? ==>
      exists k ::
        0 <= k < |patterns| && patterns[k](text).Some?
        && (forall j :: 0 <= j < k ==> patterns[j](text).None?)
        && r.value == NormalizePhone(patterns[k](text).value)
  {
    if text == "" then None
    else
      match FirstMatch(text, patterns)
      case None => None
      case Some(m) => Some(NormalizePhone(m))
  }

  /** When pattern `i` is the first that matches, its match is the one taken. */
  lemma {:induction false} FirstMatchAt(text: string, patterns: seq<Matcher>, i: nat)
    requires i < |patterns| && patterns[i](text).Some?
    requires forall j :: 0 <= j < i ==> patterns[j](text).None?
    ensures FirstMatch(text, patterns) == patterns[i](text)
  {
    if i > 0 {
      assert patterns[0](text).None?;
      assert forall j :: 0 <= j < i - 1 ==> patterns[1..][j] == patterns[j + 1];
      FirstMatchAt(text, patterns[1..], i - 1);
    }
  }

  /** `extractPhoneNumber`: tries the patterns in order and returns at the first that matches. */
  method ExtractPhoneNumber(text: string, patterns: seq<Matcher>) returns (phone: Option<string>)
    ensures phone == PhoneOf(text, patterns)
  {
    if text == "" {
      return None;
    }
    for i := 0 to |patterns|
      invariant forall j :: 0 <= j < i ==> patterns[j](text).None?
    {
      var matches := patterns[i](text);
      if matches.Some? {
        FirstMatchAt(text, patterns, i);
        var p := Keep(matches.value, NotSeparator);
        if StartsWith(p, "0") && !StartsWith(p, "00") {
          p := "+43" + p[1..];
        }
        assert p == NormalizePhone(matches.value);
        return Some(p);
      }
    }
    return None;
  }

  // ---------------------------------------------------------------------
  // Advert attributes and the seller classifier
  // ---------------------------------------------------------------------

  /**
   * One entry of an advert's attribute list: its name, the rarely present
   * single `value` (kept only when it is a string), and its `values` list
   * (absent modelled as empty; only string entries are modelled).
   */
  datatype Attribute = Attribute(name: string, value: Option<string>, values: seq<string>)

  /** `a.values?.[0]`, with `""` standing for every falsy outcome. */
  function FirstValue(a: Attribute): string {
    if |a.values| > 0 then a.values[0] else ""
  }

  function NameIs(name: string): Attribute -> bool {
    (a: Attribute) => a.name == name
  }

  /** `attrs.find(a => a.name === name)`. */
  function FindAttr(attrs: seq<Attribute>, name: string): Option<Attribute> {
    Lists.Find(attrs, NameIs(name))
  }

  /** `getAttr(name)`: the first value of the first attribute with that name, when it is non-empty. */
  function GetAttr(attrs: seq<Attribute>, name: string): (r: Option<string>)
    ensures r.Some? ==> r.value != ""
  {
    if attrs == [] then None
    else if attrs[0].name == name then
      if FirstValue(attrs[0]) != "" then Some(FirstValue(attrs[0])) else None
    else GetAttr(attrs[1..], name)
  }

  /**
   * `getAttr` reads the first attribute of that name only: it is present
   * exactly when that attribute's first value is non-empty, and is that value.
   */
  lemma {:induction false} GetAttrFirst(attrs: seq<Attribute>, name: string)
    ensures GetAttr(attrs, name).Some? <==>
      exists i ::
        0 <= i < |attrs| && attrs[i].name == name && FirstValue(attrs[i]) != ""
        && forall j :: 0 <= j < i ==> attrs[j].name != name
    ensures forall i ::
      0 <= i < |attrs| && attrs[i].name == name && (forall j :: 0 <= j < i ==> attrs[j].name != name) ==>
        GetAttr(attrs, name) == if FirstValue(attrs[i]) != "" then Some(FirstValue(attrs[i])) else None
  {
    if attrs != [] && attrs[0].name != name {
      GetAttrFirst(attrs[1..], name);
      forall i | 0 <= i < |attrs| && attrs[i].name == name && FirstValue(attrs[i]) != ""
          && (forall j :: 0 <= j < i ==> attrs[j].name != name)
        ensures exists i' ::
          0 <= i' < |attrs[1..]| && attrs[1..][i'].name == name && FirstValue(attrs[1..][i']) != ""
          && forall j :: 0 <= j < i' ==> attrs[1..][j].name != name
      {
        assert attrs[1..][i - 1] == attrs[i];
      }
    }
  }

  /** The lexicon `(gmbh|kg|ag|d\.o\.o|ltd|autohaus)`, matched case-insensitively anywhere in a name. */
  const CompanyMarkers: seq<string> := ["gmbh", "kg", "ag", "d.o.o", "ltd", "autohaus"]

  predicate HasCompanyMarker(v: string) {
    exists k :: 0 <= k < |CompanyMarkers| && Contains(Lower(v), CompanyMarkers[k])
  }

  /** One attribute that, in the fallback checks, marks the advert as commercial. */
  predicate CommercialSignal(a: Attribute) {
    var v := FirstValue(a);
    ((a.name == "ORGNAME" || a.name == "COMPANY_NAME" || a.name == "CONTACT_COMPANY") && v != "")
    || (a.name == "SELLER_TYPE" && v != "" && Upper(v) != "PRIVATE")
    || (a.name == "CONTACT_NAME" && v != "" && HasCompanyMarker(v))
  }

  /** Some attribute of the list is a commercial signal. */
  predicate AnyCommercial(attrs: seq<Attribute>) {
    attrs != [] && (CommercialSignal(attrs[0]) || AnyCommercial(attrs[1..]))
  }

  lemma {:induction false} AnyCommercialAt(attrs: seq<Attribute>)
    ensures AnyCommercial(attrs) <==> exists i :: 0 <= i < |attrs| && CommercialSignal(attrs[i])
  {
    if attrs != [] {
      AnyCommercialAt(attrs[1..]);
      if AnyCommercial(attrs[1..]) {
        var i :| 0 <= i < |attrs[1..]| && CommercialSignal(attrs[1..][i]);
        assert attrs[i + 1] == attrs[1..][i];
      }
      forall i | 1 <= i < |attrs| && CommercialSignal(attrs[i])
        ensures AnyCommercial(attrs[1..])
      {
        assert attrs[1..][i - 1] == attrs[i];
      }
    }
  }

  /** The `.value` of the first `ISPRIVATE` attribute. */
  function PrivateFlag(attrs: seq<Attribute>): Option<string> {
    match FindAttr(attrs, "ISPRIVATE")
    case None => None
    case Some(a) => a.value
  }

  /**
   * The classification `isPrivateAd` computes: an `ISPRIVATE` flag of "0" or
   * "1" decides; otherwise the advert is private exactly when no attribute is
   * a commercial signal.
   */
  predicate PrivateSeller(attrs: seq<Attribute>) {
    if PrivateFlag(attrs) == Some("0") then false
    else if PrivateFlag(attrs) == Some("1") then true
    else !AnyCommercial(attrs)
  }

  /** `isPrivateAd`: the flag first, then one pass over the attributes returning at the first commercial signal. */
  method IsPrivateAd(attrs: seq<Attribute>) returns (isPrivate: bool)
    ensures isPrivate == PrivateSeller(attrs)
  {
    var flag := FindAttr(attrs, "ISPRIVATE");
    var isPrivateAttr := if flag.Some? then flag.value.value else None;
    if isPrivateAttr == Some("0") {
      return false;
    }
    if isPrivateAttr == Some("1") {
      return true;
    }
    AnyCommercialAt(attrs);
    for i := 0 to |attrs|
      invariant forall j :: 0 <= j < i ==> !CommercialSignal(attrs[j])
    {
      var a := attrs[i];
      var v := FirstValue(a);
      if (a.name == "ORGNAME" && v != "") || (a.name == "COMPANY_NAME" && v != "")
        || (a.name == "CONTACT_COMPANY" && v != "")
      {
        return false;
      }
      if a.name == "SELLER_TYPE" {
        if v != "" && Upper(v) != "PRIVATE" {
          return false;
        }
      }
      if a.name == "CONTACT_NAME" {
        if v != "" && HasCompanyMarker(v) {
          return false;
        }
      }
    }
    return true;
  }

  lemma LowerConcat(a: string, b: string)
    ensures Lower(a + b) == Lower(a) + Lower(b)
  {
  }

  /**
   * A contact name with a company marker anywhere in it, in any letter case
   * ("Autohaus Maier", "Huber GmbH"), makes the advert commercial unless the
   * `ISPRIVATE` flag says "1".
   */
  lemma CompanyContactIsCommercial(attrs: seq<Attribute>, i: nat, before: string, marker: string, after: string)
    requires i < |attrs| && attrs[i].name == "CONTACT_NAME"
    requires FirstValue(attrs[i]) == before + marker + after
    requires Lower(marker) in CompanyMarkers
    requires PrivateFlag(attrs) != Some("1")
    ensures !PrivateSeller(attrs)
  {
    LowerConcat(before + marker, after);
    LowerConcat(before, marker);
    ContainsInfix(Lower(before), Lower(marker), Lower(after));
    var k :| 0 <= k < |CompanyMarkers| && CompanyMarkers[k] == Lower(marker);
    assert CommercialSignal(attrs[i]);
    AnyCommercialAt(attrs);
  }

  /** The markers are plain substrings, so the two-letter ones also hit ordinary surnames. */
  lemma ShortMarkerHitsSurname(attrs: seq<Attribute>)
    requires |attrs| == 1 && attrs[0] == Attribute("CONTACT_NAME", None, ["Maria Wagner"])
    ensures !PrivateSeller(attrs)
  {
    assert Lower("ag") == "ag";
    assert CompanyMarkers[2] == "ag";
    CompanyContactIsCommercial(attrs, 0, "Maria W", "ag", "ner");
  }

  // ---------------------------------------------------------------------
  // Fuel codes
  // ---------------------------------------------------------------------

  const FuelTypeMap: map<string, string> := map[
    "100001" := "Benzin",
    "100002" := "Benzin/Elektro",
    "100003" := "Diesel",
    "100004" := "Elektro",
    "100005" := "Erdgas (CNG)",
    "100006" := "Ethanol",
    "100007" := "Flüssiggas (LPG)",
    "100008" := "Hybrid (Benzin/Elektro)",
    "100009" := "Hybrid (Diesel/Elektro)",
    "100010" := "Wasserstoff"
  ]

  /** `fuelCode ? FUEL_TYPE_MAP[fuelCode] || fuelCode : null`: known codes become labels, unknown codes pass through. */
  function FuelType(code: Option<string>): (r: Option<string>)
    ensures r.None? <==> code.None?
    ensures code.Some? && code.value in FuelTypeMap ==> r == Some(FuelTypeMap[code.value])
    ensures code.Some? && code.value !in FuelTypeMap ==> r == code
  {
    match code
    case None => None
    case Some(c) => if c in FuelTypeMap then Some(FuelTypeMap[c]) else Some(c)
  }

  // ---------------------------------------------------------------------
  // Vehicle records from the embedded JSON
  // ---------------------------------------------------------------------

  /** One scraped listing, as both parsers emit it (fields a parser does not set are None). */
  datatype Vehicle = Vehicle(
    id: string,
    title: string,
    price: Option<JsFloat>,
    year: Option<int>,
    mileage: Option<int>,
    location: Option<string>,
    fuelType: Option<string>,
    imageUrl: Option<string>,
    willhabenUrl: Option<string>,
    phone: Option<string>,
    sellerName: Option<string>,
    isPrivate: int,
    postcode: Option<string>)

  /**
   * One advert summary: its id as rendered in a template string, its
   * description (`""` when absent) and its attribute list, None when
   * `ad.attributes` is absent.
   */
  datatype Ad = Ad(id: string, description: string, attributes: Option<seq<Attribute>>)

  /** `a || b` on two optional non-empty strings. */
  function Or(a: Option<string>, b: Option<string>): Option<string> {
    if a.Some? then a else b
  }

  /** `parseInt(x, 10)`; `null` parses to NaN. */
  function ParseAttr(x: Option<string>): JsNumber {
    if x.None? then NaN else ParseInt(x.value)
  }

  /** `parseFloat(x) || null`: NaN and zero become null; `null` parses to NaN. */
  function JsonPrice(x: Option<string>): (r: Option<JsFloat>)
    ensures r.Some? ==> !r.value.FloatNaN? && r.value != Finite(0.0)
  {
    var f := if x.None? then FloatNaN else ParseFloat(x.value);
    if f.FloatNaN? || f == Finite(0.0) then None else Some(f)
  }

  /** `n || null`: NaN and 0 become null. */
  function NonZero(n: JsNumber): (r: Option<int>)
    ensures r.Some? ==> r.value != 0
  {
    if n.Num? && n.n != 0 then Some(n.n) else None
  }

  /** The address prefixes of a record's image and listing links. */
  const ImageBase: string := "https://cache.willhaben.at/mmo/"
  const AdvertBase: string := "https://www.willhaben.at/iad/"
  const FallbackBase: string := "https://www.willhaben.at/iad/gebrauchtwagen/d/auto/"

  /** The record `parseVehiclesFromJSON` pushes for an advert with attribute list `attrs`. */
  function VehicleFromAd(ad: Ad, attrs: seq<Attribute>, patterns: seq<Matcher>): (v: Vehicle)
    ensures v.id == "wh-" + ad.id
    ensures v.fuelType == FuelType(GetAttr(attrs, "ENGINE/FUEL"))
    ensures PrivateSeller(attrs) ==> v.isPrivate == 1
    ensures v.price == JsonPrice(Or(GetAttr(attrs, "PRICE/AMOUNT"), GetAttr(attrs, "PRICE")))
  {
    var seoUrl := GetAttr(attrs, "SEO_URL");
    var bodyText :=
      if ad.description != "" then ad.description
      else Or(GetAttr(attrs, "BODY"), GetAttr(attrs, "DESCRIPTION")).GetOr("");
    Vehicle(
      "wh-" + ad.id,
      if ad.description != "" then ad.description else GetAttr(attrs, "HEADING").GetOr("Vehicle"),
      JsonPrice(Or(GetAttr(attrs, "PRICE/AMOUNT"), GetAttr(attrs, "PRICE"))),
      NonZero(ParseAttr(Or(GetAttr(attrs, "YEAR_MODEL"), GetAttr(attrs, "YEAR")))),
      NonZero(ParseAttr(GetAttr(attrs, "MILEAGE"))),
      Some(Or(GetAttr(attrs, "LOCATION"), Or(GetAttr(attrs, "CITY"), GetAttr(attrs, "DISTRICT"))).GetOr("Österreich")),
      FuelType(GetAttr(attrs, "ENGINE/FUEL")),
      if GetAttr(attrs, "MMO").Some? then Some(ImageBase + GetAttr(attrs, "MMO").value) else None,
      Some(if seoUrl.Some? then AdvertBase + seoUrl.value
           else FallbackBase + ad.id),
      PhoneOf(bodyText, patterns),
      GetAttr(attrs, "CONTACT_NAME"),
      if PrivateSeller(attrs) then 1 else 0,
      Or(GetAttr(attrs, "POSTCODE"), GetAttr(attrs, "ZIP")))
  }

  /**
   * The adverts `parseVehiclesFromJSON` turns into records, in order:
   * commercial adverts are skipped; an advert without `attributes` classifies
   * as private (an empty list has no signal) and then throws at the debug log
   * of `ad.attributes.attribute`, which the surrounding `catch` turns into the
   * end of the parse, keeping the records pushed so far.
   */
  function KeptAds(ads: seq<Ad>): (r: seq<Ad>)
    ensures |r| <= |ads|
    ensures forall i :: 0 <= i < |r| ==> r[i].attributes.Some?
  {
    if ads == [] then []
    else
      var attrs := ads[0].attributes.GetOr([]);
      var rest := KeptAds(ads[1..]);
      if !PrivateSeller(attrs) then rest
      else if ads[0].attributes.None? then []
      else [ads[0]] + rest
  }

  /** Every kept advert is a private advert of the list. */
  lemma {:induction false} KeptAdsFromAds(ads: seq<Ad>)
    ensures forall i :: 0 <= i < |KeptAds(ads)| ==> KeptAds(ads)[i] in ads
    ensures forall i :: 0 <= i < |KeptAds(ads)| ==> PrivateSeller(KeptAds(ads)[i].attributes.value)
  {
    if ads != [] {
      KeptAdsFromAds(ads[1..]);
      var rest := KeptAds(ads[1..]);
      assert forall i :: 0 <= i < |rest| ==> rest[i] in ads;
    }
  }

  /** One step of `KeptAds`, taken at index `i`. */
  lemma KeptAdsAt(ads: seq<Ad>, i: nat)
    requires i < |ads|
    ensures var attrs := ads[i].attributes.GetOr([]);
      KeptAds(ads[i..]) ==
        if !PrivateSeller(attrs) then KeptAds(ads[i + 1..])
        else if ads[i].attributes.None? then []
        else [ads[i]] + KeptAds(ads[i + 1..])
  {
    assert ads[i..][0] == ads[i];
    assert ads[i..][1..] == ads[i + 1..];
  }

  /** A commercial advert is skipped: the kept adverts so far stay as they are. */
  lemma KeptAdsSkip(ads: seq<Ad>, i: nat, kept: seq<Ad>)
    requires i < |ads| && KeptAds(ads) == kept + KeptAds(ads[i..])
    requires !PrivateSeller(ads[i].attributes.GetOr([]))
    ensures KeptAds(ads) == kept + KeptAds(ads[i + 1..])
  {
    KeptAdsAt(ads, i);
  }

  /** A private advert without attributes ends the scan: the kept adverts so far are all of them. */
  lemma KeptAdsStop(ads: seq<Ad>, i: nat, kept: seq<Ad>)
    requires i < |ads| && KeptAds(ads) == kept + KeptAds(ads[i..])
    requires PrivateSeller(ads[i].attributes.GetOr([])) && ads[i].attributes.None?
    ensures KeptAds(ads) == kept
  {
    KeptAdsAt(ads, i);
  }

  /** A private advert with attributes is kept. */
  lemma KeptAdsKeep(ads: seq<Ad>, i: nat, kept: seq<Ad>)
    requires i < |ads| && KeptAds(ads) == kept + KeptAds(ads[i..])
    requires PrivateSeller(ads[i].attributes.GetOr([])) && ads[i].attributes.Some?
    ensures KeptAds(ads) == (kept + [ads[i]]) + KeptAds(ads[i + 1..])
  {
    var rest := KeptAds(ads[i + 1..]);
    KeptAdsAt(ads, i);
    assert KeptAds(ads[i..]) == [ads[i]] + rest;
    Lists.ConcatAssoc(kept, [ads[i]], rest);
  }

  /** The records of a list of adverts, one per advert, in order. */
  function Records(kept: seq<Ad>, patterns: seq<Matcher>): (r: seq<Vehicle>)
    ensures |r| == |kept|
    decreases |kept|
  {
    if kept == [] then []
    else
      var ad := kept[|kept| - 1];
      Records(kept[..|kept| - 1], patterns) + [VehicleFromAd(ad, ad.attributes.GetOr([]), patterns)]
  }

  /** Adding an advert adds its record at the end. */
  lemma RecordsSnoc(kept: seq<Ad>, ad: Ad, patterns: seq<Matcher>)
    ensures Records(kept + [ad], patterns) == Records(kept, patterns) + [VehicleFromAd(ad, ad.attributes.GetOr([]), patterns)]
  {
    assert (kept + [ad])[..|kept|] == kept;
  }

  /** The record at index `i` is the record of the advert at index `i`. */
  lemma {:induction false} RecordsAt(kept: seq<Ad>, patterns: seq<Matcher>, i: nat)
    requires i < |kept|
    ensures Records(kept, patterns)[i] == VehicleFromAd(kept[i], kept[i].attributes.GetOr([]), patterns)
    decreases |kept|
  {
    if i < |kept| - 1 {
      RecordsAt(kept[..|kept| - 1], patterns, i);
    }
  }

  /** The records of `parseVehiclesFromJSON` for a list of adverts: one per kept advert, each private. */
  function JsonVehicles(ads: seq<Ad>, patterns: seq<Matcher>): (r: seq<Vehicle>)
    ensures |r| == |KeptAds(ads)| <= |ads|
    ensures forall i :: 0 <= i < |r| ==>
      var ad := KeptAds(ads)[i];
      ad.attributes.Some? && r[i] == VehicleFromAd(ad, ad.attributes.value, patterns)
    ensures forall i :: 0 <= i < |r| ==> r[i].isPrivate == 1
  {
    var kept := KeptAds(ads);
    KeptAdsFromAds(ads);
    KeptRecords(kept, patterns);
    Records(kept, patterns)
  }

  /** Each record of a list of private adverts is its advert's record, with isPrivate 1. */
  lemma KeptRecords(kept: seq<Ad>, patterns: seq<Matcher>)
    requires forall k :: 0 <= k < |kept| ==> kept[k].attributes.Some? && PrivateSeller(kept[k].attributes.value)
    ensures forall i :: 0 <= i < |kept| ==>
      Records(kept, patterns)[i] == VehicleFromAd(kept[i], kept[i].attributes.value, patterns)
      && Records(kept, patterns)[i].isPrivate == 1
  {
    forall i | 0 <= i < |kept|
      ensures Records(kept, patterns)[i] == VehicleFromAd(kept[i], kept[i].attributes.value, patterns)
    {
      RecordsAt(kept, patterns, i);
    }
  }

  /** The body of the loop of `parseVehiclesFromJSON` for a private advert: the phone search, then the record. */
  method BuildVehicle(ad: Ad, attrs: seq<Attribute>, patterns: seq<Matcher>) returns (v: Vehicle)
    ensures v == VehicleFromAd(ad, attrs, patterns)
  {
    var bodyText :=
      if ad.description != "" then ad.description
      else Or(GetAttr(attrs, "BODY"), GetAttr(attrs, "DESCRIPTION")).GetOr("");
    var phone := ExtractPhoneNumber(bodyText, patterns);
    v := VehicleFromAd(ad, attrs, patterns);
    assert v.phone == phone;
  }

  /** `parseVehiclesFromJSON`; `nextData` is None when the page has no parsable `__NEXT_DATA__` script. */
  method ParseVehiclesFromJSON(nextData: Option<seq<Ad>>, patterns: seq<Matcher>) returns (vehicles: seq<Vehicle>)
    ensures vehicles == if nextData.None? then [] else JsonVehicles(nextData.value, patterns)
  {
    vehicles := [];
    if nextData.None? {
      return;
    }
    var ads := nextData.value;
    assert ads[0..] == ads;
    ghost var kept: seq<Ad> := [];
    var i := 0;
    while i < |ads|
      invariant 0 <= i <= |ads|
      invariant KeptAds(ads) == kept + KeptAds(ads[i..])
      invariant vehicles == Records(kept, patterns)
    {
      var ad := ads[i];
      var attrs := ad.attributes.GetOr([]);
      var isPrivate := IsPrivateAd(attrs);
      if !isPrivate {
        KeptAdsSkip(ads, i, kept);
        i := i + 1;
        continue;
      }
      if ad.attributes.None? {
        KeptAdsStop(ads, i, kept);
        break;
      }
      KeptAdsKeep(ads, i, kept);
      var v := BuildVehicle(ad, attrs, patterns);
      RecordsSnoc(kept, ad, patterns);
      vehicles := vehicles + [v];
      kept := kept + [ad];
      i := i + 1;
    }
    if i == |ads| {
      assert ads[i..] == [];
      assert kept + KeptAds(ads[i..]) == kept;
    }
  }

  /** The advert `ad` is private, has an attribute list, and its record is `v`. */
  predicate Yields(ad: Ad, patterns: seq<Matcher>, v: Vehicle) {
    ad.attributes.Some? && PrivateSeller(ad.attributes.value)
    && v == VehicleFromAd(ad, ad.attributes.value, patterns)
  }

  /** Some advert of `ads` yields `v`. */
  predicate FromPrivateAd(v: Vehicle, ads: seq<Ad>, patterns: seq<Matcher>) {
    exists j :: 0 <= j < |ads| && Yields(ads[j], patterns, v)
  }

  /**
   * Every JSON record is the record of a private advert of the list that has
   * an attribute list, so it carries the id `"wh-" + ad.id` and that advert's
   * fuel code mapped through the fuel table.
   */
  lemma JsonVehiclesFromPrivateAds(ads: seq<Ad>, patterns: seq<Matcher>)
    ensures forall i :: 0 <= i < |JsonVehicles(ads, patterns)| ==> FromPrivateAd(JsonVehicles(ads, patterns)[i], ads, patterns)
  {
    var r := JsonVehicles(ads, patterns);
    var kept := KeptAds(ads);
    KeptAdsFromAds(ads);
    forall i | 0 <= i < |r|
      ensures FromPrivateAd(r[i], ads, patterns)
    {
      var j :| 0 <= j < |ads| && ads[j] == kept[i];
      assert Yields(ads[j], patterns, r[i]);
    }
  }

  // ---------------------------------------------------------------------
  // Fallback: listing blocks in the markup
  // ---------------------------------------------------------------------

  /**
   * One `<article data-testid="search-result-entry-header-...">` block, as
   * captured groups: the inner HTML of its `<h2>`, the raw seller text (of the
   * `ad-contact` element, or else of a `seller` span), the whole `€ ...` price
   * match, the `/iad/...` link, and the synthetic id built from the clock and
   * a random number.
   */
  datatype Article = Article(
    syntheticId: string,
    titleHtml: Option<string>,
    seller: Option<string>,
    priceText: Option<string>,
    link: Option<string>)

  /** The first index at or after `from` holding `c`. */
  function IndexOf(s: string, c: char, from: nat): (r: Option<nat>)
    requires from <= |s|
    ensures r.Some? ==> from <= r.value < |s| && s[r.value] == c
    ensures r.Some? ==> forall k :: from <= k < r.value ==> s[k] != c
    ensures r.None? ==> forall k :: from <= k < |s| ==> s[k] != c
    decreases |s| - from
  {
    if from == |s| then None else if s[from] == c then Some(from) else IndexOf(s, c, from + 1)
  }

  /** `.replace(/<[^>]+>/g, "")`: removes every `<`, one or more non-`>` characters, `>`. */
  function StripTags(s: string): (r: string)
    ensures |r| <= |s|
    ensures (forall i :: 0 <= i < |s| ==> s[i] != '<') ==> r == s
    decreases |s|
  {
    if s == [] then []
    else if s[0] == '<' && |s| > 1 && IndexOf(s, '>', 1).Some? && IndexOf(s, '>', 1).value >= 2 then
      StripTags(s[IndexOf(s, '>', 1).value + 1..])
    else
      [s[0]] + StripTags(s[1..])
  }

  /**
   * One tag goes and the text around it stays: text without `<`, then `<`,
   * one or more characters other than `>`, `>`, then the rest.
   */
  lemma StripTagsOfTag(pre: string, t: string, post: string)
    requires forall i :: 0 <= i < |pre| ==> pre[i] != '<'
    requires t != [] && forall i :: 0 <= i < |t| ==> t[i] != '>'
    ensures StripTags(pre + "<" + t + ">" + post) == pre + StripTags(post)
  {
    var tagged := "<" + t + ">" + post;
    assert pre + "<" + t + ">" + post == pre + tagged;
    StripTagsKeepsText(pre, tagged);
    StripLeadingTag(t, post);
  }

  /** Text without `<` passes through unchanged in front of whatever follows. */
  lemma {:induction false} StripTagsKeepsText(pre: string, rest: string)
    requires forall i :: 0 <= i < |pre| ==> pre[i] != '<'
    ensures StripTags(pre + rest) == pre + StripTags(rest)
    decreases |pre|
  {
    if pre == [] {
      assert pre + rest == rest;
    } else {
      StripTagsKeepsText(pre[1..], rest);
      StripTagsKeepsHead(pre, rest);
    }
  }

  /** The step of `StripTagsKeepsText`: a first character other than `<` is kept. */
  lemma StripTagsKeepsHead(pre: string, rest: string)
    requires pre != [] && pre[0] != '<'
    requires StripTags(pre[1..] + rest) == pre[1..] + StripTags(rest)
    ensures StripTags(pre + rest) == pre + StripTags(rest)
  {
    var h, a, b := [pre[0]], pre[1..], StripTags(rest);
    assert pre == h + a;
    SeqAssoc(h, a, rest);
    StripTagsOfText(h, a + rest);
    SeqAssoc(h, a, b);
  }

  /** A first character other than `<` is kept, and the rest is stripped. */
  lemma StripTagsOfText(h: string, t: string)
    requires |h| == 1 && h[0] != '<'
    ensures StripTags(h + t) == h + StripTags(t)
  {
    var s := h + t;
    assert s[0] == h[0] && s[1..] == t;
  }

  lemma StripLeadingTag(t: string, post: string)
    requires t != [] && forall i :: 0 <= i < |t| ==> t[i] != '>'
    ensures StripTags("<" + t + ">" + post) == StripTags(post)
  {
    var s := "<" + t + ">" + post;
    assert s[1 + |t|] == '>' && forall k :: 1 <= k < 1 + |t| ==> s[k] == t[k - 1];
    assert IndexOf(s, '>', 1) == Some(1 + |t|);
    assert s[2 + |t|..] == post;
  }

  /** The title of a block: the `<h2>` text without tags, trimmed; `""` without an `<h2>`. */
  function ArticleTitle(a: Article): string {
    if a.titleHtml.Some? then Trim(StripTags(a.titleHtml.value)) else ""
  }

  function ArticleSeller(a: Article): Option<string> {
    if a.seller.Some? then Some(Trim(a.seller.value)) else None
  }

  predicate IsCompanySeller(seller: Option<string>) {
    seller.Some? && seller.value != "" && HasCompanyMarker(seller.value)
  }

  function VehicleFromArticle(a: Article, title: string, seller: Option<string>): Vehicle {
    Vehicle(
      a.syntheticId, title,
      if a.priceText.Some? then
        (match ExtractPrice(a.priceText) case None => None case Some(p) => Some(Finite(p as real)))
      else None,
      None, None, None, None, None,
      if a.link.Some? then Some("https://www.willhaben.at" + a.link.value) else None,
      None, seller,
      if IsCompanySeller(seller) then 0 else 1,
      None)
  }

  /** What `parseVehiclesFromHTML` keeps: a trimmed title of at least three characters, no company seller, so `isPrivate` 1. */
  predicate MarkupRecord(v: Vehicle) {
    |v.title| >= 3 && !IsSpace(v.title[0]) && !IsSpace(v.title[|v.title| - 1])
    && !IsCompanySeller(v.sellerName) && v.isPrivate == 1
  }

  /** The record of one listing block, or none when its title is shorter than 3 or its seller is a company. */
  function HtmlRecord(a: Article): (r: Option<Vehicle>)
    ensures r.Some? ==> MarkupRecord(r.value)
    ensures r.None? <==> |ArticleTitle(a)| < 3 || IsCompanySeller(ArticleSeller(a))
  {
    var title := ArticleTitle(a);
    var seller := ArticleSeller(a);
    if |title| < 3 || IsCompanySeller(seller) then None
    else Some(VehicleFromArticle(a, title, seller))
  }

  /** The records of `parseVehiclesFromHTML`, in block order; each one satisfies `MarkupRecord`. */
  function HtmlVehicles(articles: seq<Article>): (r: seq<Vehicle>)
    ensures |r| <= |articles|
    ensures forall i :: 0 <= i < |r| ==> MarkupRecord(r[i])
  {
    if articles == [] then []
    else
      var rest := HtmlVehicles(articles[1..]);
      match HtmlRecord(articles[0])
      case None => rest
      case Some(v) => [v] + rest
  }

  lemma HtmlVehiclesAt(articles: seq<Article>, i: nat)
    requires i < |articles|
    ensures HtmlVehicles(articles[i..]) ==
      match HtmlRecord(articles[i])
      case None => HtmlVehicles(articles[i + 1..])
      case Some(v) => [v] + HtmlVehicles(articles[i + 1..])
  {
    assert articles[i..][0] == articles[i];
    assert articles[i..][1..] == articles[i + 1..];
  }

  method ParseVehiclesFromHTML(articles: seq<Article>) returns (vehicles: seq<Vehicle>)
    ensures vehicles == HtmlVehicles(articles)
  {
    vehicles := [];
    assert articles[0..] == articles;
    var i := 0;
    while i < |articles|
      invariant 0 <= i <= |articles|
      invariant HtmlVehicles(articles) == vehicles + HtmlVehicles(articles[i..])
    {
      var a := articles[i];
      HtmlVehiclesAt(articles, i);
      i := i + 1;
      var title := ArticleTitle(a);
      if title == "" || |title| < 3 {
        continue;
      }
      var sellerName := ArticleSeller(a);
      if sellerName.Some? && sellerName.value != "" && HasCompanyMarker(sellerName.value) {
        continue;
      }
      vehicles := vehicles + [VehicleFromArticle(a, title, sellerName)];
    }
    assert articles[i..] == [];
  }

  // ---------------------------------------------------------------------
  // scrapeWillhaben
  // ---------------------------------------------------------------------

  /** The search the scraper fetches: used cars, 30 rows, price 0 to 10000. */
  const SearchUrl: string :=
    "https://www.willhaben.at/iad/gebrauchtwagen/auto/gebrauchtwagenboerse?sfId=ca53e21f-9a65-49d5-acbb-cc094c37d4ba&rows=30&isNavigation=true&DEALER=1&page=1&PRICE_FROM=0&PRICE_TO=10000"

  const PriceCeiling: int := 10000

  /** A fetched page: the adverts of its embedded JSON (None when absent or unparsable) and its listing blocks. */
  datatype Page = Page(nextData: Option<seq<Ad>>, articles: seq<Article>)

  /** `v.price === null || v.price <= 10000`; NaN and infinity compare as JavaScript compares them. */
  predicate WithinCeiling(v: Vehicle) {
    match v.price
    case None => true
    case Some(FloatNaN) => false
    case Some(Finite(x)) => x <= PriceCeiling as real
    case Some(Infinite(negative)) => negative
  }

  /** `vehicles.filter(v => v.price === null || v.price <= 10000)`. */
  function UnderCeiling(vehicles: seq<Vehicle>): (r: seq<Vehicle>)
    ensures forall i :: 0 <= i < |r| ==> r[i] in vehicles && WithinCeiling(r[i])
    ensures forall i :: 0 <= i < |vehicles| && WithinCeiling(vehicles[i]) ==> vehicles[i] in r
    ensures multiset(r) <= multiset(vehicles)
  {
    Lists.FilterMembers(vehicles, WithinCeiling);
    Lists.FilterMultiset(vehicles, WithinCeiling);
    Lists.Filter(vehicles, WithinCeiling)
  }

  /**
   * The boundary: 10000 and an unknown price are kept; 10000.5, 10001 and
   * Infinity are dropped; -Infinity is kept.
   */
  lemma CeilingBoundary(v: Vehicle)
    ensures v.price == Some(Finite(10000.0)) || v.price.None? ==> UnderCeiling([v]) == [v]
    ensures v.price == Some(Finite(10000.5)) || v.price == Some(Finite(10001.0)) ==> UnderCeiling([v]) == []
    ensures v.price == Some(Infinite(false)) ==> UnderCeiling([v]) == []
    ensures v.price == Some(Infinite(true)) ==> UnderCeiling([v]) == [v]
  {
    Lists.FilterSingleton(v, WithinCeiling);
  }

  /** A fractional price just over the ceiling is over it: "10000.5" reads as 10000.5, not 10000. */
  lemma FractionalPriceOverCeiling(v: Vehicle)
    requires v.price == JsonPrice(Some("10000.5"))
    ensures v.price == Some(Finite(10000.5)) && UnderCeiling([v]) == []
  {
    ParseFloatFractionExample();
    Lists.FilterSingleton(v, WithinCeiling);
  }

  /** A price with only a fraction is a price: ".5" reads as 0.5. */
  lemma FractionOnlyPrice()
    ensures JsonPrice(Some(".5")) == Some(Finite(0.5))
  {
    ParseFloatFractionOnlyExample();
  }

  /** An exponent scales the price: "1e5" reads as 100000, over the ceiling, although `parseInt` reads 1. */
  lemma ExponentPriceOverCeiling(v: Vehicle)
    requires v.price == JsonPrice(Some("1e5"))
    ensures v.price == Some(Finite(100000.0)) && ParseInt("1e5") == Num(1) && UnderCeiling([v]) == []
  {
    ParseFloatExponentExample();
    Lists.FilterSingleton(v, WithinCeiling);
  }

  /** "Infinity" is a price, and it is over the ceiling. */
  lemma InfinitePriceOverCeiling(v: Vehicle)
    requires v.price == JsonPrice(Some("Infinity"))
    ensures v.price == Some(Infinite(false)) && UnderCeiling([v]) == []
  {
    ParseFloatOfInfinity("", "", "");
    NoPrefix("Infinity");
    Lists.FilterSingleton(v, WithinCeiling);
  }

  /** Zero, text without a number, and an absent attribute give no price. */
  lemma NoJsonPrice()
    ensures JsonPrice(Some("0")) == None && JsonPrice(Some("abc")) == None && JsonPrice(None) == None
  {
    ParseFloatZeroExample();
    ParseFloatNaNExample();
  }

  /**
   * `scrapeWillhaben`: a failed fetch gives no vehicles; otherwise the JSON
   * records, or the markup records when the JSON gives none, under the price ceiling.
   */
  method ScrapeWillhaben(fetched: Result<Page>, patterns: seq<Matcher>) returns (vehicles: seq<Vehicle>)
    ensures fetched.Err? ==> vehicles == []
    ensures fetched.Ok? ==>
      var fromJson := if fetched.value.nextData.None? then [] else JsonVehicles(fetched.value.nextData.value, patterns);
      vehicles == UnderCeiling(if fromJson != [] then fromJson else HtmlVehicles(fetched.value.articles))
    ensures forall i :: 0 <= i < |vehicles| ==> WithinCeiling(vehicles[i]) && vehicles[i].isPrivate == 1
  {
    if fetched.Err? {
      return [];
    }
    var page := fetched.value;
    var parsed := ParseVehiclesFromJSON(page.nextData, patterns);
    if |parsed| == 0 {
      parsed := ParseVehiclesFromHTML(page.articles);
    }
    vehicles := UnderCeiling(parsed);
  }
}
