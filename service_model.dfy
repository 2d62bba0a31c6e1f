/**
 * The service-offering schema (models/services.js): field bounds, the price
 * character-class validator, the status and type enums, and `formatPrice`.
 */
module ServiceModel {
  import opened Wrappers
  import opened Strings

  /** A stored service offering; `kind` is the schema's `type`. */
  datatype Service = Service(id: Id, title: string, description: string, price: string, status: string, kind: string)

  const MaxTitleLength := 100
  const MaxDescriptionLength := 500

  const ServiceStatuses: seq<string> := ["active", "new", "limited"]
  const ServiceTypes: seq<string> := ["coffee", "lunch", "cocktail", "room_rental", "enhanced_coffee", "reservation"]

  /** One character of the price class: a digit, white space, `,`, `.`, `/` or `€`. */
  predicate IsPriceChar(c: char) {
    IsDigit(c) || IsSpace(c) || c == ',' || c == '.' || c == '/' || c == '€'
  }

  /** The price validator: the whole value is one or more characters of the price class. */
  predicate PriceValid(p: string) {
    p != [] && forall i :: 0 <= i < |p| ==> IsPriceChar(p[i])
  }

  /** The pattern `^[class]+$` read as a matcher: one class character, then either the end or another match. */
  predicate MatchesPricePattern(p: string)
    decreases |p|
  {
    |p| > 0 && IsPriceChar(p[0]) && (|p| == 1 || MatchesPricePattern(p[1..]))
  }

  /** The matcher accepts exactly the non-empty strings of price characters. */
  lemma {:induction false} PricePatternIsClass(p: string)
    ensures MatchesPricePattern(p) <==> PriceValid(p)
    decreases |p|
  {
    if |p| > 1 {
      PricePatternIsClass(p[1..]);
      assert forall i :: 1 <= i < |p| ==> p[i] == p[1..][i - 1];
    }
  }

  /**
   * Plain amounts are accepted; a price with letters is not, so
   * "15 €/personne", which the schema's comment and message give as an
   * example, is refused by the pattern itself.
   */
  lemma PriceExamples()
    ensures PriceValid("15") && PriceValid("15.50") && PriceValid("15,50") && PriceValid("15 €")
    ensures !PriceValid("15 €/personne") && !PriceValid("15 EUR") && !PriceValid("")
  {
    assert !IsPriceChar("15 €/personne"[5]);
    assert !IsPriceChar("15 EUR"[3]);
  }

  predicate IsServiceStatus(s: string) {
    s in ServiceStatuses
  }

  predicate IsServiceType(s: string) {
    s in ServiceTypes
  }

  /** A document the validators accept. */
  predicate ValidService(s: Service) {
    && s.title != "" && |s.title| <= MaxTitleLength
    && s.description != "" && |s.description| <= MaxDescriptionLength
    && PriceValid(s.price)
    && IsServiceStatus(s.status)
    && IsServiceType(s.kind)
  }

  /** What `new Service(data)` receives; every field may be absent. */
  datatype ServiceData = ServiceData(title: Option<string>, description: Option<string>, price: Option<string>,
                                     status: Option<string>, kind: Option<string>)

  /**
   * `new Service(data).save()`: the text fields through the `trim` setter, the
   * status defaulted to `active`; `None` when a required field is absent or a
   * validator rejects the document.
   */
  function NewService(id: Id, d: ServiceData): (r: Option<Service>)
    ensures r.Some? ==> ValidService(r.value) && r.value.id == id
    ensures r.Some? ==> (&& d.title.Some? && d.description.Some? && d.price.Some? && d.kind.Some?
                         && r.value.title == Trim(d.title.value)
                         && r.value.description == Trim(d.description.value)
                         && r.value.price == Trim(d.price.value)
                         && r.value.kind == d.kind.value)
    ensures r.Some? ==> r.value.status == Or(d.status, "active")
    ensures r.None? <==> (|| d.title.None? || d.description.None? || d.price.None? || d.kind.None?
                          || !ValidService(Service(id, Trim(d.title.value), Trim(d.description.value),
                                                   Trim(d.price.value), Or(d.status, "active"), d.kind.value)))
  {
    if d.title.None? || d.description.None? || d.price.None? || d.kind.None? then None
    else
      var s := Service(id, Trim(d.title.value), Trim(d.description.value), Trim(d.price.value),
                       Or(d.status, "active"), d.kind.value);
      if ValidService(s) then Some(s) else None
  }

  /** A service created without a status is `active`. */
  lemma StatusDefaultsToActive(id: Id, d: ServiceData)
    requires d.status.None? && NewService(id, d).Some?
    ensures NewService(id, d).value.status == "active"
  {
  }

  /** `formatPrice`: the price, a space, the euro sign and the unit of the service's type. */
  function FormatPrice(s: Service): (r: string)
    ensures s.kind == "coffee" || s.kind == "enhanced_coffee" ==> r == s.price + " €/personne"
    ensures s.kind == "lunch" ==> r == s.price + " €/repas"
    ensures s.kind == "cocktail" ==> r == s.price + " €/événement"
    ensures s.kind == "room_rental" ==> r == s.price + " €/salle"
    ensures s.kind == "reservation" ==> r == s.price + " €/réservation"
    ensures !IsServiceType(s.kind) ==> r == s.price + " €"
  {
    match s.kind
    case "coffee" => s.price + " €/personne"
    case "enhanced_coffee" => s.price + " €/personne"
    case "lunch" => s.price + " €/repas"
    case "cocktail" => s.price + " €/événement"
    case "room_rental" => s.price + " €/salle"
    case "reservation" => s.price + " €/réservation"
    case _ => s.price + " €"
  }

  /** Every formatted price starts with the price and " €". */
  lemma FormatPriceStartsWithPrice(s: Service)
    ensures var r := FormatPrice(s);
            |r| >= |s.price| + 2 && r[..|s.price| + 2] == s.price + " €"
  {
    var r := FormatPrice(s);
    var u := r[|s.price| + 2..];
    assert r == (s.price + " €") + u;
  }

  /** Two services of the same type format alike only when their prices are equal. */
  lemma FormatPriceInjective(s: Service, t: Service)
    requires s.kind == t.kind && FormatPrice(s) == FormatPrice(t)
    ensures s.price == t.price
  {
    var u := FormatPrice(s)[|s.price| + 2..];
    assert FormatPrice(s) == s.price + " €" + u;
    assert FormatPrice(t) == t.price + " €" + u;
    assert |s.price| == |t.price|;
    assert s.price == FormatPrice(s)[..|s.price|];
  }
}
