/**
 * The service-offering controller (controllers/serviceController.js): the
 * required-field check and trimming on create, the type whitelist of the
 * by-type listing, and the listing filters.
 */
module ServiceController {
  import opened Wrappers
  import opened Strings
  import opened Ordering
  import opened ServiceModel

  /** The create body's required fields: title, description, price and type. */
  predicate HasRequired(b: ServiceData) {
    Truthy(b.title) && Truthy(b.description) && Truthy(b.price) && Truthy(b.kind)
  }

  /**
   * `createService`'s `serviceData`: `None` (answer 400) when a required
   * field is missing or empty; otherwise title, description and price
   * trimmed, the status defaulted to `active`, the type passed on as it is.
   */
  function CreateServiceData(b: ServiceData): (r: Option<ServiceData>)
    ensures r.None? <==> !HasRequired(b)
    ensures r.Some? ==> (&& HasRequired(b)
                         && r.value.title == Some(Trim(b.title.value))
                         && r.value.description == Some(Trim(b.description.value))
                         && r.value.price == Some(Trim(b.price.value))
                         && r.value.kind == b.kind
                         && r.value.status == Some(if Truthy(b.status) then b.status.value else "active"))
  {
    if !HasRequired(b) then None
    else Some(ServiceData(Some(Trim(b.title.value)), Some(Trim(b.description.value)), Some(Trim(b.price.value)),
                          Some(OrTruthy(b.status, "active")), b.kind))
  }

  /**
   * The document saved from the controller's data carries the trimmed values
   * (the schema's `trim` setter finds nothing left to remove) and is saved
   * exactly when the trimmed values pass the validators.
   */
  lemma CreatedServiceKeepsControllerValues(id: Id, b: ServiceData)
    requires HasRequired(b)
    ensures var doc := NewService(id, CreateServiceData(b).value);
            && (doc.Some? <==> ValidService(Service(id, Trim(b.title.value), Trim(b.description.value),
                                                   Trim(b.price.value), OrTruthy(b.status, "active"), b.kind.value)))
            && (doc.Some? ==> (&& doc.value.title == Trim(b.title.value)
                               && doc.value.price == Trim(b.price.value)
                               && doc.value.status == OrTruthy(b.status, "active")))
  {
    TrimIdempotent(b.title.value);
    TrimIdempotent(b.description.value);
    TrimIdempotent(b.price.value);
  }

  /** A body with a blank status gets `active`, never an empty status the enum would refuse. */
  lemma BlankStatusBecomesActive(b: ServiceData)
    requires HasRequired(b) && !Truthy(b.status)
    ensures CreateServiceData(b).value.status == Some("active")
  {
  }

  /** The types `getServicesByType` accepts. */
  const ListedTypes: seq<string> := ["coffee", "lunch", "rooms"]

  /** `getServicesByType`'s answers. */
  datatype ByTypeAnswer = InvalidType | Found(data: seq<Service>, count: nat)

  /** `Service.find({ type })`'s filter. */
  function KindIs(kind: string): Service -> bool {
    (s: Service) => s.kind == kind
  }

  /** `getServicesByType`: 400 for a type outside the whitelist, otherwise the services of that type. */
  function ServicesByType(services: seq<Service>, kind: string): (r: ByTypeAnswer)
    ensures r.InvalidType? <==> kind !in ListedTypes
    ensures r.Found? ==> (&& r.count == |r.data|
                          && forall s :: s in r.data <==> s in services && s.kind == kind)
    ensures r.Found? ==> forall s :: multiset(r.data)[s] == if s.kind == kind then multiset(services)[s] else 0
  {
    if kind !in ListedTypes then InvalidType
    else
      WhereMultiset(services, KindIs(kind));
      var data := Where(services, KindIs(kind));
      Found(data, |data|)
  }

  /** `rooms` passes the whitelist but is not a schema type, so it lists no valid service. */
  lemma RoomsListsNoValidService(services: seq<Service>)
    requires forall s :: s in services ==> ValidService(s)
    ensures ServicesByType(services, "rooms") == Found([], 0)
  {
    WhereEmpty(services, KindIs("rooms"));
  }

  /** Four schema types are refused by the whitelist. */
  lemma SchemaTypesRefused(services: seq<Service>)
    ensures ServicesByType(services, "cocktail") == InvalidType
    ensures ServicesByType(services, "room_rental") == InvalidType
    ensures ServicesByType(services, "enhanced_coffee") == InvalidType
    ensures ServicesByType(services, "reservation") == InvalidType
  {
  }

  /** `getServices`'s filters. */
  datatype ServiceFilters = ServiceFilters(kind: Option<string>, status: Option<string>)

  /** `getServices`'s filters: type and status are passed on only when non-empty. */
  function BuildServiceFilters(kind: Option<string>, status: Option<string>): (f: ServiceFilters)
    ensures f.kind.Some? <==> Truthy(kind)
    ensures f.status.Some? <==> Truthy(status)
    ensures f.kind.Some? ==> f.kind == kind
    ensures f.status.Some? ==> f.status == status
  {
    ServiceFilters(if Truthy(kind) then kind else None, if Truthy(status) then status else None)
  }

  /** `Service.find(filters)`: every supplied filter must match exactly. */
  predicate MatchesFilters(s: Service, f: ServiceFilters) {
    (f.kind.Some? ==> s.kind == f.kind.value) && (f.status.Some? ==> s.status == f.status.value)
  }

  /** `getServices`: the services matching the filters the controller forwarded, with their count. */
  function GetServices(services: seq<Service>, kind: Option<string>, status: Option<string>): (r: (seq<Service>, nat))
    ensures r.1 == |r.0|
    ensures forall s :: s in r.0 <==> s in services && MatchesFilters(s, BuildServiceFilters(kind, status))
    ensures forall s :: multiset(r.0)[s] ==
                        if MatchesFilters(s, BuildServiceFilters(kind, status)) then multiset(services)[s] else 0
  {
    var f := BuildServiceFilters(kind, status);
    var p := (s: Service) => MatchesFilters(s, f);
    WhereMultiset(services, p);
    var data := Where(services, p);
    (data, |data|)
  }

  /** With no filters, every service is listed. */
  lemma NoFiltersListsAll(services: seq<Service>)
    ensures forall s :: s in GetServices(services, None, Some("")).0 <==> s in services
  {
  }
}
