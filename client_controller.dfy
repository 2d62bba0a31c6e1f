/**
 * The client controller (controllers/clientController.js): the required-field
 * check and normalization on create, the in-place trimming of an update body,
 * the search-term length check and the listing filters.
 */
module ClientController {
  import opened Wrappers
  import opened Ordering
  import opened Strings
  import opened ClientModel
  import opened ClientService

  /** A field the controller normalizes when it is truthy and drops otherwise. */
  function OptionalTrimmed(o: Option<string>): (r: Option<string>)
    ensures r.Some? <==> Truthy(o)
    ensures r.Some? ==> r.value == Trim(o.value)
  {
    if Truthy(o) then Some(Trim(o.value)) else None
  }

  /** The create body's required fields: name, contact, e-mail and contract number. */
  predicate HasRequired(b: ClientData) {
    Truthy(b.name) && Truthy(b.contact) && Truthy(b.email) && Truthy(b.contractNumber)
  }

  /**
   * `createClient`'s `clientData`: `None` (answer 400) when a required field
   * is missing or empty; otherwise the required fields trimmed, the e-mail
   * trimmed and lower-cased, the status defaulted to `active`, and each
   * optional field trimmed or left undefined.
   */
  function NormalizeClient(b: ClientData): (r: Option<ClientData>)
    ensures r.None? <==> !HasRequired(b)
    ensures r.Some? ==> (HasRequired(b)
                         && r.value.name == Some(Trim(b.name.value))
                         && r.value.contact == Some(Trim(b.contact.value))
                         && r.value.email == Some(ToLower(Trim(b.email.value)))
                         && r.value.contractNumber == Some(Trim(b.contractNumber.value)))
    ensures r.Some? ==> r.value.status == Some(if Truthy(b.status) then b.status.value else "active")
    ensures r.Some? ==> (&& (r.value.phone.Some? <==> Truthy(b.phone))
                         && (r.value.address.Some? <==> Truthy(b.address))
                         && (r.value.notes.Some? <==> Truthy(b.notes)))
    ensures r.Some? ==> (&& (Truthy(b.phone) ==> r.value.phone == Some(Trim(b.phone.value)))
                         && (Truthy(b.address) ==> r.value.address == Some(Trim(b.address.value)))
                         && (Truthy(b.notes) ==> r.value.notes == Some(Trim(b.notes.value))))
  {
    if !HasRequired(b) then None
    else
      Some(ClientData(Some(Trim(b.name.value)), Some(Trim(b.contact.value)), Some(ToLower(Trim(b.email.value))),
                      OptionalTrimmed(b.phone), OptionalTrimmed(b.address), Some(Trim(b.contractNumber.value)),
                      Some(OrTruthy(b.status, "active")), OptionalTrimmed(b.notes)))
  }

  /** No field of a normalized body is left blank by its trimming. */
  predicate NothingBlank(b: ClientData) {
    && HasRequired(b)
    && Trim(b.name.value) != "" && Trim(b.contact.value) != ""
    && Trim(b.email.value) != "" && Trim(b.contractNumber.value) != ""
    && (Truthy(b.phone) ==> Trim(b.phone.value) != "")
    && (Truthy(b.address) ==> Trim(b.address.value) != "")
    && (Truthy(b.notes) ==> Trim(b.notes.value) != "")
  }

  /** Normalizing a normalized body changes nothing, as long as no field trims to the empty string. */
  lemma NormalizeIdempotent(b: ClientData)
    requires NothingBlank(b)
    ensures NormalizeClient(b).Some?
    ensures NormalizeClient(NormalizeClient(b).value) == NormalizeClient(b)
  {
    var n := NormalizeClient(b).value;
    TrimIdempotent(b.name.value);
    TrimIdempotent(b.contact.value);
    TrimIdempotent(b.contractNumber.value);
    EmailSetterIdempotent(b.email.value);
    assert |ToLower(Trim(b.email.value))| == |Trim(b.email.value)| > 0;
    assert HasRequired(n);
    if Truthy(b.phone) { TrimIdempotent(b.phone.value); }
    if Truthy(b.address) { TrimIdempotent(b.address.value); }
    if Truthy(b.notes) { TrimIdempotent(b.notes.value); }
    assert OptionalTrimmed(n.phone) == n.phone;
    assert OptionalTrimmed(n.address) == n.address;
    assert OptionalTrimmed(n.notes) == n.notes;
  }

  /** The side condition is needed: a blank phone number is kept (trimmed to "") once, then dropped. */
  lemma BlankPhoneNotIdempotent()
    ensures var b := ClientData(Some("Cafe"), Some("Jean"), Some("j@cafe.fr"), Some("  "), None, Some("C-1"), None, None);
            && NormalizeClient(b).Some? && NormalizeClient(b).value.phone == Some("")
            && NormalizeClient(NormalizeClient(b).value).Some?
            && NormalizeClient(NormalizeClient(b).value).value.phone == None
  {
    var b := ClientData(Some("Cafe"), Some("Jean"), Some("j@cafe.fr"), Some("  "), None, Some("C-1"), None, None);
    assert TrimStart("  ") == TrimStart(" ") == TrimStart("") == "";
    assert TrimEnd("") == "";
    assert Trim("  ") == "";
  }

  /**
   * The schema's setters repeat the controller's normalization, so the
   * document the service builds from a normalized body carries the
   * controller's values.
   */
  lemma NormalizedBodyIsStoredAsIs(id: Id, b: ClientData, now: int)
    requires HasRequired(b)
    ensures var doc := BuildClient(id, NormalizeClient(b).value, now);
            && doc.Some?
            && doc.value.name == Trim(b.name.value)
            && doc.value.contact == Trim(b.contact.value)
            && doc.value.email == ToLower(Trim(b.email.value))
            && doc.value.contractNumber == Trim(b.contractNumber.value)
            && doc.value.status == OrTruthy(b.status, "active")
  {
    TrimIdempotent(b.name.value);
    TrimIdempotent(b.contact.value);
    TrimIdempotent(b.contractNumber.value);
    EmailSetterIdempotent(b.email.value);
  }

  /** One field of `updateClient`'s cleaning: trimmed when truthy, otherwise left as it is. */
  function CleanField(o: Option<string>): (r: Option<string>)
    ensures o.None? ==> r.None?
    ensures Truthy(o) ==> r == Some(Trim(o.value))
    ensures o.Some? && !Truthy(o) ==> r == o
  {
    if Truthy(o) then Some(Trim(o.value)) else o
  }

  /** The cleaned update body: every present text field trimmed, the e-mail also lower-cased; the status untouched. */
  function CleanedPatch(p: ClientPatch): ClientPatch {
    ClientPatch(CleanField(p.name), CleanField(p.contact),
                if Truthy(p.email) then Some(ToLower(Trim(p.email.value))) else p.email,
                CleanField(p.phone), CleanField(p.address), CleanField(p.contractNumber), p.status, CleanField(p.notes))
  }

  /** `updateClient`'s cleaning, one field at a time, as the controller rewrites the body. */
  method CleanUpdate(p: ClientPatch) returns (q: ClientPatch)
    ensures q == CleanedPatch(p)
    ensures q.status == p.status
    ensures q.email.None? <==> p.email.None?
  {
    q := p;
    if Truthy(q.name) { q := q.(name := Some(Trim(q.name.value))); }
    if Truthy(q.contact) { q := q.(contact := Some(Trim(q.contact.value))); }
    if Truthy(q.email) { q := q.(email := Some(ToLower(Trim(q.email.value)))); }
    if Truthy(q.phone) { q := q.(phone := Some(Trim(q.phone.value))); }
    if Truthy(q.address) { q := q.(address := Some(Trim(q.address.value))); }
    if Truthy(q.contractNumber) { q := q.(contractNumber := Some(Trim(q.contractNumber.value))); }
    if Truthy(q.notes) { q := q.(notes := Some(Trim(q.notes.value))); }
  }

  lemma CleanFieldSetters(o: Option<string>)
    ensures SetTrimmedOption(CleanField(o), None) == SetTrimmedOption(o, None)
    ensures forall cur :: SetTrimmed(CleanField(o), cur) == SetTrimmed(o, cur)
    ensures forall cur :: SetTrimmedOption(CleanField(o), cur) == SetTrimmedOption(o, cur)
  {
    if Truthy(o) {
      TrimIdempotent(o.value);
    } else if o.Some? {
      TrimEmpty();
    }
  }

  lemma CleanEmail(o: Option<string>)
    ensures var e := if Truthy(o) then Some(ToLower(Trim(o.value))) else o;
            && (e.Some? <==> o.Some?)
            && (e.Some? ==> EmailSetter(e.value) == EmailSetter(o.value))
  {
    if Truthy(o) {
      EmailSetterIdempotent(o.value);
    }
  }

  /** The cleaned body passes the update validators exactly when the raw one does. */
  lemma CleanedPatchValid(p: ClientPatch)
    ensures PatchValid(CleanedPatch(p)) <==> PatchValid(p)
  {
    CleanFieldSetters(p.name);
    CleanFieldSetters(p.contact);
    CleanFieldSetters(p.phone);
    CleanFieldSetters(p.address);
    CleanFieldSetters(p.contractNumber);
    CleanFieldSetters(p.notes);
    CleanEmail(p.email);
  }

  /**
   * The controller's cleaning is absorbed by the schema's setters: the
   * cleaned body passes the update validators exactly when the raw one
   * does, and stores the same client.
   */
  lemma CleanedPatchSameEffect(c: Client, p: ClientPatch)
    ensures PatchValid(CleanedPatch(p)) <==> PatchValid(p)
    ensures ApplyClientPatch(c, CleanedPatch(p)) == ApplyClientPatch(c, p)
  {
    CleanedPatchValid(p);
    CleanFieldSetters(p.name);
    CleanFieldSetters(p.contact);
    CleanFieldSetters(p.phone);
    CleanFieldSetters(p.address);
    CleanFieldSetters(p.contractNumber);
    CleanFieldSetters(p.notes);
    CleanEmail(p.email);
  }

  /** `createClient` (POST): 400 without touching the table when a required field is missing, otherwise the service's answer on the normalized body. */
  method CreateClient(table: ClientTable, b: ClientData, now: int, absentFilterAnswer: bool) returns (code: int)
    requires table.Valid()
    modifies table
    ensures table.Valid()
    ensures !HasRequired(b) ==> code == 400 && table.clients == old(table.clients) && table.nextId == old(table.nextId)
    ensures code == 201 ==> (&& HasRequired(b)
                             && |table.clients| == |old(table.clients)| + 1
                             && table.clients[..|old(table.clients)|] == old(table.clients))
    ensures code != 201 ==> table.clients == old(table.clients)
    ensures code == 201 || code == 400
    ensures HasRequired(b) ==>
              var doc := BuildClient(old(table.nextId), NormalizeClient(b).value, now).value;
              var taken := ContractTaken(old(table.clients), doc.contractNumber, None);
              && doc.contractNumber == Trim(b.contractNumber.value)
              && (taken || !ValidClient(doc) ==> code == 400)
              && (!taken && ValidClient(doc) ==> code == 201 && table.clients == old(table.clients) + [doc]
                                                 && table.nextId == old(table.nextId) + 1)
  {
    var n := NormalizeClient(b);
    if n.None? {
      return 400;
    }
    NormalizedBodyIsStoredAsIs(table.nextId, b, now);
    var o := table.Create(n.value, now, absentFilterAnswer);
    code := StatusCode(o);
    assert code == 201 ==> o.Created?;
  }

  /** `updateClient` (PUT): the body cleaned field by field, then the service's update. */
  method UpdateClient(table: ClientTable, id: Id, p: ClientPatch) returns (o: Outcome)
    requires table.Valid()
    modifies table
    ensures table.Valid()
    ensures o.NotFound? ==> table.clients == old(table.clients)
    ensures o.Updated? ==> PatchValid(p) && exists k :: 0 <= k < |old(table.clients)| && old(table.clients)[k].id == id
                                                       && table.clients == old(table.clients)[k := ApplyClientPatch(old(table.clients)[k], p)]
    ensures !o.Updated? ==> table.clients == old(table.clients)
    ensures var q := CleanedPatch(p);
            var taken := Truthy(q.contractNumber) && ContractTaken(old(table.clients), Trim(q.contractNumber.value), Some(id));
            var k := FindIndex(old(table.clients), HasId(id));
            && (taken ==> o == DuplicateContract)
            && (!taken && !PatchValid(p) ==> o == Invalid)
            && (!taken && PatchValid(p) && k.None? ==> o == NotFound)
            && (!taken && PatchValid(p) && k.Some? ==>
                  o == Updated(ApplyClientPatch(old(table.clients)[k.value], p))
                  && table.clients == old(table.clients)[k.value := o.c])
  {
    var q := CleanUpdate(p);
    CleanedPatchValid(p);
    o := table.Update(id, q);
    if o.Updated? {
      var k := FindIndex(old(table.clients), HasId(id));
      CleanedPatchSameEffect(old(table.clients)[k.value], p);
    }
  }

  /** `getClients`'s filters: search and status are passed on only when non-empty. */
  function BuildClientFilters(search: Option<string>, status: Option<string>): (f: ClientFilters)
    ensures f.search.Some? <==> Truthy(search)
    ensures f.status.Some? <==> Truthy(status)
    ensures f.search.Some? ==> f.search == search
    ensures f.status.Some? ==> f.status == status
  {
    ClientFilters(if Truthy(search) then search else None, if Truthy(status) then status else None)
  }

  /** Dropping the empty filters does not change the listing. */
  lemma BuildClientFiltersSameListing(clients: seq<Client>, search: Option<string>, status: Option<string>)
    ensures GetAllClients(clients, BuildClientFilters(search, status)) == GetAllClients(clients, ClientFilters(search, status))
  {
    var f := BuildClientFilters(search, status);
    var g := ClientFilters(search, status);
    WhereCongruent(clients, c => MatchesFilters(c, f), c => MatchesFilters(c, g));
  }

  /** A listing answer: the clients and their count. */
  datatype Listing = Listing(data: seq<Client>, count: nat)

  /** `getClients`: the listing with its count. */
  function GetClients(clients: seq<Client>, search: Option<string>, status: Option<string>): (r: Listing)
    ensures r.count == |r.data|
    ensures forall c :: c in r.data <==> c in clients && MatchesFilters(c, ClientFilters(search, status))
    ensures forall c :: multiset(r.data)[c] == if MatchesFilters(c, ClientFilters(search, status)) then multiset(clients)[c] else 0
    ensures forall i, j :: 0 <= i < j < |r.data| ==> r.data[i].createdAt >= r.data[j].createdAt
  {
    BuildClientFiltersSameListing(clients, search, status);
    var data := GetAllClients(clients, BuildClientFilters(search, status));
    Listing(data, |data|)
  }

  /** `searchClients`'s answers. */
  datatype SearchAnswer = TermTooShort | Found(result: Listing)

  /** `searchClients`: 400 for a missing term or one shorter than two characters; otherwise the service's search. */
  function SearchEndpoint(clients: seq<Client>, term: Option<string>): (r: SearchAnswer)
    ensures r.TermTooShort? <==> term.None? || |term.value| < 2
    ensures r.Found? ==> (&& r.result.count == |r.result.data| <= 50
                          && forall c :: c in r.result.data ==> c in clients && MatchesSearch(c, term.value))
    ensures r.Found? ==> r.result.data == SearchClients(clients, term.value)
  {
    if !Truthy(term) || |term.value| < 2 then TermTooShort
    else
      var data := SearchClients(clients, term.value);
      Found(Listing(data, |data|))
  }
}
