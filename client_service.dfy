/**
 * The client service (services/clientService.js): the client table with the
 * contract-number uniqueness checks on create and update, delete, and the
 * listing, search and statistics queries.
 */
module ClientService {
  import opened Wrappers
  import opened Strings
  import opened Ordering
  import opened Grouping
  import opened ClientModel

  /** The client data the service receives; every field may be absent. */
  datatype ClientData = ClientData(
    name: Option<string>,
    contact: Option<string>,
    email: Option<string>,
    phone: Option<string>,
    address: Option<string>,
    contractNumber: Option<string>,
    status: Option<string>,
    notes: Option<string>)

  function TrimmedOr(o: Option<string>): Option<string> {
    if o.Some? then Some(Trim(o.value)) else None
  }

  /** `new Client(data)`: the schema's setters (trim, e-mail lower-cased) and the status default; `None` when a required field is absent. */
  function BuildClient(id: Id, d: ClientData, now: int): (c: Option<Client>)
    ensures c.Some? <==> d.name.Some? && d.contact.Some? && d.email.Some? && d.contractNumber.Some?
    ensures c.Some? ==> c.value.id == id && c.value.createdAt == now
    ensures c.Some? ==> c.value.contractNumber == Trim(d.contractNumber.value)
    ensures c.Some? && d.status.None? ==> c.value.status == "active"
    ensures c.Some? && d.status.Some? ==> c.value.status == d.status.value
    ensures c.Some? ==> c.value.name == Trim(d.name.value) && c.value.contact == Trim(d.contact.value)
    ensures c.Some? ==> c.value.email == EmailSetter(d.email.value)
    ensures c.Some? ==> (d.phone.Some? ==> c.value.phone == Some(Trim(d.phone.value)))
                        && (d.phone.None? ==> c.value.phone == None)
    ensures c.Some? ==> (d.address.Some? ==> c.value.address == Some(Trim(d.address.value)))
                        && (d.address.None? ==> c.value.address == None)
    ensures c.Some? ==> (d.notes.Some? ==> c.value.notes == Some(Trim(d.notes.value)))
                        && (d.notes.None? ==> c.value.notes == None)
  {
    if d.name.Some? && d.contact.Some? && d.email.Some? && d.contractNumber.Some? then
      Some(Client(id, Trim(d.name.value), Trim(d.contact.value), EmailSetter(d.email.value), TrimmedOr(d.phone),
                  TrimmedOr(d.address), Trim(d.contractNumber.value), Or(d.status, "active"), TrimmedOr(d.notes), now))
    else None
  }

  /** An update body; each path present is set, through the schema's setters. */
  datatype ClientPatch = ClientPatch(
    name: Option<string>,
    contact: Option<string>,
    email: Option<string>,
    phone: Option<string>,
    address: Option<string>,
    contractNumber: Option<string>,
    status: Option<string>,
    notes: Option<string>)

  /** The update validators (`runValidators`) on the paths the patch sets. */
  predicate PatchValid(p: ClientPatch) {
    && (p.name.Some? ==> Trim(p.name.value) != "" && |Trim(p.name.value)| <= MaxNameLength)
    && (p.contact.Some? ==> Trim(p.contact.value) != "" && |Trim(p.contact.value)| <= MaxContactLength)
    && (p.email.Some? ==> IsEmail(EmailSetter(p.email.value)))
    && (p.phone.Some? ==> |Trim(p.phone.value)| <= MaxPhoneLength)
    && (p.address.Some? ==> |Trim(p.address.value)| <= MaxAddressLength)
    && (p.contractNumber.Some? ==>
          Trim(p.contractNumber.value) != "" && |Trim(p.contractNumber.value)| <= MaxContractNumberLength)
    && (p.status.Some? ==> IsClientStatus(p.status.value))
    && (p.notes.Some? ==> |Trim(p.notes.value)| <= MaxNotesLength)
  }

  /** `findByIdAndUpdate(id, patch)`: the paths the patch sets replace the stored ones. */
  function ApplyClientPatch(c: Client, p: ClientPatch): (u: Client)
    ensures u.id == c.id && u.createdAt == c.createdAt
    ensures p.name.None? ==> u.name == c.name
    ensures p.name.Some? ==> u.name == Trim(p.name.value)
    ensures p.contact.None? ==> u.contact == c.contact
    ensures p.contact.Some? ==> u.contact == Trim(p.contact.value)
    ensures p.email.None? ==> u.email == c.email
    ensures p.email.Some? ==> u.email == EmailSetter(p.email.value)
    ensures p.phone.None? ==> u.phone == c.phone
    ensures p.phone.Some? ==> u.phone == Some(Trim(p.phone.value))
    ensures p.address.None? ==> u.address == c.address
    ensures p.address.Some? ==> u.address == Some(Trim(p.address.value))
    ensures p.contractNumber.None? ==> u.contractNumber == c.contractNumber
    ensures p.contractNumber.Some? ==> u.contractNumber == Trim(p.contractNumber.value)
    ensures p.status.None? ==> u.status == c.status
    ensures p.status.Some? ==> u.status == p.status.value
    ensures p.notes.None? ==> u.notes == c.notes
    ensures p.notes.Some? ==> u.notes == Some(Trim(p.notes.value))
  {
    Client(c.id, SetTrimmed(p.name, c.name), SetTrimmed(p.contact, c.contact),
           if p.email.Some? then EmailSetter(p.email.value) else c.email,
           SetTrimmedOption(p.phone, c.phone), SetTrimmedOption(p.address, c.address),
           SetTrimmed(p.contractNumber, c.contractNumber), Or(p.status, c.status),
           SetTrimmedOption(p.notes, c.notes), c.createdAt)
  }

  /** A patch that passes the update validators keeps a valid client valid. */
  lemma PatchKeepsValid(c: Client, p: ClientPatch)
    requires ValidClient(c) && PatchValid(p)
    ensures ValidClient(ApplyClientPatch(c, p))
  {
  }

  /** No two clients share a contract number (the unique index). */
  predicate UniqueContracts(clients: seq<Client>) {
    forall i, j :: 0 <= i < j < |clients| ==> clients[i].contractNumber != clients[j].contractNumber
  }

  /** `findOne({ contractNumber: n, _id: { $ne: exclude } })` finds something. */
  predicate ContractTaken(clients: seq<Client>, n: string, exclude: Option<Id>) {
    exists c :: c in clients && c.contractNumber == n && !(exclude.Some? && c.id == exclude.value)
  }

  /** Ids are unique and below `nextId`, contract numbers are unique, every stored document passed the validators. */
  ghost predicate TableInvariant(clients: seq<Client>, nextId: Id) {
    && (forall i, j :: 0 <= i < j < |clients| ==> clients[i].id != clients[j].id)
    && (forall i :: 0 <= i < |clients| ==> clients[i].id < nextId && ValidClient(clients[i]))
    && UniqueContracts(clients)
  }

  lemma AppendKeepsInvariant(clients: seq<Client>, nextId: Id, c: Client)
    requires TableInvariant(clients, nextId) && c.id == nextId && ValidClient(c)
    requires !ContractTaken(clients, c.contractNumber, None)
    ensures TableInvariant(clients + [c], nextId + 1)
  {
    var s := clients + [c];
    assert forall i :: 0 <= i < |clients| ==> s[i] == clients[i];
    forall i, j | 0 <= i < j < |s| ensures s[i].contractNumber != s[j].contractNumber {
      if j == |clients| {
        assert s[i] in clients;
      }
    }
  }

  lemma ReplaceKeepsInvariant(clients: seq<Client>, nextId: Id, k: nat, u: Client)
    requires TableInvariant(clients, nextId) && k < |clients| && u.id == clients[k].id && ValidClient(u)
    requires u.contractNumber == clients[k].contractNumber || !ContractTaken(clients, u.contractNumber, Some(u.id))
    ensures TableInvariant(clients[k := u], nextId)
  {
    var s := clients[k := u];
    forall i, j | 0 <= i < j < |s| ensures s[i].contractNumber != s[j].contractNumber {
      if i == k {
        assert clients[j] in clients && clients[j].id != u.id;
      } else if j == k {
        assert clients[i] in clients && clients[i].id != u.id;
      }
    }
  }

  lemma RemoveKeepsInvariant(clients: seq<Client>, nextId: Id, k: nat)
    requires TableInvariant(clients, nextId) && k < |clients|
    ensures TableInvariant(clients[..k] + clients[k + 1..], nextId)
    ensures forall c :: c in clients[..k] + clients[k + 1..] ==> c in clients && c.id != clients[k].id
  {
    var s := clients[..k] + clients[k + 1..];
    assert forall j :: 0 <= j < |s| ==> s[j] == clients[if j < k then j else j + 1];
  }

  function HasId(id: Id): Client -> bool {
    (c: Client) => c.id == id
  }

  /** The service's answers, with the status codes it reports. */
  datatype Outcome = Created(c: Client) | Updated(c: Client) | Deleted | DuplicateContract | Invalid | NotFound

  function StatusCode(o: Outcome): int {
    match o
    case Created(_) => 201
    case Updated(_) => 200
    case Deleted => 200
    case NotFound => 404
    case _ => 400
  }

  /** The client collection, `mongoose.model('Client')`, with the ids it hands out. */
  class ClientTable {
    var clients: seq<Client>
    var nextId: Id

    ghost predicate Valid()
      reads this
    {
      TableInvariant(clients, nextId)
    }

    constructor()
      ensures Valid() && clients == [] && nextId == 0
    {
      clients := [];
      nextId := 0;
    }

    /**
     * `createClient`: 400 when a stored client already has the contract
     * number (without a number the lookup filter holds an `undefined` value
     * and whether it matches a stored client is `absentFilterAnswer`), 400 when the validators reject the document, otherwise one new
     * client (201). Contract numbers stay unique.
     */
    method Create(d: ClientData, now: int, absentFilterAnswer: bool) returns (o: Outcome)
      requires Valid()
      modifies this
      ensures Valid()
      ensures var doc := BuildClient(old(nextId), d, now);
              var duplicate := if d.contractNumber.Some? then ContractTaken(old(clients), Trim(d.contractNumber.value), None)
                               else absentFilterAnswer && |old(clients)| > 0;
              && (duplicate ==> o == DuplicateContract)
              && (!duplicate && (doc.None? || !ValidClient(doc.value)) ==> o == Invalid)
              && (!duplicate && doc.Some? && ValidClient(doc.value) ==> o == Created(doc.value))
      ensures o.Created? ==> clients == old(clients) + [o.c] && nextId == old(nextId) + 1
      ensures !o.Created? ==> clients == old(clients) && nextId == old(nextId)
      ensures UniqueContracts(clients)
    {
      var taken := if d.contractNumber.Some? then exists c :: c in clients && c.contractNumber == Trim(d.contractNumber.value)
                   else absentFilterAnswer && |clients| > 0;
      if taken {
        return DuplicateContract;
      }
      var doc := BuildClient(nextId, d, now);
      if doc.None? || !ValidClient(doc.value) {
        return Invalid;
      }
      AppendKeepsInvariant(clients, nextId, doc.value);
      clients := clients + [doc.value];
      nextId := nextId + 1;
      o := Created(doc.value);
    }

    /**
     * `updateClient`: when the patch carries a contract number, 400 if another
     * client has it (the client itself is excluded); 400 when the validators
     * reject the patch; 404 for an unknown id; otherwise the client is patched
     * in place. Contract numbers stay unique.
     */
    method Update(id: Id, p: ClientPatch) returns (o: Outcome)
      requires Valid()
      modifies this
      ensures Valid()
      ensures nextId == old(nextId)
      ensures var taken := Truthy(p.contractNumber) && ContractTaken(old(clients), Trim(p.contractNumber.value), Some(id));
              var k := FindIndex(old(clients), HasId(id));
              && (taken ==> o == DuplicateContract)
              && (!taken && !PatchValid(p) ==> o == Invalid)
              && (!taken && PatchValid(p) && k.None? ==> o == NotFound)
              && (!taken && PatchValid(p) && k.Some? ==>
                    o == Updated(ApplyClientPatch(old(clients)[k.value], p)) && clients == old(clients)[k.value := o.c])
      ensures !o.Updated? ==> clients == old(clients)
      ensures UniqueContracts(clients)
    {
      if Truthy(p.contractNumber) {
        var n := Trim(p.contractNumber.value);
        var taken := exists c :: c in clients && c.contractNumber == n && c.id != id;
        if taken {
          return DuplicateContract;
        }
      }
      if !PatchValid(p) {
        return Invalid;
      }
      var k := FindIndex(clients, HasId(id));
      if k.None? {
        return NotFound;
      }
      var u := ApplyClientPatch(clients[k.value], p);
      PatchKeepsValid(clients[k.value], p);
      ReplaceKeepsInvariant(clients, nextId, k.value, u);
      clients := clients[k.value := u];
      o := Updated(u);
    }

    /** `deleteClient`: 404 for an unknown id, otherwise the client is removed. */
    method Delete(id: Id) returns (o: Outcome)
      requires Valid()
      modifies this
      ensures Valid()
      ensures nextId == old(nextId)
      ensures var k := FindIndex(old(clients), HasId(id));
              && (k.None? ==> o == NotFound && clients == old(clients))
              && (k.Some? ==> o == Deleted && clients == old(clients)[..k.value] + old(clients)[k.value + 1..])
      ensures forall c :: c in clients ==> c in old(clients) && c.id != id
    {
      var k := FindIndex(clients, HasId(id));
      if k.None? {
        return NotFound;
      }
      RemoveKeepsInvariant(clients, nextId, k.value);
      clients := clients[..k.value] + clients[k.value + 1..];
      o := Deleted;
    }
  }

  /** The filters `getAllClients` accepts. */
  datatype ClientFilters = ClientFilters(search: Option<string>, status: Option<string>)

  /** The `getAllClients` query: the search term (read as literal text, ignoring case) in name, contact, e-mail or contract number; the status exactly. */
  predicate MatchesFilters(c: Client, f: ClientFilters) {
    && (Truthy(f.search) ==> (|| ContainsIgnoringCase(c.name, f.search.value)
                             || ContainsIgnoringCase(c.contact, f.search.value)
                             || ContainsIgnoringCase(c.email, f.search.value)
                             || ContainsIgnoringCase(c.contractNumber, f.search.value)))
    && (Truthy(f.status) ==> c.status == f.status.value)
  }

  /** Sort key `{ createdAt: -1 }`. */
  function NewestFirstKey(c: Client): Key {
    Key(-c.createdAt, "", "")
  }

  /** `getAllClients(filters)`: exactly the matching clients, newest first. */
  function GetAllClients(clients: seq<Client>, f: ClientFilters): (r: seq<Client>)
    ensures forall c :: c in r ==> c in clients && MatchesFilters(c, f)
    ensures forall c :: c in clients && MatchesFilters(c, f) ==> c in r
    ensures forall c :: multiset(r)[c] == if MatchesFilters(c, f) then multiset(clients)[c] else 0
    ensures forall i, j :: 0 <= i < j < |r| ==> r[i].createdAt >= r[j].createdAt
  {
    var matching := Where(clients, c => MatchesFilters(c, f));
    WhereMultiset(clients, c => MatchesFilters(c, f));
    var sorted := SortBy(matching, NewestFirstKey);
    forall c ensures c in sorted <==> c in matching {
      SortByMembership(matching, NewestFirstKey, c);
    }
    sorted
  }

  /** With a status filter alone the listing holds exactly the clients of that status. */
  lemma StatusFilterOnly(clients: seq<Client>, status: string)
    requires status != ""
    ensures var r := GetAllClients(clients, ClientFilters(None, Some(status)));
            forall c :: c in r <==> c in clients && c.status == status
  {
  }

  /** The `searchClients` query: the term in name, contact, e-mail, contract number or phone. */
  predicate MatchesSearch(c: Client, term: string) {
    || ContainsIgnoringCase(c.name, term)
    || ContainsIgnoringCase(c.contact, term)
    || ContainsIgnoringCase(c.email, term)
    || ContainsIgnoringCase(c.contractNumber, term)
    || (c.phone.Some? && ContainsIgnoringCase(c.phone.value, term))
  }

  /** Sort key `{ name: 1 }`. */
  function NameKey(c: Client): Key {
    Key(0, c.name, "")
  }

  /** `searchClients(term)`: matching clients by name, at most 50. */
  function SearchClients(clients: seq<Client>, term: string): (r: seq<Client>)
    ensures |r| <= 50 && SortedBy(r, NameKey)
    ensures forall c :: c in r ==> c in clients && MatchesSearch(c, term)
    ensures forall c :: c in clients && MatchesSearch(c, term) && c !in r ==> |r| == 50
    ensures forall c, x :: c in clients && MatchesSearch(c, term) && c !in r && x in r ==> KeyLe(NameKey(x), NameKey(c))
    ensures forall c :: multiset(r)[c] <= if MatchesSearch(c, term) then multiset(clients)[c] else 0
    ensures |r| < 50 ==> forall c :: multiset(r)[c] == if MatchesSearch(c, term) then multiset(clients)[c] else 0
  {
    var p := c => MatchesSearch(c, term);
    LimitWhere(clients, p, NameKey, 50);
    Limit(SortBy(Where(clients, p), NameKey), 50)
  }

  function StatusItems(clients: seq<Client>): seq<(string, int)> {
    Map(clients, (c: Client) => (c.status, 0))
  }

  /** `getClientsStats`: one non-empty group per status present; the counts sum to the number of clients and each counts its status. */
  function GetClientsStats(clients: seq<Client>): (r: seq<Group<string>>)
    ensures SumCounts(r) == |clients|
    ensures forall g :: g in r ==> g.count == CountKey(StatusItems(clients), g.key)
    ensures forall c :: c in clients ==> c.status in Keys(r)
    ensures DistinctKeys(r)
    ensures forall g :: g in r ==> g.count > 0 && exists c :: c in clients && c.status == g.key
  {
    var groups := GroupBy(StatusItems(clients));
    GroupByCorrect(StatusItems(clients));
    forall c | c in clients ensures c.status in Keys(groups) {
      var i :| 0 <= i < |clients| && clients[i] == c;
      CountKeyPositive(StatusItems(clients), i);
    }
    forall g | g in groups ensures g.count > 0 && exists c :: c in clients && c.status == g.key {
      KeysMember(groups, g);
      var i := CountKeyWitness(StatusItems(clients), g.key);
      assert clients[i] in clients;
    }
    groups
  }
}
