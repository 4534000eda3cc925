/**
 * The customer table: create with e-mail and document uniqueness checks
 * (e-mail first), lookups by key and by e-mail, and an edit that overwrites
 * the five fields without re-checking either.
 */
module CustomerServices {
  import opened Base
  import opened Entities

  predicate EmailTaken(customers: map<CustomerId, Customer>, email: string)
  {
    exists id :: id in customers && customers[id].email == email
  }

  predicate DocumentTaken(customers: map<CustomerId, Customer>, document: string)
  {
    exists id :: id in customers && customers[id].document == document
  }

  function EmailOf(c: Customer): string { c.email }
  function DocumentOf(c: Customer): string { c.document }

  /** No two stored customers share an e-mail. */
  ghost predicate EmailsUnique(customers: map<CustomerId, Customer>)
  {
    forall a, b {:trigger EmailOf(customers[a]), EmailOf(customers[b])} ::
      a in customers && b in customers && EmailOf(customers[a]) == EmailOf(customers[b]) ==> a == b
  }

  /** No two stored customers share a document. */
  ghost predicate DocumentsUnique(customers: map<CustomerId, Customer>)
  {
    forall a, b {:trigger DocumentOf(customers[a]), DocumentOf(customers[b])} ::
      a in customers && b in customers && DocumentOf(customers[a]) == DocumentOf(customers[b]) ==> a == b
  }

  /** Adding a customer with an e-mail and a document nobody has, under a fresh key, keeps both unique. */
  lemma FreshCustomerKeepsUnique(customers: map<CustomerId, Customer>, id: CustomerId, customer: Customer)
    requires id !in customers
    requires !EmailTaken(customers, customer.email) && !DocumentTaken(customers, customer.document)
    ensures EmailsUnique(customers) ==> EmailsUnique(customers[id := customer])
    ensures DocumentsUnique(customers) ==> DocumentsUnique(customers[id := customer])
  {
    var after := customers[id := customer];
    if EmailsUnique(customers) {
      forall a, b | a in after && b in after && EmailOf(after[a]) == EmailOf(after[b]) ensures a == b {
        if a != id && b != id {
          assert EmailOf(after[a]) == EmailOf(customers[a]) && EmailOf(after[b]) == EmailOf(customers[b]);
        }
      }
    }
    if DocumentsUnique(customers) {
      forall a, b | a in after && b in after && DocumentOf(after[a]) == DocumentOf(after[b]) ensures a == b {
        if a != id && b != id {
          assert DocumentOf(after[a]) == DocumentOf(customers[a]) && DocumentOf(after[b]) == DocumentOf(customers[b]);
        }
      }
    }
  }

  /** The keys of the customers with that e-mail. */
  function EmailMatches(customers: map<CustomerId, Customer>, email: string): (ids: set<CustomerId>)
    ensures ids <= customers.Keys
    ensures forall id :: id in ids <==> id in customers && customers[id].email == email
  {
    set id | id in customers && customers[id].email == email
  }

  /** The keys of the customers with that document. */
  function DocumentMatches(customers: map<CustomerId, Customer>, document: string): (ids: set<CustomerId>)
    ensures ids <= customers.Keys
    ensures forall id :: id in ids <==> id in customers && customers[id].document == document
  {
    set id | id in customers && customers[id].document == document
  }

  /** `findCustomerById`: the stored customer, or NotFound. */
  function FindCustomerById(customers: map<CustomerId, Customer>, id: CustomerId): (r: Result<Customer>)
    ensures r.Ok? <==> id in customers
    ensures r.Ok? ==> r.value == customers[id]
    ensures r.Err? ==> r.error == NotFound(CustomerNotFound)
  {
    FindById(customers, id, CustomerNotFound)
  }

  /** `findCustomerByEmail`: the one customer with that e-mail, NotFound if none, NonUniqueResult if several. */
  function FindCustomerByEmail(customers: map<CustomerId, Customer>, email: string): (r: Result<Row<Customer>>)
    ensures r.Ok? ==> r.value.id in customers && customers[r.value.id] == r.value.entity && r.value.entity.email == email
    ensures r.Ok? ==> EmailMatches(customers, email) == {r.value.id}
    ensures r == Err(NotFound(CustomerNotFound)) <==> !EmailTaken(customers, email)
    ensures r == Err(NonUniqueResult) <==> |EmailMatches(customers, email)| >= 2
    ensures r.Err? ==> r.error == NotFound(CustomerNotFound) || r.error == NonUniqueResult
  {
    var ids := EmailMatches(customers, email);
    assert EmailTaken(customers, email) <==> ids != {} by {
      if EmailTaken(customers, email) {
        var id :| id in customers && customers[id].email == email;
        assert id in ids;
      }
    }
    SingleRow(customers, ids, CustomerNotFound)
  }

  /** The repository's `findByDocument`, used only by the creation check. */
  function FindCustomerByDocument(customers: map<CustomerId, Customer>, document: string): (r: Result<Row<Customer>>)
    ensures r.Ok? ==> r.value.id in customers && customers[r.value.id] == r.value.entity && r.value.entity.document == document
    ensures r.Ok? ==> DocumentMatches(customers, document) == {r.value.id}
    ensures r == Err(NotFound(CustomerNotFound)) <==> !DocumentTaken(customers, document)
    ensures r == Err(NonUniqueResult) <==> |DocumentMatches(customers, document)| >= 2
    ensures r.Err? ==> r.error == NotFound(CustomerNotFound) || r.error == NonUniqueResult
  {
    var ids := DocumentMatches(customers, document);
    assert DocumentTaken(customers, document) <==> ids != {} by {
      if DocumentTaken(customers, document) {
        var id :| id in customers && customers[id].document == document;
        assert id in ids;
      }
    }
    SingleRow(customers, ids, CustomerNotFound)
  }

  /**
   * The checks `createNewCustomer` runs before saving, in the source's order:
   * both queries run first (document, then e-mail), then a taken e-mail is
   * reported, and only then a taken document.
   */
  function AdmitCustomer(customers: map<CustomerId, Customer>, dto: CustomerDto): (r: Result<()>)
    ensures r.Ok? <==> !EmailTaken(customers, dto.email) && !DocumentTaken(customers, dto.document)
    ensures (FindCustomerByDocument(customers, dto.document) != Err(NonUniqueResult)
             && FindCustomerByEmail(customers, dto.email).Ok?) ==> r == Err(Conflict(DuplicateEmail))
    ensures (FindCustomerByDocument(customers, dto.document).Ok? && !EmailTaken(customers, dto.email))
            ==> r == Err(Conflict(DuplicateDocument))
    ensures r == Err(NonUniqueResult) <==>
              FindCustomerByDocument(customers, dto.document) == Err(NonUniqueResult)
              || FindCustomerByEmail(customers, dto.email) == Err(NonUniqueResult)
    ensures r.Err? ==> r.error in {Conflict(DuplicateEmail), Conflict(DuplicateDocument), NonUniqueResult}
  {
    var byDocument := FindCustomerByDocument(customers, dto.document);
    var byEmail := FindCustomerByEmail(customers, dto.email);
    if byDocument == Err(NonUniqueResult) || byEmail == Err(NonUniqueResult) then Err(NonUniqueResult)
    else if byEmail.Ok? then Err(Conflict(DuplicateEmail))
    else if byDocument.Ok? then Err(Conflict(DuplicateDocument))
    else Ok(())
  }

  /** When both the e-mail and the document are taken (by single rows), the e-mail conflict is the one reported. */
  lemma EmailConflictWins(customers: map<CustomerId, Customer>, dto: CustomerDto)
    requires FindCustomerByEmail(customers, dto.email).Ok?
    requires FindCustomerByDocument(customers, dto.document).Ok?
    ensures AdmitCustomer(customers, dto) == Err(Conflict(DuplicateEmail))
  {
  }

  class CustomerService {
    var customers: map<CustomerId, Customer>
    var nextId: CustomerId

    ghost predicate Valid()
      reads this
    {
      forall id :: id in customers ==> id < nextId
    }

    constructor ()
      ensures Valid() && customers == map[]
    {
      customers := map[];
      nextId := 0;
    }

    /**
     * `createNewCustomer`: the failure of AdmitCustomer with nothing saved,
     * or a new active customer whose five fields are the request's.
     */
    method CreateNewCustomer(dto: CustomerDto) returns (r: Result<Row<Customer>>)
      requires Valid()
      modifies this
      ensures Valid()
      ensures r.Err? <==> AdmitCustomer(old(customers), dto).Err?
      ensures r.Err? ==> r.error == AdmitCustomer(old(customers), dto).error
                         && customers == old(customers) && nextId == old(nextId)
      ensures r.Ok? ==>
                && r.value.id == old(nextId) && r.value.id !in old(customers)
                && r.value.entity == CustomerWith(NewCustomer(), dto) && r.value.entity.isActive
                && customers == old(customers)[r.value.id := r.value.entity]
                && nextId == old(nextId) + 1
      ensures EmailsUnique(old(customers)) ==> EmailsUnique(customers)
      ensures DocumentsUnique(old(customers)) ==> DocumentsUnique(customers)
    {
      var byDocument := FindCustomerByDocument(customers, dto.document);
      var byEmail := FindCustomerByEmail(customers, dto.email);
      if byDocument == Err(NonUniqueResult) || byEmail == Err(NonUniqueResult) {
        return Err(NonUniqueResult);
      }
      if byEmail.Ok? {
        return Err(Conflict(DuplicateEmail));
      }
      if byDocument.Ok? {
        return Err(Conflict(DuplicateDocument));
      }
      var customer := CustomerWith(NewCustomer(), dto);
      FreshCustomerKeepsUnique(customers, nextId, customer);
      r := Ok(Row(nextId, customer));
      customers := customers[nextId := customer];
      nextId := nextId + 1;
    }

    /**
     * `editCustomer`: NotFound for an unknown key; otherwise the five fields
     * are overwritten, with no check that e-mail or document stay unique.
     */
    method EditCustomer(id: CustomerId, dto: CustomerDto) returns (r: Result<Customer>)
      requires Valid()
      modifies this
      ensures Valid() && nextId == old(nextId)
      ensures id !in old(customers) ==> r == Err(NotFound(CustomerNotFound)) && customers == old(customers)
      ensures id in old(customers) ==>
                && r == Ok(CustomerWith(old(customers)[id], dto))
                && r.value.isActive == old(customers)[id].isActive
                && customers == old(customers)[id := r.value]
    {
      var found := FindCustomerById(customers, id);
      if found.Err? {
        return Err(found.error);
      }
      var customer := CustomerWith(found.value, dto);
      customers := customers[id := customer];
      r := Ok(customer);
    }
  }

  /**
   * In this model, which leaves out the unique column constraints on e-mail
   * and document, the edit does not re-check, so two customers can end up
   * sharing an e-mail, after which the lookup by that e-mail (and so order
   * creation for it) fails with NonUniqueResult. With the column constraint
   * in place the database refuses that save instead.
   */
  lemma EditCanMakeEmailAmbiguous()
    ensures var before := map[1 := Customer("A", "A", "a@x", "", "1", true), 2 := Customer("B", "B", "b@x", "", "2", true)];
            var after := before[2 := CustomerWith(before[2], CustomerDto("B", "B", "a@x", "", "2"))];
            && EmailsUnique(before) && !EmailsUnique(after)
            && FindCustomerByEmail(before, "a@x").Ok? && FindCustomerByEmail(after, "a@x") == Err(NonUniqueResult)
  {
    var before := map[1 := Customer("A", "A", "a@x", "", "1", true), 2 := Customer("B", "B", "b@x", "", "2", true)];
    var after := before[2 := CustomerWith(before[2], CustomerDto("B", "B", "a@x", "", "2"))];
    assert EmailMatches(after, "a@x") == {1, 2};
    assert EmailMatches(before, "a@x") == {1};
    assert EmailOf(after[1]) == EmailOf(after[2]);
    assert EmailOf(before[1]) != EmailOf(before[2]) by {
      assert before[1].email[0] != before[2].email[0];
    }
  }
}
