/** The customer database page (src/pages/CustomerManagement.tsx): the
    customer form and its validation, edit, add and delete, the search with
    the customer-type tabs, the VIP card and the type badge. Whether a string
    is an e-mail address is decided by the form library and is a parameter
    here; the join date of a new customer is the current UTC calendar date,
    which the page takes from an ISO timestamp, and is a parameter. */
module CustomerManagement {
  import opened Wrappers
  import opened Text
  import opened Collections

  datatype Customer = Customer(id: string, name: string, email: string, phone: string, address: string,
                               joinDate: int, totalSpent: real, lastPurchase: string, purchaseCount: int,
                               customerType: string)

  /** The form's values; the optional fields are absent when left out. */
  datatype CustomerForm = CustomerForm(name: string, email: string, phone: string,
                                       address: Option<string>, customerType: Option<string>)

  const NameMessage := "Name must be at least 2 characters."
  const EmailMessage := "Please enter a valid email address."
  const PhoneMessage := "Please enter a valid phone number."

  /** `formSchema`: the message of every failed check, in field order. */
  function CheckCustomerForm(f: CustomerForm, isEmail: string -> bool): (errors: seq<string>)
    ensures |errors| == 0 <==> |f.name| >= 2 && isEmail(f.email) && |f.phone| >= 10
    ensures NameMessage in errors <==> |f.name| < 2
    ensures EmailMessage in errors <==> !isEmail(f.email)
    ensures PhoneMessage in errors <==> |f.phone| < 10
  {
    (if |f.name| >= 2 then [] else [NameMessage])
    + (if isEmail(f.email) then [] else [EmailMessage])
    + (if |f.phone| >= 10 then [] else [PhoneMessage])
  }

  /** `{ ...c, ...values }`: the contact fields and type come from the form
      (an absent optional field keeps the old value); the purchase history,
      the id and the join date stay. */
  function Merge(c: Customer, f: CustomerForm): (r: Customer)
    ensures r.id == c.id && r.joinDate == c.joinDate && r.totalSpent == c.totalSpent
    ensures r.lastPurchase == c.lastPurchase && r.purchaseCount == c.purchaseCount
    ensures r.name == f.name && r.email == f.email && r.phone == f.phone
    ensures r.address == f.address.GetOr(c.address)
    ensures r.customerType == f.customerType.GetOr(c.customerType)
  {
    c.(name := f.name, email := f.email, phone := f.phone,
       address := f.address.GetOr(c.address), customerType := f.customerType.GetOr(c.customerType))
  }

  /** `onSubmit` while editing. */
  function EditCustomer(customers: seq<Customer>, editingId: string, f: CustomerForm): (r: seq<Customer>)
    ensures |r| == |customers|
    ensures forall i :: 0 <= i < |customers| && customers[i].id == editingId ==> r[i] == Merge(customers[i], f)
    ensures forall i :: 0 <= i < |customers| && customers[i].id != editingId ==> r[i] == customers[i]
  {
    seq(|customers|, i requires 0 <= i < |customers| =>
          if customers[i].id == editingId then Merge(customers[i], f) else customers[i])
  }

  /** Editing is a pure function of the form: editing again with the same
      values changes nothing more, and the ids and purchase histories are
      untouched. */
  lemma EditKeepsHistory(customers: seq<Customer>, editingId: string, f: CustomerForm)
    ensures var r := EditCustomer(customers, editingId, f);
      && EditCustomer(r, editingId, f) == r
      && forall i :: 0 <= i < |customers| ==>
           && r[i].id == customers[i].id && r[i].totalSpent == customers[i].totalSpent
           && r[i].purchaseCount == customers[i].purchaseCount && r[i].joinDate == customers[i].joinDate
  {
  }

  /** `onSubmit` while adding: a new customer with no purchases at the end of
      the list. */
  function AddCustomer(customers: seq<Customer>, f: CustomerForm, newId: string, utcToday: int): (r: seq<Customer>)
    ensures |r| == |customers| + 1 && r[..|customers|] == customers
    ensures var n := r[|customers|];
      && n.id == newId && n.name == f.name && n.email == f.email && n.phone == f.phone
      && n.address == OrFallback(f.address, "") && n.customerType == OrFallback(f.customerType, "regular")
      && n.joinDate == utcToday && n.totalSpent == 0.0 && n.lastPurchase == "" && n.purchaseCount == 0
  {
    customers + [Customer(newId, f.name, f.email, f.phone, OrFallback(f.address, ""), utcToday,
                          0.0, "", 0, OrFallback(f.customerType, "regular"))]
  }

  /** `handleDeleteCustomer`: after confirmation the customers with that id
      are dropped; without it nothing changes. */
  function DeleteCustomer(customers: seq<Customer>, id: string, confirmed: bool): (r: seq<Customer>)
    ensures !confirmed ==> r == customers
    ensures confirmed ==> forall c :: c in r <==> c in customers && c.id != id
    ensures confirmed ==> forall c :: multiset(r)[c] == if c.id != id then multiset(customers)[c] else 0
    ensures IsSubsequence(r, customers)
  {
    if confirmed then
      FilterIsSubsequence(customers, (c: Customer) => c.id != id);
      FilterMultiset(customers, (c: Customer) => c.id != id);
      Filter(customers, (c: Customer) => c.id != id)
    else
      SubsequenceReflexive(customers);
      customers
  }

  /** Deleting a just-added customer whose id was not in use gives back the
      list from before. */
  lemma AddThenDeleteRestores(customers: seq<Customer>, f: CustomerForm, newId: string, utcToday: int)
    requires forall i :: 0 <= i < |customers| ==> customers[i].id != newId
    ensures DeleteCustomer(AddCustomer(customers, f, newId, utcToday), newId, true) == customers
  {
    var keep := (c: Customer) => c.id != newId;
    var added := AddCustomer(customers, f, newId, utcToday);
    assert added == customers + [added[|customers|]];
    FilterAppend(customers, [added[|customers|]], keep);
    FilterAllPass(customers, keep);
    assert Filter([added[|customers|]], keep) == [];
  }

  /** The row test: name or e-mail contains the term ignoring ASCII case, or
      the phone contains it verbatim; and the tab is "all" or the customer's
      type. The term is not trimmed. */
  predicate Listed(c: Customer, term: string, tab: string) {
    (ContainsFolded(c.name, term) || ContainsFolded(c.email, term) || Contains(c.phone, term))
    && (tab == "all" || c.customerType == tab)
  }

  /** `filteredCustomers`. */
  function FilterCustomers(customers: seq<Customer>, term: string, tab: string): (r: seq<Customer>)
    ensures forall c :: c in r <==> c in customers && Listed(c, term, tab)
    ensures forall c :: multiset(r)[c] == if Listed(c, term, tab) then multiset(customers)[c] else 0
    ensures IsSubsequence(r, customers)
  {
    FilterIsSubsequence(customers, c => Listed(c, term, tab));
    FilterMultiset(customers, c => Listed(c, term, tab));
    Filter(customers, c => Listed(c, term, tab))
  }

  predicate IsVip(c: Customer) {
    c.customerType == "vip"
  }

  /** The VIP Customers card. */
  function VipCount(customers: seq<Customer>): (n: nat)
    ensures n <= |customers|
    ensures n == CountWhere(customers, IsVip)
  {
    CountIsFilterLength(customers, IsVip);
    |Filter(customers, IsVip)|
  }

  /** With an empty search box the VIP tab lists exactly as many customers as
      the VIP card counts. */
  lemma VipTabMatchesCard(customers: seq<Customer>)
    ensures |FilterCustomers(customers, "", "vip")| == VipCount(customers)
  {
    forall c: Customer ensures Listed(c, "", "vip") == IsVip(c) {
      ContainsEmpty(Lower(c.name));
    }
    FilterExtensional(customers, c => Listed(c, "", "vip"), IsVip);
  }

  /** `getCustomerTypeBadge`. */
  function TypeBadge(customerType: string): (caption: string)
    ensures caption in {"VIP", "New", "Regular"}
    ensures caption == "VIP" <==> customerType == "vip"
    ensures caption == "New" <==> customerType == "new"
  {
    match customerType
    case "vip" => "VIP"
    case "new" => "New"
    case _ => "Regular"
  }

  /** A customer added without a type is a regular one: the badge says so and
      the VIP card does not count it. */
  lemma AddedWithoutTypeIsRegular(customers: seq<Customer>, f: CustomerForm, newId: string, utcToday: int)
    requires f.customerType.None? || f.customerType == Some("")
    ensures var r := AddCustomer(customers, f, newId, utcToday);
      && TypeBadge(r[|customers|].customerType) == "Regular"
      && VipCount(r) == VipCount(customers)
  {
    var r := AddCustomer(customers, f, newId, utcToday);
    assert r == customers + [r[|customers|]];
    FilterAppend(customers, [r[|customers|]], IsVip);
    assert Filter([r[|customers|]], IsVip) == [];
  }
}
