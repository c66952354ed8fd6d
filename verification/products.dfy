/** The product catalogue page (src/pages/Products.tsx): the product form
    and its validation, edit, add and delete, the low-stock marker and the
    summary cards. Money is an exact real; the form's numbers arrive already
    numeric. */
module Products {
  import opened Wrappers
  import opened Collections

  datatype Product = Product(id: string, name: string, category: string, sku: string, price: real,
                             cost: real, stock: real, reorderLevel: real, description: Option<string>)

  /** The form's values; `description` is absent when the field was left
      out. */
  datatype ProductForm = ProductForm(name: string, category: string, sku: string, price: real,
                                     cost: real, stock: real, reorderLevel: real, description: Option<string>)

  predicate IsWhole(x: real) {
    x.Floor as real == x
  }

  /** The fields `formSchema` checks, in form order. */
  datatype Field = Name | Category | Sku | Price | Cost | Stock | ReorderLevel

  /** The custom message `formSchema` attaches to each field's check. For
      stock and reorder level it belongs to the non-negative check only: a
      fractional value fails zod's integer check first and gets zod's own
      wording, which is not modelled. */
  function Message(field: Field): string {
    match field
    case Name => "Product name must be at least 2 characters."
    case Category => "Please select a category."
    case Sku => "SKU must be at least 3 characters."
    case Price => "Price must be a positive number."
    case Cost => "Cost must be a positive number."
    case Stock => "Stock must be a non-negative integer."
    case ReorderLevel => "Reorder level must be a non-negative integer."
  }

  /** The check of one field. */
  predicate Accepts(f: ProductForm, field: Field) {
    match field
    case Name => |f.name| >= 2
    case Category => |f.category| >= 1
    case Sku => |f.sku| >= 3
    case Price => f.price > 0.0
    case Cost => f.cost > 0.0
    case Stock => f.stock >= 0.0 && IsWhole(f.stock)
    case ReorderLevel => f.reorderLevel >= 0.0 && IsWhole(f.reorderLevel)
  }

  const Fields: seq<Field> := [Name, Category, Sku, Price, Cost, Stock, ReorderLevel]

  /** The whole form passes exactly when every field does. */
  predicate AcceptsAll(f: ProductForm) {
    && |f.name| >= 2 && |f.category| >= 1 && |f.sku| >= 3
    && f.price > 0.0 && f.cost > 0.0
    && f.stock >= 0.0 && IsWhole(f.stock) && f.reorderLevel >= 0.0 && IsWhole(f.reorderLevel)
  }

  lemma AcceptsEveryField(f: ProductForm)
    ensures AcceptsAll(f) <==> forall g :: Accepts(f, g)
  {
    if AcceptsAll(f) {
      forall g ensures Accepts(f, g) {
        match g
        case Name =>
        case Category =>
        case Sku =>
        case Price =>
        case Cost =>
        case Stock =>
        case ReorderLevel =>
      }
    }
    assert Accepts(f, Name) && Accepts(f, Category) && Accepts(f, Sku) && Accepts(f, Price) ==>
      Accepts(f, Cost) && Accepts(f, Stock) && Accepts(f, ReorderLevel) ==> AcceptsAll(f);
  }

  /** Every field of the form is listed. */
  lemma FieldsComplete()
    ensures forall g :: g in Fields
  {
    forall g ensures g in Fields {
      match g
      case Name => assert Fields[0] == g;
      case Category => assert Fields[1] == g;
      case Sku => assert Fields[2] == g;
      case Price => assert Fields[3] == g;
      case Cost => assert Fields[4] == g;
      case Stock => assert Fields[5] == g;
      case ReorderLevel => assert Fields[6] == g;
    }
  }

  /** No field is listed twice. */
  lemma FieldsDistinct()
    ensures forall i, j :: 0 <= i < j < |Fields| ==> Fields[i] != Fields[j]
  {
  }

  /** The test `Array.prototype.filter` applies to pick the failing fields. */
  function Failing(f: ProductForm): Field -> bool {
    g => !Accepts(f, g)
  }

  lemma FailingFields(f: ProductForm)
    ensures var e := Filter(Fields, Failing(f));
      && (forall g :: g in e <==> !Accepts(f, g))
      && (|e| == 0 <==> AcceptsAll(f))
      && IsSubsequence(e, Fields)
  {
    var e := Filter(Fields, Failing(f));
    FieldsComplete();
    FilterIsSubsequence(Fields, Failing(f));
    AcceptsEveryField(f);
    assert forall g :: g in e <==> !Accepts(f, g);
    if |e| > 0 {
      assert e[0] in e;
    }
  }

  lemma FailingFieldsDistinct(f: ProductForm)
    ensures NoDuplicates(Filter(Fields, Failing(f)))
  {
    var distinct := (a: Field, b: Field) => a != b;
    FieldsDistinct();
    assert forall i, j :: 0 <= i < j < |Fields| ==> distinct(Fields[i], Fields[j]);
    FilterKeepsPairwise(Fields, Failing(f), distinct);
  }

  /** `formSchema`: the fields that fail their check, in form order. */
  function CheckProductForm(f: ProductForm): (errors: seq<Field>)
    ensures forall g :: g in errors <==> !Accepts(f, g)
    ensures |errors| == 0 <==> AcceptsAll(f)
    ensures IsSubsequence(errors, Fields) && NoDuplicates(errors)
  {
    FailingFields(f);
    FailingFieldsDistinct(f);
    Filter(Fields, Failing(f))
  }

  /** A product as the form would accept it. */
  predicate ValidProduct(p: Product) {
    && |p.name| >= 2 && |p.category| >= 1 && |p.sku| >= 3
    && p.price > 0.0 && p.cost > 0.0
    && p.stock >= 0.0 && IsWhole(p.stock) && p.reorderLevel >= 0.0 && IsWhole(p.reorderLevel)
  }

  /** `{ ...p, ...values }`: every form field overrides; an absent
      description keeps the old one. */
  function Merge(p: Product, f: ProductForm): (r: Product)
    ensures r.id == p.id
    ensures r.name == f.name && r.category == f.category && r.sku == f.sku
    ensures r.price == f.price && r.cost == f.cost && r.stock == f.stock && r.reorderLevel == f.reorderLevel
    ensures r.description == if f.description.Some? then f.description else p.description
    ensures |CheckProductForm(f)| == 0 ==> ValidProduct(r)
  {
    Product(p.id, f.name, f.category, f.sku, f.price, f.cost, f.stock, f.reorderLevel,
            if f.description.Some? then f.description else p.description)
  }

  /** `onSubmit` while editing: the products with the edited id take the
      form's values and keep their id; the others stay as they were. */
  function EditProduct(products: seq<Product>, editingId: string, f: ProductForm): (r: seq<Product>)
    ensures |r| == |products|
    ensures forall i :: 0 <= i < |products| ==> r[i].id == products[i].id
    ensures forall i :: 0 <= i < |products| && products[i].id == editingId ==> r[i] == Merge(products[i], f)
    ensures forall i :: 0 <= i < |products| && products[i].id != editingId ==> r[i] == products[i]
  {
    seq(|products|, i requires 0 <= i < |products| =>
          if products[i].id == editingId then Merge(products[i], f) else products[i])
  }

  /** Submitting the same edit twice is the same as submitting it once. */
  lemma EditIdempotent(products: seq<Product>, editingId: string, f: ProductForm)
    ensures EditProduct(EditProduct(products, editingId, f), editingId, f) == EditProduct(products, editingId, f)
  {
  }

  /** `onSubmit` while adding: `{ id, ...values }` goes at the end. */
  function AddProduct(products: seq<Product>, f: ProductForm, newId: string): (r: seq<Product>)
    ensures |r| == |products| + 1 && r[..|products|] == products
    ensures var n := r[|products|];
      && n.id == newId && n.name == f.name && n.category == f.category && n.sku == f.sku
      && n.price == f.price && n.cost == f.cost && n.stock == f.stock
      && n.reorderLevel == f.reorderLevel && n.description == f.description
    ensures |CheckProductForm(f)| == 0 ==> ValidProduct(r[|products|])
  {
    products + [Product(newId, f.name, f.category, f.sku, f.price, f.cost, f.stock, f.reorderLevel, f.description)]
  }

  /** `handleDelete`: after confirmation the products with that id are
      dropped; without it nothing changes. */
  function DeleteProduct(products: seq<Product>, id: string, confirmed: bool): (r: seq<Product>)
    ensures !confirmed ==> r == products
    ensures confirmed ==> forall p :: p in r <==> p in products && p.id != id
    ensures confirmed ==> forall p :: multiset(r)[p] == if p.id != id then multiset(products)[p] else 0
    ensures IsSubsequence(r, products)
  {
    if confirmed then
      FilterIsSubsequence(products, (p: Product) => p.id != id);
      FilterMultiset(products, (p: Product) => p.id != id);
      Filter(products, (p: Product) => p.id != id)
    else
      SubsequenceReflexive(products);
      products
  }

  /** Deleting a just-added product whose id was not in use gives back the
      list from before. */
  lemma AddThenDeleteRestores(products: seq<Product>, f: ProductForm, newId: string)
    requires forall i :: 0 <= i < |products| ==> products[i].id != newId
    ensures DeleteProduct(AddProduct(products, f, newId), newId, true) == products
  {
    var keep := (p: Product) => p.id != newId;
    var added := AddProduct(products, f, newId);
    assert added == products + [added[|products|]];
    FilterAppend(products, [added[|products|]], keep);
    FilterAllPass(products, keep);
    assert Filter([added[|products|]], keep) == [];
  }

  /** The low-stock marker: stock at or below the reorder level. */
  predicate IsLowStock(p: Product) {
    p.stock <= p.reorderLevel
  }

  /** The Low Stock Items card. */
  function LowStockCount(products: seq<Product>): (n: nat)
    ensures n <= |products|
    ensures n == CountWhere(products, IsLowStock)
    ensures n == 0 <==> forall i :: 0 <= i < |products| ==> !IsLowStock(products[i])
  {
    CountIsFilterLength(products, IsLowStock);
    |Filter(products, IsLowStock)|
  }

  /** `reduce((acc, x) => acc + x, 0)` over a list of amounts. */
  function Sum(xs: seq<real>): real {
    if |xs| == 0 then 0.0 else xs[0] + Sum(xs[1..])
  }

  lemma {:induction false} SumAppend(xs: seq<real>, y: real)
    ensures Sum(xs + [y]) == Sum(xs) + y
  {
    if |xs| == 0 {
      assert (xs + [y])[1..] == [];
    } else {
      SumAppend(xs[1..], y);
      assert (xs + [y])[1..] == xs[1..] + [y];
    }
  }

  lemma {:induction false} SumNonNegative(xs: seq<real>)
    ensures (forall i :: 0 <= i < |xs| ==> xs[i] >= 0.0) ==> Sum(xs) >= 0.0
  {
    if |xs| > 0 {
      SumNonNegative(xs[1..]);
      assert forall i :: 0 <= i < |xs| - 1 ==> xs[1..][i] == xs[i + 1];
    }
  }

  /** A form-valid product has non-negative cost, price and stock. */
  lemma SharesNonNegative(products: seq<Product>)
    ensures (forall i :: 0 <= i < |products| ==> ValidProduct(products[i])) ==>
      && (forall i :: 0 <= i < |products| ==> CostShares(products)[i] >= 0.0)
      && (forall i :: 0 <= i < |products| ==> PriceShares(products)[i] >= 0.0)
  {
  }

  /** A product's share of a card: an amount per unit times the stock. */
  function Times(amount: real, stock: real): real {
    amount * stock
  }

  /** Each product's share of the Inventory Value card: cost times stock. */
  function CostShares(products: seq<Product>): (r: seq<real>)
    ensures |r| == |products|
    ensures forall i :: 0 <= i < |products| ==> r[i] == Times(products[i].cost, products[i].stock)
  {
    seq(|products|, i requires 0 <= i < |products| => Times(products[i].cost, products[i].stock))
  }

  /** Each product's share of the Potential Revenue card: price times stock. */
  function PriceShares(products: seq<Product>): (r: seq<real>)
    ensures |r| == |products|
    ensures forall i :: 0 <= i < |products| ==> r[i] == Times(products[i].price, products[i].stock)
  {
    seq(|products|, i requires 0 <= i < |products| => Times(products[i].price, products[i].stock))
  }

  /** The Inventory Value card: the sum of cost times stock. */
  function InventoryValue(products: seq<Product>): (v: real)
    ensures (forall i :: 0 <= i < |products| ==> ValidProduct(products[i])) ==> v >= 0.0
  {
    SharesNonNegative(products);
    SumNonNegative(CostShares(products));
    Sum(CostShares(products))
  }

  /** The Potential Revenue card: the sum of price times stock. */
  function PotentialRevenue(products: seq<Product>): (v: real)
    ensures (forall i :: 0 <= i < |products| ==> ValidProduct(products[i])) ==> v >= 0.0
  {
    SharesNonNegative(products);
    SumNonNegative(PriceShares(products));
    Sum(PriceShares(products))
  }

  lemma InventoryValueAppend(products: seq<Product>, x: Product)
    ensures InventoryValue(products + [x]) == InventoryValue(products) + Times(x.cost, x.stock)
  {
    var all, before := CostShares(products + [x]), CostShares(products) + [Times(x.cost, x.stock)];
    forall i | 0 <= i < |all| ensures all[i] == before[i] {
      if i < |products| {
        assert (products + [x])[i] == products[i];
      }
    }
    assert all == before;
    SumAppend(CostShares(products), Times(x.cost, x.stock));
  }

  lemma PotentialRevenueAppend(products: seq<Product>, x: Product)
    ensures PotentialRevenue(products + [x]) == PotentialRevenue(products) + Times(x.price, x.stock)
  {
    var all, before := PriceShares(products + [x]), PriceShares(products) + [Times(x.price, x.stock)];
    forall i | 0 <= i < |all| ensures all[i] == before[i] {
      if i < |products| {
        assert (products + [x])[i] == products[i];
      }
    }
    assert all == before;
    SumAppend(PriceShares(products), Times(x.price, x.stock));
  }

  /** Adding a product raises both cards by exactly its own share. */
  lemma CardsAfterAdd(products: seq<Product>, f: ProductForm, newId: string)
    ensures var r := AddProduct(products, f, newId);
      && InventoryValue(r) == InventoryValue(products) + Times(f.cost, f.stock)
      && PotentialRevenue(r) == PotentialRevenue(products) + Times(f.price, f.stock)
  {
    var x := Product(newId, f.name, f.category, f.sku, f.price, f.cost, f.stock, f.reorderLevel, f.description);
    assert AddProduct(products, f, newId) == products + [x];
    InventoryValueAppend(products, x);
    PotentialRevenueAppend(products, x);
  }
}
