/** Product records and the pure list transforms of the Products page:
    the sample inventory, the add-form draft, and the `map`/`filter`
    expressions that edit and delete records by id. */
module ProductRecords {
  import opened RecordLists

  /** Every product field except the id: the shape of the add-form draft
      `newProduct`. Prices are whole rupees (the page parses them as floats). */
  datatype ProductFields = ProductFields(
    name: string,
    category: string,
    stock: int,
    price: int,
    gst: string,
    condition: string)

  /** A stored product: `{ id, ...fields }`. */
  datatype Product = Product(id: string, fields: ProductFields)

  function IdOf(p: Product): string {
    p.id
  }

  ghost predicate UniqueIds(ps: seq<Product>) {
    UniqueKeys(ps, IdOf)
  }

  function IdSet(ps: seq<Product>): set<string> {
    set p | p in ps :: p.id
  }

  const Categories := ["T-Shirt", "Pants", "Shoes", "Watches", "Accessories", "Electronics", "Sports"]
  const GstRates := ["0%", "5%", "12%", "18%", "28%"]
  const Conditions := ["New", "Good", "Fair", "Refurbished", "Used"]

  /** The draft the add form starts from and is reset to after a successful add. */
  function DefaultDraft(): (d: ProductFields)
    ensures d.name == "" && d.stock == 0 && d.price == 0
    ensures d.category in Categories && d.gst in GstRates && d.condition in Conditions
  {
    ProductFields("", "T-Shirt", 0, 0, "18%", "New")
  }

  function Sample(id: string, name: string, category: string, stock: int, price: int): Product {
    Product(id, ProductFields(name, category, stock, price, "18%", "New"))
  }

  /** The ten products installed when nothing is stored yet. */
  function SampleProducts(): (ps: seq<Product>)
    ensures |ps| == 10
    ensures forall i :: 0 <= i < |ps| ==> ps[i].id == ["1", "2", "3", "4", "5", "6", "7", "8", "9", "10"][i]
    ensures ps[0] == Product("1", ProductFields("Cotton T-Shirt", "T-Shirt", 150, 599, "18%", "New"))
    ensures forall i :: 0 <= i < |ps| ==>
      ps[i].fields.category in Categories && ps[i].fields.gst == "18%" && ps[i].fields.condition == "New"
  {
    [ Sample("1", "Cotton T-Shirt", "T-Shirt", 150, 599),
      Sample("2", "Polo T-Shirt", "T-Shirt", 120, 799),
      Sample("3", "Denim Jeans", "Pants", 80, 1299),
      Sample("4", "Cargo Pants", "Pants", 60, 1599),
      Sample("5", "Running Shoes", "Shoes", 45, 2499),
      Sample("6", "Casual Sneakers", "Shoes", 35, 1899),
      Sample("7", "Smart Watch", "Watches", 25, 4999),
      Sample("8", "Analog Watch", "Watches", 40, 2299),
      Sample("9", "Leather Belt", "Accessories", 70, 899),
      Sample("10", "Sunglasses", "Accessories", 55, 1199) ]
  }

  /** The sample ids "1" to "10" are pairwise distinct. */
  lemma SampleProductsUnique()
    ensures UniqueIds(SampleProducts())
  {
    var ps := SampleProducts();
    forall i, j | 0 <= i < j < |ps| ensures IdOf(ps[i]) != IdOf(ps[j]) {
      assert ps[i].id == ["1", "2", "3", "4", "5", "6", "7", "8", "9", "10"][i];
      assert ps[j].id == ["1", "2", "3", "4", "5", "6", "7", "8", "9", "10"][j];
    }
  }

  /** The editable fields, named as in the `keyof Product` argument. */
  datatype ProductField = Name | Category | Stock | Price | Gst | Condition

  /** A field's value: the text and number columns of the table. */
  datatype ProductValue = Text(text: string) | Number(number: int)

  function Get(p: ProductFields, f: ProductField): ProductValue {
    match f
    case Name => Text(p.name)
    case Category => Text(p.category)
    case Stock => Number(p.stock)
    case Price => Number(p.price)
    case Gst => Text(p.gst)
    case Condition => Text(p.condition)
  }

  /** One inline edit: the field an input of the table writes and the value
      it writes there. */
  datatype ProductEdit =
    | SetName(name: string)
    | SetCategory(category: string)
    | SetStock(stock: int)
    | SetPrice(price: int)
    | SetGst(gst: string)
    | SetCondition(condition: string)
  {
    function Field(): ProductField {
      match this
      case SetName(_) => Name
      case SetCategory(_) => Category
      case SetStock(_) => Stock
      case SetPrice(_) => Price
      case SetGst(_) => Gst
      case SetCondition(_) => Condition
    }

    function Value(): ProductValue {
      match this
      case SetName(s) => Text(s)
      case SetCategory(s) => Text(s)
      case SetStock(n) => Number(n)
      case SetPrice(n) => Number(n)
      case SetGst(s) => Text(s)
      case SetCondition(s) => Text(s)
    }
  }

  /** `{ ...p, [field]: value }`: the edited field takes the new value and
      every other field keeps its old one. */
  function Edited(p: ProductFields, e: ProductEdit): (q: ProductFields)
    ensures Get(q, e.Field()) == e.Value()
    ensures forall g :: g != e.Field() ==> Get(q, g) == Get(p, g)
  {
    match e
    case SetName(s) => p.(name := s)
    case SetCategory(s) => p.(category := s)
    case SetStock(n) => p.(stock := n)
    case SetPrice(n) => p.(price := n)
    case SetGst(s) => p.(gst := s)
    case SetCondition(s) => p.(condition := s)
  }

  function HasId(id: string): Product -> bool {
    (p: Product) => p.id == id
  }

  function OtherThan(id: string): Product -> bool {
    (p: Product) => p.id != id
  }

  function EditWith(e: ProductEdit): Product -> Product {
    (p: Product) => p.(fields := Edited(p.fields, e))
  }

  /** `products.map(p => p.id === id ? { ...p, [field]: value } : p)`:
      the same records in the same order, the edit applied to those whose
      id matches and to nothing else; an unknown id changes nothing. */
  function EditProducts(ps: seq<Product>, id: string, e: ProductEdit): (r: seq<Product>)
    ensures |r| == |ps|
    ensures forall i :: 0 <= i < |ps| ==> r[i].id == ps[i].id
    ensures forall i :: 0 <= i < |ps| && ps[i].id == id ==> r[i].fields == Edited(ps[i].fields, e)
    ensures forall i :: 0 <= i < |ps| && ps[i].id != id ==> r[i] == ps[i]
    ensures id !in IdSet(ps) ==> r == ps
  {
    var r := MapWhere(ps, HasId(id), EditWith(e));
    assert id !in IdSet(ps) ==> r == ps by {
      if id !in IdSet(ps) {
        forall i | 0 <= i < |ps| ensures r[i] == ps[i] {
          assert ps[i] in ps;
        }
      }
    }
    r
  }

  /** `products.filter(p => p.id !== id)`: the records with another id, and
      only those; none with `id` is left. */
  function DeleteProducts(ps: seq<Product>, id: string): (r: seq<Product>)
    ensures forall p :: p in r <==> p in ps && p.id != id
    ensures id !in IdSet(r)
  {
    Filter(ps, OtherThan(id))
  }

  /** Deleting keeps the survivors in their original relative order. */
  lemma DeleteKeepsOrder(a: seq<Product>, b: seq<Product>, id: string)
    ensures DeleteProducts(a + b, id) == DeleteProducts(a, id) + DeleteProducts(b, id)
  {
    FilterAppend(a, b, OtherThan(id));
  }

  /** With unique ids, deleting removes exactly one record when the id is
      present and returns the list unchanged when it is not. */
  lemma DeleteLength(ps: seq<Product>, id: string)
    requires UniqueIds(ps)
    ensures id in IdSet(ps) ==> |DeleteProducts(ps, id)| == |ps| - 1
    ensures id !in IdSet(ps) ==> DeleteProducts(ps, id) == ps
  {
    if id in IdSet(ps) {
      var k :| 0 <= k < |ps| && ps[k].id == id;
      forall i | 0 <= i < |ps| && i != k ensures OtherThan(id)(ps[i]) {
        assert IdOf(ps[i]) != IdOf(ps[k]);
      }
      FilterDropsOne(ps, OtherThan(id), k);
    } else {
      forall i | 0 <= i < |ps| ensures OtherThan(id)(ps[i]) {
        assert ps[i] in ps;
      }
      FilterKeepsAll(ps, OtherThan(id));
    }
  }

  /** Deleting the same id twice is deleting it once. */
  lemma DeleteIdempotent(ps: seq<Product>, id: string)
    ensures DeleteProducts(DeleteProducts(ps, id), id) == DeleteProducts(ps, id)
  {
    FilterIdempotent(ps, OtherThan(id));
  }

  /** Unique ids stay unique under edit, delete, and an add whose id is fresh. */
  lemma UniqueIdsPreserved(ps: seq<Product>, id: string, e: ProductEdit, draft: ProductFields, newId: string)
    requires UniqueIds(ps)
    ensures UniqueIds(EditProducts(ps, id, e))
    ensures UniqueIds(DeleteProducts(ps, id))
    ensures newId !in IdSet(ps) ==> UniqueIds(ps + [Product(newId, draft)])
  {
    FilterKeepsUniqueKeys(ps, IdOf, OtherThan(id));
    if newId !in IdSet(ps) {
      var r := ps + [Product(newId, draft)];
      forall i, j | 0 <= i < j < |r| ensures IdOf(r[i]) != IdOf(r[j]) {
        if j == |ps| {
          assert r[i] in ps;
        }
      }
    }
  }
}
