/** The Products page component: its state, its mount effect and its
    handlers. Every change to the list is written back whole under
    `shippy_products`, so the stored list always equals the shown one. */
module ProductsPage {
  import opened Wrappers
  import Text
  import opened ProductRecords
  import opened Storage

  class Products {
    const store: LocalStore
    var products: seq<Product>
    /** The row in edit mode: at most one id at a time. */
    var editingId: Option<string>
    var showAddForm: bool
    var newProduct: ProductFields

    /** The stored list is the shown list. */
    ghost predicate Valid()
      reads this, store
    {
      ProductsKey in store.entries && store.entries[ProductsKey] == ProductList(products)
    }

    /** Mounting: the initial state, then the effect that loads the stored
      list, or installs and stores the sample products when the key is absent. */
    constructor Mount(store: LocalStore)
      requires ProductsKey in store.entries ==> store.entries[ProductsKey].ProductList?
      modifies store
      ensures this.store == store && Valid()
      ensures ProductsKey in old(store.entries) ==> products == old(store.entries)[ProductsKey].products
      ensures ProductsKey !in old(store.entries) ==> products == SampleProducts()
      ensures store.entries == old(store.entries)[ProductsKey := ProductList(products)]
      ensures editingId == None && !showAddForm && newProduct == DefaultDraft()
    {
      this.store := store;
      products := [];
      editingId := None;
      showAddForm := false;
      newProduct := DefaultDraft();
      new;
      var saved := store.GetItem(ProductsKey);
      if saved.Some? {
        products := saved.value.products;
      } else {
        var initial := SampleProducts();
        products := initial;
        store.SetItem(ProductsKey, ProductList(initial));
      }
    }

    /** `saveProducts`: show the new list and store it whole. */
    method SaveProducts(updated: seq<Product>)
      modifies this, store
      ensures products == updated && Valid()
      ensures store.entries == old(store.entries)[ProductsKey := ProductList(updated)]
      ensures editingId == old(editingId) && showAddForm == old(showAddForm) && newProduct == old(newProduct)
    {
      products := updated;
      store.SetItem(ProductsKey, ProductList(updated));
    }

    /** `handleAddProduct`, with `newId` standing for `Date.now().toString()`:
      a draft whose trimmed name is non-empty is appended as the last record,
      stored, and the form is reset and hidden; otherwise nothing changes. */
    method HandleAddProduct(newId: string)
      requires Valid()
      modifies this, store
      ensures Valid() && editingId == old(editingId)
      ensures Text.Trim(old(newProduct).name) != "" ==>
        && products == old(products) + [Product(newId, old(newProduct))]
        && newProduct == DefaultDraft() && !showAddForm
        && store.entries == old(store.entries)[ProductsKey := ProductList(products)]
      ensures Text.Trim(old(newProduct).name) == "" ==>
        && products == old(products) && newProduct == old(newProduct) && showAddForm == old(showAddForm)
        && store.entries == old(store.entries)
    {
      if Text.Trim(newProduct.name) != "" {
        var product := Product(newId, newProduct);
        SaveProducts(products + [product]);
        newProduct := DefaultDraft();
        showAddForm := false;
      }
    }

    /** `handleEditProduct`: apply the edit to the records with that id and
      store the list. */
    method HandleEditProduct(id: string, e: ProductEdit)
      requires Valid()
      modifies this, store
      ensures Valid()
      ensures products == EditProducts(old(products), id, e)
      ensures store.entries == old(store.entries)[ProductsKey := ProductList(products)]
      ensures editingId == old(editingId) && showAddForm == old(showAddForm) && newProduct == old(newProduct)
    {
      SaveProducts(EditProducts(products, id, e));
    }

    /** `handleDeleteProduct`: drop the records with that id and store the list. */
    method HandleDeleteProduct(id: string)
      requires Valid()
      modifies this, store
      ensures Valid()
      ensures products == DeleteProducts(old(products), id)
      ensures store.entries == old(store.entries)[ProductsKey := ProductList(products)]
      ensures editingId == old(editingId) && showAddForm == old(showAddForm) && newProduct == old(newProduct)
    {
      SaveProducts(DeleteProducts(products, id));
    }

    /** The edit button of a row: that row, and only that id, is in edit
      mode; a row edited before leaves edit mode. */
    method StartEditing(id: string)
      requires Valid()
      modifies this
      ensures Valid() && editingId == Some(id)
      ensures products == old(products) && showAddForm == old(showAddForm) && newProduct == old(newProduct)
    {
      editingId := Some(id);
    }

    /** The save and the cancel button of the row in edit mode, which do the
      same: leave edit mode. Edits were stored keystroke by keystroke, so
      cancelling reverts nothing. */
    method StopEditing()
      requires Valid()
      modifies this
      ensures Valid() && editingId == None
      ensures products == old(products) && showAddForm == old(showAddForm) && newProduct == old(newProduct)
    {
      editingId := None;
    }

    /** "Add Product": show or hide the add form. */
    method ToggleAddForm()
      requires Valid()
      modifies this
      ensures Valid() && showAddForm == !old(showAddForm)
      ensures products == old(products) && editingId == old(editingId) && newProduct == old(newProduct)
    {
      showAddForm := !showAddForm;
    }

    /** The cancel button of the add form: hide it, keeping the draft. */
    method CloseAddForm()
      requires Valid()
      modifies this
      ensures Valid() && !showAddForm
      ensures products == old(products) && editingId == old(editingId) && newProduct == old(newProduct)
    {
      showAddForm := false;
    }

    /** An input of the add form: change one field of the draft. */
    method EditDraft(e: ProductEdit)
      requires Valid()
      modifies this
      ensures Valid() && newProduct == Edited(old(newProduct), e)
      ensures products == old(products) && editingId == old(editingId) && showAddForm == old(showAddForm)
    {
      newProduct := Edited(newProduct, e);
    }
  }
}
