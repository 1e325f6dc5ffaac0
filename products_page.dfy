/** The product admin page's edit session (`product/AdminProducts.jsx`): which product the form
    edits, and when that is cleared. The form is remounted whenever its key changes. */
module ProductsPage {
  import opened Common
  import opened Dto
  import ProductStore

  class Page {
    const store: ProductStore.Store
    var editingId: Option<int>
    var editData: Option<ProductResponse>

    constructor(store: ProductStore.Store)
      ensures this.store == store && editingId == None && editData == None
    {
      this.store := store;
      editingId := None;
      editData := None;
    }

    /** `handleSave`: the session ends only when the save resolves; a rejection keeps it. */
    method HandleSave(reply: Reply<ProductResponse>)
      modifies this, store
      ensures Accepted(reply) ==>
        && editingId == None && editData == None && KeyOf(editingId) == New
        && store.products == Saved(old(store.products), ProductStore.ProductKey, reply.body, old(editingId))
      ensures !Accepted(reply) ==>
        editingId == old(editingId) && editData == old(editData) && store.products == old(store.products)
      ensures !store.loading
    {
      var saved := store.SaveProduct(editingId, reply);
      if saved.Some? {
        editingId := None;
        editData := None;
      }
    }

    /** `handleEdit`: the form now edits `product` (the scroll to the top is not modelled). */
    method HandleEdit(product: ProductResponse)
      modifies this
      ensures editingId == Some(product.productId) && editData == Some(product)
    {
      editingId := Some(product.productId);
      editData := Some(product);
    }

    /** `handleCancel` */
    method HandleCancel()
      modifies this
      ensures editingId == None && editData == None
    {
      editingId := None;
      editData := None;
    }

    /** `handleDelete`: the edit session is left as it is, even when it edits the deleted id. */
    method HandleDelete(id: int, confirmed: bool, reply: Reply<()>)
      modifies store
      ensures editingId == old(editingId) && editData == old(editData)
      ensures confirmed && Accepted(reply) ==>
        store.products == RemoveByKey(old(store.products), ProductStore.ProductKey, id)
      ensures !(confirmed && Accepted(reply)) ==> store.products == old(store.products)
    {
      var _ := store.DeleteProduct(id, confirmed, reply);
    }
  }
}
