/** The admin client's product store (`useProducts`): the product list, the loading flag and
    the status banner, updated by each request's callbacks. The server's answer to a request is
    a parameter, and so is the user's answer to the confirmation dialog. */
module ProductStore {
  import opened Common
  import opened Dto

  function ProductKey(p: ProductResponse): int {
    p.productId
  }

  class Store {
    var products: seq<ProductResponse>
    var loading: bool
    var message: Message

    constructor()
      ensures products == [] && !loading && message == Blank
    {
      products := [];
      loading := false;
      message := Blank;
    }

    /** `showMessage`: the banner holds the latest message (its timed expiry is not modelled). */
    method ShowMessage(level: Level, notice: Notice)
      modifies this
      ensures message == Shown(level, notice)
      ensures products == old(products) && loading == old(loading)
    {
      message := Shown(level, notice);
    }

    /** `fetchProducts`: the body of any response replaces the list (the status is not
        checked); without a usable response the list stays and an error is shown. */
    method FetchProducts(reply: Reply<seq<ProductResponse>>)
      modifies this
      ensures reply.Answered? ==> products == reply.body && message == old(message)
      ensures reply.NoReply? ==> products == old(products) && message == Shown(Error, ListFailed)
      ensures !loading
    {
      loading := true;
      if reply.Answered? {
        products := reply.body;
        loading := false;
      } else {
        ShowMessage(Error, ListFailed);
        loading := false;
      }
    }

    /** `saveProduct`: `Some(saved)` is the promise resolving with the saved product, `None`
        its rejection (rethrown after the error is shown). */
    method SaveProduct(editingId: Option<int>, reply: Reply<ProductResponse>) returns (r: Option<ProductResponse>)
      modifies this
      ensures Accepted(reply) ==>
        && r == Some(reply.body)
        && products == Saved(old(products), ProductKey, reply.body, editingId)
        && message == Shown(Success, if Truthy(editingId) then Updated else Created)
      ensures !Accepted(reply) ==> r == None && products == old(products) && message == Shown(Error, SaveFailed)
      ensures !loading
    {
      loading := true;
      if !reply.Answered? || !reply.ok {
        ShowMessage(Error, SaveFailed);
        r := None;
      } else {
        var saved := reply.body;
        if Truthy(editingId) {
          products := ReplaceByKey(products, ProductKey, saved);
        } else {
          products := [saved] + products;
        }
        ShowMessage(Success, if Truthy(editingId) then Updated else Created);
        r := Some(saved);
      }
      loading := false;
    }

    /** `deleteProduct`: declined confirmation resolves `false` and touches nothing. */
    method DeleteProduct(id: int, confirmed: bool, reply: Reply<()>) returns (deleted: bool)
      modifies this
      ensures !confirmed ==> !deleted && products == old(products) && loading == old(loading) && message == old(message)
      ensures confirmed ==> deleted == Accepted(reply) && !loading
      ensures confirmed && deleted ==>
        products == RemoveByKey(old(products), ProductKey, id) && message == Shown(Success, Deleted)
      ensures confirmed && !deleted ==> products == old(products) && message == Shown(Error, DeleteFailed)
    {
      if !confirmed {
        return false;
      }
      loading := true;
      if reply.Answered? && reply.ok {
        products := RemoveByKey(products, ProductKey, id);
        ShowMessage(Success, Deleted);
        deleted := true;
      } else {
        ShowMessage(Error, DeleteFailed);
        deleted := false;
      }
      loading := false;
    }
  }
}
