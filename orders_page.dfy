/** The order admin page (`order/AdminOrders.jsx`): which order the detail panel shows, whether
    the new-order form is open, and how each store call's outcome changes that. */
module OrdersPage {
  import opened Common
  import opened Dto
  import OrderStore

  /** What the right-hand panel renders. */
  datatype Panel = FormPanel | DetailPanel(order: OrderResponse) | EmptyPanel

  /** The open form wins over a selected order; the empty state shows only when neither is up. */
  function PanelOf(showForm: bool, selected: Option<OrderResponse>): (p: Panel)
    ensures p == FormPanel <==> showForm
    ensures p.DetailPanel? <==> !showForm && selected.Some?
    ensures p.DetailPanel? ==> p.order == selected.value
  {
    if showForm then FormPanel
    else if selected.Some? then DetailPanel(selected.value)
    else EmptyPanel
  }

  /** `selectedOrder?.orderId === id` */
  predicate Selects(selected: Option<OrderResponse>, id: int) {
    selected.Some? && selected.value.orderId == id
  }

  class Page {
    const store: OrderStore.Store
    var selectedOrder: Option<OrderResponse>
    var showForm: bool

    constructor(store: OrderStore.Store)
      ensures this.store == store && selectedOrder == None && !showForm
    {
      this.store := store;
      selectedOrder := None;
      showForm := false;
    }

    /** `handleCreateOrder`: a saved order closes the form; a rejected one keeps it open. */
    method HandleCreateOrder(reply: Reply<OrderResponse>)
      modifies this, store
      ensures showForm == (old(showForm) && !Accepted(reply))
      ensures selectedOrder == old(selectedOrder)
      ensures Accepted(reply) ==> store.orders == [reply.body] + old(store.orders)
      ensures !Accepted(reply) ==> store.orders == old(store.orders)
    {
      var saved := store.CreateOrder(reply);
      if saved.Some? {
        showForm := false;
      }
    }

    /** `handleStatusChange(orderId, newStatus)`: the detail panel takes the echoed order only
        when it shows the order whose status was changed. */
    method HandleStatusChange(orderId: int, reply: Reply<OrderResponse>)
      modifies this, store
      ensures Accepted(reply) && Selects(old(selectedOrder), orderId) ==> selectedOrder == Some(reply.body)
      ensures !(Accepted(reply) && Selects(old(selectedOrder), orderId)) ==> selectedOrder == old(selectedOrder)
      ensures showForm == old(showForm)
      ensures Accepted(reply) ==> store.orders == ReplaceByKey(old(store.orders), OrderStore.OrderKey, reply.body)
      ensures !Accepted(reply) ==> store.orders == old(store.orders)
    {
      var updated := store.UpdateOrderStatus(reply);
      if updated.Some? && selectedOrder.Some? && selectedOrder.value.orderId == orderId {
        selectedOrder := updated;
      }
    }

    /** `handleDelete(id)`: the selection is dropped only when the delete went through and it
        showed the deleted order. */
    method HandleDelete(id: int, confirmed: bool, reply: Reply<()>)
      modifies this, store
      ensures confirmed && Accepted(reply) && Selects(old(selectedOrder), id) ==> selectedOrder == None
      ensures !(confirmed && Accepted(reply) && Selects(old(selectedOrder), id)) ==> selectedOrder == old(selectedOrder)
      ensures showForm == old(showForm)
      ensures confirmed && Accepted(reply) ==> store.orders == RemoveByKey(old(store.orders), OrderStore.OrderKey, id)
      ensures !(confirmed && Accepted(reply)) ==> store.orders == old(store.orders)
    {
      var deleted := store.DeleteOrder(id, confirmed, reply);
      if deleted && selectedOrder.Some? && selectedOrder.value.orderId == id {
        selectedOrder := None;
      }
    }

    /** `handleViewDetail`: show the order, close the form. */
    method HandleViewDetail(order: OrderResponse)
      modifies this
      ensures selectedOrder == Some(order) && !showForm
      ensures PanelOf(showForm, selectedOrder) == DetailPanel(order)
    {
      selectedOrder := Some(order);
      showForm := false;
    }

    /** The "new order" button: open the form, clear the selection. */
    method OpenForm()
      modifies this
      ensures showForm && selectedOrder == None
      ensures PanelOf(showForm, selectedOrder) == FormPanel
    {
      showForm := true;
      selectedOrder := None;
    }

    /** The form's cancel: close it, keep the selection (which `OpenForm` has cleared). */
    method CloseForm()
      modifies this
      ensures !showForm && selectedOrder == old(selectedOrder)
    {
      showForm := false;
    }

    /** The detail panel's close button. */
    method CloseDetail()
      modifies this
      ensures selectedOrder == None && showForm == old(showForm)
    {
      selectedOrder := None;
    }
  }
}
