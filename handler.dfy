/**
 * The order handlers (internal/handler/api.go) with HTTP taken away: a
 * request is its method, its decoded body or path, and each reply is an
 * abstract result code. The order identifier and the clock reading are
 * injected.
 */
module Handler {
  import opened Wrappers
  import opened Models
  import opened Storage
  import opened Worker

  /** The replies the handlers give. */
  datatype Code = MethodNotAllowed | BadRequest | NotFound | Created | OK

  /** The route prefix of the single-order endpoint. */
  const OrdersPrefix: string := "/orders/"

  /** A request names a customer, a restaurant and at least one item. */
  predicate ValidRequest(req: OrderRequest) {
    req.CustomerID != "" && req.RestaurantID != "" && |req.Items| > 0
  }

  /**
   * The checks CreateOrder makes before it creates anything, in order:
   * the method must be POST, the body must decode, the request must be
   * valid. `body` is `None` when the body is not a decodable request.
   */
  function CheckCreate(httpMethod: string, body: Option<OrderRequest>): (r: Result<OrderRequest, Code>)
    ensures r == Err(MethodNotAllowed) <==> httpMethod != "POST"
    ensures r == Err(BadRequest) <==> httpMethod == "POST" && (body.None? || !ValidRequest(body.value))
    ensures r.Ok? <==> httpMethod == "POST" && body.Some? && ValidRequest(body.value)
    ensures r.Ok? ==> r.value == body.value
  {
    if httpMethod != "POST" then Err(MethodNotAllowed)
    else if body.None? then Err(BadRequest)
    else if !ValidRequest(body.value) then Err(BadRequest)
    else Ok(body.value)
  }

  /**
   * The pending order built from an accepted request with identifier `id`.
   * `createdAt` and `updatedAt` are two separate clock readings.
   */
  function NewOrder(req: OrderRequest, id: string, createdAt: Time, updatedAt: Time): (o: Order)
    ensures o.ID == id && o.Status == Pending
    ensures o.CreatedAt == createdAt && o.UpdatedAt == updatedAt
    ensures RequestOf(o) == req
  {
    Order(id, req.CustomerID, req.RestaurantID, req.Items, Pending, createdAt, updatedAt)
  }

  /** The order identifier of a request path: what follows the first |OrdersPrefix| characters. */
  function OrderIdOf(path: string): (id: string)
    requires |path| >= |OrdersPrefix|
    ensures path == path[..|OrdersPrefix|] + id
  {
    path[|OrdersPrefix|..]
  }

  /** The identifier of `/orders/<id>` is `<id>`. */
  lemma OrderIdOfPrefixed(id: string)
    ensures OrderIdOf(OrdersPrefix + id) == id
  {
  }

  class OrderHandler {
    const store: MemoryStorage
    const pool: Pool

    ghost predicate Valid()
      reads this, store, pool, pool.store
    {
      pool.store == store && store.Valid() && pool.Valid()
    }

    /** A handler over the store and the pool that works on that same store. */
    constructor (storage: MemoryStorage, pool: Pool)
      requires storage.Valid() && pool.Valid() && pool.store == storage
      ensures Valid()
      ensures store == storage && this.pool == pool
    {
      store := storage;
      this.pool := pool;
    }

    /**
     * Creates an order: a rejected request changes nothing; an accepted one
     * is saved as a new pending order and its identifier is queued.
     */
    method CreateOrder(httpMethod: string, body: Option<OrderRequest>, freshId: string, createdAt: Time, updatedAt: Time)
      returns (code: Code, created: Option<Order>)
      requires Valid()
      requires CheckCreate(httpMethod, body).Ok? ==> !pool.closed && |pool.queue| < pool.capacity
      modifies store, pool`queue
      ensures Valid()
      ensures CheckCreate(httpMethod, body).Err? ==>
        && code == CheckCreate(httpMethod, body).error && created == None
        && store.orders == old(store.orders) && pool.queue == old(pool.queue)
        && store.log == old(store.log)
      ensures CheckCreate(httpMethod, body).Ok? ==>
        && code == Created
        && created == Some(NewOrder(body.value, freshId, createdAt, updatedAt))
        && store.orders == Put(old(store.orders), created.value)
        && pool.queue == old(pool.queue) + [freshId]
        && store.log == old(store.log) + [store.orders]
    {
      var check := CheckCreate(httpMethod, body);
      if check.Err? {
        return check.error, None;
      }
      var order := NewOrder(check.value, freshId, createdAt, updatedAt);
      store.Save(order);
      pool.Submit(order.ID);
      code, created := Created, Some(order);
    }

    /**
     * Looks up the order named by the path. An empty identifier is a bad
     * request and the store is not consulted.
     */
    method GetOrder(httpMethod: string, path: string) returns (code: Code, found: Option<Order>)
      requires httpMethod == "GET" ==> |path| >= |OrdersPrefix|
      ensures httpMethod != "GET" ==> code == MethodNotAllowed && found == None
      ensures httpMethod == "GET" && OrderIdOf(path) == "" ==> code == BadRequest && found == None
      ensures httpMethod == "GET" && OrderIdOf(path) != "" ==>
        if OrderIdOf(path) in store.orders
        then code == OK && found == Some(store.orders[OrderIdOf(path)])
        else code == NotFound && found == None
    {
      if httpMethod != "GET" {
        return MethodNotAllowed, None;
      }
      var orderId := OrderIdOf(path);
      if orderId == "" {
        return BadRequest, None;
      }
      var r := store.Get(orderId);
      match r
      case Err(OrderNotFound) =>
        code, found := NotFound, None;
      case Ok(order) =>
        code, found := OK, Some(order);
    }

    /** Every stored order, exactly as the store lists them. */
    method GetAllOrders(httpMethod: string) returns (code: Code, all: seq<Order>)
      requires Valid()
      ensures httpMethod != "GET" ==> code == MethodNotAllowed && all == []
      ensures httpMethod == "GET" ==> code == OK && ListsEachOnce(all, store.orders)
    {
      if httpMethod != "GET" {
        return MethodNotAllowed, [];
      }
      all := store.GetAll();
      code := OK;
    }
  }
}
