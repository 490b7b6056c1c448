/**
 * The in-memory order store (internal/storage/memory.go): a map from
 * order identifier to order. The read-write lock that serialises access
 * is not modelled; each operation is one atomic step.
 */
module Storage {
  import opened Wrappers
  import opened Models

  /** The only error the store reports. */
  datatype StoreError = OrderNotFound

  type Table = map<string, Order>

  /** Every order is filed under its own identifier. */
  ghost predicate Keyed(m: Table) {
    forall k :: k in m ==> m[k].ID == k
  }

  /** Two versions of one order that agree on every field except the status. */
  predicate SameButStatus(a: Order, b: Order) {
    && a.ID == b.ID
    && a.CustomerID == b.CustomerID
    && a.RestaurantID == b.RestaurantID
    && a.Items == b.Items
    && a.CreatedAt == b.CreatedAt
    && a.UpdatedAt == b.UpdatedAt
  }

  /** The table after saving `o`: last write wins on `o.ID`. */
  function Put(m: Table, o: Order): (r: Table)
    ensures r.Keys == m.Keys + {o.ID}
    ensures r[o.ID] == o
    ensures forall k :: k in m && k != o.ID ==> r[k] == m[k]
    ensures Keyed(m) ==> Keyed(r)
  {
    m[o.ID := o]
  }

  /**
   * The table after setting the status of the present order `id` to `s`.
   * Any target status is accepted, whatever the current one is, and
   * `UpdatedAt` is left as it was.
   */
  function WithStatus(m: Table, id: string, s: OrderStatus): (r: Table)
    requires id in m
    ensures r.Keys == m.Keys
    ensures r[id].Status == s && SameButStatus(m[id], r[id])
    ensures forall k :: k in m && k != id ==> r[k] == m[k]
    ensures Keyed(m) ==> Keyed(r)
  {
    m[id := m[id].(Status := s)]
  }

  /** `all` lists every order of `m` exactly once, in some order. */
  ghost predicate ListsEachOnce(all: seq<Order>, m: Table) {
    && |all| == |m|
    && (forall i :: 0 <= i < |all| ==> all[i].ID in m && m[all[i].ID] == all[i])
    && (forall k :: k in m ==> m[k] in all)
    && (forall i, j :: 0 <= i < j < |all| ==> all[i].ID != all[j].ID)
  }

  class MemoryStorage {
    var orders: Table
    /** Every table a write has produced, oldest first. */
    ghost var log: seq<Table>

    ghost predicate Valid()
      reads this
    {
      Keyed(orders)
    }

    /** A fresh store holds no order. */
    constructor ()
      ensures Valid() && orders == map[] && log == []
    {
      orders := map[];
      log := [];
    }

    /** The stored order, or `OrderNotFound` exactly when `id` is not a key. */
    method Get(id: string) returns (r: Result<Order, StoreError>)
      ensures r.Err? <==> id !in orders
      ensures r.Err? ==> r.error == OrderNotFound
      ensures r.Ok? ==> r.value == orders[id]
    {
      if id in orders {
        r := Ok(orders[id]);
      } else {
        r := Err(OrderNotFound);
      }
    }

    method Save(o: Order)
      requires Valid()
      modifies this
      ensures Valid()
      ensures orders == Put(old(orders), o)
      ensures log == old(log) + [orders]
    {
      orders := orders[o.ID := o];
      log := log + [orders];
    }

    /** Overwrites only the status; fails, changing nothing, on a missing key. */
    method UpdateStatus(id: string, status: OrderStatus) returns (e: Outcome<StoreError>)
      requires Valid()
      modifies this
      ensures Valid()
      ensures e.Fail? <==> id !in old(orders)
      ensures e.Fail? ==> e.error == OrderNotFound && orders == old(orders) && log == old(log)
      ensures e.Pass? ==> orders == WithStatus(old(orders), id, status) && log == old(log) + [orders]
    {
      if id !in orders {
        return Fail(OrderNotFound);
      }
      orders := orders[id := orders[id].(Status := status)];
      log := log + [orders];
      e := Pass;
    }

    /** Every stored order exactly once, in no guaranteed order. */
    method GetAll() returns (all: seq<Order>)
      requires Valid()
      ensures ListsEachOnce(all, orders)
    {
      all := [];
      var rest := orders.Keys;
      while rest != {}
        invariant rest <= orders.Keys
        invariant |all| + |rest| == |orders|
        invariant forall i :: 0 <= i < |all| ==> all[i].ID in orders && all[i].ID !in rest && orders[all[i].ID] == all[i]
        invariant forall k :: k in orders && k !in rest ==> orders[k] in all
        invariant forall i, j :: 0 <= i < j < |all| ==> all[i].ID != all[j].ID
        decreases rest
      {
        var k :| k in rest;
        all := all + [orders[k]];
        rest := rest - {k};
      }
    }
  }
}
