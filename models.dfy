/**
 * The order record, its status and the creation request
 * (internal/models/order.go).
 */
module Models {
  import opened Wrappers

  /** A `time.Time` instant, as nanoseconds since an epoch. */
  type Time = int

  /** The closed set of statuses an order can be in. */
  datatype OrderStatus = Pending | Processing | Completed | Failed

  /** An order as the store keeps it. `Items` keeps the request's order. */
  datatype Order = Order(
    ID: string,
    CustomerID: string,
    RestaurantID: string,
    Items: seq<string>,
    Status: OrderStatus,
    CreatedAt: Time,
    UpdatedAt: Time)

  /** The body of a creation request. */
  datatype OrderRequest = OrderRequest(
    CustomerID: string,
    RestaurantID: string,
    Items: seq<string>)

  /** The string value behind each `OrderStatus` constant. */
  function StatusName(s: OrderStatus): string {
    match s
    case Pending => "pending"
    case Processing => "processing"
    case Completed => "completed"
    case Failed => "failed"
  }

  /** Reads a status back from its string value; `None` for any other string. */
  function ParseStatus(t: string): (r: Option<OrderStatus>)
    ensures r.Some? ==> StatusName(r.value) == t
    ensures r.None? ==> forall s :: StatusName(s) != t
  {
    if t == "pending" then Some(Pending)
    else if t == "processing" then Some(Processing)
    else if t == "completed" then Some(Completed)
    else if t == "failed" then Some(Failed)
    else None
  }

  /** The four string values are pairwise distinct: naming a status loses nothing. */
  lemma StatusNameInjective(a: OrderStatus, b: OrderStatus)
    ensures StatusName(a) == StatusName(b) <==> a == b
    ensures ParseStatus(StatusName(a)) == Some(a)
  {
  }

  /** The request fields an order carries over, under the same names and types. */
  function RequestOf(o: Order): OrderRequest {
    OrderRequest(o.CustomerID, o.RestaurantID, o.Items)
  }

  /** A terminal status: no transition leaves it. */
  predicate IsTerminal(s: OrderStatus) {
    s == Completed || s == Failed
  }

  /** The lifecycle's forward transitions: pending to processing, processing to a terminal status. */
  predicate Advances(from: OrderStatus, to: OrderStatus) {
    (from == Pending && to == Processing) || (from == Processing && IsTerminal(to))
  }

  /** How far along the lifecycle a status lies. */
  function Progress(s: OrderStatus): nat {
    match s
    case Pending => 0
    case Processing => 1
    case Completed => 2
    case Failed => 2
  }

  /** Every transition strictly raises progress; a terminal status has no way out. */
  lemma AdvancesIsForward(a: OrderStatus, b: OrderStatus)
    ensures Advances(a, b) ==> Progress(a) < Progress(b)
    ensures IsTerminal(a) ==> !Advances(a, b)
    ensures Advances(a, b) ==> !(a == Pending && IsTerminal(b))
  {
  }

  /** A history of statuses in which each entry repeats the previous one or advances it. */
  predicate FollowsLifecycle(h: seq<OrderStatus>) {
    forall i :: 0 <= i < |h| - 1 ==> h[i] == h[i + 1] || Advances(h[i], h[i + 1])
  }

  /** A legal first move in front of a history keeps it following the lifecycle. */
  lemma PrependFollowsLifecycle(s: OrderStatus, h: seq<OrderStatus>)
    requires FollowsLifecycle(h)
    requires h != [] ==> s == h[0] || Advances(s, h[0])
    ensures FollowsLifecycle([s] + h)
  {
  }

  /** A history that follows the lifecycle never goes backwards. */
  lemma {:induction false} LifecycleNeverRegresses(h: seq<OrderStatus>)
    requires FollowsLifecycle(h)
    ensures forall i, j :: 0 <= i <= j < |h| ==> Progress(h[i]) <= Progress(h[j])
  {
    if |h| > 1 {
      var p := h[..|h| - 1];
      assert FollowsLifecycle(p) by {
        forall i | 0 <= i < |p| - 1
          ensures p[i] == p[i + 1] || Advances(p[i], p[i + 1])
        {
          assert p[i] == h[i] && p[i + 1] == h[i + 1];
        }
      }
      LifecycleNeverRegresses(p);
      var n := |h| - 1;
      assert Progress(h[n - 1]) <= Progress(h[n]);
      forall i, j | 0 <= i <= j < |h|
        ensures Progress(h[i]) <= Progress(h[j])
      {
        if j < n {
          assert h[i] == p[i] && h[j] == p[j];
        } else if i < n {
          assert h[i] == p[i] && h[n - 1] == p[n - 1];
        }
      }
    }
  }
}
