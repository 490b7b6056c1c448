# Order processing service — a Dafny model

This project models the core of a small Go order-processing service. A
creation request is validated and turned into a `pending` order. The order
is saved in an in-memory store keyed by order identifier, and its identifier
is queued to a worker pool. A worker takes the identifier off the bounded
queue and marks the order `processing`. It then asks the processing stage
for a verdict and marks the order `completed` or `failed`.

The model is sequential: one operation at a time, one worker step at a time.

- `models.dfy` (`Models`): the `Order` record, the four-valued `OrderStatus`
  and its string values (`StatusName`, read back by `ParseStatus`),
  `OrderRequest`, and the order lifecycle. The
  request's three fields have the same names and types as the order's
  (the two datatype declarations).
- `storage.dfy` (`Storage`): `MemoryStorage`, a class over
  `map<string, Order>` with `Get`, `Save`, `UpdateStatus` and `GetAll`.
  The pure functions `Put` and `WithStatus` give the table after `Save` and
  after a successful `UpdateStatus`. A ghost write log records every table
  a write produces, so that the statuses an order passes through are part
  of the methods' contracts.
- `worker.dfy` (`Worker`): `Pool`, a class holding the queue as a
  `seq<string>`, its capacity, a closed flag and the store.
  - `Step` is one pass of a worker's loop body. `Close` marks the queue
    closed and drains it by repeated steps.
  - The pure functions `StepTable`, `Run` and `Trace` describe one step, a
    whole drain, and every table the store passes through. The lifecycle
    lemmas are stated over them. `Step` and `Close` promise that the store's
    write log grows by exactly the tables `Trace` lists, so those lemmas are
    about the writes the methods make.
- `handler.dfy` (`Handler`): the create/get/get-all handlers with HTTP
  removed. Each reply is an abstract code: method not allowed, bad request,
  not found, created or OK.
- `wrappers.dfy` (`Wrappers`): `Option`, `Result` and `Outcome`, which stand
  in for Go's `(value, error)` returns.

Inputs the model does not compute are parameters:
- the processing stage, an oracle `stage: string -> bool` from order
  identifier to success;
- the new order's identifier (`freshId`);
- the two clock readings for the new order's timestamps (`createdAt`, `updatedAt`).

## Model

| member | source | states |
|---|---|---|
| Models.ParseStatus | internal/models/order.go:16-23 | a string reads back as status `s` exactly when it is the string value of `s`; any other string reads back as nothing |
| Models.StatusNameInjective | internal/models/order.go:19-22 | the four status string values are pairwise distinct, so two statuses with the same string value are the same status, and a status's string value parses back to it |
| Models.AdvancesIsForward | internal/worker/pool.go:46-61 | each lifecycle transition raises progress; no transition leaves completed or failed; pending never jumps straight to a terminal status |
| Models.LifecycleNeverRegresses | internal/worker/pool.go:46-61 | in a status history where each entry repeats or advances the previous one, a later entry is never behind an earlier one |
| Storage.Put | internal/storage/memory.go:37-41 | saving `o` files it under `o.ID`, overwriting any order already there; every other key and order is kept; keys are the old keys plus `o.ID` |
| Storage.WithStatus | internal/storage/memory.go:43-54 | on a present id: the key set is kept, the order's status becomes the target whatever it was, every other field (UpdatedAt included) and every other order is unchanged |
| Storage.MemoryStorage.constructor | internal/storage/memory.go:19-23 | a new store is empty and has written nothing |
| Storage.MemoryStorage.Get | internal/storage/memory.go:26-35 | fails with OrderNotFound exactly when the id is not a key; otherwise returns the stored order |
| Storage.MemoryStorage.Save | internal/storage/memory.go:37-41 | the table becomes `Put(old table, o)` (last write wins), and that table is appended to the write log |
| Storage.MemoryStorage.UpdateStatus | internal/storage/memory.go:43-54 | fails with OrderNotFound exactly when the id is absent, leaving the table unchanged; otherwise the table becomes `WithStatus(old table, id, status)`, with no transition check, and that table is appended to the write log |
| Storage.MemoryStorage.GetAll | internal/storage/memory.go:57-66 | returns as many orders as there are keys, each the order stored under its own ID, every stored order present, no ID twice |
| Worker.StepTable | internal/worker/pool.go:42-64 | one step on `id`: a missing id changes nothing; a present order ends Completed on success and Failed on failure, every other field kept; all other orders and the key set are unchanged |
| Worker.Run | internal/worker/pool.go:41-65 | draining a queue keeps the key set and keeps every order filed under its own ID |
| Worker.Trace | internal/worker/pool.go:46-61 | the tables the store passes through start at the initial table and all have its key set |
| Worker.TraceUnfold | internal/worker/pool.go:42-64 | after its first table, a trace is the head step's writes (processing, then the verdict, or nothing for a missing id) followed by the trace of the rest of the queue |
| Worker.StepKeepsDrain | internal/worker/pool.go:41-65 | the writes of one step plus the writes still to come in the rest of the drain are the writes of the whole drain |
| Worker.TraceEndsInRun | internal/worker/pool.go:41-65 | the last table of the trace is the table after the whole drain |
| Worker.NotQueuedUntouched | internal/worker/pool.go:46-61 | an order whose id is not queued is the same in every table of the trace and after the drain |
| Worker.RunEndsTerminal | internal/worker/pool.go:41-65 | every queued id that the store holds ends Completed or Failed |
| Worker.QueuedOnceGetsVerdict | internal/worker/pool.go:52-61 | an id queued exactly once ends with the stage's verdict (Completed on success, Failed on failure), every other field unchanged |
| Worker.QueuedOnceFollowsLifecycle | internal/worker/pool.go:46-61 | an order queued at most once that starts Pending only moves Pending to Processing to Completed or Failed; each write repeats or advances its status |
| Worker.QueuedOnceNeverRegresses | internal/worker/pool.go:46-61 | under the same conditions, the order's status never goes backwards along the trace |
| Worker.RequeuedOrderRegresses | internal/worker/pool.go:46-61 | when an id is queued twice, its order goes from Completed back to Processing, because the store checks no transition |
| Worker.Pool.constructor | internal/worker/pool.go:20-26 | a new pool has an empty, open queue whose capacity is the queue size, over the given store |
| Worker.Pool.Start | internal/worker/pool.go:29-39 | the pool's workers are started; nothing else changes |
| Worker.Pool.Submit | internal/worker/pool.go:92-94 | on an open queue that is not full, appends the id at the tail and leaves earlier entries unchanged |
| Worker.Pool.ProcessOrder | internal/worker/pool.go:68-89 | succeeds exactly when the order is present and the stage succeeds; a missing order gives the store's OrderNotFound |
| Worker.Pool.Step | internal/worker/pool.go:42-64 | removes exactly the head id; the table becomes `StepTable` of the old table on that id; the outcome is skipped exactly when the id was missing and failed exactly when the stage failed; the write log grows by exactly the step's two writes (processing, then the verdict) for a present id and by nothing for a missing one |
| Worker.Pool.Close | internal/worker/pool.go:97-104 | the queue becomes closed; with workers running it ends empty, the table is the drain of the old queue, and every drained id in the store ends Completed or Failed, and the store's write log grows by exactly the tables of `Trace` after its first; with none, queue, table and log are unchanged |
| Handler.CheckCreate | internal/handler/api.go:30-46 | a non-POST request is method-not-allowed; a POST whose body does not decode, or lacks a customer, a restaurant or items, is a bad request; otherwise the request is accepted unchanged |
| Handler.NewOrder | internal/handler/api.go:49-57 | the new order has the given id, status Pending, CreatedAt and UpdatedAt from two separate clock readings, and the request's three fields unchanged |
| Handler.OrderIdOf | internal/handler/api.go:81 | the id is what follows the first eight characters of the path |
| Handler.OrderIdOfPrefixed | internal/handler/api.go:81 | the id of `/orders/` followed by `x` is `x` |
| Handler.OrderHandler.constructor | internal/handler/api.go:22-27 | the handler holds the given store and pool; it is well formed when the pool works on that same store, as the server wires them |
| Handler.OrderHandler.CreateOrder | internal/handler/api.go:30-71 | a rejected request gives its code and changes neither store, write log nor queue; an accepted one gives Created, saves the new pending order under its id (one write), and appends that same id to the queue of the pool that works on this store |
| Handler.OrderHandler.GetOrder | internal/handler/api.go:74-101 | non-GET is method-not-allowed; an empty id is a bad request; a missing id is not-found; otherwise OK with the stored order |
| Handler.OrderHandler.GetAllOrders | internal/handler/api.go:104-115 | non-GET is method-not-allowed; otherwise OK with every stored order exactly once, as `GetAll` lists them |

## Left out

- Concurrency: the goroutines launched by `Start`, the `sync.WaitGroup`
  (including the second `Wait` in `Close`) and the store's `sync.RWMutex`.
  Several workers interleaving are not modelled; the model takes one
  operation or one worker step at a time.
- Channel blocking becomes a precondition. `Submit` requires an open queue
  that is not full; blocking on a full queue and the panic on a closed one
  are not modelled. A queue of size 0 (an unbuffered channel, where a send
  waits for a receiver) therefore accepts no `Submit` in the model.
- Worker.Pool.constructor: the queue size is a `nat`. A negative size, on
  which creating the channel panics, is not modelled.
- Worker.Pool.Close: requires a pool that is not yet closed. Closing an
  already closed channel panics in the source, and that panic is not
  modelled.
- A worker step requires a started pool with at least one worker and a
  non-empty queue. The receive that blocks on an empty queue is not
  modelled.
- Worker.Pool.Start: the number of workers is kept only as "at least one
  worker exists". Starting twice, which launches a second set of workers in
  the source, is the same as starting once in the sequential model.
- Worker.Pool.ProcessOrder: the sleeps that simulate latency are left out.
  The success or failure of the processing stage is the injected oracle
  `stage`, a function of the order identifier. The random failure is
  commented out in the source, so there the stage never fails; the oracle
  covers both cases. An identifier queued twice gets the same verdict both
  times.
- Aliasing of stored orders: `Get` and `GetAll` hand out, and `Save` keeps, the
  caller's `*Order`. The model stores orders as values, so a caller cannot
  change a stored order behind the store's back.
- Time: `CreatedAt`, `UpdatedAt` and the `ORD-<nanoseconds>` identifier come
  from three clock readings in the source. They are the parameters
  `createdAt`, `updatedAt` and `freshId`, which need not agree.
  Nothing makes identifiers unique: two requests given the same identifier
  overwrite each other through `Save`.
- HTTP and JSON: decoding, encoding, headers and response writing. A body
  that does not decode is `None`. Each reply is an abstract code. The
  internal-server-error branch of `GetOrder` cannot be reached, because the
  store reports no error other than OrderNotFound.
- Handler.OrderHandler.GetOrder: the path is sliced at a fixed length, with
  no check of the prefix. The router registered in cmd/server/main.go only
  routes paths starting with `/orders/`, so the model requires only that the
  path is at least that long.
- Logging: every `log.Printf` call. `StepOutcome` keeps only what the worker
  logs about each step (skipped, failed or completed).
- cmd/server/main.go is not part of this model. It wires the server
  together, registers the routes, handles OS signals, and passes the
  constants 5 workers and queue size 100.
