# Request routing of the arx supervisor, in Dafny

The supervisor routes each client request to one processing node.
- It reads the healthy nodes from its database.
- It keeps the three nodes nearest to the request's coordinate.
- Among those it chooses the node with the lowest load score.
- The load score weighs CPU by 0.4, memory by 0.3 and connections over capacity by 0.3.

This project models that selection engine (`routing/algorithm.go`). It also models:
- the service layer that converts database rows to model nodes and composes the steps;
- the node and routing-request records, with the five nullable-string scanners of a routing request.

Modules:
- `Wrappers` (`wrappers.dfy`): `Option` for Go's nil pointers and `Result` for Go's `(T, error)` pairs.
- `Models` (`models.dfy`): `Node`, `Location` and the `RoutingRequest` class, a class because its `Scan*` methods update its fields in place.
- `Algorithm` (`algorithm.dfy`):
  - distance and load score are pure functions;
  - `FindKNearestNodes` is a method with the source's three phases, each a method with its loop: filter with distances, an in-place sort of an array, take the first k;
  - `SelectBestNode` is a method with its scan loop.
- `Service` (`service.dfy`): the row types of the database layer, `convertDBNodeToModel`, and the post-query logic of `RouteRequest` and `GetAllNodes`. The query result, rows or an error, is an input.

Main specifications:
- `IsKNearest(h, x, y, k, r)`: `r` has `min(k, |h|)` nodes, in non-decreasing distance. Together with some remaining nodes it is a permutation of `h`, and no remaining node is strictly closer than a kept one. This fixes the answer up to the order of equally distant nodes, which `sort.Slice` leaves open.
- `IsFirstLeastLoaded(nodes, best)`: `best` is the node at some index whose score is at most every score, and strictly below every score before it.
- `RoutedTo(rows, c, n)`: `n` is the first least-loaded node of some valid choice of the three nearest healthy converted rows.

## Model

| member | source | states |
|---|---|---|
| Algorithm.SquaredDistance | supervisor/internal/routing/algorithm.go:10-12 | the (squared) distance is non-negative and is zero when the two points coincide |
| Algorithm.DistanceSymmetric | supervisor/internal/routing/algorithm.go:10-12 | the distance is symmetric in its two points |
| Algorithm.HealthyCandidates | supervisor/internal/routing/algorithm.go:20-29 | the append loop yields exactly the healthy nodes, in input order, each paired with its distance to the request |
| Algorithm.SortByDistance | supervisor/internal/routing/algorithm.go:31-34 | the in-place sort leaves the candidates in non-decreasing distance and is a permutation of them |
| Algorithm.TakeNodes | supervisor/internal/routing/algorithm.go:36-40 | the counted loop returns the nodes of the first min(k, length) sorted candidates, in order |
| Algorithm.FindKNearestNodes | supervisor/internal/routing/algorithm.go:14-43 | for k >= 0 the result is a valid k-nearest answer for the healthy nodes, and every returned node is a healthy input node |
| Algorithm.PrefixIsKNearest | supervisor/internal/routing/algorithm.go:31-40 | the first min(k, n) entries of a distance-sorted permutation of the healthy nodes are a valid k-nearest answer |
| Algorithm.KNearestFromInput | supervisor/internal/routing/algorithm.go:37-40 | a k-nearest answer takes no node more often than the healthy nodes contain it |
| Algorithm.KNearestAreHealthyInputs | supervisor/internal/routing/algorithm.go:21-29 | every node of a k-nearest answer is an element of the input and is healthy |
| Algorithm.FewerCloserThanKept | supervisor/internal/routing/algorithm.go:32-40 | the node at position i of the answer has at most i healthy nodes strictly closer, so no node left out is closer than one kept |
| Algorithm.NearestComesFirst | supervisor/internal/routing/algorithm.go:32-40 | the first node of a non-empty answer is at least as close as every healthy node |
| Algorithm.KNearestTakesAll | supervisor/internal/routing/algorithm.go:37-40 | when k is at least the number of healthy nodes, the answer holds all of them |
| Algorithm.LoadScore | supervisor/internal/routing/algorithm.go:64-74 | with CPU and memory in [0, 100] and connections within capacity, the weighted score lies in [0, 1] |
| Algorithm.LoadScoreMonotoneInConnections | supervisor/internal/routing/algorithm.go:71-73 | more active connections never lower the score |
| Algorithm.LoadScoreMonotoneInCpu | supervisor/internal/routing/algorithm.go:69-73 | higher CPU usage never lowers the score |
| Algorithm.LoadScoreMonotoneInMemory | supervisor/internal/routing/algorithm.go:70-73 | higher memory usage never lowers the score |
| Algorithm.LoadScoreUnclamped | supervisor/internal/routing/algorithm.go:71-73 | when connections exceed capacity, the connection term exceeds its weight 0.3 |
| Algorithm.SelectBestNode | supervisor/internal/routing/algorithm.go:45-62 | the zero node for an empty list; otherwise an element with the least score, the earliest of equal minima |
| Algorithm.FirstLeastLoadedUnique | supervisor/internal/routing/algorithm.go:53-59 | because replacement needs a strictly lower score, the selected node is uniquely determined |
| Models.ScanNullableString | supervisor/internal/models/node.go:58-75 | the type switch fails exactly for a value of another type, and yields nil exactly for nil |
| Models.RoutingRequest.constructor | supervisor/internal/models/node.go:26-42 | the zero routing request: nil pointers, empty strings, zero numbers |
| Models.RoutingRequest.ScanRequestData | supervisor/internal/models/node.go:58-75 | nil clears the field, a string or byte slice sets it to those bytes, any other value is an error that leaves it unchanged; only this field may change |
| Models.RoutingRequest.ScanResponseData | supervisor/internal/models/node.go:77-94 | the same as ScanRequestData, on the response data |
| Models.RoutingRequest.ScanMetadata | supervisor/internal/models/node.go:96-113 | the same as ScanRequestData, on the metadata |
| Models.RoutingRequest.ScanClientInfo | supervisor/internal/models/node.go:115-132 | the same as ScanRequestData, on the client info |
| Models.RoutingRequest.ScanProcessingMetrics | supervisor/internal/models/node.go:134-151 | the same as ScanRequestData, on the processing metrics |
| Models.ScanAll | supervisor/internal/models/node.go:58-151 | running the five scanners in turn puts each value in its own field, reports an error exactly for each value of another type and leaves that value's field as it was, and changes no other field |
| Service.FromBytes | supervisor/internal/routing/service.go:30 | parsing bytes as a UUID succeeds exactly for sixteen bytes, and then yields those bytes |
| Service.IdOrNil | supervisor/internal/routing/service.go:30-33 | the parsed ID for sixteen bytes, uuid.Nil for any other length |
| Service.ConvertDbNode | supervisor/internal/routing/service.go:23-50 | no health-check time exactly when the stored timestamp is invalid, otherwise that time; the row's 16-byte ID is kept, so the uuid.Nil fallback never applies; the other columns are copied |
| Service.ConvertAll | supervisor/internal/routing/service.go:60-63 | the conversion loop returns one node per row, element i being row i converted |
| Service.GetAllNodes | supervisor/internal/routing/service.go:76-88 | a failed query returns its error; otherwise every row is converted, same length, same order |
| Service.NoHealthyNodeIffNoHealthyRow | supervisor/internal/routing/service.go:66-69 | the converted rows have no healthy node exactly when no row has the healthy status |
| Service.NearestAreScorable | supervisor/internal/routing/service.go:66-72 | when every healthy row that could be among the three nearest has a non-zero capacity, every node of a valid choice of the nearest has a load score |
| Service.RoutedNodeIsHealthyAndNear | supervisor/internal/routing/service.go:66-73 | a routed node is healthy, comes from one of the rows, and has fewer than three healthy nodes strictly closer to the request |
| Service.RouteRequest | supervisor/internal/routing/service.go:52-74 | a failed query returns its error; otherwise no node exactly when no row is healthy, and else the first least-loaded of a valid choice of the three nearest healthy nodes |

## Left out

- Algorithm.SquaredDistance: `CalculateDistance` returns the square root of this value. The square root is strictly increasing on the non-negative reals, so every comparison the router makes gives the same outcome on squares. The candidates therefore carry squared distances, and the sort orders by them.
- Algorithm.SquaredDistance: the converse "zero only when the points coincide" is not stated. It is not among the promises the routing relies on.
- Floating point: coordinates, usages and scores are reals. Rounding, infinities and NaN are not modelled.
- Algorithm.LoadScore: requires a non-zero capacity. Go's division by a zero capacity gives +Inf or NaN, and those do not exist in reals. A negative capacity gives a finite score and is allowed.
- Algorithm.SelectBestNode: requires every node it scores to have a non-zero capacity, for the same reason.
- Service.RouteRequest: requires a non-zero capacity only for the healthy rows that can be among the three nearest, that is rows with fewer than three healthy nodes strictly closer to the request. Go scores only those; rows farther out may have any capacity.
- Algorithm.LoadScoreMonotoneInConnections and Algorithm.LoadScoreUnclamped: state their facts for a positive capacity only. With a negative capacity, more connections lower the score.
- Algorithm.FindKNearestNodes: requires k >= 0, because Go's `make([]models.Node, 0, k)` panics for a negative k. The panic is not modelled.
- `calculateLoadScore` (algorithm.go:76-78) only returns `CalculateLoadScore`. The model has the one function `LoadScore` for both.
- The tie order of `sort.Slice` is unspecified in Go. Selection sort stands for it, and `FindKNearestNodes` is specified only up to the order of equally distant nodes.
- The database queries `GetHealthyNodes` and `GetAllNodes`, the context argument and the `Service` struct are left out. The query's outcome is an input `Result`.
- `requestID` is accepted and, as in the Go code, not used.
- The generated row package `internal/db` is not part of this model. Its column types are inferred from how `service.go` reads them: `pgtype` values with a `Valid` flag, a `[16]byte` ID and `int32` integers. The conversion reads the payload of a NULL column as stored.
- The `uuid.Nil` fallback in `convertDBNodeToModel` is modelled but unreachable: the stored ID is a fixed `[16]byte`, and `uuid.FromBytes` fails only on other lengths.
- `time.Time` is an opaque instant that is only copied.
- Go strings appear in two forms. The five JSON payload fields hold `GoString`, a sequence of bytes, because a scanned `[]byte` is kept byte for byte. Names, endpoints, statuses and request IDs are Dafny `string`s: they are only copied and compared with the literal "healthy", so their encoding does not matter.
- `SystemMetric` (node.go:44-50) is a record no core operation uses.
- Not modelled: the HTTP handlers, the process entry point, configuration loading, database setup, the health monitor and the websocket hub. They are I/O, process wiring and concurrency around the routing core.
