/**
 * The routing service (supervisor/internal/routing/service.go): database rows are
 * converted to model nodes, and a request is routed to the least loaded of the
 * three healthy nodes nearest to it. The database queries themselves are not
 * modelled: their outcome, rows or an error, is an input.
 */
module Service {
  import opened Wrappers
  import opened Models
  import opened Algorithm

  newtype int32 = i: int | -0x8000_0000 <= i < 0x8000_0000

  // The nullable column types of the generated row type (pgx's pgtype values):
  // a payload and a flag saying whether the column was non-NULL.

  /** A `pgtype.UUID`; its `Bytes` is a `[16]byte`. */
  datatype PgUuid = PgUuid(bytes: Uuid, valid: bool)
  datatype PgInt4 = PgInt4(int32Value: int32, valid: bool)
  datatype PgText = PgText(str: string, valid: bool)
  datatype PgFloat8 = PgFloat8(float64: real, valid: bool)
  datatype PgTimestamp = PgTimestamp(time: Time, valid: bool)

  /** A `db.Node` row, with the column types the conversion reads. */
  datatype DbNode = DbNode(
    id: PgUuid,
    name: string,
    locationX: real,
    locationY: real,
    endpoint: string,
    capacity: PgInt4,
    status: PgText,
    cpuUsage: PgFloat8,
    memoryUsage: PgFloat8,
    activeConnections: PgInt4,
    lastHealthCheck: PgTimestamp,
    createdAt: PgTimestamp,
    updatedAt: PgTimestamp)

  /** The error a failed query reports; the model only passes it on. */
  datatype DbError = DbError(message: string)

  /** The error of `uuid.FromBytes`: the slice is not sixteen bytes long. */
  datatype UuidError = InvalidLength(length: nat)

  /** `uuid.FromBytes`: a UUID made of exactly sixteen bytes, and an error for any other length. */
  function FromBytes(b: seq<byte>): (r: Result<Uuid, UuidError>)
    ensures r.Success? <==> |b| == 16
    ensures r.Success? ==> r.value == b
    ensures r.Failure? ==> r.error == InvalidLength(|b|)
  {
    if |b| == 16 then Success(b) else Failure(InvalidLength(|b|))
  }

  /** The ID step of the conversion: the parsed UUID, or `uuid.Nil` when parsing fails. */
  function IdOrNil(b: seq<byte>): (id: Uuid)
    ensures |b| == 16 ==> id == b
    ensures |b| != 16 ==> id == NilUuid
  {
    match FromBytes(b)
    case Success(u) => u
    case Failure(_) => NilUuid
  }

  /**
   * `convertDBNodeToModel`. A NULL health-check time becomes no time, any other the
   * stored one. An ID that `uuid.FromBytes` rejects would become `uuid.Nil`, but the
   * stored ID always has sixteen bytes, so the node keeps the row's ID. The other
   * columns are copied, NULL ones as their zero payload, as the Go code reads them.
   */
  function ConvertDbNode(row: DbNode): (n: Node)
    ensures n.lastHealthCheck.None? <==> !row.lastHealthCheck.valid
    ensures n.lastHealthCheck.Some? ==> n.lastHealthCheck.value == row.lastHealthCheck.time
    ensures n.id == row.id.bytes
    ensures n.name == row.name && n.endpoint == row.endpoint
    ensures n.locationX == row.locationX && n.locationY == row.locationY
    ensures n.capacity == row.capacity.int32Value as int && n.status == row.status.str
    ensures n.cpuUsage == row.cpuUsage.float64 && n.memoryUsage == row.memoryUsage.float64
    ensures n.activeConnections == row.activeConnections.int32Value as int
    ensures n.createdAt == row.createdAt.time && n.updatedAt == row.updatedAt.time
  {
    Node(
      IdOrNil(row.id.bytes),
      row.name,
      row.locationX,
      row.locationY,
      row.endpoint,
      row.capacity.int32Value as int,
      row.status.str,
      row.cpuUsage.float64,
      row.memoryUsage.float64,
      row.activeConnections.int32Value as int,
      if row.lastHealthCheck.valid then Some(row.lastHealthCheck.time) else None,
      row.createdAt.time,
      row.updatedAt.time)
  }

  /** The converted rows, row by row. */
  function ConvertRows(rows: seq<DbNode>): (nodes: seq<Node>)
  {
    seq(|rows|, i requires 0 <= i < |rows| => ConvertDbNode(rows[i]))
  }

  /** The conversion loop shared by `RouteRequest` and `GetAllNodes`. */
  method ConvertAll(rows: seq<DbNode>) returns (modelNodes: seq<Node>)
    ensures |modelNodes| == |rows|
    ensures forall i :: 0 <= i < |rows| ==> modelNodes[i] == ConvertDbNode(rows[i])
  {
    var a := new Node[|rows|](_ => ZeroNode);
    for i := 0 to |rows|
      invariant forall j :: 0 <= j < i ==> a[j] == ConvertDbNode(rows[j])
    {
      a[i] := ConvertDbNode(rows[i]);
    }
    modelNodes := a[..];
  }

  /** `GetAllNodes`: the query's error, or every row converted, in order. */
  method GetAllNodes(query: Result<seq<DbNode>, DbError>) returns (r: Result<seq<Node>, DbError>)
    ensures query.Failure? ==> r == Failure(query.error)
    ensures query.Success? ==> r.Success? && |r.value| == |query.value|
    ensures query.Success? ==> forall i :: 0 <= i < |query.value| ==> r.value[i] == ConvertDbNode(query.value[i])
  {
    match query
    case Failure(e) =>
      r := Failure(e);
    case Success(rows) =>
      var modelNodes := ConvertAll(rows);
      r := Success(modelNodes);
  }

  /** How many nearest nodes `RouteRequest` chooses among. */
  const NearestCount: nat := 3

  /**
   * Every healthy row that can be among the nearest to `c`, because fewer than
   * three healthy nodes are strictly closer, has a non-zero capacity, so the load
   * score `RouteRequest` computes for it is finite. Rows farther out are never scored.
   */
  predicate NearestRowsScorable(rows: seq<DbNode>, c: Location)
  {
    forall i :: 0 <= i < |rows| && rows[i].status.str == HealthyStatus
      && |Closer(Healthy(ConvertRows(rows)), c.x, c.y, NodeDistance(c.x, c.y, ConvertDbNode(rows[i])))| < NearestCount
      ==> rows[i].capacity.int32Value != 0
  }

  /** No row has the healthy status. */
  predicate NoHealthyRow(rows: seq<DbNode>)
  {
    forall i :: 0 <= i < |rows| ==> rows[i].status.str != HealthyStatus
  }

  /**
   * `n` is a node `RouteRequest` may answer for `rows` and the request point `c`:
   * the first least loaded node of some valid choice of the three nearest healthy
   * converted rows.
   */
  ghost predicate RoutedTo(rows: seq<DbNode>, c: Location, n: Node)
  {
    exists near :: IsKNearest(Healthy(ConvertRows(rows)), c.x, c.y, NearestCount, near)
      && AllScorable(near) && IsFirstLeastLoaded(near, n)
  }

  /** The converted rows have no healthy node exactly when no row has the healthy status. */
  lemma NoHealthyNodeIffNoHealthyRow(rows: seq<DbNode>)
    ensures Healthy(ConvertRows(rows)) == [] <==> NoHealthyRow(rows)
  {
    var ns := ConvertRows(rows);
    FilterEmpty(ns, IsHealthy);
    assert forall i :: 0 <= i < |rows| ==> ns[i].status == rows[i].status.str;
  }

  /** Every node of a valid choice of the three nearest has a load score. */
  lemma NearestAreScorable(rows: seq<DbNode>, c: Location, near: seq<Node>)
    requires NearestRowsScorable(rows, c)
    requires IsKNearest(Healthy(ConvertRows(rows)), c.x, c.y, NearestCount, near)
    ensures AllScorable(near)
  {
    var ns := ConvertRows(rows);
    KNearestAreHealthyInputs(ns, c.x, c.y, NearestCount, near);
    forall i | 0 <= i < |near|
      ensures near[i].capacity != 0
    {
      FewerCloserThanKept(Healthy(ns), c.x, c.y, NearestCount, near, i);
      var j :| 0 <= j < |ns| && ns[j] == near[i];
      assert ns[j] == ConvertDbNode(rows[j]);
    }
  }

  /**
   * What a routed node is: a healthy node converted from one of the rows, with
   * fewer than three healthy nodes strictly closer to the request point.
   */
  lemma RoutedNodeIsHealthyAndNear(rows: seq<DbNode>, c: Location, n: Node)
    requires RoutedTo(rows, c, n)
    ensures IsHealthy(n)
    ensures exists i :: 0 <= i < |rows| && n == ConvertDbNode(rows[i])
    ensures |Closer(Healthy(ConvertRows(rows)), c.x, c.y, NodeDistance(c.x, c.y, n))| < NearestCount
  {
    var ns := ConvertRows(rows);
    var h := Healthy(ns);
    var near :| IsKNearest(h, c.x, c.y, NearestCount, near) && AllScorable(near) && IsFirstLeastLoaded(near, n);
    var k :| 0 <= k < |near| && near[k] == n
      && (forall j :: 0 <= j < |near| ==> LoadScore(near[k]) <= LoadScore(near[j]))
      && (forall j :: 0 <= j < k ==> LoadScore(near[k]) < LoadScore(near[j]));
    KNearestAreHealthyInputs(ns, c.x, c.y, NearestCount, near);
    FewerCloserThanKept(h, c.x, c.y, NearestCount, near, k);
    var i :| 0 <= i < |ns| && ns[i] == n;
    assert n == ConvertDbNode(rows[i]);
  }

  /**
   * `RouteRequest`: the query's error; no node when no row is healthy; otherwise
   * the least loaded of the three healthy nodes nearest to the request point.
   * `requestId` is not used, as in the Go code.
   */
  method RouteRequest(query: Result<seq<DbNode>, DbError>, requestId: string, coordinates: Location)
    returns (r: Result<Option<Node>, DbError>)
    requires query.Success? ==> NearestRowsScorable(query.value, coordinates)
    ensures query.Failure? ==> r == Failure(query.error)
    ensures query.Success? ==> r.Success? && (r.value.None? <==> NoHealthyRow(query.value))
    ensures query.Success? && r.value.Some? ==> RoutedTo(query.value, coordinates, r.value.value)
  {
    match query
    case Failure(e) =>
      r := Failure(e);
    case Success(rows) =>
      var modelNodes := ConvertAll(rows);
      assert modelNodes == ConvertRows(rows);
      var nearestNodes := FindKNearestNodes(modelNodes, coordinates.x, coordinates.y, NearestCount);
      NoHealthyNodeIffNoHealthyRow(rows);
      if |nearestNodes| == 0 {
        r := Success(None);
      } else {
        NearestAreScorable(rows, coordinates, nearestNodes);
        var selectedNode := SelectBestNode(nearestNodes);
        r := Success(Some(selectedNode));
      }
  }
}
