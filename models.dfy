/**
 * The records of the supervisor (supervisor/internal/models/node.go): a processing
 * node, a routing request and a request coordinate, and the five nullable-string
 * scanners of a routing request.
 */
module Models {
  import opened Wrappers

  newtype byte = b: int | 0 <= b < 256

  /** A Go string is a sequence of bytes; `string(b)` for a `[]byte` b keeps them as they are. */
  type GoString = seq<byte>

  /** A `uuid.UUID`: exactly sixteen bytes. */
  type Uuid = s: seq<byte> | |s| == 16 witness NilUuid

  /** `uuid.Nil`, the all-zero UUID. */
  const NilUuid: seq<byte> := [0, 0, 0, 0, 0, 0, 0, 0, 0, 0, 0, 0, 0, 0, 0, 0]

  /** A `time.Time`; the model only needs instants to be told apart and copied. */
  datatype Time = Time(instant: int)

  /** The zero `time.Time`. */
  const ZeroTime := Time(0)

  /** The status a node must have to be routed to. */
  const HealthyStatus: string := "healthy"

  /** A `models.Node`. `lastHealthCheck` is the nullable `*time.Time`. */
  datatype Node = Node(
    id: Uuid,
    name: string,
    locationX: real,
    locationY: real,
    endpoint: string,
    capacity: int,
    status: string,
    cpuUsage: real,
    memoryUsage: real,
    activeConnections: int,
    lastHealthCheck: Option<Time>,
    createdAt: Time,
    updatedAt: Time)

  /** The zero value `models.Node{}`. */
  const ZeroNode := Node(NilUuid, "", 0.0, 0.0, "", 0, "", 0.0, 0.0, 0, None, ZeroTime, ZeroTime)

  /** A `models.Location`: the coordinate of a request. */
  datatype Location = Location(x: real, y: real)

  /**
   * The dynamically typed value handed to a scanner: `nil`, a `string`, a `[]byte`,
   * or a value of any other type, known here by the name `%T` prints for it.
   */
  datatype ScanValue = Nil | Str(s: GoString) | Bytes(b: seq<byte>) | Other(typeName: string)

  /** The error `cannot scan %T into string`. */
  datatype ScanError = CannotScan(typeName: string)

  /**
   * The type switch every scanner performs: `nil` clears the field, a string or a
   * byte slice sets it to those bytes, anything else is an error.
   */
  function ScanNullableString(value: ScanValue): (r: Result<Option<GoString>, ScanError>)
    ensures r.Failure? <==> value.Other?
    ensures r.Success? ==> (r.value.None? <==> value.Nil?)
  {
    match value
    case Nil => Success(None)
    case Str(s) => Success(Some(s))
    case Bytes(b) => Success(Some(b))
    case Other(t) => Failure(CannotScan(t))
  }

  /** A `models.RoutingRequest`; its `*T` fields are `Option`s. */
  class RoutingRequest {
    var id: Uuid
    var requestId: string
    var coordinatesX: real
    var coordinatesY: real
    var selectedNodeId: Option<Uuid>
    var distance: Option<real>
    var loadScore: Option<real>
    var status: string
    var responseTimeMs: Option<int>
    var requestData: Option<GoString>
    var responseData: Option<GoString>
    var metadata: Option<GoString>
    var clientInfo: Option<GoString>
    var processingMetrics: Option<GoString>
    var createdAt: Time

    /** The zero value `models.RoutingRequest{}`. */
    constructor ()
      ensures id == NilUuid && requestId == "" && coordinatesX == 0.0 && coordinatesY == 0.0
      ensures selectedNodeId == None && distance == None && loadScore == None
      ensures status == "" && responseTimeMs == None
      ensures requestData == None && responseData == None && metadata == None
      ensures clientInfo == None && processingMetrics == None && createdAt == ZeroTime
    {
      id, requestId, coordinatesX, coordinatesY := NilUuid, "", 0.0, 0.0;
      selectedNodeId, distance, loadScore := None, None, None;
      status, responseTimeMs := "", None;
      requestData, responseData, metadata := None, None, None;
      clientInfo, processingMetrics, createdAt := None, None, ZeroTime;
    }

    // Each scanner may change its own field and no other (its `modifies` clause),
    // returns an error exactly for a value of another type, and then leaves the
    // field as it was.

    method ScanRequestData(value: ScanValue) returns (err: Option<ScanError>)
      modifies this`requestData
      ensures value.Nil? ==> err == None && requestData == None
      ensures value.Str? ==> err == None && requestData == Some(value.s)
      ensures value.Bytes? ==> err == None && requestData == Some(value.b)
      ensures value.Other? ==> err == Some(CannotScan(value.typeName)) && requestData == old(requestData)
    {
      match ScanNullableString(value)
      case Success(v) => requestData := v; err := None;
      case Failure(e) => err := Some(e);
    }

    method ScanResponseData(value: ScanValue) returns (err: Option<ScanError>)
      modifies this`responseData
      ensures value.Nil? ==> err == None && responseData == None
      ensures value.Str? ==> err == None && responseData == Some(value.s)
      ensures value.Bytes? ==> err == None && responseData == Some(value.b)
      ensures value.Other? ==> err == Some(CannotScan(value.typeName)) && responseData == old(responseData)
    {
      match ScanNullableString(value)
      case Success(v) => responseData := v; err := None;
      case Failure(e) => err := Some(e);
    }

    method ScanMetadata(value: ScanValue) returns (err: Option<ScanError>)
      modifies this`metadata
      ensures value.Nil? ==> err == None && metadata == None
      ensures value.Str? ==> err == None && metadata == Some(value.s)
      ensures value.Bytes? ==> err == None && metadata == Some(value.b)
      ensures value.Other? ==> err == Some(CannotScan(value.typeName)) && metadata == old(metadata)
    {
      match ScanNullableString(value)
      case Success(v) => metadata := v; err := None;
      case Failure(e) => err := Some(e);
    }

    method ScanClientInfo(value: ScanValue) returns (err: Option<ScanError>)
      modifies this`clientInfo
      ensures value.Nil? ==> err == None && clientInfo == None
      ensures value.Str? ==> err == None && clientInfo == Some(value.s)
      ensures value.Bytes? ==> err == None && clientInfo == Some(value.b)
      ensures value.Other? ==> err == Some(CannotScan(value.typeName)) && clientInfo == old(clientInfo)
    {
      match ScanNullableString(value)
      case Success(v) => clientInfo := v; err := None;
      case Failure(e) => err := Some(e);
    }

    method ScanProcessingMetrics(value: ScanValue) returns (err: Option<ScanError>)
      modifies this`processingMetrics
      ensures value.Nil? ==> err == None && processingMetrics == None
      ensures value.Str? ==> err == None && processingMetrics == Some(value.s)
      ensures value.Bytes? ==> err == None && processingMetrics == Some(value.b)
      ensures value.Other? ==> err == Some(CannotScan(value.typeName)) && processingMetrics == old(processingMetrics)
    {
      match ScanNullableString(value)
      case Success(v) => processingMetrics := v; err := None;
      case Failure(e) => err := Some(e);
    }
  }

  /**
   * A caller's view of the scanners: scanning one field leaves the others as they
   * were, so scanning all five reproduces each value in its own field.
   */
  method ScanAll(r: RoutingRequest, req: ScanValue, resp: ScanValue, meta: ScanValue, client: ScanValue, metrics: ScanValue)
    returns (errs: seq<Option<ScanError>>)
    modifies r
    ensures |errs| == 5
    ensures !req.Other? ==> r.requestData == ScanNullableString(req).value
    ensures !resp.Other? ==> r.responseData == ScanNullableString(resp).value
    ensures !meta.Other? ==> r.metadata == ScanNullableString(meta).value
    ensures !client.Other? ==> r.clientInfo == ScanNullableString(client).value
    ensures !metrics.Other? ==> r.processingMetrics == ScanNullableString(metrics).value
    ensures req.Other? ==> r.requestData == old(r.requestData)
    ensures resp.Other? ==> r.responseData == old(r.responseData)
    ensures meta.Other? ==> r.metadata == old(r.metadata)
    ensures client.Other? ==> r.clientInfo == old(r.clientInfo)
    ensures metrics.Other? ==> r.processingMetrics == old(r.processingMetrics)
    ensures forall i :: 0 <= i < 5 ==> (errs[i].Some? <==> [req, resp, meta, client, metrics][i].Other?)
    ensures r.id == old(r.id) && r.requestId == old(r.requestId) && r.status == old(r.status)
    ensures r.coordinatesX == old(r.coordinatesX) && r.coordinatesY == old(r.coordinatesY)
    ensures r.selectedNodeId == old(r.selectedNodeId) && r.distance == old(r.distance)
    ensures r.loadScore == old(r.loadScore) && r.responseTimeMs == old(r.responseTimeMs)
    ensures r.createdAt == old(r.createdAt)
  {
    var e1 := r.ScanRequestData(req);
    var e2 := r.ScanResponseData(resp);
    var e3 := r.ScanMetadata(meta);
    var e4 := r.ScanClientInfo(client);
    var e5 := r.ScanProcessingMetrics(metrics);
    errs := [e1, e2, e3, e4, e5];
  }
}
