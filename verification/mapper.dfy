/**
 * The request and response mappers of internal/handler/http/v1/mapper.go:
 * request bodies become an Incident with only the editable fields set, and
 * an Incident becomes the response body field for field.
 */
module Mapper {
  import opened Wrappers
  import opened Models
  import opened Service

  /** The body of POST /incidents. */
  datatype CreateIncidentRequest = CreateIncidentRequest(
    name: string,
    description: string,
    latitude: Coordinate,
    longitude: Coordinate,
    radiusMeters: int)

  /** The body of PUT /incidents/{id}. */
  datatype UpdateIncidentRequest = UpdateIncidentRequest(
    name: string,
    description: string,
    latitude: Coordinate,
    longitude: Coordinate,
    radiusMeters: int,
    status: string)

  /** The argument of DTOToIncidentModel, which the source types as `any`. */
  datatype Dto =
    | CreateDto(create: CreateIncidentRequest)
    | UpdateDto(update: UpdateIncidentRequest)
    | OtherDto

  /** The incident as the API returns it. */
  datatype IncidentResponse = IncidentResponse(
    id: Id,
    name: string,
    description: string,
    latitude: Coordinate,
    longitude: Coordinate,
    radiusMeters: int,
    status: string,
    createdAt: Time,
    updatedAt: Time)

  /** The create request an incident's editable fields spell out. */
  function CreateFields(m: Incident): CreateIncidentRequest {
    CreateIncidentRequest(m.name, m.description, m.latitude, m.longitude, m.radiusMeters)
  }

  /** The update request an incident's editable fields and status spell out. */
  function UpdateFields(m: Incident): UpdateIncidentRequest {
    UpdateIncidentRequest(m.name, m.description, m.latitude, m.longitude, m.radiusMeters, m.status)
  }

  /**
   * A create request yields an incident carrying its five fields and an empty
   * status; an update request also carries its status; anything else yields
   * nil. The id and both timestamps keep Go's zero values.
   */
  function DTOToIncidentModel(dto: Dto): (m: Option<Incident>)
    ensures m.None? <==> dto.OtherDto?
    ensures m.Some? ==> m.value.id == NilId && m.value.createdAt == ZeroTime && m.value.updatedAt == ZeroTime
    ensures dto.CreateDto? ==> m.Some? && CreateFields(m.value) == dto.create && m.value.status == ""
    ensures dto.UpdateDto? ==> m.Some? && UpdateFields(m.value) == dto.update
  {
    match dto
    case CreateDto(v) =>
      Some(Incident(NilId, v.name, v.description, v.latitude, v.longitude, v.radiusMeters, "", ZeroTime, ZeroTime))
    case UpdateDto(v) =>
      Some(Incident(NilId, v.name, v.description, v.latitude, v.longitude, v.radiusMeters, v.status, ZeroTime, ZeroTime))
    case OtherDto => None
  }

  /** The incident a response body describes. */
  function IncidentFromResponse(r: IncidentResponse): Incident {
    Incident(r.id, r.name, r.description, r.latitude, r.longitude, r.radiusMeters, r.status, r.createdAt, r.updatedAt)
  }

  /** The response body for an incident: all nine fields, unchanged. */
  function ModelToIncidentResponse(m: Incident): (r: IncidentResponse)
    ensures IncidentFromResponse(r) == m
  {
    IncidentResponse(m.id, m.name, m.description, m.latitude, m.longitude, m.radiusMeters, m.status, m.createdAt, m.updatedAt)
  }

  /** Distinct incidents are never rendered as the same response. */
  lemma ResponsesDistinguishIncidents(a: Incident, b: Incident)
    ensures ModelToIncidentResponse(a) == ModelToIncidentResponse(b) <==> a == b
  {
    if ModelToIncidentResponse(a) == ModelToIncidentResponse(b) {
      assert IncidentFromResponse(ModelToIncidentResponse(a)) == IncidentFromResponse(ModelToIncidentResponse(b));
    }
  }

  /**
   * The handler's update path: the incident mapped from an update request,
   * laid over the stored record by UpdateIncident, has exactly the request's
   * six fields and keeps the stored id and timestamps.
   */
  lemma UpdateRequestOverwritesEditableFields(existing: Incident, u: UpdateIncidentRequest)
    ensures var m := DTOToIncidentModel(UpdateDto(u));
      && m.Some?
      && UpdateFields(Overwritten(existing, m.value)) == u
      && Overwritten(existing, m.value).id == existing.id
      && Overwritten(existing, m.value).createdAt == existing.createdAt
      && Overwritten(existing, m.value).updatedAt == existing.updatedAt
  {
  }

  /**
   * Allocates one slot per incident, all nil, and fills slot i with the
   * response for incident i: the result has the input's length and order, and
   * no slot stays nil.
   */
  method ModelsToIncidentResponses(models: seq<Incident>) returns (responses: seq<Option<IncidentResponse>>)
    ensures |responses| == |models|
    ensures forall i :: 0 <= i < |models| ==> responses[i] == Some(ModelToIncidentResponse(models[i]))
  {
    var a := new Option<IncidentResponse>[|models|](_ => None);
    for i := 0 to |models|
      invariant forall j :: 0 <= j < i ==> a[j] == Some(ModelToIncidentResponse(models[j]))
    {
      a[i] := Some(ModelToIncidentResponse(models[i]));
    }
    responses := a[..];
  }
}
