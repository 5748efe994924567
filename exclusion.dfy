/**
 * The set of address ids whose vehicles never appear in the report: a fixed list
 * of known non-fleet addresses united with the addresses attached to a tag, as
 * returned by the telemetry provider.
 */
module Exclusion {
  import opened Wrappers
  import opened Json

  /** The ids baked into the script. */
  const Predefined: set<string> := {
    "254792506", "254801835", "254802150", "254802588",
    "254803338", "254859196", "94193861", "95243156",
    "95243200", "95243316", "95243513", "244349505",
    "245970120", "254794170", "254794716", "257477773"
  }

  /** One element of the tag's `addresses` list. */
  datatype AddressRecord = AddressRecord(id: Field<string>)

  /** The tag endpoint's decoded body: `{"data": {"addresses": [...]}}`. */
  datatype TagData = TagData(addresses: Field<seq<AddressRecord>>)

  /** The tag request: a transport or status failure, or a decoded body. */
  datatype TagResponse = FetchFailed | Fetched(data: Field<TagData>)

  /** `a.get("id")` is truthy: the record carries this id, and the id is not empty. */
  predicate Contributes(a: AddressRecord, id: string)
  {
    TruthyText(Get(a.id)) && Get(a.id).value == id
  }

  /** The ids collected from the fetched records: those records whose id is truthy. */
  function FetchedIds(addresses: seq<AddressRecord>): (ids: set<string>)
    ensures forall id :: id in ids <==> exists i :: 0 <= i < |addresses| && Contributes(addresses[i], id)
    ensures "" !in ids
  {
    if addresses == [] then {}
    else
      var rest := FetchedIds(addresses[1..]);
      assert forall i :: 1 <= i < |addresses| ==> addresses[i] == addresses[1..][i - 1];
      match Get(addresses[0].id)
      case Some(id) => if id != "" then {id} + rest else rest
      case None => rest
  }

  /** The body has `data` or `data.addresses` explicitly null, which the script cannot iterate. */
  predicate Malformed(response: TagResponse)
    requires response.Fetched?
  {
    response.data.Null? || (response.data.Present? && response.data.value.addresses.Null?)
  }

  /** The address list a well-formed body carries, empty when a key is missing. */
  function Listed(response: TagResponse): seq<AddressRecord>
  {
    if response.Fetched? && response.data.Present? && response.data.value.addresses.Present?
    then response.data.value.addresses.value
    else []
  }

  /**
   * The whole exclusion step. None stands for the script's fatal exit: the request
   * failed, or the body is not shaped as expected.
   */
  function Build(response: TagResponse): (r: Option<set<string>>)
    ensures r.None? <==> (response.FetchFailed? || Malformed(response))
    ensures r.Some? ==> forall id :: id in r.value <==>
      (id in Predefined || exists i :: 0 <= i < |Listed(response)| && Contributes(Listed(response)[i], id))
  {
    match response
    case FetchFailed => None
    case Fetched(data) =>
      match GetOr(data, TagData(Absent))
      case None => None
      case Some(tags) =>
        match GetOr(tags.addresses, [])
        case None => None
        case Some(addresses) =>
          assert addresses == Listed(response);
          Some(Predefined + FetchedIds(addresses))
  }
}
