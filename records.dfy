/**
 * The documents the SOS trigger reads and writes: the new `sos_requests`
 * document, the `users` and `donors` registries, and the `pending_sms`
 * records it queues.
 */
module Records {
  import opened Wrappers

  /** A newly created `sos_requests` document; a field the document lacks is None. */
  datatype SosRequest = SosRequest(district: Option<string>, bloodGroup: Option<string>, note: Option<string>)

  /**
   * A `users` document. A missing `district` or `bloodGroup` is "" (it can never
   * equal a validated request value), a missing or non-boolean `isBloodClear` is false.
   */
  datatype User = User(district: string, bloodGroup: string, isBloodClear: bool, fcmToken: Option<string>)

  /** A `donors` document together with its document id. */
  datatype Donor = Donor(id: string, district: string, bloodGroup: string, isBloodClear: bool, phone: Option<string>)

  /**
   * A queued `pending_sms` record. The generated document id and the server
   * timestamp `createdAt` are not modelled.
   */
  datatype PendingSms = PendingSms(sosId: string, donorId: string, phone: string, message: string, status: string)

  const Pending: string := "pending"

  /** Document ids are unique within a collection. */
  predicate DistinctIds(donors: seq<Donor>)
  {
    forall i, j :: 0 <= i < j < |donors| ==> donors[i].id != donors[j].id
  }

  /** JavaScript truthiness of an optional string field: present and non-empty. */
  predicate Truthy(v: Option<string>)
  {
    v.Some? && v.value != ""
  }

  /** The JavaScript idiom `v || ""`. */
  function OrEmpty(v: Option<string>): (s: string)
    ensures s == "" <==> !Truthy(v)
    ensures s != "" ==> v == Some(s)
  {
    if Truthy(v) then v.value else ""
  }
}
