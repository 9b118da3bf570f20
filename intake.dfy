/** Event intake: the required-field check that decides whether the trigger runs at all. */
module Intake {
  import opened Wrappers
  import opened Records

  /** The validated request values every later stage works from. */
  datatype Key = Key(district: string, bloodGroup: string, note: string)

  /**
   * None when `district` or `bloodGroup` is falsy (the trigger returns without
   * side effects); otherwise the two values and the note defaulted to "".
   */
  function Validate(req: SosRequest): (k: Option<Key>)
    ensures k.None? <==> !Truthy(req.district) || !Truthy(req.bloodGroup)
    ensures k.Some? ==> k.value.district != "" && Some(k.value.district) == req.district
    ensures k.Some? ==> k.value.bloodGroup != "" && Some(k.value.bloodGroup) == req.bloodGroup
    ensures k.Some? ==> (k.value.note == "" <==> !Truthy(req.note))
    ensures k.Some? && k.value.note != "" ==> Some(k.value.note) == req.note
  {
    var note := OrEmpty(req.note);
    if !Truthy(req.district) || !Truthy(req.bloodGroup) then None
    else Some(Key(req.district.value, req.bloodGroup.value, note))
  }
}
