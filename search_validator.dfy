/** `validateSearch`, run before `GET /search`. */
module SearchValidator {
  import opened Wrappers
  import opened Text
  import opened Json
  import opened Errors

  const NoParameter := "At least one search parameter (cpt or zip) is required."
  const BadZip := "ZIP code must be exactly 5 digits."

  function ValidateSearch(cpt: Option<string>, zip: Option<string>): (r: Option<Failure>)
    ensures r.None? <==> (Given(cpt) || Given(zip)) && (Given(zip) ==> DigitsOfLength(zip.value, 5))
    ensures r == Some(BadRequest(NoParameter)) <==> !Given(cpt) && !Given(zip)
    ensures r == Some(BadRequest(BadZip)) <==> Given(zip) && !DigitsOfLength(zip.value, 5)
  {
    if !Given(cpt) && !Given(zip) then Some(BadRequest(NoParameter))
    else if Given(zip) && !DigitsOfLength(zip.value, 5) then Some(BadRequest(BadZip))
    else None
  }
}
