/** The identity registry: the two id -> label maps (`place`, `organisation`)
    through which edge files resolve endpoints they only know by id. */
module IdentityRegistry {
  import opened Outcomes

  datatype Family = PlaceFamily | OrganisationFamily

  /** The registry an edge endpoint is resolved through, chosen by the
      endpoint's nominal label taken from the file name. */
  function NominalFamily(nominal: string): (f: Option<Family>)
    ensures f == Some(OrganisationFamily) <==> nominal == "Organisation"
    ensures f == Some(PlaceFamily) <==> nominal == "Place"
  {
    if nominal == "Organisation" then Some(OrganisationFamily)
    else if nominal == "Place" then Some(PlaceFamily)
    else None
  }

  /** The registry a vertex row is recorded in, chosen by the row's concrete label. */
  function LabelFamily(rowLabel: string): (f: Option<Family>)
    ensures f == Some(PlaceFamily) <==> rowLabel in PlaceLabels
    ensures f == Some(OrganisationFamily) <==> rowLabel in OrganisationLabels
  {
    if rowLabel in PlaceLabels then Some(PlaceFamily)
    else if rowLabel in OrganisationLabels then Some(OrganisationFamily)
    else None
  }

  const PlaceLabels: set<string> := {"City", "Country", "Continent"}
  const OrganisationLabels: set<string> := {"University", "Company"}

  /** Only concrete labels of the matching family are ever recorded, so every
      label an edge endpoint resolves to is non-empty. */
  ghost predicate Recorded(place: map<nat, string>, organisation: map<nat, string>) {
    && (forall id :: id in place ==> place[id] in PlaceLabels)
    && (forall id :: id in organisation ==> organisation[id] in OrganisationLabels)
  }
}
