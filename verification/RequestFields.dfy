/** What requests ask for, read off their fields: which are accepted, and what they set. */
module RequestFields {
  import opened Prelude
  import opened Text
  import opened AssistantTables
  import opened AssistantService

  predicate ScalarAccepted(r: Option<ScalarReq>) {
    r.Some? ==>
      r.value.mode == "auto" || (r.value.mode == "fixed" && r.value.value.Some? && Trim(r.value.value.value) != "")
  }

  predicate ListAccepted(r: Option<ListReq>) {
    r.Some? ==> r.value.mode == "auto" || r.value.mode == "fixed"
  }

  predicate DefaultsAccepted(r: Option<DefaultsReq>) {
    r.Some? ==>
      && ScalarAccepted(r.value.model) && ScalarAccepted(r.value.permission)
      && ListAccepted(r.value.skills) && ListAccepted(r.value.mcps)
  }

  lemma DefaultsAcceptedIff(prompts: Option<seq<string>>, r: Option<DefaultsReq>)
    ensures FromParts(prompts, r).Ok? <==> DefaultsAccepted(r)
    ensures FromParts(prompts, r).Err? ==> FromParts(prompts, r).error == BadRequest
  {
  }

  /** The default a request asks for, if any. */
  function Requested(r: Option<ScalarReq>): Scalar {
    if r.Some? && r.value.mode == "fixed" then Scalar(Fixed, r.value.value) else Scalar(Auto, None)
  }

  function RequestedList(r: Option<ListReq>): ListDefault {
    if r.Some? && r.value.mode == "fixed" then ListDefault(Fixed, r.value.value) else ListDefault(Auto, [])
  }

  /** The backend of a new assistant: the one named, otherwise the application's own. */
  predicate NamesBackend(requested: Option<string>) {
    requested.Some? && requested.value != ""
  }

  predicate TakesBackend(backend: string, requested: Option<string>) {
    backend == if NamesBackend(requested) then requested.value else "aionrs"
  }

  lemma BackendIsTaken(requested: Option<string>, providerEnabled: bool)
    ensures var b := BackendFor(requested, providerEnabled);
            && (b.Ok? <==> NamesBackend(requested) || providerEnabled)
            && (b.Ok? ==> TakesBackend(b.value, requested))
            && (b.Err? ==> b.error == BadRequest)
  {
  }

  /** The legacy row of a new assistant comes from its request. */
  predicate TakenFrom(row: Legacy, r: CreateReq) {
    && row.name == Trim(r.name) && row.description == r.description && TakesBackend(row.backend, r.backend)
    && row.skills == r.skills && row.prompts == r.prompts
  }

  lemma NewRowIsTaken(r: CreateReq, providerEnabled: bool)
    requires BackendFor(r.backend, providerEnabled).Ok?
    ensures TakenFrom(NewLegacyRow(r, BackendFor(r.backend, providerEnabled).value), r)
  {
  }

  /** A new assistant that no other one is in the way of. */
  predicate WellMade(c: Config, id: Key, r: CreateReq, providerEnabled: bool) {
    && Trim(r.name) != "" && (forall b :: b in c.builtins ==> b.id != id)
    && DefaultsAccepted(r.defaults) && (NamesBackend(r.backend) || providerEnabled)
  }

  /** A built-in assistant lets a request choose its backend, model and permission only. */
  predicate OnlyChooses(r: UpdateReq) {
    && r.name == None && r.description == None && r.skills == None && r.prompts == None && r.recommended == None
    && (r.defaults.Some? ==> r.defaults.value.skills == None && r.defaults.value.mcps == None)
  }
}
