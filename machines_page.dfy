/** The logic inside the machines page: the search filter, the defaults of a new
    machine, the guard chain of the install dialog and the action it offers. */
module MachinesPage {
  import opened Wrappers
  import opened Values
  import Text
  import Seqs
  import Db

  /** A `Machine` has text `serialNumber`, `model` and `brand`. */
  predicate HasSearchFields(m: Record) {
    Field(m, "serialNumber").Str? && Field(m, "model").Str? && Field(m, "brand").Str?
  }

  /** Whether the serial number, model or brand contains the term, ignoring case. */
  predicate MachineMatches(term: string, m: Record)
    requires HasSearchFields(m)
  {
    Text.Contains(Text.Lower(m["serialNumber"].s), Text.Lower(term))
    || Text.Contains(Text.Lower(m["model"].s), Text.Lower(term))
    || Text.Contains(Text.Lower(m["brand"].s), Text.Lower(term))
  }

  function MatchesTerm(term: string): Record -> bool {
    m => HasSearchFields(m) && MachineMatches(term, m)
  }

  /** `filteredMachines` */
  function FilterMachines(machines: seq<Record>, term: string): (r: seq<Record>)
    requires forall j :: 0 <= j < |machines| ==> HasSearchFields(machines[j])
    ensures forall x :: x in r <==> x in machines && MachineMatches(term, x)
  {
    Seqs.Filter(machines, MatchesTerm(term))
  }

  /** The filter keeps machines in their order, and an empty term keeps them all. */
  lemma FilterMachinesOrder(machines: seq<Record>, term: string)
    requires forall j :: 0 <= j < |machines| ==> HasSearchFields(machines[j])
    ensures Seqs.IsSubsequence(FilterMachines(machines, term), machines)
    ensures term == "" ==> FilterMachines(machines, term) == machines
  {
    Seqs.FilterIsSubsequence(machines, MatchesTerm(term));
    if term == "" {
      forall m: Record | m in machines ensures MatchesTerm(term)(m) {
        Text.ContainsEmpty(Text.Lower(m["brand"].s));
      }
      Seqs.FilterKeepsAll(machines, MatchesTerm(term));
    }
  }

  /** The payload `handleSubmit` sends to `addMachine`: the form with the parsed
      cost, in the warehouse, with counter 0 and a 50% split. */
  function NewMachine(form: Record, parsedCost: Value): (m: Record)
    ensures m.Keys == form.Keys + {"cost", "status", "initialCounter", "splitPercentage"}
    ensures Field(m, "status") == Str("warehouse") && Field(m, "initialCounter") == Num(0)
    ensures Field(m, "splitPercentage") == Num(50) && Field(m, "cost") == parsedCost
    ensures forall k :: k in form && k !in {"cost", "status", "initialCounter", "splitPercentage"} ==> m[k] == form[k]
  {
    form + map["cost" := parsedCost, "status" := Str("warehouse"),
               "initialCounter" := Num(0), "splitPercentage" := Num(50)]
  }

  /** A new machine is offered "Instalación" (installation). */
  lemma NewMachineOffersInstallation(form: Record, parsedCost: Value)
    ensures ActionLabel(NewMachine(form, parsedCost)) == "Instalación"
  {
  }

  /** The install dialog's state. An unselected machine or client is `None`. */
  datatype InstallForm = InstallForm(
    selectedMachine: Option<string>,
    selectedClient: Option<int>,
    acceptedTerms: bool,
    responsibleName: string,
    responsibleId: string,
    installationDate: string,
    location: string,
    observations: string,
    technician: string)

  /** The reasons `handleInstall` stops, in the order it checks them. */
  datatype InstallError = NothingSelected | TermsNotAccepted | MissingRequiredFields | MachineNotFound

  datatype InstallationData = InstallationData(
    responsibleName: string,
    responsibleId: string,
    acceptedTerms: bool,
    acceptedResponsibility: bool,
    acceptanceDate: int,
    installationDate: string,
    installationCounter: Value,
    location: string,
    observations: string,
    technician: string)

  /** The `installMachine` request. */
  datatype InstallRequest = InstallRequest(machineId: string, clientId: int, installationData: InstallationData)

  /** `!selectedMachine || !selectedClient`: an empty id or client 0 is not a selection. */
  predicate Selected(f: InstallForm) {
    f.selectedMachine.Some? && f.selectedMachine.value != ""
    && f.selectedClient.Some? && f.selectedClient.value != 0
  }

  /** `handleInstall`: the guards, first failure wins, then the request built from
      the selected machine's record. */
  function HandleInstall(f: InstallForm, machines: seq<Record>, now: int): (r: Result<InstallRequest, InstallError>)
    ensures r.Ok? ==> Selected(f) && f.acceptedTerms && f.location != "" && f.technician != ""
    ensures r.Ok? ==> r.value.machineId == f.selectedMachine.value && r.value.clientId == f.selectedClient.value
    ensures r.Ok? ==> r.value.installationData.acceptedResponsibility && r.value.installationData.acceptedTerms
    ensures r.Ok? ==> r.value.installationData.acceptanceDate == now
    ensures r.Ok? ==>
      var d := r.value.installationData;
      && d.responsibleName == f.responsibleName && d.responsibleId == f.responsibleId
      && d.installationDate == f.installationDate && d.location == f.location
      && d.observations == f.observations && d.technician == f.technician
  {
    if !Selected(f) then Err(NothingSelected)
    else if !f.acceptedTerms then Err(TermsNotAccepted)
    else if f.location == "" || f.technician == "" then Err(MissingRequiredFields)
    else
      var found := Db.Find(machines, Str(f.selectedMachine.value));
      if found.None? then Err(MachineNotFound)
      else Ok(InstallRequest(f.selectedMachine.value, f.selectedClient.value,
                             InstallationData(f.responsibleName, f.responsibleId, f.acceptedTerms, true, now,
                                              f.installationDate, Field(found.value, "currentCounter"),
                                              f.location, f.observations, f.technician)))
  }

  /** Which guard fails, as a property of the inputs: each error means every earlier
      guard passed and this one did not. */
  lemma InstallGuardOrder(f: InstallForm, machines: seq<Record>, now: int)
    ensures HandleInstall(f, machines, now) == Err(NothingSelected) <==> !Selected(f)
    ensures HandleInstall(f, machines, now) == Err(TermsNotAccepted) <==> Selected(f) && !f.acceptedTerms
    ensures HandleInstall(f, machines, now) == Err(MissingRequiredFields) <==>
      Selected(f) && f.acceptedTerms && (f.location == "" || f.technician == "")
    ensures HandleInstall(f, machines, now) == Err(MachineNotFound) <==>
      Selected(f) && f.acceptedTerms && f.location != "" && f.technician != ""
      && forall j :: 0 <= j < |machines| ==> IdOf(machines[j]) != Str(f.selectedMachine.value)
  {
  }

  /** A dispatched install carries the counter of the first listed machine with the
      selected id. */
  lemma InstallCarriesMachineCounter(f: InstallForm, machines: seq<Record>, now: int)
    requires HandleInstall(f, machines, now).Ok?
    ensures exists j :: (0 <= j < |machines| && IdOf(machines[j]) == Str(f.selectedMachine.value)
      && HandleInstall(f, machines, now).value.installationData.installationCounter == Field(machines[j], "currentCounter")
      && forall k :: 0 <= k < j ==> IdOf(machines[k]) != Str(f.selectedMachine.value))
  {
    var i := Db.FindIndex(machines, Str(f.selectedMachine.value));
    assert 0 <= i < |machines|;
  }

  /** The action button: "Instalación" for a machine in the warehouse, "Traslado"
      (relocation) for any other. */
  function ActionLabel(machine: Record): (action: string)
    ensures action == "Instalación" <==> Field(machine, "status") == Str("warehouse")
    ensures action == "Traslado" <==> Field(machine, "status") != Str("warehouse")
  {
    if Field(machine, "status") == Str("warehouse") then "Instalación" else "Traslado"
  }
}
