/** The logic inside the clients page: the submit guards and payloads, the
    field mapping of the edit dialog, the schedule text and the search filter. */
module ClientsPage {
  import opened Wrappers
  import opened Values
  import Text
  import Seqs

  /** The sixteen fields of the client form. */
  const FORM_FIELDS: set<string> := {
    "name", "businessType", "owner", "address", "city", "province", "postalCode", "phone",
    "email", "taxId", "morningOpenTime", "morningCloseTime", "eveningOpenTime",
    "eveningCloseTime", "closingDay", "notes"
  }

  /** The empty form the page starts with. */
  function EmptyForm(): (f: Record)
    ensures f.Keys == FORM_FIELDS
    ensures forall k :: k in f ==> f[k] == Str("")
  {
    map k | k in FORM_FIELDS :: Str("")
  }

  /** Submitting the untouched form stops at the first guard: no opening time. */
  lemma EmptyFormRejected()
    ensures Validate(EmptyForm()) == Some(MissingOpenTime)
  {
    assert Field(EmptyForm(), "morningOpenTime") == Str("");
  }

  /** The reasons `handleSubmit` stops before dispatching, in the order it checks them. */
  datatype SubmitError = MissingOpenTime | MissingCloseTime | IncompleteSplitSchedule

  /** What a valid submit dispatches. */
  datatype SubmitRequest =
    | AddClientRequest(data: Record)
    | UpdateClientRequest(data: Record)

  /** The guards of `handleSubmit`, first failure wins. */
  function Validate(form: Record): (r: Option<SubmitError>)
    ensures r.None? <==> Truthy(Field(form, "morningOpenTime")) && Truthy(Field(form, "eveningCloseTime"))
                         && (Truthy(Field(form, "morningCloseTime")) <==> Truthy(Field(form, "eveningOpenTime")))
    ensures r == Some(MissingOpenTime) <==> !Truthy(Field(form, "morningOpenTime"))
    ensures r == Some(MissingCloseTime) <==>
      Truthy(Field(form, "morningOpenTime")) && !Truthy(Field(form, "eveningCloseTime"))
  {
    if !Truthy(Field(form, "morningOpenTime")) then Some(MissingOpenTime)
    else if !Truthy(Field(form, "eveningCloseTime")) then Some(MissingCloseTime)
    else if (Truthy(Field(form, "morningCloseTime")) && !Truthy(Field(form, "eveningOpenTime")))
         || (!Truthy(Field(form, "morningCloseTime")) && Truthy(Field(form, "eveningOpenTime")))
    then Some(IncompleteSplitSchedule)
    else None
  }

  /** `handleSubmit`: the guards, then `updateClient({...formData, id, machines})` when
      a client is being edited or `addClient({...formData, machines: 0})` otherwise. */
  function Submit(form: Record, editing: Option<Record>): (r: Result<SubmitRequest, SubmitError>)
    ensures Validate(form).Some? <==> r.Err?
    ensures r.Err? ==> r.error == Validate(form).value
    ensures r.Ok? && editing.Some? ==>
      r.value.UpdateClientRequest? && IdOf(r.value.data) == IdOf(editing.value)
      && Field(r.value.data, "machines") == Field(editing.value, "machines")
    ensures r.Ok? && editing.None? ==>
      r.value.AddClientRequest? && Field(r.value.data, "machines") == Num(0)
    ensures r.Ok? ==> forall k :: k in form && k !in {"id", "machines"} ==> Field(r.value.data, k) == form[k]
    ensures r.Ok? && editing.Some? ==> r.value.data.Keys == form.Keys + {"id", "machines"}
    ensures r.Ok? && editing.None? ==> r.value.data.Keys == form.Keys + {"machines"}
  {
    var v := Validate(form);
    if v.Some? then Err(v.value)
    else if editing.Some? then
      Ok(UpdateClientRequest(form + map["id" := Field(editing.value, "id"),
                                        "machines" := Field(editing.value, "machines")]))
    else
      Ok(AddClientRequest(form + map["machines" := Num(0)]))
  }

  /** The split-schedule guard passes exactly when both middle times are filled or
      both are empty. */
  lemma SplitGuard(form: Record)
    requires Truthy(Field(form, "morningOpenTime")) && Truthy(Field(form, "eveningCloseTime"))
    ensures Validate(form).None? <==>
      (Truthy(Field(form, "morningCloseTime")) <==> Truthy(Field(form, "eveningOpenTime")))
  {
  }

  /** `handleEdit`: the form shows the client's fields; a missing midday close,
      evening open or notes shows as empty text. */
  function EditForm(client: Record): (f: Record)
    ensures f.Keys == FORM_FIELDS
    ensures forall k :: k in FORM_FIELDS && k !in {"morningCloseTime", "eveningOpenTime", "notes"} ==>
      f[k] == Field(client, k)
    ensures forall k :: k in {"morningCloseTime", "eveningOpenTime", "notes"} ==>
      f[k] != Undefined && f[k] != Null
      && (Truthy(Field(client, k)) ==> f[k] == client[k])
      && (!Truthy(Field(client, k)) ==> f[k] == Str(""))
  {
    map k | k in FORM_FIELDS ::
      if k in {"morningCloseTime", "eveningOpenTime", "notes"} then Or(Field(client, k), Str(""))
      else Field(client, k)
  }

  /** Editing a stored client and submitting the form unchanged sends the client's
      own schedule, id and machine count back. */
  lemma EditThenSubmit(client: Record)
    requires Validate(EditForm(client)).None?
    ensures var r := Submit(EditForm(client), Some(client));
            && r.Ok? && r.value.UpdateClientRequest?
            && IdOf(r.value.data) == IdOf(client)
            && Field(r.value.data, "machines") == Field(client, "machines")
            && Field(r.value.data, "morningOpenTime") == Field(client, "morningOpenTime")
            && Field(r.value.data, "eveningCloseTime") == Field(client, "eveningCloseTime")
  {
    var f := EditForm(client);
    assert "morningOpenTime" in FORM_FIELDS && "eveningCloseTime" in FORM_FIELDS;
    assert f["morningOpenTime"] == Field(client, "morningOpenTime");
    assert f["eveningCloseTime"] == Field(client, "eveningCloseTime");
  }

  /** `formatSchedule`: `open-close` for a continuous day, `mo-mc` followed by
      ` y eo-ec` for a split one, and empty text otherwise. */
  function FormatSchedule(client: Record): (r: string)
    ensures r != "" ==> Truthy(Field(client, "morningOpenTime"))
    ensures Truthy(Field(client, "morningOpenTime")) && Truthy(Field(client, "morningCloseTime")) ==>
      Show(Field(client, "morningOpenTime")) + "-" + Show(Field(client, "morningCloseTime")) <= r
  {
    var mo := Field(client, "morningOpenTime");
    var mc := Field(client, "morningCloseTime");
    var eo := Field(client, "eveningOpenTime");
    var ec := Field(client, "eveningCloseTime");
    if Truthy(mo) && Truthy(ec) && !Truthy(mc) && !Truthy(eo) then Show(mo) + "-" + Show(ec)
    else if Truthy(mo) && Truthy(mc) then
      Show(mo) + "-" + Show(mc) + (if Truthy(eo) && Truthy(ec) then " y " + Show(eo) + "-" + Show(ec) else "")
    else ""
  }

  /** The schedule text is empty exactly when the opening time is missing, or when
      neither a midday close nor, for a continuous day, a closing time is given. */
  lemma FormatScheduleEmpty(client: Record)
    ensures FormatSchedule(client) == "" <==>
      !Truthy(Field(client, "morningOpenTime"))
      || (!Truthy(Field(client, "morningCloseTime"))
          && (!Truthy(Field(client, "eveningCloseTime")) || Truthy(Field(client, "eveningOpenTime"))))
  {
  }

  /** The text for each shape of day: a continuous day is `open-close`; a day with a
      midday close starts `mo-mc` and adds ` y eo-ec` only when both evening times
      are given. */
  lemma FormatScheduleCases(client: Record)
    ensures var mo := Field(client, "morningOpenTime");
            var mc := Field(client, "morningCloseTime");
            var eo := Field(client, "eveningOpenTime");
            var ec := Field(client, "eveningCloseTime");
            && (Truthy(mo) && Truthy(ec) && !Truthy(mc) && !Truthy(eo) ==>
                  FormatSchedule(client) == Show(mo) + "-" + Show(ec))
            && (Truthy(mo) && Truthy(mc) ==>
                  FormatSchedule(client) == Show(mo) + "-" + Show(mc)
                    + (if Truthy(eo) && Truthy(ec) then " y " + Show(eo) + "-" + Show(ec) else ""))
  {
  }

  /** A stored client with a midday close but no evening opening, as the seeder's
      second client is, shows only its morning span. */
  lemma MorningOnlySplitDay(client: Record)
    requires Field(client, "morningOpenTime") == Str("08:00")
    requires Field(client, "morningCloseTime") == Str("16:00")
    requires Field(client, "eveningOpenTime") == Str("")
    requires Field(client, "eveningCloseTime") == Str("20:00")
    ensures FormatSchedule(client) == "08:00-16:00"
  {
    FormatScheduleCases(client);
  }

  /** Every schedule the form accepts is written out in full: `open-close` for a
      continuous day and `mo-mc y eo-ec` for a split one. */
  lemma AcceptedScheduleFormats(form: Record)
    requires Validate(form).None?
    ensures var mo := Show(Field(form, "morningOpenTime"));
            var mc := Show(Field(form, "morningCloseTime"));
            var eo := Show(Field(form, "eveningOpenTime"));
            var ec := Show(Field(form, "eveningCloseTime"));
            FormatSchedule(form) ==
              if Truthy(Field(form, "morningCloseTime")) then mo + "-" + mc + " y " + eo + "-" + ec
              else mo + "-" + ec
  {
  }

  /** Whether `name`, `address` (both ignoring case) or `phone` contains the term. */
  predicate ClientMatches(term: string, client: Record)
    requires HasSearchFields(client)
  {
    Text.Contains(Text.Lower(client["name"].s), Text.Lower(term))
    || Text.Contains(Text.Lower(client["address"].s), Text.Lower(term))
    || Text.Contains(client["phone"].s, term)
  }

  /** A `Client` has text `name`, `address` and `phone`. */
  predicate HasSearchFields(client: Record) {
    Field(client, "name").Str? && Field(client, "address").Str? && Field(client, "phone").Str?
  }

  function MatchesTerm(term: string): Record -> bool {
    c => HasSearchFields(c) && ClientMatches(term, c)
  }

  /** `filteredClients` */
  function FilterClients(clients: seq<Record>, term: string): (r: seq<Record>)
    requires forall j :: 0 <= j < |clients| ==> HasSearchFields(clients[j])
    ensures forall x :: x in r <==> x in clients && ClientMatches(term, x)
  {
    Seqs.Filter(clients, MatchesTerm(term))
  }

  /** The filter keeps clients in their order, and an empty term keeps them all. */
  lemma FilterClientsOrder(clients: seq<Record>, term: string)
    requires forall j :: 0 <= j < |clients| ==> HasSearchFields(clients[j])
    ensures Seqs.IsSubsequence(FilterClients(clients, term), clients)
    ensures term == "" ==> FilterClients(clients, term) == clients
  {
    Seqs.FilterIsSubsequence(clients, MatchesTerm(term));
    if term == "" {
      forall c: Record | c in clients ensures MatchesTerm(term)(c) {
        Text.ContainsEmpty(c["phone"].s);
      }
      Seqs.FilterKeepsAll(clients, MatchesTerm(term));
    }
  }
}
