/**
 * The three forms and their required-field guards: `NewTask.submit`,
 * `ClientGallery.handleAddClient` and `ClientDetail.handleAddDetail`. Each one rejects,
 * silently and without changing anything, a required field that is empty after trimming.
 */
module Forms {
  import opened Wrappers
  import opened Text
  import opened Records
  import opened Entities
  import opened Stores
  import opened DetailGrid

  /**
   * The task `NewTask.submit` would add: none when the title is white space only,
   * otherwise the trimmed title, which is then non-empty, and the trimmed notes.
   */
  function TaskDraft(title: string, notes: string): (r: Option<TaskFields>)
    ensures r.None? <==> forall i | 0 <= i < |title| :: IsSpace(title[i])
    ensures r.Some? ==> r.value.title != [] && r.value.title == Trim(title) && r.value.notes == Trim(notes)
  {
    if IsBlank(title) then None else Some(TaskFields(Trim(title), Trim(notes)))
  }

  /**
   * The client `handleAddClient` would add: none when the name is white space only,
   * otherwise the draft exactly as typed (its fields are not trimmed).
   */
  function ClientDraft(draft: ClientFields): (r: Option<ClientFields>)
    ensures r.None? <==> forall i | 0 <= i < |draft.name| :: IsSpace(draft.name[i])
    ensures r.Some? ==> r.value == draft
  {
    if IsBlank(draft.name) then None else Some(draft)
  }

  /**
   * The row `handleAddDetail` would append: none when the detail is white space only,
   * otherwise a row with the untrimmed text under "description" and "" under "status".
   */
  function DetailDraft(newDetail: string): (r: Option<Row>)
    ensures r.None? <==> forall i | 0 <= i < |newDetail| :: IsSpace(newDetail[i])
    ensures r.Some? ==>
      r.value.Keys == {"description", "status"} && r.value["description"] == newDetail && r.value["status"] == ""
  {
    if IsBlank(newDetail) then None else Some(DetailRow(newDetail))
  }

  /**
   * `NewTask.submit`: adds the trimmed task under `id` and navigates to the list, or does
   * nothing when the title is blank.
   */
  method SubmitNewTask(tasks: Store<TaskFields>, title: string, notes: string, id: Id) returns (navigate: bool)
    modifies tasks
    ensures navigate <==> !IsBlank(title)
    ensures tasks.records ==
      if navigate then old(tasks.records) + [Entry(id, TaskFields(Trim(title), Trim(notes)))]
      else old(tasks.records)
  {
    match TaskDraft(title, notes)
    case None =>
      navigate := false;
    case Some(fields) =>
      tasks.Add(fields, id);
      navigate := true;
  }

  /** The client gallery's inline add-form. */
  class ClientGallery {
    var newClient: ClientFields
    var showAddForm: bool

    constructor ()
      ensures newClient == EmptyClientDraft && !showAddForm
    {
      newClient := EmptyClientDraft;
      showAddForm := false;
    }

    /** The "Add Client" / "Cancel" button. */
    method ToggleAddForm()
      modifies this
      ensures showAddForm == !old(showAddForm) && newClient == old(newClient)
    {
      showAddForm := !showAddForm;
    }

    /**
     * `handleAddClient`: with a non-blank name the draft is added under `id`, then the
     * draft is reset and the form hidden; with a blank name nothing changes.
     */
    method HandleAddClient(clients: Store<ClientFields>, id: Id) returns (accepted: bool)
      modifies this, clients
      ensures accepted <==> !IsBlank(old(newClient).name)
      ensures clients.records ==
        if accepted then old(clients.records) + [Entry(id, old(newClient))] else old(clients.records)
      ensures if accepted then newClient == EmptyClientDraft && !showAddForm
              else newClient == old(newClient) && showAddForm == old(showAddForm)
    {
      match ClientDraft(newClient)
      case None =>
        accepted := false;
      case Some(draft) =>
        clients.Add(draft, id);
        newClient := EmptyClientDraft;
        showAddForm := false;
        accepted := true;
    }
  }

  /** The client detail page: the detail input and the project-details grid it owns. */
  class ClientDetail {
    var newDetail: string
    const details: ProjectDetails

    constructor ()
      ensures newDetail == "" && fresh(details)
      ensures details.columns == InitialColumns && details.rows == []
    {
      newDetail := "";
      details := new ProjectDetails();
    }

    /**
     * `handleAddDetail`: with non-blank input, appends a description/status row (keyed
     * independently of the grid's current columns) and clears the input; otherwise
     * nothing changes.
     */
    method HandleAddDetail() returns (accepted: bool)
      modifies this, details
      ensures accepted <==> !IsBlank(old(newDetail))
      ensures details.columns == old(details.columns)
      ensures details.rows ==
        if accepted then old(details.rows) + [DetailRow(old(newDetail))] else old(details.rows)
      ensures newDetail == if accepted then "" else old(newDetail)
    {
      match DetailDraft(newDetail)
      case None =>
        accepted := false;
      case Some(row) =>
        details.rows := details.rows + [row];
        newDetail := "";
        accepted := true;
    }
  }

  /** Adding "Buy milk" to an empty task list, then deleting it, leaves the list empty. */
  method AddThenDeleteScenario(id: Id)
  {
    var tasks := new Store<TaskFields>([]);
    TrimStartOfTrimmed("Buy milk");
    TrimEndOfTrimmed("Buy milk");
    var navigate := SubmitNewTask(tasks, "Buy milk", "", id);
    assert navigate && tasks.records == [Entry(id, TaskFields("Buy milk", ""))];
    tasks.Remove(id);
    assert tasks.records == [];
  }
}
