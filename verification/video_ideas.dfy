/**
 * The idea form as a state machine: a modal that either adds a new idea or edits
 * the one whose id is `editingId`. A submit yields at most one callback.
 */
module VideoIdeas {
  import opened Wrappers
  import opened Text
  import opened Types
  import Storage
  import App

  /** The component's state. */
  datatype IdeaForm = IdeaForm(showModal: bool, editingId: Option<string>, title: string, description: string)

  /** The empty, closed form: the initial state and the state after a submit or a close. */
  const ClosedForm := IdeaForm(false, None, "", "")

  /** The callback a submit makes, if any. */
  datatype IdeaCall = NoCall | AddCall(data: IdeaData) | UpdateCall(id: string, patch: IdeaPatch)

  datatype IdeaOutcome = IdeaOutcome(form: IdeaForm, call: IdeaCall)

  /** `if (editingId)`: the form edits only when the id is set and, being a string, non-empty. */
  predicate IsEditing(f: IdeaForm) {
    f.editingId.Some? && f.editingId.value != ""
  }

  /**
   * A blank title or description makes no call and leaves the form as it is.
   * Otherwise an editing form calls only `onUpdateIdea` with a patch of the trimmed
   * title and description, any other form calls only `onAddIdea`, and the form is
   * emptied and closed.
   */
  function Submit(f: IdeaForm): (r: IdeaOutcome)
    ensures r.call.NoCall? <==> IsBlank(f.title) || IsBlank(f.description)
    ensures r.call.NoCall? ==> r.form == f
    ensures !r.call.NoCall? ==> r.form == ClosedForm
    ensures r.call.UpdateCall? <==> !r.call.NoCall? && IsEditing(f)
    ensures r.call.UpdateCall? ==>
              && r.call.id == f.editingId.value
              && r.call.patch == IdeaPatch(None, Some(Trim(f.title)), Some(Trim(f.description)), None)
    ensures r.call.AddCall? ==> r.call.data == IdeaData(Trim(f.title), Trim(f.description))
  {
    if Trim(f.title) == "" || Trim(f.description) == "" then
      IdeaOutcome(f, NoCall)
    else if IsEditing(f) then
      IdeaOutcome(ClosedForm, UpdateCall(f.editingId.value,
        IdeaPatch(None, Some(Trim(f.title)), Some(Trim(f.description)), None)))
    else
      IdeaOutcome(ClosedForm, AddCall(IdeaData(Trim(f.title), Trim(f.description))))
  }

  /** Opens the modal on an existing idea, loading its title and description. */
  function Edit(f: IdeaForm, idea: VideoIdea): (r: IdeaForm)
    ensures r.showModal && r.editingId == Some(idea.id)
    ensures r.title == idea.title && r.description == idea.description
  {
    IdeaForm(true, Some(idea.id), idea.title, idea.description)
  }

  /** Closing the modal discards the draft and any edit in progress. */
  function CloseModal(f: IdeaForm): (r: IdeaForm)
    ensures !r.showModal && r.editingId.None? && r.title == "" && r.description == ""
  {
    IdeaForm(false, None, "", "")
  }

  /** The "Add Idea" button only opens the modal; a draft or edit in progress is kept. */
  function OpenModal(f: IdeaForm): (r: IdeaForm)
    ensures r.showModal && r.(showModal := f.showModal) == f
  {
    f.(showModal := true)
  }

  /** Editing an idea and submitting it unchanged updates that idea and adds nothing. */
  lemma EditThenSubmit(f: IdeaForm, idea: VideoIdea)
    requires idea.id != "" && !IsBlank(idea.title) && !IsBlank(idea.description)
    ensures Submit(Edit(f, idea)).call ==
              UpdateCall(idea.id, IdeaPatch(None, Some(Trim(idea.title)), Some(Trim(idea.description)), None))
  {
  }

  /**
   * The patch an edit sends carries no id and no creation time, so applying it
   * through the application keeps every idea's id and creation time, changes at most
   * one idea, and gives that one the trimmed title and description.
   */
  lemma EditKeepsIdentity(w: App.World, f: IdeaForm)
    requires Submit(f).call.UpdateCall?
    ensures var c := Submit(f).call;
      var before := Storage.GetIdeas(w.store);
      var after := App.HandleUpdateIdea(w, c.id, c.patch).app.ideas;
      && |after| == |before|
      && (forall j :: 0 <= j < |before| ==> after[j].id == before[j].id && after[j].createdAt == before[j].createdAt)
      && (forall j :: 0 <= j < |before| && after[j] != before[j] ==>
            after[j].title == Trim(f.title) && after[j].description == Trim(f.description))
  {
  }
}
