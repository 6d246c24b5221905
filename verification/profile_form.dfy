/** The profile form: edit mode, the field handler, cancel, submit and the
    sticky save bar, over the unsaved-changes flag of the guard. The form
    data is a partial profile, a map from field name to value; the type of
    the values is left open. */
module ProfileForm {
  import opened Wrappers
  import opened JsErrors
  import opened UnsavedChanges

  /** The form's state: its four `useState` values and the guard's flag. */
  datatype FormState<V> = FormState(
    editing: bool,
    loading: bool,
    error: Option<string>,
    formData: map<string, V>,
    unsaved: bool)

  const UpdateFailedMessage := "Failed to update profile"

  /** The partial profile the form starts from and cancels back to:
      `profile || {}`. */
  function StartingData<V>(profile: Option<map<string, V>>): map<string, V> {
    profile.GetOr(map[])
  }

  /** The state when the form mounts: not editing, not loading, no error,
      the profile's data, nothing unsaved. */
  function Init<V>(profile: Option<map<string, V>>): (s: FormState<V>)
    ensures !s.editing && !s.loading && s.error.None? && !s.unsaved
    ensures profile.Some? ==> s.formData == profile.value
    ensures profile.None? ==> s.formData == map[]
  {
    FormState(false, false, None, StartingData(profile), InitialUnsaved)
  }

  /** `handleChange(field, value)`: that field gets the value, every other
      field is kept, and the change is marked unsaved. */
  function Change<V>(s: FormState<V>, field: string, value: V): (r: FormState<V>)
    ensures field in r.formData && r.formData[field] == value
    ensures r.formData.Keys == s.formData.Keys + {field}
    ensures forall k :: k in s.formData && k != field ==> r.formData[k] == s.formData[k]
    ensures r.unsaved
    ensures r.editing == s.editing && r.loading == s.loading && r.error == s.error
  {
    s.(formData := s.formData[field := value], unsaved := true)
  }

  /** `handleCancel`: leaves edit mode, restores the profile's data and
      clears the unsaved flag. */
  function Cancel<V>(s: FormState<V>, profile: Option<map<string, V>>): (r: FormState<V>)
    ensures !r.editing && !r.unsaved
    ensures r.formData == Init(profile).formData
    ensures r.loading == s.loading && r.error == s.error
  {
    s.(editing := false, formData := StartingData(profile), unsaved := false)
  }

  /** The header button: flips edit mode and nothing else. */
  function ToggleEditing<V>(s: FormState<V>): (r: FormState<V>)
    ensures r.editing != s.editing
    ensures r.(editing := s.editing) == s
  {
    s.(editing := !s.editing)
  }

  /** The state while `onUpdate` is pending: loading, error cleared. */
  function BeginSubmit<V>(s: FormState<V>): (r: FormState<V>)
    ensures r.loading && r.error.None?
    ensures r.editing == s.editing && r.formData == s.formData && r.unsaved == s.unsaved
  {
    s.(loading := true, error := None)
  }

  /** `onUpdate` returned: edit mode ends, nothing is unsaved any more, and
      loading ends. */
  function SubmitSucceeded<V>(s: FormState<V>): (r: FormState<V>)
    ensures !r.editing && !r.unsaved && !r.loading
    ensures r.error == s.error && r.formData == s.formData
  {
    s.(editing := false, unsaved := false, loading := false)
  }

  /** `onUpdate` threw: the error is shown (the Error's message, or the
      fallback for anything else thrown), loading ends, and edit mode and the
      unsaved flag stay as they were. */
  function SubmitFailed<V>(s: FormState<V>, e: Thrown): (r: FormState<V>)
    ensures r.error.Some? && !r.loading
    ensures e.ErrorValue? ==> r.error.value == e.message
    ensures e.OtherValue? ==> r.error.value == UpdateFailedMessage
    ensures r.editing == s.editing && r.unsaved == s.unsaved && r.formData == s.formData
  {
    s.(error := Some(MessageOf(e, UpdateFailedMessage)), loading := false)
  }

  /** `handleSubmit`, given what `onUpdate` did (`None` when it returned):
      the form data sent is kept and loading is over on both paths. A
      success leaves edit mode with nothing unsaved and no error; a failure
      shows the error and leaves edit mode and the unsaved flag alone. */
  function Submit<V>(s: FormState<V>, outcome: Option<Thrown>): (r: FormState<V>)
    ensures !r.loading && r.formData == s.formData
    ensures outcome.None? ==> !r.editing && !r.unsaved && r.error.None?
    ensures outcome.Some? ==>
      && r.error == Some(MessageOf(outcome.value, UpdateFailedMessage))
      && r.editing == s.editing && r.unsaved == s.unsaved
  {
    var pending := BeginSubmit(s);
    match outcome
    case None => SubmitSucceeded(pending)
    case Some(e) => SubmitFailed(pending, e)
  }

  /** The sticky save bar is rendered exactly while editing with the
      unsaved-changes guard armed. */
  function ShowStickyBar<V>(s: FormState<V>): (b: bool)
    ensures b <==> s.editing && BeforeUnload(s.unsaved).prevented
  {
    s.editing && s.unsaved
  }

  /** After a submit loading is over on both paths; a success leaves no
      error and closes the bar, a failure keeps the bar as it was. */
  lemma SubmitOutcomes<V>(s: FormState<V>, outcome: Option<Thrown>)
    ensures !Submit(s, outcome).loading
    ensures Submit(s, outcome).formData == s.formData
    ensures outcome.None? ==> Submit(s, outcome).error.None? && !ShowStickyBar(Submit(s, outcome))
    ensures outcome.Some? ==> Submit(s, outcome).error.Some? && (ShowStickyBar(Submit(s, outcome)) <==> ShowStickyBar(s))
  {
  }

  /** Editing a field while in edit mode brings up the save bar and arms the
      guard; cancelling hides it, releases the guard and puts back the
      profile as it is passed in at that moment. The profile is a value
      here, which the form's edits cannot reach. */
  lemma EditThenCancel<V>(s: FormState<V>, profile: Option<map<string, V>>, field: string, value: V)
    requires s.editing
    ensures ShowStickyBar(Change(s, field, value))
    ensures BeforeUnload(Change(s, field, value).unsaved).prevented
    ensures var c := Cancel(Change(s, field, value), profile);
      !ShowStickyBar(c) && !BeforeUnload(c.unsaved).prevented && c.formData == StartingData(profile)
  {
  }

  /** Leaving edit mode with the header button hides the save bar but, unlike
      cancelling, keeps the edits and the unsaved flag, so unloading the page
      is still blocked. */
  lemma HeaderToggleKeepsUnsavedEdits<V>(s: FormState<V>, field: string, value: V)
    requires s.editing
    ensures var t := ToggleEditing(Change(s, field, value));
      && !ShowStickyBar(t)
      && t.formData[field] == value
      && t.unsaved
      && BeforeUnload(t.unsaved).prevented
  {
  }
}
