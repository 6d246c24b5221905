/** The unsaved-changes guard: a flag, the page-unload handler that asks the
    browser to hold the page while the flag is set, and in-app navigation
    that asks for confirmation first. */
module UnsavedChanges {
  import opened Wrappers

  /** The flag's value when the hook mounts. */
  const InitialUnsaved := false

  /** What the `beforeunload` handler does to the event: whether it called
      `preventDefault`, and the `returnValue` it set. */
  datatype UnloadResponse = UnloadResponse(prevented: bool, returnValue: Option<string>)

  /** The `beforeunload` handler. */
  function BeforeUnload(unsaved: bool): (r: UnloadResponse)
    ensures r.prevented <==> unsaved
    ensures r.prevented ==> r.returnValue == Some("")
    ensures !r.prevented ==> r == UnloadResponse(false, None)
  {
    if unsaved then UnloadResponse(true, Some("")) else UnloadResponse(false, None)
  }

  /** What `handleNavigate(to)` leaves behind: the flag, the route navigated
      to (if any), and whether the user was asked to confirm. */
  datatype NavOutcome = NavOutcome(unsaved: bool, navigatedTo: Option<string>, asked: bool)

  /** `handleNavigate(to)`. `confirmed` is the answer the user would give to
      the confirmation dialog; it is only consulted when there are unsaved
      changes. */
  function HandleNavigate(unsaved: bool, to: string, confirmed: bool): (r: NavOutcome)
    ensures r.asked <==> unsaved
    ensures r.navigatedTo.Some? ==> r.navigatedTo.value == to
    ensures r.navigatedTo.Some? <==> !unsaved || confirmed
    ensures r.unsaved <==> unsaved && !confirmed
  {
    if unsaved then
      if confirmed then NavOutcome(false, Some(to), true) else NavOutcome(true, None, true)
    else NavOutcome(false, Some(to), false)
  }

  /** The guard never lets the app leave with the flag still set, and never
      sets the flag itself. */
  lemma NavigationClearsOrStays(unsaved: bool, to: string, confirmed: bool)
    ensures var r := HandleNavigate(unsaved, to, confirmed);
      && (r.navigatedTo.Some? ==> !r.unsaved)
      && (r.navigatedTo.None? ==> r.unsaved == unsaved && unsaved)
      && (r.unsaved ==> unsaved)
  {
  }

  /** Once the user has confirmed leaving, the page may also be unloaded
      freely, and a second navigation goes through without a question. */
  lemma ConfirmedLeaveReleasesGuard(to: string, next: string, answer: bool)
    ensures var r := HandleNavigate(true, to, true);
      && !BeforeUnload(r.unsaved).prevented
      && HandleNavigate(r.unsaved, next, answer) == NavOutcome(false, Some(next), false)
  {
  }
}
