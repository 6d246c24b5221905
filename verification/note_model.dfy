/** The clinical note held by the main application view: a note made of
    sections, each with its own version history, and the pure updaters the
    view applies to it (`setNote(prev => ...)`). The generation service,
    the section parser, the prompt builder and the format templates are not
    part of this model: their results enter as parameters. */
module NoteModel {
  import opened Wrappers
  import opened Text
  import opened JsErrors

  /** One generated text of a section. */
  datatype Version = Version(id: int, content: string, timestamp: nat)

  datatype Section = Section(
    id: string,
    heading: string,
    versions: seq<Version>,
    currentVersion: int,
    isProcessing: bool,
    error: Option<string>)

  datatype Note = Note(
    id: string,
    content: string,
    originalContent: string,
    isProcessing: bool,
    sections: seq<Section>,
    error: Option<string>)

  /** The view's note; `None` is the `null` shown before the first
      submission and after "clear". */
  type NoteState = Option<Note>

  /** The guided answers as `Object.entries` lists them: (prompt id, answer). */
  type GuidedResponses = seq<(string, string)>

  /** The part of the submitted form that decides the note's content and
      the format later regenerations are asked for. */
  datatype NoteForm = NoteForm(content: string, noteFormat: string, guidedResponses: Option<GuidedResponses>)

  /** A call of the generation service. */
  datatype Request = Request(content: string, prompt: string, removeHeader: bool)

  /** What an awaited generation call produced. */
  datatype ServiceOutcome = Processed(processedContent: string) | Threw(thrown: Thrown)

  const AnswerSeparator := "\n\n"
  const ProcessFailedMessage := "Failed to process note. Please try again."
  const RegenerateFailedMessage := "Failed to regenerate section"

  // ----------------------------------------------------------------------
  // Note content and creation

  /** Every guided answer is blank. */
  predicate AllBlank(entries: GuidedResponses) {
    forall i :: 0 <= i < |entries| ==> IsBlank(entries[i].1)
  }

  /** Every answer is non-empty and already trimmed. */
  predicate AllTrimmedNonEmpty(answers: seq<string>) {
    forall i :: 0 <= i < |answers| ==> answers[i] != [] && Trim(answers[i]) == answers[i]
  }

  /** The guided answers that survive the blank filter, trimmed, in entry
      order. */
  function KeptAnswers(entries: GuidedResponses): (r: seq<string>)
    ensures |r| <= |entries|
    ensures AllTrimmedNonEmpty(r)
    ensures r == [] <==> AllBlank(entries)
  {
    if entries == [] then []
    else
      var init := entries[..|entries| - 1];
      var rest := KeptAnswers(init);
      var v := entries[|entries| - 1].1;
      AllBlankSnoc(entries);
      if IsBlank(v) then rest
      else
        KeptAnswerSnoc(rest, v);
        rest + [Trim(v)]
  }

  /** All entries are blank exactly when those before the last are and the
      last one is. */
  lemma AllBlankSnoc(entries: GuidedResponses)
    requires entries != []
    ensures AllBlank(entries) <==> AllBlank(entries[..|entries| - 1]) && IsBlank(entries[|entries| - 1].1)
  {
    var init := entries[..|entries| - 1];
    assert forall i :: 0 <= i < |init| ==> init[i] == entries[i];
  }

  /** A non-blank answer, trimmed, extends a list of trimmed answers. */
  lemma KeptAnswerSnoc(answers: seq<string>, v: string)
    requires AllTrimmedNonEmpty(answers) && !IsBlank(v)
    ensures AllTrimmedNonEmpty(answers + [Trim(v)])
  {
    TrimIdempotent(v);
    var r := answers + [Trim(v)];
    assert forall i :: 0 <= i < |answers| ==> r[i] == answers[i];
  }

  /** The note text derived from guided answers. */
  function GuidedContent(entries: GuidedResponses): string {
    Join(KeptAnswers(entries), AnswerSeparator)
  }

  /** The content a submission produces: the guided answers when a guided
      response object is present (even an empty one), else the raw text. */
  function NoteContent(form: NoteForm): (r: string)
    ensures form.guidedResponses.None? ==> r == form.content
    ensures form.guidedResponses.Some? ==>
      (r == [] <==> forall i :: 0 <= i < |form.guidedResponses.value| ==>
                      IsBlank(form.guidedResponses.value[i].1))
  {
    match form.guidedResponses
    case None => form.content
    case Some(entries) =>
      JoinEmptyIff(KeptAnswers(entries), AnswerSeparator);
      GuidedContent(entries)
  }

  /** The note a submission starts with: stamped with the clock, holding the
      derived content both as current and as original content, processing,
      with no sections yet. */
  function CreateNote(now: nat, form: NoteForm): (n: Note)
    ensures n.id == NatToString(now)
    ensures n.content == NoteContent(form) && n.originalContent == NoteContent(form)
    ensures n.isProcessing && n.sections == [] && n.error.None?
  {
    var text := NoteContent(form);
    Note(NatToString(now), text, text, true, [], None)
  }

  /** Submission: the new note, and the full-generation request sent for it.
      `builtPrompt` is the prompt builder's output, which is not modelled. */
  function SubmitNote(now: nat, form: NoteForm, builtPrompt: string): (r: (Note, Request))
    ensures r.0 == CreateNote(now, form)
    ensures r.1.content == r.0.originalContent
    ensures r.1.prompt == builtPrompt && !r.1.removeHeader
  {
    var n := CreateNote(now, form);
    (n, Request(n.originalContent, builtPrompt, false))
  }

  /** "Clear": the view drops its note. */
  function ClearNote(): (r: NoteState)
    ensures r.None?
  {
    None
  }

  // ----------------------------------------------------------------------
  // Full generation

  /** The note fields a section-level updater never touches. */
  predicate SameNoteFields(a: Note, b: Note) {
    && a.id == b.id
    && a.content == b.content
    && a.originalContent == b.originalContent
    && a.isProcessing == b.isProcessing
    && a.error == b.error
  }

  /** The full-generation result arrived: the parsed sections replace the
      note's sections and processing ends; identity and content stay. */
  function GenerationSucceeded(prev: NoteState, parsed: seq<Section>): (r: NoteState)
    ensures prev.None? <==> r.None?
    ensures prev.Some? ==>
      && r.value.sections == parsed
      && !r.value.isProcessing
      && r.value.id == prev.value.id
      && r.value.content == prev.value.content
      && r.value.originalContent == prev.value.originalContent
      && r.value.error == prev.value.error
  {
    match prev
    case None => None
    case Some(n) => Some(n.(sections := parsed, isProcessing := false))
  }

  /** The full generation threw: the note carries the error, processing
      ends and no section is kept. */
  function GenerationFailed(prev: NoteState, thrown: Thrown): (r: NoteState)
    ensures prev.None? <==> r.None?
    ensures prev.Some? ==>
      && r.value.error == Some(MessageOf(thrown, ProcessFailedMessage))
      && !r.value.isProcessing
      && r.value.sections == []
      && r.value.id == prev.value.id
      && r.value.content == prev.value.content
      && r.value.originalContent == prev.value.originalContent
  {
    match prev
    case None => None
    case Some(n) =>
      Some(n.(error := Some(MessageOf(thrown, ProcessFailedMessage)), isProcessing := false, sections := []))
  }

  /** The updater applied when the full-generation call settles; `parse`
      stands for the section parser applied to the service's text. */
  function CompleteGeneration(prev: NoteState, outcome: ServiceOutcome, parse: string -> seq<Section>): (r: NoteState)
    ensures prev.None? <==> r.None?
    ensures prev.Some? ==>
      && !r.value.isProcessing
      && r.value.id == prev.value.id
      && r.value.content == prev.value.content
      && r.value.originalContent == prev.value.originalContent
    ensures prev.Some? && outcome.Processed? ==>
      r.value.sections == parse(outcome.processedContent) && r.value.error == prev.value.error
    ensures prev.Some? && outcome.Threw? ==>
      r.value.sections == [] && r.value.error == Some(MessageOf(outcome.thrown, ProcessFailedMessage))
  {
    match outcome
    case Processed(text) => GenerationSucceeded(prev, parse(text))
    case Threw(e) => GenerationFailed(prev, e)
  }

  /** A submission followed by the settling of its own generation call, with
      no other update in between: the note keeps the id and content it was
      created with, stops processing, and holds either the parsed sections
      or the error and no sections. */
  function ProcessNote(now: nat, form: NoteForm, outcome: ServiceOutcome, parse: string -> seq<Section>): (r: NoteState)
    ensures r.Some?
    ensures r.value.id == NatToString(now)
    ensures r.value.originalContent == NoteContent(form) && r.value.content == NoteContent(form)
    ensures !r.value.isProcessing
    ensures outcome.Processed? ==> r.value.sections == parse(outcome.processedContent) && r.value.error.None?
    ensures outcome.Threw? ==>
      r.value.sections == [] && r.value.error == Some(MessageOf(outcome.thrown, ProcessFailedMessage))
  {
    CompleteGeneration(Some(CreateNote(now, form)), outcome, parse)
  }

  // ----------------------------------------------------------------------
  // Sections

  /** `sections.find(s => s.id === id)`, as the index of the first match. */
  function FindSection(sections: seq<Section>, id: string): (r: Option<nat>)
    ensures r.Some? ==> r.value < |sections| && sections[r.value].id == id
    ensures r.Some? ==> forall j :: 0 <= j < r.value ==> sections[j].id != id
    ensures r.None? ==> forall j :: 0 <= j < |sections| ==> sections[j].id != id
  {
    if sections == [] then None
    else if sections[0].id == id then Some(0)
    else
      match FindSection(sections[1..], id)
      case None => None
      case Some(k) => Some(k + 1)
  }

  /** The largest version id of a non-empty history (`Math.max(...ids)`). */
  function MaxVersionId(versions: seq<Version>): (m: int)
    requires versions != []
    ensures forall i :: 0 <= i < |versions| ==> versions[i].id <= m
    ensures exists i :: 0 <= i < |versions| && versions[i].id == m
  {
    if |versions| == 1 then versions[0].id
    else
      var m := MaxVersionId(versions[1..]);
      assert versions[1..][0] == versions[1];
      if versions[0].id > m then versions[0].id else m
  }

  /** The id a regenerated version gets: one past the largest existing id,
      or 0 for an empty history. It exceeds every existing id. */
  function NextVersionId(versions: seq<Version>): (n: int)
    ensures forall i :: 0 <= i < |versions| ==> versions[i].id < n
    ensures versions == [] ==> n == 0
    ensures versions != [] ==> exists i :: 0 <= i < |versions| && versions[i].id == n - 1
  {
    if |versions| > 0 then MaxVersionId(versions) + 1 else 0
  }

  /** The version a successful regeneration of a section with history
      `versions` appends. */
  function NewVersion(versions: seq<Version>, processed: string, now: nat): (v: Version)
    ensures v.id == NextVersionId(versions)
    ensures v.content == Trim(processed) && v.timestamp == now
  {
    Version(NextVersionId(versions), Trim(processed), now)
  }

  /** The change a section-level updater makes to each matching section. */
  datatype SectionChange =
    | MarkProcessing
    | AppendVersion(version: Version)
    | MarkFailed(message: string)
    | SelectVersion(versionId: int)

  function ApplyChange(s: Section, c: SectionChange): (t: Section)
    ensures t.id == s.id && t.heading == s.heading
  {
    match c
    case MarkProcessing => s.(isProcessing := true, error := None)
    case AppendVersion(v) =>
      s.(versions := s.versions + [v], currentVersion := v.id, isProcessing := false, error := None)
    case MarkFailed(m) => s.(error := Some(m), isProcessing := false)
    case SelectVersion(vid) => s.(currentVersion := vid)
  }

  /** `sections.map(s => s.id === id ? change(s) : s)`: every section with
      the id gets the change, every other section is kept, and the order,
      the ids and the headings stay as they were. */
  function UpdateSections(sections: seq<Section>, id: string, c: SectionChange): (r: seq<Section>)
    ensures OnlyTargetChanged(sections, r, id)
    ensures forall i :: 0 <= i < |r| && sections[i].id == id ==> r[i] == ApplyChange(sections[i], c)
  {
    seq(|sections|, i requires 0 <= i < |sections| =>
      if sections[i].id == id then ApplyChange(sections[i], c) else sections[i])
  }

  /** `sections` and `after` differ only in sections with id `id`, and no
      section changes its id or heading. */
  predicate OnlyTargetChanged(before: seq<Section>, after: seq<Section>, id: string) {
    && |after| == |before|
    && (forall i :: 0 <= i < |before| ==> after[i].id == before[i].id && after[i].heading == before[i].heading)
    && (forall i :: 0 <= i < |before| && before[i].id != id ==> after[i] == before[i])
  }

  // ----------------------------------------------------------------------
  // The current note format

  /** The format the view starts with when no saved setting is usable. */
  const DefaultFormat := "girp"

  /** The saved format setting is used only when it is present and not
      empty (JavaScript's `settings?.note_format || 'girp'`). */
  predicate UsableSetting(setting: Option<string>) {
    setting.Some? && setting.value != []
  }

  /** The format the view starts with: the saved setting when it is usable,
      else GIRP. */
  function InitialFormat(setting: Option<string>): (f: string)
    ensures UsableSetting(setting) ==> f == setting.value
    ensures !UsableSetting(setting) ==> f == DefaultFormat
  {
    if UsableSetting(setting) then setting.value else DefaultFormat
  }

  /** What moves the view's current format: the saved setting taking a new
      value (the settings effect runs only then), or a submission. */
  datatype FormatEvent = SettingChanged(setting: Option<string>) | Submitted(form: NoteForm)

  /** The events that overwrite the current format: every submission, and a
      setting change to a usable value. */
  predicate SetsFormat(e: FormatEvent) {
    e.Submitted? || UsableSetting(e.setting)
  }

  /** The format such an event writes. */
  function FormatSet(e: FormatEvent): string
    requires SetsFormat(e)
  {
    if e.Submitted? then e.form.noteFormat else e.setting.value
  }

  function NextFormat(current: string, e: FormatEvent): (f: string)
    ensures SetsFormat(e) ==> f == FormatSet(e)
    ensures !SetsFormat(e) ==> f == current
  {
    match e
    case Submitted(form) => form.noteFormat
    case SettingChanged(setting) => if UsableSetting(setting) then setting.value else current
  }

  /** The current format after the events, in order, from `start`. */
  function FormatAfter(start: string, events: seq<FormatEvent>): string
    decreases |events|
  {
    if events == [] then start
    else NextFormat(FormatAfter(start, events[..|events| - 1]), events[|events| - 1])
  }

  // ----------------------------------------------------------------------
  // Section regeneration

  /** The click handler's guard, read from the note the view rendered: a
      note with non-empty original content holding a section with the id. */
  predicate CanRegenerate(snapshot: NoteState, id: string) {
    snapshot.Some? && snapshot.value.originalContent != [] && FindSection(snapshot.value.sections, id).Some?
  }

  const PromptIntro := "\nPlease regenerate the following section of the clinical documentation.\nThe documentation uses the "
  const PromptFormatTail := " format with these exact section headers:\n\n"
  const PromptTarget := "\n\nRegenerate ONLY the content for this section:\n"
  const PromptClosing := "\n\nReturn ONLY the content without the section header. Maintain professional clinical language and ensure 5-10 complete sentences."

  /** The section prompt: the format's name in upper case, the format's
      template (`getNoteFormatPrompt`, a parameter here), and the heading of
      the one section to regenerate. */
  function SectionPrompt(format: string, template: string, heading: string): (p: string)
    ensures OccursAt(p, UpperCase(format), |PromptIntro|)
    ensures OccursAt(p, template, |PromptIntro| + |format| + |PromptFormatTail|)
    ensures OccursAt(p, heading, |PromptIntro| + |format| + |PromptFormatTail| + |template| + |PromptTarget|)
  {
    Concat7(PromptIntro, UpperCase(format), PromptFormatTail, template, PromptTarget, heading, PromptClosing)
  }

  /** The request a regeneration click sends, or `None` when the guard
      stops the handler before any update or request. */
  function RegenerationRequest(snapshot: NoteState, id: string, format: string, template: string): (r: Option<Request>)
    ensures r.Some? <==> CanRegenerate(snapshot, id)
    ensures r.Some? ==>
      && r.value.content == snapshot.value.originalContent
      && r.value.removeHeader
      && var s := snapshot.value.sections[FindSection(snapshot.value.sections, id).value];
         s.id == id && r.value.prompt == SectionPrompt(format, template, s.heading)
  {
    if !CanRegenerate(snapshot, id) then None
    else
      var n := snapshot.value;
      var s := n.sections[FindSection(n.sections, id).value];
      Some(Request(n.originalContent, SectionPrompt(format, template, s.heading), true))
  }

  /** The click on "regenerate": the guard reads the rendered note
      `snapshot`, the updater it queues is applied to `prev`. When the guard
      fails the handler returns before either, so the note is left as it is
      and nothing is sent. */
  function ClickRegenerate(snapshot: NoteState, prev: NoteState, id: string, format: string, template: string): (r: (NoteState, Option<Request>))
    ensures r.1.Some? <==> CanRegenerate(snapshot, id)
    ensures !CanRegenerate(snapshot, id) ==> r.0 == prev
    ensures CanRegenerate(snapshot, id) ==> r.0 == StartRegeneration(prev, id)
    ensures r.1 == RegenerationRequest(snapshot, id, format, template)
  {
    var request := RegenerationRequest(snapshot, id, format, template);
    if request.None? then (prev, None) else (StartRegeneration(prev, id), request)
  }

  /** Regeneration starts: every section with the id is marked processing
      with its error cleared; nothing else changes. */
  function StartRegeneration(prev: NoteState, id: string): (r: NoteState)
    ensures prev.None? <==> r.None?
    ensures prev.Some? ==>
      && SameNoteFields(prev.value, r.value)
      && OnlyTargetChanged(prev.value.sections, r.value.sections, id)
      && forall i :: 0 <= i < |prev.value.sections| && prev.value.sections[i].id == id ==>
           var s := prev.value.sections[i];
           var t := r.value.sections[i];
           t.isProcessing && t.error.None? && t.versions == s.versions && t.currentVersion == s.currentVersion
  {
    match prev
    case None => None
    case Some(n) => Some(n.(sections := UpdateSections(n.sections, id, MarkProcessing)))
  }

  /** Regeneration returned text. If the section is still there, exactly one
      version is appended to it, numbered past every existing version, holding
      the trimmed text, and made current; processing ends and the error is
      cleared. If the section is gone the state is unchanged. */
  function RegenerationSucceeded(prev: NoteState, id: string, processed: string, now: nat): (r: NoteState)
    ensures prev.None? ==> r.None?
    ensures prev.Some? && FindSection(prev.value.sections, id).None? ==> r == prev
    ensures prev.Some? && FindSection(prev.value.sections, id).Some? ==>
      && r.Some?
      && SameNoteFields(prev.value, r.value)
      && OnlyTargetChanged(prev.value.sections, r.value.sections, id)
      && var k := FindSection(prev.value.sections, id).value;
         var v := NewVersion(prev.value.sections[k].versions, processed, now);
         forall i :: 0 <= i < |prev.value.sections| && prev.value.sections[i].id == id ==>
           var s := prev.value.sections[i];
           var t := r.value.sections[i];
           && t.versions == s.versions + [v]
           && t.currentVersion == v.id
           && !t.isProcessing
           && t.error.None?
  {
    match prev
    case None => None
    case Some(n) =>
      match FindSection(n.sections, id)
      case None => prev
      case Some(k) =>
        var v := NewVersion(n.sections[k].versions, processed, now);
        Some(n.(sections := UpdateSections(n.sections, id, AppendVersion(v))))
  }

  /** Regeneration threw: the section carries the error and stops processing;
      its versions and current version are kept, siblings are untouched. */
  function RegenerationFailed(prev: NoteState, id: string, thrown: Thrown): (r: NoteState)
    ensures prev.None? <==> r.None?
    ensures prev.Some? ==>
      && SameNoteFields(prev.value, r.value)
      && OnlyTargetChanged(prev.value.sections, r.value.sections, id)
      && forall i :: 0 <= i < |prev.value.sections| && prev.value.sections[i].id == id ==>
           var s := prev.value.sections[i];
           var t := r.value.sections[i];
           && t.error == Some(MessageOf(thrown, RegenerateFailedMessage))
           && !t.isProcessing
           && t.versions == s.versions
           && t.currentVersion == s.currentVersion
  {
    match prev
    case None => None
    case Some(n) =>
      Some(n.(sections := UpdateSections(n.sections, id, MarkFailed(MessageOf(thrown, RegenerateFailedMessage)))))
  }

  /** The updater applied when a regeneration call settles. Only sections
      with the id change, and they stop processing. A failure records the
      error and keeps the history; a success on a section that is still
      there appends one version and clears the error; a success on a
      section that is gone changes nothing. */
  function CompleteRegeneration(prev: NoteState, id: string, outcome: ServiceOutcome, now: nat): (r: NoteState)
    ensures prev.None? <==> r.None?
    ensures prev.Some? ==>
      && SameNoteFields(prev.value, r.value)
      && OnlyTargetChanged(prev.value.sections, r.value.sections, id)
    ensures prev.Some? && (outcome.Threw? || FindSection(prev.value.sections, id).Some?) ==>
      forall i :: 0 <= i < |prev.value.sections| && prev.value.sections[i].id == id ==>
        !r.value.sections[i].isProcessing
    ensures prev.Some? && outcome.Threw? ==>
      forall i :: 0 <= i < |prev.value.sections| && prev.value.sections[i].id == id ==>
        && r.value.sections[i].error == Some(MessageOf(outcome.thrown, RegenerateFailedMessage))
        && r.value.sections[i].versions == prev.value.sections[i].versions
    ensures prev.Some? && outcome.Processed? && FindSection(prev.value.sections, id).Some? ==>
      forall i :: 0 <= i < |prev.value.sections| && prev.value.sections[i].id == id ==>
        && |r.value.sections[i].versions| == |prev.value.sections[i].versions| + 1
        && r.value.sections[i].error.None?
    ensures prev.Some? && outcome.Processed? && FindSection(prev.value.sections, id).None? ==> r == prev
  {
    match outcome
    case Processed(text) => RegenerationSucceeded(prev, id, text, now)
    case Threw(e) => RegenerationFailed(prev, id, e)
  }

  // ----------------------------------------------------------------------
  // Version selection

  /** The user picks a version: the section's current version becomes
      `versionId`, whether or not a version with that id exists. */
  function ChangeVersion(prev: NoteState, id: string, versionId: int): (r: NoteState)
    ensures prev.None? <==> r.None?
    ensures prev.Some? ==>
      && SameNoteFields(prev.value, r.value)
      && OnlyTargetChanged(prev.value.sections, r.value.sections, id)
      && forall i :: 0 <= i < |prev.value.sections| && prev.value.sections[i].id == id ==>
           var s := prev.value.sections[i];
           var t := r.value.sections[i];
           && t.currentVersion == versionId
           && t.versions == s.versions
           && t.isProcessing == s.isProcessing
           && t.error == s.error
  {
    match prev
    case None => None
    case Some(n) => Some(n.(sections := UpdateSections(n.sections, id, SelectVersion(versionId))))
  }
}
