# SanoDB clinical notes and practice forms, modelled in Dafny

This project models the core of SanoDB, a web application for therapists.

**The clinical-note state machine.** The note view holds one clinical note or nothing. A note has sections, and each section has a version history.

- Submitting the form creates a note. Its content is derived from the free text or from the guided answers.
- Full generation fills in the sections, or records an error.
- Each section can be regenerated. A successful regeneration appends a new version numbered one past the largest id, and makes it current.
- The user can choose which version of a section is current.

Every `setNote(prev => ...)` updater is modelled as a pure function from one `Option<Note>` to the next (module `NoteModel`). Properties that relate several updates are proved in `NoteProperties`:

- fresh note ids;
- consecutive version numbering over any run of regenerations;
- distinct version ids, kept by every section event;
- events on different sections commute, whatever order the completions arrive in.

**The form helpers.** These are the small pure handlers of the practice's forms:

- `WorkingHours`: the working-hours time editor. Its two copies share one model.
- `ProfessionalInfo`: the certification, specialty and language tag lists, and the years-of-experience input.
- `ClientForm`: the client form's defaults, field handlers, status badge, submit flags and relationship candidates.
- `ClientStats`: the client counters.
- `ProfileForm` and `UnsavedChanges`: the profile form's edit, cancel and submit flags, and the unsaved-changes guard.
- `ServerEnv` and `BrowserEnv`: the two environment-variable lookups.

Shared modules model the JavaScript behaviour these rely on:

- `Wrappers`: `null`/`undefined` as `Option`, and a thrown Error as `Result`.
- `JsErrors`: `error instanceof Error ? error.message : fallback`.
- `Text`: `String.prototype.trim` with the ECMAScript whitespace set, `join`, decimal `toString` of a non-negative integer, `indexOf`, a first-occurrence `replace`, and ASCII upper-casing.
- `JsNumber`: `parseInt` with one argument. This covers leading whitespace, one sign, a `0x` prefix, and the longest digit prefix. `NaN` is modelled as `None`.

The model leaves out several collaborators. The section parser, the prompt builder, the format templates and the generation service are not part of this model. The clock is not part of it either. All of these enter as parameters: the parsed sections, the built prompt, the template text, the service's outcome, and `now`.

Some behaviours of the code are easy to misread. The model states them as the code has them:

- **Version selection is unchecked.** Choosing a version sets `currentVersion` even when no version has that id. No error is reported (`NoteProperties.VersionChangeIsUnchecked`).
- **No per-section lock.** Nothing stops a second regeneration of a section that is already regenerating. Each updater recomputes from the state it is given.
- **A note being generated cannot be regenerated.** Its sections are empty, so the guard stops the click (`NoteProperties.ProcessingNoteCannotRegenerate`).
- **A regeneration is not tied to its note.** The settling updater looks a section up by id only. Suppose a new note is submitted and generated while a regeneration is in flight, and it has a section with the same id. The late result is then appended to that section of the new note (`NoteProperties.StaleRegenerationLandsInNewNote`).
- **The regeneration format is the view's current format.** It starts as the saved setting, or "girp" when none is usable. Each submission sets it to the submitted format. A later change of the saved setting overrides it (`NoteProperties.RegenerationUsesSubmittedFormat`, `NoteProperties.SettingChangeOverridesSubmittedFormat`).
- **An empty guided object yields empty content.** A guided-response object that is present but empty, or holds only blank answers, gives empty note content. It does not fall back to the free text (`NoteProperties.EmptyGuidedObjectGivesEmptyContent`).

## Model

| member | source | states |
|---|---|---|
| NoteModel.KeptAnswers | src/components/MainApp.tsx:36-39 | The kept answers are trimmed and non-empty. There are no more of them than entries. None survives exactly when every answer is blank. |
| NoteModel.NoteContent | src/components/MainApp.tsx:36-41 | Without guided responses the raw text is used verbatim. With them, the content is empty exactly when every answer is blank. |
| NoteProperties.GuidedContentSnoc | src/components/MainApp.tsx:36-41 | One more answer: a blank one changes nothing. Otherwise its trimmed text is appended, after "\n\n" unless it is the first kept answer. This fixes entry order and the separator. |
| NoteProperties.GuidedPaddedAndBlankAnswers | src/components/MainApp.tsx:36-41 | An answer padded with any whitespace, then a blank answer, gives exactly the unpadded answer. The raw text is ignored. |
| NoteProperties.EmptyGuidedObjectGivesEmptyContent | src/components/MainApp.tsx:36-41 | A present but empty guided object gives empty content, not the raw text. |
| NoteModel.CreateNote | src/components/MainApp.tsx:43-49 | The new note's id is the clock's decimal text. Content and original content are both the derived content. It is processing, with no sections and no error. |
| NoteModel.SubmitNote | src/components/MainApp.tsx:43-74 | The full-generation request sends the note's original content and the built prompt, without header removal. |
| NoteProperties.NoteIdsFresh | src/components/MainApp.tsx:44 | Notes created at different clock readings get different ids. |
| NoteProperties.CreatedNoteWellFormed | src/components/MainApp.tsx:43-49 | A fresh note satisfies the section-id and version-id invariant, because it has no sections yet. |
| NoteProperties.GenerationKeepsWellFormed | src/components/MainApp.tsx:76-80 | After full generation the note is well formed exactly when the parsed sections have unique ids and distinct version ids within each section. The invariant thus rests on the section parser. |
| NoteModel.GenerationSucceeded | src/components/MainApp.tsx:76-80 | The parsed sections replace the note's sections and processing ends. Id, content, original content and error are kept. A cleared note stays cleared. |
| NoteModel.GenerationFailed | src/components/MainApp.tsx:81-88 | The note gets the Error's message, or the fixed fallback text. Processing ends and the sections are emptied. Id and contents are kept. |
| NoteModel.CompleteGeneration | src/components/MainApp.tsx:76-88 | When the generation call settles, processing ends and id and contents are kept. A result gives the parsed sections and keeps the error. A throw gives no sections and the error message. A cleared note stays cleared. |
| NoteModel.ProcessNote | src/components/MainApp.tsx:32-88 | A submission whose generation call settles ends with a note that is no longer processing. It keeps its id and original content. It holds either the parsed sections and no error, or no sections and the error. |
| NoteModel.ClearNote | src/components/MainApp.tsx:28-30 | Clear leaves the view without a note. |
| NoteProperties.ProcessingNoteCannotRegenerate | src/components/MainApp.tsx:93-96 | A note that is still being generated has no sections, so the regeneration guard rejects every click on it. |
| NoteProperties.ClearedNoteStaysCleared | src/components/MainApp.tsx:28-30 | After clear, every later completion or version choice leaves the view without a note. |
| NoteModel.FindSection | src/components/MainApp.tsx:95 | The result is the index of the first section with the id, or None exactly when no section has it. |
| NoteModel.MaxVersionId | src/components/MainApp.tsx:139 | The result is an upper bound of the history's ids and is attained by one of them. |
| NoteModel.NextVersionId | src/components/MainApp.tsx:139 | The new id exceeds every existing id. It is one more than an existing id, or 0 for an empty history. |
| NoteModel.NewVersion | src/components/MainApp.tsx:138-142 | The appended version carries the next id, the trimmed service text and the clock reading. |
| NoteModel.UpdateSections | src/components/MainApp.tsx:102-106 | Every section with the id gets the change. Every other section is kept. Order, ids and headings stay as they were. |
| NoteModel.SectionPrompt | src/components/MainApp.tsx:114-125 | The prompt contains the upper-cased format name, the format template and the target heading, each at its fixed place. |
| NoteModel.RegenerationRequest | src/components/MainApp.tsx:92-131 | A request is sent exactly when the note has non-empty original content and a section with the id. It sends the original content with header removal, and a prompt naming that section's heading. |
| NoteModel.ClickRegenerate | src/components/MainApp.tsx:92-108 | When the note shown has no original content or no section with the id, the click leaves the note unchanged and sends nothing. Otherwise it queues the start updater and sends the regeneration request. |
| NoteModel.StartRegeneration | src/components/MainApp.tsx:98-108 | Only sections with the id change. They become processing with the error cleared, and keep their versions and current version. Note fields and sibling sections are untouched. |
| NoteModel.RegenerationSucceeded | src/components/MainApp.tsx:133-158 | If the section is gone, the state is unchanged. Otherwise the target gets exactly one new version (next id, trimmed text), made current, with processing and error cleared. Siblings are untouched. |
| NoteModel.RegenerationFailed | src/components/MainApp.tsx:159-175 | The target gets the Error's message or the fallback, and stops processing. Its versions and current version are kept. Siblings and note fields are untouched. |
| NoteModel.CompleteRegeneration | src/components/MainApp.tsx:133-175 | When a regeneration settles, only sections with the id change and note fields are kept. A throw records the error, stops processing and keeps the history. A result on a section still present adds one version, stops processing and clears the error. A result on a section that is gone changes nothing. |
| NoteProperties.StaleRegenerationLandsInNewNote | src/components/MainApp.tsx:133-158 | A regeneration asked for one note that settles after a newer note was generated with a section of the same id appends its version to the newer note's section. |
| NoteModel.InitialFormat | src/components/MainApp.tsx:17-19 | The view starts with the saved format when it is set and non-empty, and with "girp" otherwise. |
| NoteModel.NextFormat | src/components/MainApp.tsx:22-35 | A submission sets the current format to the submitted one. A change of the saved setting to a non-empty value sets it to that value. Any other change keeps it. |
| NoteProperties.NonSettingEventsKeepFormat | src/components/MainApp.tsx:22-26 | Events that set no format leave the current format as it was. |
| NoteProperties.LastSettingEventDecides | src/components/MainApp.tsx:22-35 | The current format is the one written by the last event that sets a format. |
| NoteProperties.StartsWithSavedOrDefaultFormat | src/components/MainApp.tsx:17-19 | Until something sets a format, regeneration uses the saved format or "girp". |
| NoteProperties.RegenerationUsesSubmittedFormat | src/components/MainApp.tsx:112-118 | After a submission, until the saved setting changes to a non-empty value, the regeneration request is built from the submitted format and its template. The prompt names that format in upper case. |
| NoteProperties.SettingChangeOverridesSubmittedFormat | src/components/MainApp.tsx:22-26 | A saved format that arrives after a submission replaces the submitted format for later regenerations. |
| NoteProperties.StaleGenerationLandsInNewNote | src/components/MainApp.tsx:76-80 | A full-generation result that settles after a newer submission becomes the newer note's sections. The newer note keeps its id and content and stops processing. |
| NoteProperties.SameSectionSettlesDoNotCommute | src/components/MainApp.tsx:133-175 | Two regenerations of one section, one returning text and one throwing, leave the error only when the throw settles last. |
| NoteModel.ChangeVersion | src/components/MainApp.tsx:179-191 | The target's current version becomes the given id. Its versions, processing flag and error are kept. Siblings are untouched. |
| NoteProperties.VersionChangeIsUnchecked | src/components/MainApp.tsx:179-191 | Selecting an id that no version has still makes it current. |
| NoteProperties.AppendFreshVersion | src/components/MainApp.tsx:139-150 | Appending a version numbered past every id keeps the history's ids distinct. |
| NoteProperties.EventsPreserveWellFormed | src/components/MainApp.tsx:98-191 | Starting, settling (success or failure) and version selection all keep section ids unique and version ids distinct within each section. |
| NoteProperties.EventsOnDistinctSectionsCommute | src/components/MainApp.tsx:98-191 | Two events on sections with different ids give the same note in either order, so completions may settle in any order. |
| NoteProperties.NextIdOfNumbered | src/components/MainApp.tsx:139 | In a history numbered 0..k-1, the next id is k. |
| NoteProperties.RegenerationOfNumbered | src/components/MainApp.tsx:133-158 | A successful regeneration of a section numbered 0..k-1 appends version k with the trimmed text and makes it current. |
| NoteProperties.SettleAllAppends | src/components/MainApp.tsx:133-158 | A run of successful regenerations of one section appends exactly the versions numbered on from the history's length. The last one is current. |
| NoteProperties.RegenerationsNumberConsecutively | src/components/MainApp.tsx:133-158 | After N successful regenerations, a section numbered 0..k-1 is numbered 0..k+N-1. The old versions come first, the new ones hold the trimmed texts in order, and the newest is current. |
| NoteProperties.AppendedVersionsContents | src/components/MainApp.tsx:140 | Each appended version holds the trimmed text of its own regeneration. |
| Text.Trim | src/components/MainApp.tsx:38-39 | The result is the input without its leading and trailing whitespace: it begins and ends with a non-whitespace character. It is empty exactly for all-whitespace input. |
| Text.TrimOfPadded | src/components/MainApp.tsx:38-39 | Trimming removes exactly the whitespace padding around a text. |
| Text.Join | src/components/MainApp.tsx:40 | Joining no parts gives "". Joining one part gives that part. Otherwise the result starts with the first part. |
| Text.JoinSnoc | src/components/MainApp.tsx:40 | Joining one more part appends the separator and the part, unless the list was empty. |
| Text.NatToString | src/components/MainApp.tsx:44 | The decimal text of the clock reading has at least one character, all of them digits, and no leading zero unless it is "0". |
| Text.NatToStringInjective | src/components/MainApp.tsx:44 | Different clock readings print differently. |
| Text.NatToStringReadsBack | src/components/MainApp.tsx:44 | The decimal text of a number reads back as that number. |
| Text.DigitValue | src/components/profile/sections/ProfessionalInfoSection.tsx:46 | A digit's value is below the radix. In base 10 exactly the characters 0-9 are digits, with their values. |
| Text.UpperCase | src/components/MainApp.tsx:118 | Each character is upper-cased in place, and the length is kept. |
| Text.IndexOfFrom | netlify/functions/lib/env.ts:7 | The result is the first occurrence at or after the start, or None when there is none. |
| Text.IndexOf | netlify/functions/lib/env.ts:7 | The result is the position of the first occurrence, or None when the pattern does not occur. |
| Text.ReplaceFirst | netlify/functions/lib/env.ts:7 | Without an occurrence the text is unchanged. Otherwise the first occurrence is replaced: the text before it and after it is kept and the replacement sits in its place. |
| Text.Capitalize | src/components/clients/ClientForm.tsx:101 | The first character is upper-cased and the rest is kept. The length is unchanged. |
| JsErrors.MessageOf | src/components/MainApp.tsx:85 | An Error yields its message. Anything else thrown yields the fallback text. |
| WorkingHours.SetTime | src/components/profile/sections/WorkingHoursSection.tsx:21-28 | The day's field gets the time. The other field is kept if the day had an entry, or is "" if not. The key set gains only the day, other days are unchanged, and `null` counts as empty. |
| WorkingHours.EditShowsNewTime | src/components/profile/WorkingHoursInput.tsx:21-28 | After an edit, the edited input shows the new time and every other input shows what it showed before. |
| WorkingHours.LastEditWins | src/components/profile/sections/WorkingHoursSection.tsx:26 | Two edits of the same input equal the second edit alone. |
| WorkingHours.StartThenEnd | src/components/profile/WorkingHoursInput.tsx:23-26 | Setting a day's start and then its end yields exactly that pair, whether or not the day existed. |
| WorkingHours.EditsOfDifferentDaysCommute | src/components/profile/sections/WorkingHoursSection.tsx:22-27 | Edits of different days give the same hours in either order. |
| WorkingHours.WeekListsEveryDayOnce | src/components/profile/sections/WorkingHoursSection.tsx:4-12 | The week lists each of the seven days exactly once. |
| WorkingHours.DayTablesFollowWeek | src/components/profile/WorkingHoursInput.tsx:10-18 | Both day tables list the ids monday..sunday in week order. |
| WorkingHours.SectionLabelsCapitalizeIds | src/components/profile/sections/WorkingHoursSection.tsx:4-12 | Each day label is its id with the first letter upper-cased. |
| ProfessionalInfo.SelectOption | src/components/profile/sections/ProfessionalInfoSection.tsx:91-96 | The placeholder or a disabled select gives no change. Any other pick stores the old list, or an empty one for `null`, followed by the pick under the field's key. |
| ProfessionalInfo.RemoveAll | src/components/profile/sections/ProfessionalInfoSection.tsx:121 | The entry is gone. Every other value occurs as often as before. |
| ProfessionalInfo.RemoveTag | src/components/profile/sections/ProfessionalInfoSection.tsx:118-126 | No button, so no change, while disabled. Otherwise the list under the key loses every copy of the tag and keeps the counts of the others. An absent list stays absent. |
| ProfessionalInfo.RemoveAllConcat | src/components/profile/sections/ProfessionalInfoSection.tsx:170 | Removal distributes over concatenation, so surviving entries keep their order. |
| ProfessionalInfo.RemoveAbsentIsIdentity | src/components/profile/sections/ProfessionalInfoSection.tsx:219 | Removing a value that is not in the list leaves the list unchanged. |
| ProfessionalInfo.AddThenRemoveRestores | src/components/profile/sections/ProfessionalInfoSection.tsx:140-170 | Picking an option not yet listed and then removing its tag gives back the original list. |
| ProfessionalInfo.EnabledPickKeepsNoDuplicates | src/components/profile/sections/ProfessionalInfoSection.tsx:100-104 | Listed options are disabled, so any pick the select allows keeps a duplicate-free list free of duplicates. |
| ProfessionalInfo.RemovalKeepsNoDuplicates | src/components/profile/sections/ProfessionalInfoSection.tsx:219 | Removing a tag keeps a duplicate-free list free of duplicates. |
| ProfessionalInfo.YearsExperience | src/components/profile/sections/ProfessionalInfoSection.tsx:46 | The value stored is the parsed integer when it parses to a non-zero number, and `null` otherwise. |
| ProfessionalInfo.YearsExperienceRoundTrip | src/components/profile/sections/ProfessionalInfoSection.tsx:46 | Typing a positive number stores it. Typing "0" or clearing the input stores `null`. |
| JsNumber.ParseInt | src/components/profile/sections/ProfessionalInfoSection.tsx:46 | The result is `NaN` exactly when no digit follows the leading whitespace, the sign and any `0x` prefix. |
| JsNumber.DigitRun | src/components/profile/sections/ProfessionalInfoSection.tsx:46 | The digit run is the longest prefix of digits. |
| JsNumber.ParseIntSkipsWhitespace | src/components/profile/sections/ProfessionalInfoSection.tsx:46 | Leading whitespace does not change what parses. |
| JsNumber.ParseIntOfDecimal | src/components/profile/sections/ProfessionalInfoSection.tsx:46 | A number's decimal text, optionally signed and followed by a non-digit tail, parses back to that number or its negation. |
| JsNumber.ParseIntOfPaddedDecimal | src/components/profile/sections/ProfessionalInfoSection.tsx:46 | The same holds after any leading whitespace. |
| JsNumber.ParseIntOfSignedText | src/components/profile/sections/ProfessionalInfoSection.tsx:46 | After whitespace and an optional sign, the value of the unsigned text is read, negated after a minus. Text with no value is `NaN`. |
| JsNumber.ParseIntOfHex | src/components/profile/sections/ProfessionalInfoSection.tsx:46 | After whitespace, an optional sign and `0x` or `0X`, the hexadecimal digits up to the first non-digit are the value, negated after a minus. With no such digit the text is `NaN`. |
| JsNumber.ParseIntWithoutDigits | src/components/profile/sections/ProfessionalInfoSection.tsx:46 | Whitespace and an optional sign followed by text that does not start with a digit is `NaN`. Without a sign, that text must also not start with whitespace or a sign, which would belong to the prefix. |
| ClientForm.InitialFormData | src/components/clients/ClientForm.tsx:30-42 | A new client starts with every text field "" and status active. An existing client's values are copied, with absent optional fields as "". |
| ClientForm.HandleChange | src/components/clients/ClientForm.tsx:58-63 | The named field gets the value. Every other field and the status are kept. |
| ClientForm.ToggleStatus | src/components/clients/ClientForm.tsx:111-114 | The status flips to the other value. The text fields are kept. |
| ClientForm.ToggleTwiceIsIdentity | src/components/clients/ClientForm.tsx:111-114 | Toggling twice restores the form. |
| ClientForm.SelectStatus | src/components/clients/ClientForm.tsx:175 | The chosen status is stored. The text fields are kept. |
| ClientForm.StatusLabel | src/components/clients/ClientForm.tsx:101 | The badge is the stored status text with its first character upper-cased and the rest unchanged. |
| ClientForm.StatusLabels | src/components/clients/ClientForm.tsx:101 | The two badges read "Active" and "Inactive". |
| ClientForm.RelationshipCandidates | src/components/clients/ClientForm.tsx:359 | A client is offered exactly when it is available and does not have the form client's id. In particular the client itself is never offered. |
| ClientForm.CandidatesConcat | src/components/clients/ClientForm.tsx:359 | The filter distributes over concatenation, so candidates keep their order. |
| ClientForm.Submit | src/components/clients/ClientForm.tsx:44-56 | Loading ends on both paths. There is no error exactly when saving returned. A throw shows the Error's message, or "Failed to save client". |
| ClientStats.CountStatus | src/components/clients/ClientStats.tsx:11-12 | A status counter never exceeds the number of clients. |
| ClientStats.ActivePlusInactiveIsTotal | src/types/client.ts:6 | Status has two values, so the active and inactive counts add up to the total. |
| ClientStats.AddingClientRaisesItsCounter | src/components/clients/ClientStats.tsx:11-12 | Adding a client raises its own status's counter by one and leaves the other unchanged. |
| ClientStats.CountStatusAdditive | src/components/clients/ClientStats.tsx:11-12 | The counters add up over any split of the list. |
| ClientStats.NewThisMonth | src/components/clients/ClientStats.tsx:13-18 | The new-this-month count never exceeds the total. |
| ClientStats.NewThisMonthAdditive | src/components/clients/ClientStats.tsx:13-18 | The new-this-month count adds up over any split of the list. |
| ClientStats.NewThisMonthOfOne | src/components/clients/ClientStats.tsx:14-17 | A single client counts exactly when its start date falls in the current month and year. The start date is its therapy start date, falling back to its creation time. |
| ClientStats.StatCards | src/components/clients/ClientStats.tsx:20-49 | There are four cards in the order Total, Active, Inactive, New This Month. They show the list's length, the two status counts and the new-this-month count. Active plus inactive equals total, and new never exceeds total. |
| ProfileForm.Init | src/components/profile/ProfileForm.tsx:17-21 | The form starts not editing, not loading, with no error and nothing unsaved. It holds the profile, or `{}` for `null`. |
| ProfileForm.Change | src/components/profile/ProfileForm.tsx:45-51 | The field gets the value and every other field is kept. The form is marked unsaved. |
| ProfileForm.Cancel | src/components/profile/ProfileForm.tsx:39-43 | Edit mode ends and the data is reset to the profile, or `{}`. Nothing is unsaved. |
| ProfileForm.ToggleEditing | src/components/profile/ProfileForm.tsx:69 | The header button flips edit mode and nothing else. |
| ProfileForm.BeginSubmit | src/components/profile/ProfileForm.tsx:25-26 | While saving, the form is loading with no error. |
| ProfileForm.SubmitSucceeded | src/components/profile/ProfileForm.tsx:28-31 | A successful save ends edit mode and clears the unsaved flag and loading. |
| ProfileForm.SubmitFailed | src/components/profile/ProfileForm.tsx:32-36 | A failed save shows the Error's message or "Failed to update profile". Loading ends; edit mode and the unsaved flag are kept. |
| ProfileForm.Submit | src/components/profile/ProfileForm.tsx:23-37 | Loading ends on both paths and the data is kept. A success leaves edit mode with nothing unsaved and no error. A failure shows the Error's message or "Failed to update profile" and keeps edit mode and the unsaved flag. |
| ProfileForm.ShowStickyBar | src/components/profile/ProfileForm.tsx:55 | The save bar shows exactly while editing with the unload guard armed. |
| ProfileForm.SubmitOutcomes | src/components/profile/ProfileForm.tsx:23-37 | After a submit loading is over and the data is kept. A success leaves no error and no save bar. A failure shows an error and keeps the save bar as it was. |
| ProfileForm.EditThenCancel | src/components/profile/ProfileForm.tsx:39-55 | Editing a field brings up the save bar and blocks unloading. Cancelling hides the bar, unblocks unloading and puts back the profile as passed in at that moment. |
| ProfileForm.HeaderToggleKeepsUnsavedEdits | src/components/profile/ProfileForm.tsx:69 | Leaving edit mode with the header button hides the bar. The edit and the unsaved flag are kept, so unloading the page is still blocked. |
| UnsavedChanges.BeforeUnload | src/hooks/useUnsavedChanges.ts:10-14 | Unloading is prevented, with an empty return value, exactly when there are unsaved changes. |
| UnsavedChanges.HandleNavigate | src/hooks/useUnsavedChanges.ts:22-31 | The user is asked exactly when there are unsaved changes. Navigation to the target happens exactly when nothing is unsaved or the user confirms. The flag stays set exactly when the user declines. |
| UnsavedChanges.NavigationClearsOrStays | src/hooks/useUnsavedChanges.ts:22-31 | Navigation never happens with the flag still set. Staying keeps the flag set, and the guard never sets the flag itself. |
| UnsavedChanges.ConfirmedLeaveReleasesGuard | src/hooks/useUnsavedChanges.ts:23-26 | After a confirmed leave, unloading is free and the next navigation asks nothing. |
| ServerEnv.ServerKey | netlify/functions/lib/env.ts:7 | The first "VITE_", wherever it is, is cut out and the text around it is kept. A key without one is used unchanged. |
| ServerEnv.ServerKeyOfPrefixed | netlify/functions/lib/env.ts:7 | "VITE_" followed by any name gives back the name. |
| ServerEnv.ServerKeyKeepsOneVite | netlify/functions/lib/env.ts:7 | Only one occurrence is removed: "VITE_VITE_X" becomes "VITE_X". |
| ServerEnv.GetServerEnv | netlify/functions/lib/env.ts:5-13 | A present, non-empty value of the rewritten key is returned as it is. Otherwise the failure message is the fixed text followed by the rewritten key. |
| ServerEnv.FailureNamesServerKey | netlify/functions/lib/env.ts:9-11 | The failure message ends with the rewritten key. |
| BrowserEnv.GetEnvVar | src/lib/env.ts:8-13 | Only the two Supabase keys exist. A defined, non-empty value is returned as it is. Otherwise the failure message is the fixed text followed by the requested key. |
| BrowserEnv.ServerReadsUnprefixedName | src/lib/env.ts:2-5 | The server lookup of a browser variable's name reads the unprefixed key and succeeds exactly when that is set and non-empty. |
| BrowserEnv.SettingsAreDistinct | src/lib/env.ts:2-5 | The two settings come from different build-time variables. |

## Left out

- The section parser, prompt builder, format templates and generation service are not part of this model. `parseSections`, `buildPrompt`, `getNoteFormatPrompt` and `processNoteWithAPI` enter as parameters: a parse function, the built prompt, the template text, and the service outcome.
- Clocks: `Date.now()` and `new Date()` are a `now` parameter. `ClientStats` uses one `now` for the whole list, where the source reads the clock once per client.
- ClientStats.NewThisMonth: date parsing and the local time zone are a `monthOf` parameter, with an invalid date mapped to `None`. The count is exact only relative to that parameter.
- Asynchrony: each `setState` updater is one atomic transition applied to an arbitrary previous state; there is no scheduler. Only completions on different sections are shown to commute (`EventsOnDistinctSectionsCommute`). Completions on the same section depend on their order (`SameSectionSettlesDoNotCommute`), and a full generation settling after a newer submission lands on the newer note (`StaleGenerationLandsInNewNote`). The model states these outcomes one updater at a time and does not say which order the network delivers.
- Rendering: `onChange`, `setNote` and `setFormData` are not modelled as calls. The object passed to them is the function's result, so "called once with the result" holds by construction.
- Persistence, authentication, routing, styling and the other pages are I/O against a backend, or display only. `window.confirm` is the `confirmed` parameter of `HandleNavigate`.
- ProfileForm.Cancel: the profile is modelled as a value. In the source, the form state starts as the profile object itself (src/components/profile/ProfileForm.tsx:20). The working-hours handler then writes times into the day objects that state shares (src/components/profile/sections/WorkingHoursSection.tsx:22-26). So a time edited on a day the profile already had is also written into the profile, and cancelling does not undo it. The model's cancel restores the profile as passed in, and does not cover that case.
- UnsavedChanges.HandleNavigate: the guard's navigation handler is modelled, but no page calls it. The profile form takes only the flag and its setter from the hook, and in-app links navigate directly. The only guard the flag arms in the running application is the `beforeunload` one.
- ProfileForm.EditThenCancel: "puts back the profile" holds for the value passed in. It does not cover the time edits described under `ProfileForm.Cancel`, which the source writes into the profile itself.
- WorkingHours.SetTime: the handler copies the hours shallowly and then writes the time into the existing day object, which the old value shares. That aliasing side effect on the previous value is not modelled. The result is modelled as a fresh map.
- `Object.entries` order of the guided answers is taken as given: the entries are a sequence.
- Case mapping covers ASCII letters only. Format names and status texts are ASCII.
- JsNumber.ParseInt: values are unbounded integers. Double-precision rounding of very long digit runs is not modelled, nor is `Infinity`.
- The note's `originalContent` is a string. An absent value is modelled as the empty string, which the regeneration guard treats the same way.
- The 'Section not found' throw inside the regeneration `try` block is not modelled separately. It cannot fire once the guard has found the section in the same snapshot.
- The regeneration request is built from the rendered snapshot (`RegenerationRequest`), while the updaters read `prev`. Both are modelled; which snapshot the view held is up to the caller.
- netlify/functions/stripe-webhook.ts is not part of this model. Its signature check belongs to a library, and the rest is database writes.
