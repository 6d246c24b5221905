/** Properties of the note updaters that relate several calls: fresh note
    ids, the derivation of guided content, the numbering of regenerated
    versions, the invariant that keeps version ids distinct, and the fact
    that settling regenerations of different sections in either order gives
    the same note. */
module NoteProperties {
  import opened Wrappers
  import opened Text
  import opened JsErrors
  import opened NoteModel

  // ----------------------------------------------------------------------
  // Content and creation

  /** Adding one more guided answer: a blank answer changes nothing; a
      non-blank one is appended trimmed, after a blank line unless it is the
      first kept answer. */
  lemma GuidedContentSnoc(entries: GuidedResponses, key: string, answer: string)
    ensures GuidedContent(entries + [(key, answer)]) ==
      if IsBlank(answer) then GuidedContent(entries)
      else if GuidedContent(entries) == [] then Trim(answer)
      else GuidedContent(entries) + AnswerSeparator + Trim(answer)
  {
    var all := entries + [(key, answer)];
    assert all[..|all| - 1] == entries;
    var kept := KeptAnswers(entries);
    JoinEmptyIff(kept, AnswerSeparator);
    if !IsBlank(answer) {
      JoinSnoc(kept, Trim(answer), AnswerSeparator);
    }
  }

  /** An answer padded with whitespace followed by a blank answer gives the
      first answer without its padding, and nothing for the blank one; the
      raw text is ignored. */
  lemma GuidedPaddedAndBlankAnswers(raw: string, format: string, ws1: string, core: string, ws2: string, blank: string)
    requires AllWhitespace(ws1) && AllWhitespace(ws2) && AllWhitespace(blank)
    requires core != [] && !IsWhitespace(core[0]) && !IsWhitespace(core[|core| - 1])
    ensures NoteContent(NoteForm(raw, format, Some([("q1", ws1 + core + ws2), ("q2", blank)]))) == core
  {
    var padded := ws1 + core + ws2;
    var first: GuidedResponses := [("q1", padded)];
    assert [("q1", padded), ("q2", blank)] == first + [("q2", blank)];
    assert first == [] + [("q1", padded)];
    TrimOfPadded(ws1, core, ws2);
    GuidedContentSnoc([], "q1", padded);
    GuidedContentSnoc(first, "q2", blank);
  }

  /** A present but empty guided-response object yields empty content; the
      raw text is not used. */
  lemma EmptyGuidedObjectGivesEmptyContent(content: string, format: string)
    ensures NoteContent(NoteForm(content, format, Some([]))) == []
  {
  }

  /** Notes created at different clock readings have different ids. */
  lemma NoteIdsFresh(a: nat, b: nat, f: NoteForm, g: NoteForm)
    requires a != b
    ensures CreateNote(a, f).id != CreateNote(b, g).id
  {
    if CreateNote(a, f).id == CreateNote(b, g).id {
      NatToStringInjective(a, b);
    }
  }

  /** A note that is still being generated has no sections, so a click on
      "regenerate" against it is stopped by the guard. */
  lemma ProcessingNoteCannotRegenerate(now: nat, form: NoteForm, id: string)
    ensures !CanRegenerate(Some(CreateNote(now, form)), id)
  {
  }

  /** Nothing ties a full generation to the submission that asked for it.
      When a newer submission has replaced the note before an older call
      settles, the older result becomes the newer note's sections, while the
      newer note keeps its id and content and stops processing. */
  lemma StaleGenerationLandsInNewNote(now: nat, form: NoteForm, staleText: string, parse: string -> seq<Section>)
    ensures var r := CompleteGeneration(Some(CreateNote(now, form)), Processed(staleText), parse);
      && r.Some?
      && r.value.sections == parse(staleText)
      && r.value.id == NatToString(now)
      && r.value.originalContent == NoteContent(form)
      && !r.value.isProcessing
  {
  }

  /** Nothing ties a regeneration to the note it was asked for. When a new
      submission has been generated while a regeneration was in flight and
      its sections include one with the same id, the late result is
      appended to that section of the new note. */
  lemma StaleRegenerationLandsInNewNote(asked: Note, now: nat, form: NoteForm, parsed: seq<Section>, id: string, text: string, later: nat)
    requires CanRegenerate(Some(asked), id)
    requires asked.id != NatToString(now)
    requires FindSection(parsed, id).Some?
    ensures var r := CompleteRegeneration(GenerationSucceeded(Some(CreateNote(now, form)), parsed), id, Processed(text), later);
      var k := FindSection(parsed, id).value;
      && r.Some? && r.value.id == NatToString(now) && r.value.id != asked.id
      && |r.value.sections[k].versions| == |parsed[k].versions| + 1
      && r.value.sections[k].versions[..|parsed[k].versions|] == parsed[k].versions
  {
    var n := GenerationSucceeded(Some(CreateNote(now, form)), parsed);
    var k := FindSection(parsed, id).value;
    var v := NewVersion(parsed[k].versions, text, later);
    var r := RegenerationSucceeded(n, id, text, later);
    assert r.value.sections[k].versions == parsed[k].versions + [v];
  }

  // ----------------------------------------------------------------------
  // The current note format

  /** Events that set no format leave the current format alone. */
  lemma {:induction false} NonSettingEventsKeepFormat(start: string, events: seq<FormatEvent>)
    requires forall i :: 0 <= i < |events| ==> !SetsFormat(events[i])
    ensures FormatAfter(start, events) == start
    decreases |events|
  {
    if events != [] {
      NonSettingEventsKeepFormat(start, events[..|events| - 1]);
    }
  }

  /** The last event that sets a format decides the current format. */
  lemma {:induction false} LastSettingEventDecides(start: string, before: seq<FormatEvent>, e: FormatEvent, later: seq<FormatEvent>)
    requires SetsFormat(e)
    requires forall i :: 0 <= i < |later| ==> !SetsFormat(later[i])
    ensures FormatAfter(start, before + [e] + later) == FormatSet(e)
    decreases |later|
  {
    var all := before + [e] + later;
    if later == [] {
      assert all[..|all| - 1] == before;
    } else {
      var shorter := later[..|later| - 1];
      assert all[..|all| - 1] == before + [e] + shorter;
      assert all[|all| - 1] == later[|later| - 1];
      LastSettingEventDecides(start, before, e, shorter);
    }
  }

  /** Without any event the view uses GIRP unless a usable format is saved. */
  lemma StartsWithSavedOrDefaultFormat(setting: Option<string>, events: seq<FormatEvent>)
    requires forall i :: 0 <= i < |events| ==> !SetsFormat(events[i])
    ensures FormatAfter(InitialFormat(setting), events) ==
      if setting.Some? && setting.value != [] then setting.value else DefaultFormat
  {
    NonSettingEventsKeepFormat(InitialFormat(setting), events);
  }

  /** After a submission, and until the saved setting changes to a usable
      value, regeneration prompts are built for the submitted format and its
      template; a later setting change wins over the submitted format. */
  lemma RegenerationUsesSubmittedFormat(start: string, before: seq<FormatEvent>, form: NoteForm, later: seq<FormatEvent>,
                                        snapshot: NoteState, id: string, templateOf: string -> string)
    requires forall i :: 0 <= i < |later| ==> !SetsFormat(later[i])
    ensures var f := FormatAfter(start, before + [Submitted(form)] + later);
      && f == form.noteFormat
      && RegenerationRequest(snapshot, id, f, templateOf(f)) ==
         RegenerationRequest(snapshot, id, form.noteFormat, templateOf(form.noteFormat))
    ensures var r := RegenerationRequest(snapshot, id, FormatAfter(start, before + [Submitted(form)] + later), templateOf(form.noteFormat));
      r.Some? ==> OccursAt(r.value.prompt, UpperCase(form.noteFormat), |PromptIntro|)
  {
    LastSettingEventDecides(start, before, Submitted(form), later);
  }

  /** A saved format arriving after a submission replaces the submitted one
      for later regenerations of that note. */
  lemma SettingChangeOverridesSubmittedFormat(start: string, form: NoteForm, setting: string)
    requires setting != [] && setting != form.noteFormat
    ensures FormatAfter(start, [Submitted(form), SettingChanged(Some(setting))]) == setting
    ensures FormatAfter(start, [Submitted(form), SettingChanged(Some(setting))]) != form.noteFormat
  {
    LastSettingEventDecides(start, [Submitted(form)], SettingChanged(Some(setting)), []);
    assert [Submitted(form)] + [SettingChanged(Some(setting))] + [] == [Submitted(form), SettingChanged(Some(setting))];
  }

  // ----------------------------------------------------------------------
  // Section events

  /** Everything that can happen to one section once the note exists. */
  datatype SectionEvent =
    | Start
    | Settle(outcome: ServiceOutcome, now: nat)
    | Select(versionId: int)

  function ApplyEvent(prev: NoteState, id: string, e: SectionEvent): NoteState {
    match e
    case Start => StartRegeneration(prev, id)
    case Settle(o, now) => CompleteRegeneration(prev, id, o, now)
    case Select(v) => ChangeVersion(prev, id, v)
  }

  /** After "clear", every later completion or selection leaves the view
      without a note. */
  lemma ClearedNoteStaysCleared(id: string, e: SectionEvent, outcome: ServiceOutcome, parse: string -> seq<Section>)
    ensures ApplyEvent(ClearNote(), id, e).None?
    ensures CompleteGeneration(ClearNote(), outcome, parse).None?
  {
  }

  /** The change a section event makes, as read from the sections it is
      applied to; `None` when the event leaves the note as it is. */
  function ChangeFor(sections: seq<Section>, id: string, e: SectionEvent): Option<SectionChange> {
    match e
    case Start => Some(MarkProcessing)
    case Select(v) => Some(SelectVersion(v))
    case Settle(Threw(t), _) => Some(MarkFailed(MessageOf(t, RegenerateFailedMessage)))
    case Settle(Processed(text), now) =>
      match FindSection(sections, id)
      case None => None
      case Some(k) => Some(AppendVersion(NewVersion(sections[k].versions, text, now)))
  }

  function UpdateWith(sections: seq<Section>, id: string, c: Option<SectionChange>): seq<Section> {
    match c
    case None => sections
    case Some(ch) => UpdateSections(sections, id, ch)
  }

  lemma ApplyEventUpdates(n: Note, id: string, e: SectionEvent)
    ensures ApplyEvent(Some(n), id, e) == Some(n.(sections := UpdateWith(n.sections, id, ChangeFor(n.sections, id, e))))
  {
  }

  /** `find` only looks at ids. */
  lemma FindSectionByIds(s1: seq<Section>, s2: seq<Section>, id: string)
    requires |s1| == |s2|
    requires forall i :: 0 <= i < |s1| ==> s1[i].id == s2[i].id
    ensures FindSection(s1, id) == FindSection(s2, id)
  {
    var r1, r2 := FindSection(s1, id), FindSection(s2, id);
    if r1.Some? && r2.Some? {
      assert s2[r1.value].id == id;
      assert s1[r2.value].id == id;
    }
  }

  /** Updating sections with another id does not alter what an event does
      to the sections with id `a`. */
  lemma ChangeForIgnoresOtherSections(sections: seq<Section>, a: string, e: SectionEvent, b: string, c: Option<SectionChange>)
    requires a != b
    ensures ChangeFor(UpdateWith(sections, b, c), a, e) == ChangeFor(sections, a, e)
  {
    FindSectionByIds(UpdateWith(sections, b, c), sections, a);
  }

  lemma UpdatesOnDistinctIdsCommute(sections: seq<Section>, a: string, ca: Option<SectionChange>, b: string, cb: Option<SectionChange>)
    requires a != b
    ensures UpdateWith(UpdateWith(sections, a, ca), b, cb) == UpdateWith(UpdateWith(sections, b, cb), a, ca)
  {
  }

  /** Two regenerations of the same section do not commute: when one
      returns text and the other throws, the section ends with the error
      only if the throw settles last. */
  lemma SameSectionSettlesDoNotCommute()
    ensures var s := Section("plan", "Plan", [Version(0, "a", 1)], 0, true, None);
      var n := Some(Note("1", "x", "x", false, [s], None));
      var ok := Settle(Processed("b"), 2);
      var boom := Settle(Threw(ErrorValue("boom")), 3);
      && ApplyEvent(ApplyEvent(n, "plan", ok), "plan", boom).value.sections[0].error == Some("boom")
      && ApplyEvent(ApplyEvent(n, "plan", boom), "plan", ok).value.sections[0].error.None?
  {
    var s := Section("plan", "Plan", [Version(0, "a", 1)], 0, true, None);
    var n := Some(Note("1", "x", "x", false, [s], None));
    assert FindSection(n.value.sections, "plan") == Some(0);
    var afterOk := ApplyEvent(n, "plan", Settle(Processed("b"), 2));
    assert FindSection(afterOk.value.sections, "plan") == Some(0);
    var afterBoom := ApplyEvent(n, "plan", Settle(Threw(ErrorValue("boom")), 3));
    assert FindSection(afterBoom.value.sections, "plan") == Some(0);
  }

  /** Section events on different sections commute: whichever of two
      regenerations settles first, the resulting note is the same. */
  lemma {:induction false} EventsOnDistinctSectionsCommute(prev: NoteState, a: string, ea: SectionEvent, b: string, eb: SectionEvent)
    requires a != b
    ensures ApplyEvent(ApplyEvent(prev, a, ea), b, eb) == ApplyEvent(ApplyEvent(prev, b, eb), a, ea)
  {
    if prev.Some? {
      var n := prev.value;
      var ca := ChangeFor(n.sections, a, ea);
      var cb := ChangeFor(n.sections, b, eb);
      ApplyEventUpdates(n, a, ea);
      ApplyEventUpdates(n, b, eb);
      var na := n.(sections := UpdateWith(n.sections, a, ca));
      var nb := n.(sections := UpdateWith(n.sections, b, cb));
      ApplyEventUpdates(na, b, eb);
      ApplyEventUpdates(nb, a, ea);
      ChangeForIgnoresOtherSections(n.sections, b, eb, a, ca);
      ChangeForIgnoresOtherSections(n.sections, a, ea, b, cb);
      UpdatesOnDistinctIdsCommute(n.sections, a, ca, b, cb);
    }
  }

  // ----------------------------------------------------------------------
  // Version ids

  predicate SectionIdsUnique(sections: seq<Section>) {
    forall i, j :: 0 <= i < j < |sections| ==> sections[i].id != sections[j].id
  }

  predicate VersionIdsDistinct(versions: seq<Version>) {
    forall i, j :: 0 <= i < j < |versions| ==> versions[i].id != versions[j].id
  }

  /** Section ids are unique and, within each section, version ids are
      pairwise distinct. */
  predicate WellFormed(n: Note) {
    && SectionIdsUnique(n.sections)
    && forall i :: 0 <= i < |n.sections| ==> VersionIdsDistinct(n.sections[i].versions)
  }

  /** A fresh note is well formed; a parse result is kept as it is. */
  lemma CreatedNoteWellFormed(now: nat, form: NoteForm)
    ensures WellFormed(CreateNote(now, form))
  {
  }

  /** The parsed sections become the note's sections as they are, so after
      full generation the invariant holds exactly when the parser's output
      satisfies it. */
  lemma GenerationKeepsWellFormed(prev: NoteState, parsed: seq<Section>)
    requires prev.Some?
    ensures var r := GenerationSucceeded(prev, parsed);
      r.Some? && (WellFormed(r.value) <==>
        SectionIdsUnique(parsed) && forall i :: 0 <= i < |parsed| ==> VersionIdsDistinct(parsed[i].versions))
  {
  }

  /** Appending a version numbered past every existing id keeps ids distinct. */
  lemma AppendFreshVersion(versions: seq<Version>, v: Version)
    requires VersionIdsDistinct(versions)
    requires forall i :: 0 <= i < |versions| ==> versions[i].id < v.id
    ensures VersionIdsDistinct(versions + [v])
  {
  }

  /** Every section event keeps a well-formed note well formed: section ids
      never change, and a regenerated version's id is new in its section. */
  lemma {:induction false} EventsPreserveWellFormed(prev: NoteState, id: string, e: SectionEvent)
    requires prev.Some? ==> WellFormed(prev.value)
    ensures var r := ApplyEvent(prev, id, e); r.Some? ==> WellFormed(r.value)
  {
    if prev.Some? {
      var n := prev.value;
      ApplyEventUpdates(n, id, e);
      var c := ChangeFor(n.sections, id, e);
      var after := UpdateWith(n.sections, id, c);
      if c.Some? {
        forall i | 0 <= i < |after|
          ensures VersionIdsDistinct(after[i].versions)
        {
          if n.sections[i].id == id && c.value.AppendVersion? {
            var k := FindSection(n.sections, id).value;
            assert k == i;
            AppendFreshVersion(n.sections[i].versions, c.value.version);
          }
        }
      }
    }
  }

  /** Versions numbered 0, 1, 2, ... in order. */
  predicate NumberedFromZero(versions: seq<Version>) {
    forall i :: 0 <= i < |versions| ==> versions[i].id == i
  }

  lemma NextIdOfNumbered(versions: seq<Version>)
    requires NumberedFromZero(versions)
    ensures NextVersionId(versions) == |versions|
  {
    if versions != [] {
      assert versions[|versions| - 1].id == |versions| - 1;
    }
  }

  /** Successful regenerations of one section settling one after another. */
  function SettleAll(prev: NoteState, id: string, outputs: seq<(string, nat)>): NoteState
    decreases |outputs|
  {
    if outputs == [] then prev
    else SettleAll(RegenerationSucceeded(prev, id, outputs[0].0, outputs[0].1), id, outputs[1..])
  }

  /** One successful regeneration of a section numbered 0..k-1 appends
      version k with the trimmed text and makes it current. */
  lemma RegenerationOfNumbered(n: Note, k: nat, text: string, now: nat) returns (n1: Note)
    requires k < |n.sections| && SectionIdsUnique(n.sections)
    requires NumberedFromZero(n.sections[k].versions)
    ensures RegenerationSucceeded(Some(n), n.sections[k].id, text, now) == Some(n1)
    ensures |n1.sections| == |n.sections| && SectionIdsUnique(n1.sections)
    ensures n1.sections[k].id == n.sections[k].id
    ensures n1.sections[k].versions == n.sections[k].versions + [Version(|n.sections[k].versions|, Trim(text), now)]
    ensures n1.sections[k].currentVersion == |n.sections[k].versions|
  {
    assert FindSection(n.sections, n.sections[k].id) == Some(k);
    NextIdOfNumbered(n.sections[k].versions);
    n1 := RegenerationSucceeded(Some(n), n.sections[k].id, text, now).value;
  }

  /** The versions that successful regenerations with texts and clock
      readings `outputs` append, numbered from `start`. */
  function AppendedVersions(start: int, outputs: seq<(string, nat)>): seq<Version>
    decreases |outputs|
  {
    if outputs == [] then []
    else [Version(start, Trim(outputs[0].0), outputs[0].1)] + AppendedVersions(start + 1, outputs[1..])
  }

  /** Versions appended from number |vs| on continue a numbering from zero. */
  lemma {:induction false} AppendedVersionsContinueNumbering(vs: seq<Version>, outputs: seq<(string, nat)>)
    requires NumberedFromZero(vs)
    ensures NumberedFromZero(vs + AppendedVersions(|vs|, outputs))
    decreases |outputs|
  {
    if outputs != [] {
      var v0 := Version(|vs|, Trim(outputs[0].0), outputs[0].1);
      AppendedVersionsContinueNumbering(vs + [v0], outputs[1..]);
      ConcatAssoc(vs, [v0], AppendedVersions(|vs| + 1, outputs[1..]));
    }
  }

  /** The first of a run of successful regenerations, seen from the run:
      it leaves a note whose section `k` gained the next numbered version,
      and the rest of the run continues from that note. */
  lemma SettleFirst(n: Note, k: nat, outputs: seq<(string, nat)>) returns (n1: Note)
    requires outputs != []
    requires k < |n.sections| && SectionIdsUnique(n.sections)
    requires NumberedFromZero(n.sections[k].versions)
    ensures SettleAll(Some(n), n.sections[k].id, outputs) == SettleAll(Some(n1), n.sections[k].id, outputs[1..])
    ensures |n1.sections| == |n.sections| && SectionIdsUnique(n1.sections)
    ensures n1.sections[k].id == n.sections[k].id
    ensures n1.sections[k].versions ==
      n.sections[k].versions + [Version(|n.sections[k].versions|, Trim(outputs[0].0), outputs[0].1)]
    ensures NumberedFromZero(n1.sections[k].versions)
    ensures n1.sections[k].currentVersion == |n1.sections[k].versions| - 1
  {
    n1 := RegenerationOfNumbered(n, k, outputs[0].0, outputs[0].1);
  }

  /** What a run of successful regenerations of section `k` of `n` has
      produced in `r`: the same sections, section `k` with `appended` after
      its old versions and, if any were appended, the last one current
      (otherwise the current version it had). */
  predicate SettledAs(r: NoteState, n: Note, k: nat, appended: seq<Version>)
    requires k < |n.sections|
  {
    && r.Some? && |r.value.sections| == |n.sections|
    && SectionIdsUnique(r.value.sections)
    && r.value.sections[k].id == n.sections[k].id
    && r.value.sections[k].versions == n.sections[k].versions + appended
    && (appended != [] ==> r.value.sections[k].currentVersion == |r.value.sections[k].versions| - 1)
    && (appended == [] ==> r.value.sections[k].currentVersion == n.sections[k].currentVersion)
  }

  /** A run settled from the note after the first step is, seen from the
      note before it, the run with that step's version in front. */
  lemma SettledAsShift(r: NoteState, n: Note, n1: Note, k: nat, v0: Version, rest: seq<Version>)
    requires k < |n.sections| && |n1.sections| == |n.sections|
    requires n1.sections[k].id == n.sections[k].id
    requires n1.sections[k].versions == n.sections[k].versions + [v0]
    requires n1.sections[k].currentVersion == |n1.sections[k].versions| - 1
    requires SettledAs(r, n1, k, rest)
    ensures SettledAs(r, n, k, [v0] + rest)
  {
    ConcatAssoc(n.sections[k].versions, [v0], rest);
  }

  /** N successful regenerations of one section, one after another: the
      section keeps its older versions and gains one version per text, in
      order, numbered on from the old count, the newest one current. */
  lemma {:induction false} SettleAllAppends(n: Note, k: nat, outputs: seq<(string, nat)>)
    requires k < |n.sections| && SectionIdsUnique(n.sections)
    requires NumberedFromZero(n.sections[k].versions)
    ensures SettledAs(SettleAll(Some(n), n.sections[k].id, outputs), n, k,
                      AppendedVersions(|n.sections[k].versions|, outputs))
    decreases |outputs|
  {
    if outputs != [] {
      var n1 := SettleFirst(n, k, outputs);
      SettleAllAppends(n1, k, outputs[1..]);
      var before := n.sections[k].versions;
      var v0 := Version(|before|, Trim(outputs[0].0), outputs[0].1);
      assert AppendedVersions(|before|, outputs) == [v0] + AppendedVersions(|before| + 1, outputs[1..]);
      SettledAsShift(SettleAll(Some(n1), n.sections[k].id, outputs[1..]), n, n1, k, v0,
                     AppendedVersions(|before| + 1, outputs[1..]));
    } else {
      assert n.sections[k].versions + [] == n.sections[k].versions;
    }
  }

  /** Version monotonicity: N successful regenerations of a section whose
      versions are numbered 0..k-1 leave it numbered 0..k+N-1, the new
      versions holding the trimmed texts in order and the newest current. */
  lemma RegenerationsNumberConsecutively(n: Note, k: nat, outputs: seq<(string, nat)>)
    requires k < |n.sections| && SectionIdsUnique(n.sections)
    requires NumberedFromZero(n.sections[k].versions)
    ensures var r := SettleAll(Some(n), n.sections[k].id, outputs);
      && r.Some? && k < |r.value.sections|
      && var vs := r.value.sections[k].versions;
         && NumberedFromZero(vs)
         && |vs| == |n.sections[k].versions| + |outputs|
         && vs[..|n.sections[k].versions|] == n.sections[k].versions
         && (forall j :: |n.sections[k].versions| <= j < |vs| ==>
               vs[j].content == Trim(outputs[j - |n.sections[k].versions|].0))
         && (outputs != [] ==> r.value.sections[k].currentVersion == |vs| - 1)
  {
    SettleAllAppends(n, k, outputs);
    AppendedVersionsContinueNumbering(n.sections[k].versions, outputs);
    AppendedVersionsContents(|n.sections[k].versions|, outputs);
  }

  lemma {:induction false} AppendedVersionsContents(start: int, outputs: seq<(string, nat)>)
    ensures |AppendedVersions(start, outputs)| == |outputs|
    ensures forall j :: 0 <= j < |outputs| ==> AppendedVersions(start, outputs)[j].content == Trim(outputs[j].0)
    decreases |outputs|
  {
    if outputs != [] {
      AppendedVersionsContents(start + 1, outputs[1..]);
      var rest := AppendedVersions(start + 1, outputs[1..]);
      forall j | 1 <= j < |outputs|
        ensures AppendedVersions(start, outputs)[j].content == Trim(outputs[j].0)
      {
        assert AppendedVersions(start, outputs)[j] == rest[j - 1];
        assert outputs[1..][j - 1] == outputs[j];
      }
    }
  }

  /** Choosing a version does not check that it exists: selecting 99 on a
      section holding versions 0 and 1 makes 99 current. */
  lemma VersionChangeIsUnchecked()
    ensures var s := Section("plan", "Plan", [Version(0, "a", 1), Version(1, "b", 2)], 1, false, None);
            var n := Note("1", "x", "x", false, [s], None);
            var r := ChangeVersion(Some(n), "plan", 99);
            r.Some? && r.value.sections[0].currentVersion == 99
            && forall i :: 0 <= i < |s.versions| ==> s.versions[i].id != 99
  {
  }
}
