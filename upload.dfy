/** The upload dialog of App.tsx: turning an analysis result into a note,
    and the processing stages shown while that happens. */
module Upload {

  import opened Wrappers
  import opened Types
  import opened Gemini
  import opened AppState
  import opened Views

  /** `value || fallback` on an optional string: an absent value and the
      empty string (both falsy) give the fallback. */
  function TextOr(v: Option<string>, fallback: string): (r: string)
    ensures v.Some? && v.value != "" ==> r == v.value
    ensures v.None? || v.value == "" ==> r == fallback
  {
    if v.Some? && v.value != "" then v.value else fallback
  }

  /** The note built from an analysis result. The identifier (taken from the
      clock in the application) and the creation time are parameters. */
  function BuildNote(result: AnalysisResult, id: string, dateCreated: string): (n: Note)
    ensures n.id == id && n.dateCreated == dateCreated
    ensures n.status == New
    ensures n.title != "" && n.subject != "" && n.summary != ""
    ensures result.title.Some? && result.title.value != "" ==> n.title == result.title.value
    ensures result.title.None? || result.title.value == "" ==> n.title == "Untitled Note"
    ensures result.subject.Some? && result.subject.value != "" ==> n.subject == result.subject.value
    ensures result.subject.None? || result.subject.value == "" ==> n.subject == "General"
    ensures result.summary.Some? && result.summary.value != "" ==> n.summary == result.summary.value
    ensures result.summary.None? || result.summary.value == "" ==> n.summary == "No summary available."
    ensures result.originalText.Some? ==> n.originalText == result.originalText.value
    ensures result.originalText.None? ==> n.originalText == ""
    ensures result.tags.Some? ==> n.tags == result.tags.value
    ensures result.tags.None? ==> n.tags == []
  {
    Note(id,
         TextOr(result.title, "Untitled Note"),
         TextOr(result.subject, "General"),
         TextOr(result.summary, "No summary available."),
         TextOr(result.originalText, ""),
         dateCreated,
         New,
         // an array, even an empty one, is truthy: only a missing list falls back
         if result.tags.Some? then result.tags.value else [])
  }

  /** An analysis result with no fields at all. */
  const EmptyResult := AnalysisResult(None, None, None, None, None, None, None)

  /** Every missing field takes its default. */
  lemma BuildNoteDefaults(id: string, dateCreated: string)
    ensures BuildNote(EmptyResult, id, dateCreated)
            == Note(id, "Untitled Note", "General", "No summary available.", "", dateCreated, New, [])
  {
  }

  /** Fields that are present and non-empty are carried over unchanged; the
      cue and quiz lists are not kept on the note. */
  lemma BuildNoteKeepsFields(result: AnalysisResult, id: string, dateCreated: string)
    requires result.title.Some? && result.title.value != ""
    requires result.subject.Some? && result.subject.value != ""
    requires result.summary.Some? && result.summary.value != ""
    requires result.originalText.Some? && result.tags.Some?
    ensures BuildNote(result, id, dateCreated)
            == Note(id, result.title.value, result.subject.value, result.summary.value,
                    result.originalText.value, dateCreated, New, result.tags.value)
  {
  }

  /** The demo result yields the photosynthesis note. */
  lemma MockNote(id: string, dateCreated: string)
    ensures BuildNote(MockResult, id, dateCreated).title == "Photosynthesis: Process & Importance"
    ensures BuildNote(MockResult, id, dateCreated).subject == "Science"
    ensures BuildNote(MockResult, id, dateCreated).tags == ["biology", "plants", "energy"]
  {
  }

  /** Once added, an uploaded note heads the "In Queue" column and leaves
      every other column as it was. */
  lemma UploadedNoteQueuedFirst(result: AnalysisResult, id: string, dateCreated: string,
                                notes: seq<Note>, st: Status)
    ensures var note := BuildNote(result, id, dateCreated);
            WithStatus([note] + notes, st)
            == if st == New then [note] + WithStatus(notes, st) else WithStatus(notes, st)
  {
  }

  /** The spinner flag is raised exactly in the two working stages. */
  predicate Consistent(p: ProcessingState) {
    p.isProcessing <==> (p.stage == Analyzing || p.stage == Gamifying)
  }

  const IdleState := ProcessingState(false, Idle)
  const AnalyzingState := ProcessingState(true, Analyzing)
  const GamifyingState := ProcessingState(true, Gamifying)

  /** The upload dialog's processing state, with every state it has been
      set to, in order. */
  class UploadModal {
    var processing: ProcessingState
    ghost var history: seq<ProcessingState>

    ghost predicate Valid()
      reads this
    {
      Consistent(processing) && forall i :: 0 <= i < |history| ==> Consistent(history[i])
    }

    constructor ()
      ensures processing == IdleState && history == []
      ensures Valid()
    {
      processing := IdleState;
      history := [];
    }

    /** `setProcessingState`, called only with states whose spinner flag
        matches their stage, so the dialog stays consistent. */
    method SetProcessingState(p: ProcessingState)
      requires Valid() && Consistent(p)
      modifies this
      ensures Valid()
      ensures processing == p && history == old(history) + [p]
    {
      processing := p;
      history := history + [p];
    }

    /** `handleFileUpload` followed through to the end of its `finally`:
        with no file nothing happens; otherwise the dialog shows the
        analyzing stage, asks for an analysis, and either builds the note,
        shows the gamifying stage, adds the note and closes, or (when the
        analysis is `null`, so reading its fields throws) adds nothing; in
        both cases it ends idle. Returns the note handed to the application. */
    method HandleFileUpload(hasFile: bool, apiKeyEnv: Option<string>, call: CallOutcome,
                            parse: string -> Parsed, id: string, dateCreated: string, app: App)
      returns (added: Option<Note>)
      requires Valid()
      modifies this, app
      ensures Valid()
      ensures !hasFile ==> added.None? && processing == old(processing) && history == old(history)
                           && app.notes == old(app.notes) && app.stats == old(app.stats)
                           && app.isUploadOpen == old(app.isUploadOpen)
      ensures hasFile ==> processing == IdleState
      ensures hasFile && AnalyzeImage(apiKeyEnv, call, parse).Object? ==>
                var note := BuildNote(AnalyzeImage(apiKeyEnv, call, parse).fields, id, dateCreated);
                && added == Some(note)
                && history == old(history) + [AnalyzingState, GamifyingState, IdleState]
                && app.notes == [note] + old(app.notes)
                && app.stats == NoteAdded(old(app.stats))
                && !app.isUploadOpen
      ensures hasFile && AnalyzeImage(apiKeyEnv, call, parse).Null? ==>
                && added.None?
                && history == old(history) + [AnalyzingState, IdleState]
                && app.notes == old(app.notes) && app.stats == old(app.stats)
                && app.isUploadOpen == old(app.isUploadOpen)
    {
      added := None;
      if !hasFile {
        return;
      }
      SetProcessingState(AnalyzingState);
      var result := AnalyzeImage(apiKeyEnv, call, parse);
      match result {
        case Null =>
          // reading a field of `null` throws; the handler alerts and goes on
          // to `finally`
        case Object(fields) =>
          var note := BuildNote(fields, id, dateCreated);
          SetProcessingState(GamifyingState);
          app.AddNote(note);
          app.CloseUpload();
          added := Some(note);
      }
      SetProcessingState(IdleState);
    }
  }
}
