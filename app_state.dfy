/** The application's data state (App.tsx): the note list and the learner's
    counters, and `addNote`, the one transition that changes them. */
module AppState {

  import opened Types

  function Min(a: int, b: int): int {
    if a <= b then a else b
  }

  /** The counters after one note is added: 50 experience points, ten points
      of mandala progress capped at 100, and a streak of at least one. */
  function NoteAdded(s: UserStats): (r: UserStats)
    ensures r.xp == s.xp + 50
    ensures r.mandalaProgress <= 100
    ensures s.mandalaProgress <= 90 ==> r.mandalaProgress == s.mandalaProgress + 10
    ensures s.mandalaProgress >= 90 ==> r.mandalaProgress == 100
    ensures s.streak == 0 ==> r.streak == 1
    ensures s.streak != 0 ==> r.streak == s.streak
    ensures r.level == s.level
  {
    s.(xp := s.xp + 50,
       mandalaProgress := Min(s.mandalaProgress + 10, 100),
       streak := if s.streak == 0 then 1 else s.streak)
  }

  /** Progress stays a percentage and never goes down. */
  lemma NoteAddedKeepsRange(s: UserStats)
    requires ProgressInRange(s)
    ensures ProgressInRange(NoteAdded(s))
    ensures NoteAdded(s).mandalaProgress >= s.mandalaProgress
  {
  }

  /** The counters after `n` notes have been added one after another. */
  function AfterNotes(s: UserStats, n: nat): UserStats {
    if n == 0 then s else NoteAdded(AfterNotes(s, n - 1))
  }

  /** Each note is worth exactly 50 points. */
  lemma {:induction false} XpAfterNotes(s: UserStats, n: nat)
    ensures AfterNotes(s, n).xp == s.xp + 50 * n
  {
    if n > 0 {
      XpAfterNotes(s, n - 1);
    }
  }

  /** Progress grows by ten per note until it saturates at 100; after at
      least one note this holds whatever the starting value. */
  lemma {:induction false} ProgressAfterNotes(s: UserStats, n: nat)
    requires n > 0 || s.mandalaProgress <= 100
    ensures AfterNotes(s, n).mandalaProgress == Min(s.mandalaProgress + 10 * n, 100)
  {
    if n > 1 || (n == 1 && s.mandalaProgress <= 100) {
      ProgressAfterNotes(s, n - 1);
    }
  }

  /** The streak only ever moves from 0 to 1. */
  lemma {:induction false} StreakAfterNotes(s: UserStats, n: nat)
    requires n > 0
    ensures AfterNotes(s, n).streak == if s.streak == 0 then 1 else s.streak
  {
    if n > 1 {
      StreakAfterNotes(s, n - 1);
    }
  }

  /** Adding notes never changes the level. */
  lemma {:induction false} LevelAfterNotes(s: UserStats, n: nat)
    ensures AfterNotes(s, n).level == s.level
  {
    if n > 0 {
      LevelAfterNotes(s, n - 1);
    }
  }

  /** From the initial counters, any positive number of notes gives a
      streak of exactly one. */
  lemma AfterNotesFromDefault(n: nat)
    requires n > 0
    ensures AfterNotes(DefaultStats, n) == UserStats(1, 50 * n, 1, Min(10 * n, 100))
  {
    XpAfterNotes(DefaultStats, n);
    ProgressAfterNotes(DefaultStats, n);
    StreakAfterNotes(DefaultStats, n);
    LevelAfterNotes(DefaultStats, n);
  }

  /** The application's state object. */
  class App {
    var notes: seq<Note>
    var stats: UserStats
    var isUploadOpen: bool

    /** The state before anything is loaded: no notes, the initial counters,
        the upload dialog closed. */
    constructor ()
      ensures notes == [] && stats == DefaultStats && !isUploadOpen
      ensures ProgressInRange(stats)
    {
      notes := [];
      stats := DefaultStats;
      isUploadOpen := false;
    }

    /** `addNote`: the note goes first, the list behind it is kept in order,
        and the counters advance by `NoteAdded`. */
    method AddNote(note: Note)
      modifies this
      ensures notes == [note] + old(notes)
      ensures notes[0] == note && notes[1..] == old(notes)
      ensures stats == NoteAdded(old(stats))
      ensures old(ProgressInRange(stats)) ==> ProgressInRange(stats)
      ensures isUploadOpen == old(isUploadOpen)
    {
      notes := [note] + notes;
      stats := NoteAdded(stats);
    }

    /** The "Upload" buttons: the dialog opens and nothing else changes. */
    method OpenUpload()
      modifies this
      ensures isUploadOpen
      ensures notes == old(notes) && stats == old(stats)
    {
      isUploadOpen := true;
    }

    /** The upload dialog's `onClose`. */
    method CloseUpload()
      modifies this
      ensures !isUploadOpen
      ensures notes == old(notes) && stats == old(stats)
    {
      isUploadOpen := false;
    }
  }
}
