/** The read-only views App.tsx derives from the note list: the dashboard's
    priority note, its counters, and the revision board's columns. */
module Views {

  import opened Wrappers
  import opened Strings
  import opened Types

  // ---------------------------------------------------------------------
  // Priority note
  // ---------------------------------------------------------------------

  /** The test handed to `notes.find`: the note is part-way through review. */
  predicate InProgress(n: Note) {
    n.status != Mastered && n.status != New
  }

  /** `Array.prototype.find` with that test, as an index: the first note in
      list order that is in progress, if any. */
  function FindInProgress(notes: seq<Note>): (r: Option<nat>)
    ensures r.Some? ==> r.value < |notes| && InProgress(notes[r.value])
    ensures r.Some? ==> forall j :: 0 <= j < r.value ==> !InProgress(notes[j])
    ensures r.None? <==> forall j :: 0 <= j < |notes| ==> !InProgress(notes[j])
  {
    if |notes| == 0 then None
    else if InProgress(notes[0]) then Some(0)
    else match FindInProgress(notes[1..])
      case None => None
      case Some(k) => Some(k + 1)
  }

  /** The dashboard hero: `notes.find(inProgress) || notes[0]`. */
  function PriorityNote(notes: seq<Note>): (r: Option<Note>)
    ensures r.None? <==> |notes| == 0
    ensures forall k :: 0 <= k < |notes| && InProgress(notes[k])
                        && (forall j :: 0 <= j < k ==> !InProgress(notes[j]))
                        ==> r == Some(notes[k])
    ensures |notes| > 0 && (forall j :: 0 <= j < |notes| ==> !InProgress(notes[j]))
            ==> r == Some(notes[0])
  {
    match FindInProgress(notes)
    case Some(k) => Some(notes[k])
    case None => if |notes| == 0 then None else Some(notes[0])
  }

  /** A note added at the front with status `new` does not take the priority
      slot from a note already in progress; it takes the slot only when no
      note is in progress. */
  lemma PriorityAfterNewNote(note: Note, notes: seq<Note>)
    requires note.status == New
    ensures (exists j :: 0 <= j < |notes| && InProgress(notes[j]))
            ==> PriorityNote([note] + notes) == PriorityNote(notes)
    ensures (forall j :: 0 <= j < |notes| ==> !InProgress(notes[j]))
            ==> PriorityNote([note] + notes) == Some(note)
  {
  }

  // ---------------------------------------------------------------------
  // Filters by status
  // ---------------------------------------------------------------------

  /** `notes.filter(n => n.status === st)`. */
  function WithStatus(notes: seq<Note>, st: Status): (r: seq<Note>)
    ensures |r| <= |notes|
    ensures forall n :: n in r <==> n in notes && n.status == st
  {
    if |notes| == 0 then []
    else (if notes[0].status == st then [notes[0]] else []) + WithStatus(notes[1..], st)
  }

  /** `notes.filter(n => n.status.startsWith(prefix))`. */
  function WithStatusPrefix(notes: seq<Note>, prefix: string): (r: seq<Note>)
    ensures |r| <= |notes|
    ensures forall n :: n in r <==> n in notes && StartsWith(StatusText(n.status), prefix)
  {
    if |notes| == 0 then []
    else (if StartsWith(StatusText(notes[0].status), prefix) then [notes[0]] else [])
         + WithStatusPrefix(notes[1..], prefix)
  }

  /** The filter keeps list order: filtering a concatenation is the
      concatenation of the filtered parts. */
  lemma {:induction false} WithStatusAppend(a: seq<Note>, b: seq<Note>, st: Status)
    ensures WithStatus(a + b, st) == WithStatus(a, st) + WithStatus(b, st)
    decreases |a|
  {
    if |a| == 0 {
      assert a + b == b;
    } else {
      assert (a + b)[1..] == a[1..] + b;
      WithStatusAppend(a[1..], b, st);
    }
  }

  /** A single note is kept exactly when its status matches. */
  lemma WithStatusSingle(n: Note, st: Status)
    ensures WithStatus([n], st) == if n.status == st then [n] else []
  {
  }

  /** A note filtered with a status equal to its own is kept whole and first. */
  lemma WithStatusPrepend(n: Note, notes: seq<Note>, st: Status)
    ensures WithStatus([n] + notes, st)
            == (if n.status == st then [n] else []) + WithStatus(notes, st)
  {
  }

  // ---------------------------------------------------------------------
  // Revision board
  // ---------------------------------------------------------------------

  /** One column of the revision board. */
  datatype Column = Column(id: Status, caption: string, days: nat)

  /** The board's four columns, in display order. */
  const Columns: seq<Column> := [
    Column(New, "In Queue", 0),
    Column(Review1, "Tomorrow", 1),
    Column(Review3, "3 Days", 3),
    Column(Review7, "Next Week", 7)
  ]

  /** The notes each column shows, column by column. */
  function Board(notes: seq<Note>): (r: seq<seq<Note>>)
    ensures |r| == |Columns|
    ensures forall i, n :: 0 <= i < |r| && n in r[i] <==> 0 <= i < |r| && n in notes && n.status == Columns[i].id
    ensures forall i :: 0 <= i < |r| ==> r[i] == WithStatus(notes, Columns[i].id)
  {
    seq(|Columns|, i requires 0 <= i < |Columns| => WithStatus(notes, Columns[i].id))
  }

  /** Mastered notes appear in no column, and no note appears in two. */
  lemma BoardColumnsDisjoint(notes: seq<Note>)
    ensures forall i, n :: 0 <= i < |Columns| && n in Board(notes)[i] ==> n.status != Mastered
    ensures forall i, j, n :: 0 <= i < j < |Columns| && n in Board(notes)[i] ==> n !in Board(notes)[j]
  {
  }

  /** Number of notes with a given status. */
  function CountStatus(notes: seq<Note>, st: Status): nat {
    |WithStatus(notes, st)|
  }

  /** The board's columns together with the mastered notes account for every
      note exactly once. */
  lemma {:induction false} BoardPartition(notes: seq<Note>)
    ensures CountStatus(notes, New) + CountStatus(notes, Review1) + CountStatus(notes, Review3)
            + CountStatus(notes, Review7) + CountStatus(notes, Mastered) == |notes|
    decreases |notes|
  {
    if |notes| > 0 {
      BoardPartition(notes[1..]);
    }
  }

  // ---------------------------------------------------------------------
  // Dashboard counters
  // ---------------------------------------------------------------------

  /** The prefix test picks out exactly the three review columns. */
  lemma {:induction false} ReviewPrefixIsReviewColumns(notes: seq<Note>)
    ensures |WithStatusPrefix(notes, "review")|
            == CountStatus(notes, Review1) + CountStatus(notes, Review3) + CountStatus(notes, Review7)
    decreases |notes|
  {
    if |notes| > 0 {
      ReviewPrefix(notes[0].status);
      ReviewPrefixIsReviewColumns(notes[1..]);
    }
  }

  /** "Total Notes": every note is counted once, in exactly one of the five
      status groups. */
  function TotalNotes(notes: seq<Note>): (r: nat)
    ensures r == CountStatus(notes, New) + CountStatus(notes, Review1) + CountStatus(notes, Review3)
                 + CountStatus(notes, Review7) + CountStatus(notes, Mastered)
  {
    BoardPartition(notes);
    |notes|
  }

  /** "Reviews Due": notes whose stored status begins with "review", which
      are exactly the notes in the three review columns. */
  function ReviewsDue(notes: seq<Note>): (r: nat)
    ensures r == CountStatus(notes, Review1) + CountStatus(notes, Review3) + CountStatus(notes, Review7)
  {
    ReviewPrefixIsReviewColumns(notes);
    |WithStatusPrefix(notes, "review")|
  }

  /** "Mastered": positive exactly when some note is mastered. */
  function MasteredCount(notes: seq<Note>): (r: nat)
    ensures r <= |notes|
    ensures r > 0 <==> exists i :: 0 <= i < |notes| && notes[i].status == Mastered
  {
    var m := WithStatus(notes, Mastered);
    assert |m| > 0 ==> m[0] in m;
    CountStatus(notes, Mastered)
  }

  /** The dashboard counters never over-count: the notes still queued make
      up the difference between "Total Notes" and the other two. */
  lemma DashboardCounters(notes: seq<Note>)
    ensures ReviewsDue(notes) + MasteredCount(notes) + CountStatus(notes, New) == TotalNotes(notes)
    ensures ReviewsDue(notes) + MasteredCount(notes) <= TotalNotes(notes)
  {
  }
}
