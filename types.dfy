/** The closed data model of the application (types.ts). */
module Types {

  import opened Wrappers
  import opened Strings

  /** `Note.status`: the five stages of the review cycle. */
  datatype Status = New | Review1 | Review3 | Review7 | Mastered

  /** The string each status is stored as. */
  function StatusText(s: Status): string {
    match s
    case New => "new"
    case Review1 => "review_1"
    case Review3 => "review_3"
    case Review7 => "review_7"
    case Mastered => "mastered"
  }

  /** Reads a stored status back; any other string is not a status. */
  function ParseStatus(t: string): (r: Option<Status>)
    ensures r.Some? ==> StatusText(r.value) == t
  {
    if t == "new" then Some(New)
    else if t == "review_1" then Some(Review1)
    else if t == "review_3" then Some(Review3)
    else if t == "review_7" then Some(Review7)
    else if t == "mastered" then Some(Mastered)
    else None
  }

  /** Every status is stored as a distinct string that reads back as itself. */
  lemma StatusRoundTrip(s: Status)
    ensures ParseStatus(StatusText(s)) == Some(s)
  {
  }

  /** The three statuses counted as "due for review". */
  predicate IsReview(s: Status) {
    s == Review1 || s == Review3 || s == Review7
  }

  /** Exactly the review statuses are stored with the prefix "review". */
  lemma ReviewPrefix(s: Status)
    ensures StartsWith(StatusText(s), "review") <==> IsReview(s)
  {
    match s
    case New =>
      assert StatusText(s)[0] != "review"[0];
    case Mastered =>
      assert StatusText(s)[0] != "review"[0];
    case _ =>
  }

  /** A note as the application stores it. */
  datatype Note = Note(
    id: string,
    title: string,
    subject: string,
    summary: string,
    originalText: string,
    dateCreated: string,
    status: Status,
    tags: seq<string>)

  /** The learner's gamification counters; JavaScript numbers, modelled as
      unbounded integers. */
  datatype UserStats = UserStats(streak: int, xp: int, level: int, mandalaProgress: int)

  /** The counters every learner starts from. */
  const DefaultStats := UserStats(0, 0, 1, 0)

  /** `mandalaProgress` is documented as a percentage. */
  predicate ProgressInRange(s: UserStats) {
    0 <= s.mandalaProgress <= 100
  }

  /** `ProcessingState.stage`. */
  datatype Stage = Idle | Uploading | Analyzing | Gamifying | Complete

  datatype ProcessingState = ProcessingState(isProcessing: bool, stage: Stage)

  /** The `Subject` enumeration. */
  datatype Subject = Math | Science | English | Hindi | SocialScience

  /** The string value of each enumeration member. */
  function SubjectValue(s: Subject): string {
    match s
    case Math => "Mathematics"
    case Science => "Science"
    case English => "English"
    case Hindi => "Hindi"
    case SocialScience => "Social Science"
  }

  /** No two members share a value. */
  lemma SubjectValuesDistinct(a: Subject, b: Subject)
    ensures SubjectValue(a) == SubjectValue(b) ==> a == b
  {
  }
}
