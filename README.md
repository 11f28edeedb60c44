# Neoclass note bookkeeping, modelled in Dafny

Neoclass is a study app. A learner photographs handwritten notes. An AI
service turns each photo into a structured note. The note then sits on a
revision board, and adding notes earns gamification points. This project
models the app's logic:

- `types.dfy` (module `Types`): the closed data model. It holds the five
  note statuses and the string each is stored as, the note record, the
  learner's counters (`UserStats`) with their initial value, the processing
  stages, and the `Subject` enumeration.
- `app_state.dfy` (module `AppState`): the `App` class, which holds the note
  list and the counters. Its `AddNote` method is `addNote`: the note is put
  first, experience goes up by 50, mandala progress goes up by 10 but never
  past 100, and the streak becomes 1 if it was 0. The lemmas cover any
  number of calls.
- `views.dfy` (module `Views`): the read-only views of the note list. These
  are the dashboard's priority note, the four revision-board columns, and the
  dashboard counters ("Total Notes", "Reviews Due", "Mastered").
- `upload.dfy` (module `Upload`): the upload dialog. It builds a note from
  an analysis result, filling in defaults the way JavaScript `||` does. The
  `UploadModal` class steps through the processing stages
  (idle → analyzing → gamifying → idle) and hands the note to `App.AddNote`.
- `gemini.dfy` (module `Gemini`): the analysis service with the model call
  abstracted. It covers the clean-up of the reply text
  (`replace(/```json\n?|```/g, '')` followed by `trim()`) and the fallback to
  the fixed demo result.
- `supabase.dfy` (module `Supabase`): the credential check `hasKeys` and
  the rule that a client exists exactly when it holds.
- `strings.dfy` and `wrappers.dfy`: `startsWith`, `includes`, the
  `x || ''` default for environment variables, and `Option`.

Where descriptions of the app disagree with the code, the model follows
the code:
- The landing page promises a "1-3-7 revision schedule"
  (components/LandingPage.tsx:155 and :293). No status-advance function,
  "mark revised" action, study schedule, exam date, 1-3-7 plan generator or
  calendar exists in the code.
- The streak only goes from 0 to 1; nothing else increments it.

## Model

| member | source | states |
|---|---|---|
| Strings.OrEmpty | services/supabase.ts:3-4 | A missing environment variable reads as the empty string; a present one reads as itself. |
| Strings.ContainsIffOccurs | services/supabase.ts:10 | The left-to-right `includes` scan holds exactly when the text occurs at some position. |
| Types.ParseStatus | types.ts:8 | A string reads back as a status only if it is that status's stored string. |
| Types.StatusRoundTrip | types.ts:8 | Each of the five statuses is stored as its own string, and that string reads back as the same status. |
| Types.ReviewPrefix | App.tsx:379 | A status's stored string starts with "review" exactly for `review_1`, `review_3` and `review_7`. |
| Types.SubjectValuesDistinct | types.ts:24-30 | No two `Subject` members share a string value. |
| Views.FindInProgress | App.tsx:286 | `find` returns the first index whose note is neither `new` nor `mastered`, and finds none only when no such note exists. |
| Views.PriorityNote | App.tsx:286 | The priority note is the first note in progress if there is one, otherwise the first note. It is absent exactly when the list is empty. |
| Views.PriorityAfterNewNote | App.tsx:269-286 | Prepending a `new` note keeps the priority note when some note is in progress; otherwise the new note becomes the priority note. |
| Views.WithStatus | App.tsx:217-227 | The status filter keeps exactly the notes with that status and never lengthens the list. |
| Views.WithStatusAppend | App.tsx:227 | The filter keeps list order: filtering a concatenation concatenates the filtered parts. |
| Views.WithStatusPrepend | App.tsx:269 | Filtering after a note is put first gives that note (if its status matches) ahead of the old filtered list. |
| Views.WithStatusPrefix | App.tsx:379 | The prefix filter keeps exactly the notes whose stored status starts with the prefix. |
| Views.Board | App.tsx:202-227 | Column `i` shows exactly the notes whose status is column `i`'s id, and it is that status's filter of the list, in list order. |
| Views.BoardColumnsDisjoint | App.tsx:202-227 | No column shows a `mastered` note, and no note appears in two columns. |
| Views.BoardPartition | App.tsx:202-207 | The counts of the four column statuses plus the `mastered` count add up to the number of notes. |
| Views.ReviewPrefixIsReviewColumns | App.tsx:379 | The notes whose status starts with "review" are exactly as many as the three review columns hold together. |
| Views.TotalNotes | App.tsx:378 | "Total Notes" equals the sum of the five per-status counts. |
| Views.ReviewsDue | App.tsx:379 | "Reviews Due" equals the sum of the `review_1`, `review_3` and `review_7` counts. |
| Views.MasteredCount | App.tsx:380 | "Mastered" is at most the number of notes, and is non-zero exactly when some note is `mastered`. |
| Views.DashboardCounters | App.tsx:378-380 | "Reviews Due" + "Mastered" + the queued notes equals "Total Notes", so the first two never exceed it. |
| AppState.NoteAdded | App.tsx:274-280 | One added note: xp rises by 50, progress ends at most 100, and the level is kept. A streak of 0 becomes 1; any other streak is kept. |
| AppState.NoteAddedKeepsRange | App.tsx:277 | Progress that starts in 0..100 stays in 0..100 and does not decrease. |
| AppState.XpAfterNotes | App.tsx:276 | After n added notes, xp is the old xp plus 50·n. |
| AppState.ProgressAfterNotes | App.tsx:277 | After n added notes, progress is min(old + 10·n, 100). For n ≥ 1 this holds from any starting value; for n = 0 the start must be at most 100. |
| AppState.StreakAfterNotes | App.tsx:279 | After one or more added notes, a streak of 0 is 1 and any other streak is unchanged. |
| AppState.LevelAfterNotes | App.tsx:274-275 | Adding notes never changes the level. |
| AppState.AfterNotesFromDefault | App.tsx:254-279 | From the initial counters, n ≥ 1 notes give streak 1, xp 50·n, level 1 and progress min(10·n, 100). |
| AppState.App.constructor | App.tsx:250-254 | The app starts with no notes, counters {streak 0, xp 0, level 1, progress 0} and the upload dialog closed. |
| AppState.App.AddNote | App.tsx:268-283 | The new note heads the list and the old list follows unchanged. The counters become `NoteAdded` of the old ones, and an in-range progress stays in range. |
| AppState.App.OpenUpload | App.tsx:317 | Opening the dialog changes neither the notes nor the counters. |
| AppState.App.CloseUpload | App.tsx:447 | Closing the dialog changes neither the notes nor the counters. |
| Gemini.LeadingSpaces | services/geminiService.ts:108 | Counts the white space at the start: all of it is white space, and the next character is not. |
| Gemini.TrailingSpaces | services/geminiService.ts:108 | Counts the white space at the end: all of it is white space, and the character before it is not. |
| Gemini.Trim | services/geminiService.ts:108 | The trimmed text neither starts nor ends with white space. It is empty exactly when the input is all white space. |
| Gemini.TrimKeepsTrimmed | services/geminiService.ts:108 | Text without white space at either end is returned unchanged. |
| Gemini.TrimIdempotent | services/geminiService.ts:108 | Trimming twice equals trimming once. |
| Gemini.TrimIsSlice | services/geminiService.ts:108 | The trimmed text is a contiguous piece of the input, and everything cut before and after it is white space. |
| Gemini.RemoveFences | services/geminiService.ts:108 | The global replace never lengthens the text. |
| Gemini.Clean | services/geminiService.ts:108 | The cleaned reply is no longer than the raw reply and has no white space at either end. |
| Gemini.BareFenceConsumed | services/geminiService.ts:108 | A bare "```" not followed by "json" is deleted on its own, and the scan resumes right after it, so nothing that follows is lost. |
| Gemini.KeptHead | services/geminiService.ts:108 | Where no fence starts, the first character is kept and the scan goes on from the next one. |
| Gemini.RemoveFencesNoBacktick | services/geminiService.ts:108 | Text without a backtick passes the replace unchanged. |
| Gemini.CleanNoBacktick | services/geminiService.ts:108 | A reply without a backtick is only trimmed. |
| Gemini.RemoveFencesKeepsPrefix | services/geminiService.ts:108 | A backtick-free prefix is kept as is, whatever follows it. |
| Gemini.CleanJsonBlock | services/geminiService.ts:108 | "```json\n" + body + "```", with a backtick-free body, cleans to the trimmed body. |
| Gemini.CleanBareBlock | services/geminiService.ts:108 | "```" + body + "```" cleans to the trimmed body when the body has no backtick and does not start with "json". |
| Gemini.JsonTagConsumed | services/geminiService.ts:108 | After "```json", the word is removed with the fence. A newline is removed only when it comes right after. |
| Gemini.NoDoubleBacktickAtHead | services/geminiService.ts:108 | Text that does not begin with two backticks does not begin with two after the replace. |
| Gemini.PrependKeepsNoFence | services/geminiService.ts:108 | A kept character in front of fence-free output creates no fence, unless it is a backtick before two more. |
| Gemini.RemoveFencesLeavesNoFence | services/geminiService.ts:108 | The replace is global: no "```" remains anywhere in its output. |
| Gemini.CleanIsFenceFree | services/geminiService.ts:108 | The cleaned text has no fence and no white space at either end. |
| Gemini.AnalyzeImage | services/geminiService.ts:25-117 | No API key, a thrown call, an empty reply or a parse error each give the demo result. A successful parse of the cleaned reply is returned as is. Any other result came from such a parse. |
| Upload.TextOr | App.tsx:128-131 | A present, non-empty string is kept; an absent or empty one gives the fallback. |
| Upload.BuildNote | App.tsx:126-135 | The built note has status `new`, the given id and time. Each of title, subject and summary is kept when present and non-empty, and otherwise becomes "Untitled Note", "General" or "No summary available." respectively. The original text is kept when present, else "". Its tags are the result's tags, or [] when those are missing. |
| Upload.BuildNoteDefaults | App.tsx:128-134 | With every field missing, the note gets "Untitled Note", "General", "No summary available.", "" and []. |
| Upload.BuildNoteKeepsFields | App.tsx:126-135 | Fields that are present and non-empty are carried over unchanged. |
| Upload.MockNote | services/geminiService.ts:11-23 | The demo result yields the photosynthesis note with subject "Science" and its three tags. |
| Upload.UploadedNoteQueuedFirst | App.tsx:133 | An uploaded note heads the "In Queue" column and leaves the other columns unchanged. |
| Upload.UploadModal.constructor | App.tsx:108 | The dialog starts idle and not processing. |
| Upload.UploadModal.SetProcessingState | App.tsx:108 | Given a state whose spinner flag matches its stage, records it as current and as the latest in the history, and the dialog stays consistent. |
| Upload.UploadModal.HandleFileUpload | App.tsx:111-150 | With no file nothing changes. Otherwise the stages go analyzing → gamifying → idle and the built note is added and the dialog closed. A `null` analysis gives analyzing → idle with nothing added. The spinner flag matches the stage in every state set. |
| Supabase.HasKeys | services/supabase.ts:7-10 | `hasKeys` implies a non-empty key, a URL beginning with "https", and no occurrence of "YOUR_SUPABASE_URL" in the URL. |
| Supabase.MakeClient | services/supabase.ts:12-14 | A client exists exactly when `hasKeys` holds for the configured URL and key, and it is made with those values. |
| Supabase.MissingCredentialsNoClient | services/supabase.ts:3-8 | A missing or empty URL or key gives no client. |
| Supabase.HttpRejected | services/supabase.ts:9 | A URL starting with "http://" fails `hasKeys`. |
| Supabase.PlaceholderRejected | services/supabase.ts:10 | A URL containing "YOUR_SUPABASE_URL" anywhere fails `hasKeys`. |
| Supabase.HttpsAccepted | services/supabase.ts:7-14 | An "https://" URL whose host does not contain "YOUR_SUPABASE_URL", with any non-empty key, gives a client for exactly those values. |
| Supabase.PlaceholderAfterScheme | services/supabase.ts:10 | A placeholder found in "https://" + host lies wholly inside the host, since the scheme holds no "Y". |

## Left out

- The Gemini request itself, its prompt and response schema, and the 30-second `Promise.race` timeout: the call's outcome is a parameter (it threw, or it replied with a possibly missing text). `JSON.parse` is a parameter too.
- Gemini.AnalyzeImage: a parsed JSON value that is not an object and not `null` is represented as an object with no fields. Reading fields of such a value gives `undefined`, which is what the model then sees. Field values of the wrong JSON type (such as `"title": 5` or `"tags": "x"`) cannot be represented: each field is either a string (a string list for tags) or missing.
- The 2.5-second demo delay and the 2-second and 1-second stage delays (`setTimeout`), `console` output and the `alert` on failure: timing and I/O.
- `FileReader`, the base64 split of the data URL, and the image bytes: the image only reaches the abstracted call.
- `Date.now()` for note ids and `new Date().toISOString()` for the creation time: both are parameters of `BuildNote`. Nothing is claimed about id uniqueness.
- `storageService` (saving notes and counters to `localStorage`, and the reload of both from storage, which runs at start-up and again on every theme toggle, App.tsx:258-265 and :305): persistence transport. Saves swallow their errors, so after a failed save a theme toggle reverts the notes and counters to the stored copies (the newest note vanishes and xp drops back); the model has no such transition. Its default counters equal the app's initial counters.
- Any interleaving of React state updates (`setNotes` and `setStats` closing over stale values): each call is treated as atomic.
- `UserStats` counters are JavaScript numbers modelled as unbounded integers: exact for integer values below 2^53; values loaded from storage that are not integers are not represented.
- `createClient` and the Supabase library: the model keeps only the arguments a client is made with.
- `generateQuiz`, which has an empty body.
- The JSX layout and all presentation: the sidebar's fixed "42 days", the fixed 60% progress bar, the mandala ring's geometry, the landing page, the loaders, the theme toggle's styling, and the auth service.
- Upload.UploadModal.HandleFileUpload: the `isOpen` check that hides the dialog, and a throw from `onNoteProcessed` or `onClose`, are not modelled. Neither callback throws in the code, because storage errors are caught inside `storageService`. A failed file read (`reader.result` is `null`) throws at `split` (App.tsx:118) before the `try`, so nothing happens; `hasFile == false` models that outcome too.
