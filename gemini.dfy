/** The note-analysis service (services/geminiService.ts) with the model call
    itself abstracted: the clean-up applied to the model's reply text, and
    the decision to fall back to the built-in demo result. */
module Gemini {

  import opened Wrappers
  import opened Strings

  // ---------------------------------------------------------------------
  // `String.prototype.trim`
  // ---------------------------------------------------------------------

  /** ECMAScript white space and line terminators, the characters `trim`
      removes: tab, vertical tab, form feed, the byte-order mark, the space
      separators, and the four line terminators. */
  predicate IsSpace(c: char) {
    c == '\t' || c == '\U{B}' || c == '\U{C}' || c == '\U{FEFF}'
    || c == ' ' || c == '\U{A0}' || c == '\U{1680}' || ('\U{2000}' <= c <= '\U{200A}')
    || c == '\U{202F}' || c == '\U{205F}' || c == '\U{3000}'
    || c == '\n' || c == '\r' || c == '\U{2028}' || c == '\U{2029}'
  }

  /** Length of the run of white space that starts `s`. */
  function LeadingSpaces(s: string): (k: nat)
    ensures k <= |s|
    ensures forall i :: 0 <= i < k ==> IsSpace(s[i])
    ensures k < |s| ==> !IsSpace(s[k])
  {
    if |s| == 0 || !IsSpace(s[0]) then 0 else 1 + LeadingSpaces(s[1..])
  }

  /** Length of the run of white space that ends `s`. */
  function TrailingSpaces(s: string): (k: nat)
    ensures k <= |s|
    ensures forall i :: |s| - k <= i < |s| ==> IsSpace(s[i])
    ensures k < |s| ==> !IsSpace(s[|s| - k - 1])
  {
    if |s| == 0 || !IsSpace(s[|s| - 1]) then 0 else 1 + TrailingSpaces(s[..|s| - 1])
  }

  /** `s.trim()`: `s` without its leading and trailing white space. */
  function Trim(s: string): (r: string)
    ensures |r| <= |s|
    ensures r == [] || (!IsSpace(r[0]) && !IsSpace(r[|r| - 1]))
    ensures r == [] <==> forall i :: 0 <= i < |s| ==> IsSpace(s[i])
  {
    var a := LeadingSpaces(s);
    if a == |s| then "" else s[a..|s| - TrailingSpaces(s)]
  }

  /** `trim` removes only white space: text that neither starts nor ends
      with white space is left alone. */
  lemma TrimKeepsTrimmed(s: string)
    requires s == [] || (!IsSpace(s[0]) && !IsSpace(s[|s| - 1]))
    ensures Trim(s) == s
  {
  }

  /** Trimming twice is trimming once. */
  lemma TrimIdempotent(s: string)
    ensures Trim(Trim(s)) == Trim(s)
  {
  }

  /** The trimmed text is a piece of the original. */
  lemma TrimIsSlice(s: string) returns (a: nat, b: nat)
    ensures a <= b <= |s| && Trim(s) == s[a..b]
    ensures forall i :: 0 <= i < a ==> IsSpace(s[i])
    ensures forall i :: b <= i < |s| ==> IsSpace(s[i])
  {
    a := LeadingSpaces(s);
    if a == |s| {
      b := a;
    } else {
      b := |s| - TrailingSpaces(s);
    }
  }

  // ---------------------------------------------------------------------
  // Fence removal: `text.replace(/```json\n?|```/g, '').trim()`
  // ---------------------------------------------------------------------

  const Fence := "```"
  const JsonFence := "```json"

  /** The global replace, scanning left to right: at each position the first
      alternative (a json fence, with the newline right after it if there is
      one) is tried before the second (a bare fence); a character where
      neither matches is kept, and scanning resumes after each match. */
  function RemoveFences(s: string): (r: string)
    ensures |r| <= |s|
    decreases |s|
  {
    if StartsWith(s, JsonFence) then
      if |s| > 7 && s[7] == '\n' then RemoveFences(s[8..]) else RemoveFences(s[7..])
    else if StartsWith(s, Fence) then RemoveFences(s[3..])
    else if |s| == 0 then ""
    else [s[0]] + RemoveFences(s[1..])
  }

  /** The cleaned reply text handed to the JSON parser: never longer than
      the reply, and without white space at either end. */
  function Clean(text: string): (r: string)
    ensures |r| <= |text|
    ensures r == [] || (!IsSpace(r[0]) && !IsSpace(r[|r| - 1]))
  {
    Trim(RemoveFences(text))
  }

  /** Text without a backtick passes the replace unchanged. */
  lemma {:induction false} RemoveFencesNoBacktick(s: string)
    requires '`' !in s
    ensures RemoveFences(s) == s
    decreases |s|
  {
    if |s| > 0 {
      RemoveFencesNoBacktick(s[1..]);
    }
  }

  /** A reply without a backtick is only trimmed. */
  lemma CleanNoBacktick(s: string)
    requires '`' !in s
    ensures Clean(s) == Trim(s)
  {
    RemoveFencesNoBacktick(s);
  }

  /** A backtick-free prefix is kept as it is, whatever follows. */
  lemma {:induction false} RemoveFencesKeepsPrefix(x: string, y: string)
    requires '`' !in x
    ensures RemoveFences(x + y) == x + RemoveFences(y)
    decreases |x|
  {
    if |x| > 0 {
      assert (x + y)[0] == x[0] != '`';
      assert (x + y)[1..] == x[1..] + y;
      KeptHead(x + y);
      RemoveFencesKeepsPrefix(x[1..], y);
    } else {
      assert x + y == y;
    }
  }

  /** The usual Markdown wrapping of a JSON reply is removed entirely. */
  lemma CleanJsonBlock(body: string)
    requires '`' !in body
    ensures Clean("```json\n" + body + "```") == Trim(body)
  {
    var s := "```json\n" + body + "```";
    assert s[..7] == JsonFence && s[7] == '\n';
    assert s[8..] == body + Fence;
    RemoveFencesKeepsPrefix(body, Fence);
    assert RemoveFences(Fence) == "";
    assert body + "" == body;
  }

  /** A bare fence pair is removed too, when the body does not begin with
      the word `json`. */
  lemma CleanBareBlock(body: string)
    requires '`' !in body
    requires !StartsWith(body, "json")
    ensures Clean(Fence + body + Fence) == Trim(body)
  {
    var s := Fence + body + Fence;
    assert s[3..] == body + Fence;
    if |body| >= 4 {
      assert s[..7][3..] == body[..4];
    } else {
      assert s[3 + |body|] == '`';
    }
    assert !StartsWith(s, JsonFence);
    assert RemoveFences(s) == RemoveFences(body + Fence);
    RemoveFencesKeepsPrefix(body, Fence);
    assert RemoveFences(Fence) == "";
    assert body + "" == body;
  }

  /** After "```json" the word `json` goes with the fence, and a newline is
      taken only when it comes right after. */
  lemma JsonTagConsumed(rest: string)
    ensures RemoveFences(JsonFence + "\n" + rest) == RemoveFences(rest)
    ensures (rest == [] || rest[0] != '\n') ==> RemoveFences(JsonFence + rest) == RemoveFences(rest)
  {
  }

  /** A bare fence is removed alone: scanning resumes right after it, so
      whatever follows is treated as if the fence had not been there. */
  lemma BareFenceConsumed(rest: string)
    requires !StartsWith(rest, "json")
    ensures RemoveFences(Fence + rest) == RemoveFences(rest)
  {
    assert (Fence + rest)[3..] == rest;
    if |rest| >= 4 {
      assert (Fence + rest)[..7][3..] == rest[..4];
    }
  }

  /** Where no fence starts, the first character is kept. */
  lemma KeptHead(s: string)
    requires |s| > 0 && !StartsWith(s, Fence)
    ensures RemoveFences(s) == [s[0]] + RemoveFences(s[1..])
  {
  }

  /** A string that does not begin with two backticks is not turned into one
      that does. */
  lemma NoDoubleBacktickAtHead(s: string)
    requires |s| < 2 || s[0] != '`' || s[1] != '`'
    ensures !StartsWith(RemoveFences(s), "``")
  {
    if |s| > 0 {
      if |s| >= 3 {
        assert s[..3][0] == s[0] && s[..3][1] == s[1];
      }
      KeptHead(s);
      if s[0] == '`' && |s| > 1 {
        assert s[1..][0] == s[1];
        KeptHead(s[1..]);
        assert RemoveFences(s)[1] == s[1];
      }
    }
  }

  /** The replace is global: no fence survives anywhere in its output. */
  lemma {:induction false} RemoveFencesLeavesNoFence(s: string)
    ensures !Contains(RemoveFences(s), Fence)
    decreases |s|
  {
    if StartsWith(s, JsonFence) {
      if |s| > 7 && s[7] == '\n' {
        RemoveFencesLeavesNoFence(s[8..]);
      } else {
        RemoveFencesLeavesNoFence(s[7..]);
      }
    } else if StartsWith(s, Fence) {
      RemoveFencesLeavesNoFence(s[3..]);
    } else if |s| > 0 {
      KeptHead(s);
      RemoveFencesLeavesNoFence(s[1..]);
      if s[0] == '`' {
        if |s| >= 3 {
          assert s[..3] == [s[0], s[1], s[2]];
        }
        NoDoubleBacktickAtHead(s[1..]);
      }
      PrependKeepsNoFence(s[0], RemoveFences(s[1..]));
    }
  }

  /** Putting one character in front of fence-free text makes a fence only
      if the character is a backtick and the text begins with two more. */
  lemma PrependKeepsNoFence(c: char, r: string)
    requires !Contains(r, Fence)
    requires c != '`' || !StartsWith(r, "``")
    ensures !Contains([c] + r, Fence)
  {
    assert ([c] + r)[1..] == r;
    if |r| >= 2 {
      var head := ([c] + r)[..3];
      assert head[0] == c && head[1] == r[0] && head[2] == r[1];
      assert r[..2] == [r[0], r[1]];
    }
  }

  /** An occurrence inside a piece of a string is an occurrence in the string. */
  lemma OccursInSlice(s: string, t: string, a: nat, b: nat, i: int)
    requires a <= b <= |s|
    requires OccursAt(s[a..b], t, i)
    ensures OccursAt(s, t, a + i)
  {
    assert forall k :: 0 <= k < |t| ==> t[k] == s[a..b][i + k] == s[a + i + k];
  }

  /** A piece of a string without an occurrence has none either. */
  lemma SliceKeepsAbsence(s: string, t: string, a: nat, b: nat)
    requires a <= b <= |s|
    requires !Contains(s, t)
    ensures !Contains(s[a..b], t)
  {
    ContainsIffOccurs(s, t);
    ContainsIffOccurs(s[a..b], t);
    forall i | OccursAt(s[a..b], t, i)
      ensures OccursAt(s, t, a + i)
    {
      OccursInSlice(s, t, a, b, i);
    }
  }

  /** The cleaned text has no fence left and no white space at either end. */
  lemma CleanIsFenceFree(text: string)
    ensures !Contains(Clean(text), Fence)
    ensures Clean(text) == [] || (!IsSpace(Clean(text)[0]) && !IsSpace(Clean(text)[|Clean(text)| - 1]))
  {
    var r := RemoveFences(text);
    RemoveFencesLeavesNoFence(text);
    var a, b := TrimIsSlice(r);
    SliceKeepsAbsence(r, Fence, a, b);
  }

  // ---------------------------------------------------------------------
  // `analyzeImage`
  // ---------------------------------------------------------------------

  datatype QuizItem = QuizItem(question: string, answer: string)

  /** The fields of a `Partial<Note>` the application reads, together with
      the cue and quiz lists of the analysis; every field may be absent. */
  datatype AnalysisResult = AnalysisResult(
    title: Option<string>,
    subject: Option<string>,
    summary: Option<string>,
    originalText: Option<string>,
    cues: Option<seq<string>>,
    quiz: Option<seq<QuizItem>>,
    tags: Option<seq<string>>)

  /** The fixed demo result. */
  const MockResult := AnalysisResult(
    Some("Photosynthesis: Process & Importance"),
    Some("Science"),
    Some("Photosynthesis is the process by which green plants use sunlight, water, and carbon dioxide to create oxygen and energy in the form of sugar."),
    Some("Photosynthesis occurs in the chloroplasts of plant cells. Chlorophyll absorbs sunlight. \nEquation: 6CO2 + 6H2O + Light Energy -> C6H12O6 + 6O2.\nIt is essential for life on Earth as it produces oxygen."),
    Some(["Chloroplasts", "Chlorophyll", "Chemical Equation", "Oxygen Production"]),
    Some([
      QuizItem("Where does photosynthesis occur?", "In the chloroplasts."),
      QuizItem("What is the primary byproduct relevant to humans?", "Oxygen."),
      QuizItem("What pigment absorbs sunlight?", "Chlorophyll.")
    ]),
    Some(["biology", "plants", "energy"]))

  /** A value the JSON parser can hand back: `null`, or anything else, seen
      through the fields above (a non-object has none of them). */
  datatype Payload = Null | Object(fields: AnalysisResult)

  /** What `JSON.parse` does with a text. */
  datatype Parsed = SyntaxError | Value(payload: Payload)

  /** How the model call ended: it threw (including the 30-second timeout),
      or it answered with a reply whose text may be missing. */
  datatype CallOutcome = Threw | Responded(text: Option<string>)

  /** `analyzeImage`: with no API key the demo result; otherwise the parsed,
      cleaned reply, and the demo result whenever anything on the way fails
      (the call, an empty reply, the parse). */
  function AnalyzeImage(apiKeyEnv: Option<string>, call: CallOutcome, parse: string -> Parsed): (r: Payload)
    ensures OrEmpty(apiKeyEnv) == "" ==> r == Object(MockResult)
    ensures call.Threw? ==> r == Object(MockResult)
    ensures call.Responded? && (call.text.None? || call.text.value == "") ==> r == Object(MockResult)
    ensures r != Object(MockResult) ==>
              OrEmpty(apiKeyEnv) != "" && call.Responded? && call.text.Some? && call.text.value != ""
              && parse(Clean(call.text.value)) == Value(r)
    ensures OrEmpty(apiKeyEnv) != "" && call.Responded? && call.text.Some? && call.text.value != ""
            && parse(Clean(call.text.value)).Value?
            ==> r == parse(Clean(call.text.value)).payload
  {
    var apiKey := OrEmpty(apiKeyEnv);
    // The client exists exactly when the key is non-empty.
    var ai: Option<string> := if apiKey != "" then Some(apiKey) else None;
    if ai.None? || apiKey == "" then Object(MockResult)
    else match call
      case Threw => Object(MockResult)
      case Responded(text) =>
        if text.None? || text.value == "" then Object(MockResult)
        else match parse(Clean(text.value))
          case SyntaxError => Object(MockResult)
          case Value(p) => p
  }
}
