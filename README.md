# Doctor Groq: moderation scan, badges and the chat turn in Dafny

Doctor Groq is a Streamlit chat page for children (`app.py`). Each time the
page's script runs for a user's session it can do three things:

- It can take one chat question.
- It classifies the question with a moderation model (Llama Guard). A
  question flagged as unsafe is answered with a warning. A safe question is
  counted for three badges and sent to a conversational model.
- It classifies that model's answer in the same way, storing a warning in
  place of a flagged answer.

Every run then advances the "Learning Streak" badge by one and evaluates the
badges, announcing each one newly earned.

This project models that core:

- `wrappers.dfy`: the `Option` type used for values that may be absent
  (a chat input not submitted, a model call that raised).
- `text.dfy`: the two string operations the moderation adapter relies on,
  lower-casing and the substring test.
- `hazards.dfy`: the hazard table `hazard_categories` (S1 .. S14, in
  insertion order) and the adapter `check_content_safety` as a function of
  the moderation model's reply. The reply is `None` when the call raised, and
  the adapter then fails open. The scan is a pure first-match search over the
  table.
- `badges.dfy`: the badge table of a session and the specification of the
  badge evaluator `check_and_award_badges`:
  - the order-free result `Awarded`;
  - the announced names `Newly`;
  - the one-badge-at-a-time pass `Visit` that the evaluator's loop performs;
  - the counter updates of a safe question (`Engage`) and of every run (`Tick`).
- `conversation.dfy`: one script run as a function `Turn` of the session
  state and of what the outside world answers during it (`TurnInput`). Runs
  from a fresh session are folded with `Replay`. The lemmas state what a run
  does to the transcript, to the counters and to the earned flags, and what
  follows for a whole session.
- `session.dfy`: the session state (`st.session_state.messages` and
  `st.session_state.badges`) as the class `ChatSession`, whose fields the
  methods update in place:
  - `CheckAndAwardBadges` is the evaluator's loop;
  - `SubmitPrompt` is the `if prompt:` block, and `AnswerSafeQuestion` its
    branch for a safe question;
  - `Run` is a whole script run.

  Each method is proved against the functions above.

### Behaviour worth knowing

- **Short codes shadow long ones.** The scan lower-cases the reply and
  reports the first code, in table order, that occurs anywhere in it as a
  substring. Because `"s1"` occurs inside `"s10"` .. `"s14"`, a reply naming
  S10 .. S14 is always reported as S1 ("Violent Crimes"):
  - `Hazards.ShadowedByS1` states this for every reply;
  - `Hazards.TwoDigitCodesNeverReported` states that only one-digit codes
    are ever reported;
  - `Hazards.SexualContentReplyReportedAsViolentCrimes` gives the S12 case.

  Apart from lower-casing only ASCII letters (see "Left out"), the model
  keeps the scan as written.
- **Fail-open.** A moderation call that raised yields "safe". Every code the
  adapter reports is a key of the table, so the category lookups in both
  warning messages cannot fail (`Hazards.CheckContentSafety`,
  `Hazards.CategoryOfCode`).
- **Empty input.** `if prompt:` is false both for "no input" and for the
  empty string, so an empty submission is treated as no question
  (`Conversation.Asked`).
- **Learning Streak counts script runs, not questions.** It advances on
  every run, including runs without a question.
- **An unanswered question stays in the transcript.** When generation
  fails, the question is kept without an answer.

### Where the program's own text and its code part ways (the model follows the code)

- **Learning Streak measures runs, not minutes.** Its description reads
  "Spend 10 minutes with Doctor Groq" (app.py:42), and the evaluator's
  docstring speaks of "cumulative time spent" (app.py:56). The code adds one
  to `time_spent` once per script run (app.py:181), whether or not a
  question was asked, and the model does the same (`Badges.Tick`).
- **Two warning texts.** The f-string for a blocked question reads "Unsafe
  content detected." (app.py:154) and the one for a flagged answer reads
  "Unsafe content." (app.py:174). Both name the code and its category. The
  model keeps them apart (`Conversation.WarningsDiffer`).
- **Scan order is the table's insertion order.** The scan iterates the dict
  literal `hazard_categories` (app.py:91-106, app.py:133), so it visits S1,
  S2, .., S14 in that order. The shadowing above depends on this order.
- **A code is reported only if no earlier code occurs.** A reply that
  contains "s4" is reported as S4 only when none of "s1", "s2", "s3" also
  occurs in it (`Hazards.ScanReportsFirstMatch`,
  `Hazards.UpperCaseCodeReported`).

## Model

| member | source | states |
|---|---|---|
| Text.LowerChar | app.py:132 | lower-casing maps A-Z to a-z and leaves every other character alone; the result is never an upper-case letter |
| Text.Lower | app.py:132 | lower-casing lower-cases each character in place, by the ASCII rule of `LowerChar`, and so keeps the length |
| Text.LowerIdempotent | app.py:132 | lower-casing an already lower-cased reply changes nothing |
| Text.Contains | app.py:134 | `needle in hay` holds exactly when some position of `hay` starts with `needle` |
| Text.ContainsPrefix | app.py:133-135 | a text containing a code also contains every prefix of that code, which is why a shorter code shadows a longer one |
| Hazards.LookupFromRecorded | app.py:91-106 | a successful table lookup returns the category of a record carrying the code |
| Hazards.Category | app.py:154 | `hazard_categories[code]` for a reported code: the category recorded with that code in the table |
| Hazards.CategoryOfCode | app.py:154 | for a reported code, `hazard_categories[code]` succeeds and yields the category recorded with that code |
| Hazards.FirstFlagged | app.py:133-136 | the scan's result, when there is one, is an index into the table |
| Hazards.FirstFlaggedIsFirst | app.py:133-136 | the scan finds a record whose code occurs in the reply and no earlier record's code occurs; it finds nothing only if no code occurs |
| Hazards.FirstFlaggedAt | app.py:133-136 | conversely, a record whose code occurs, with no earlier code occurring, is the one the scan returns |
| Hazards.CheckContentSafety | app.py:125-139 | the verdict is unsafe exactly when a hazard code is reported; a failed call (`None`) gives (safe, no code); every reported code is a key of the table |
| Hazards.ScanReportsFirstMatch | app.py:132-136 | for a returned reply, the reported code is the first code in table order whose lower-case form occurs in the lower-cased reply, and the reply is safe exactly when no code occurs |
| Hazards.ShadowedByS1 | app.py:101-105 | any reply in which S10 .. S14 occurs also contains S1 |
| Hazards.TwoDigitCodesNeverReported | app.py:133-135 | the scan never reports S10 .. S14: every reported code has two characters |
| Hazards.LongCodesNeverReported | app.py:101-105 | the adapter never reports S10, S11, S12, S13 or S14 |
| Hazards.SexualContentReplyReportedAsViolentCrimes | app.py:103 | Llama Guard's reply "unsafe\nS12" (Sexual Content) is reported as S1, Violent Crimes |
| Hazards.UpperCaseCodeReported | app.py:132-135 | matching ignores case: the reply "UNSAFE\nS4" is reported as S4 |
| Badges.InitialBadges | app.py:37-46 | a new session's badge table has the five badges, Learning Streak with `time_spent` and the rest with `count`, all progress 0, nothing earned, Explorer's threshold 5 and Fun Seeker's 3 |
| Badges.Award | app.py:63-69 | one badge after the evaluator: only `earned` may change, and it is set afterwards exactly when it was set or the badge is tracked and its progress reached the threshold |
| Badges.Awarded | app.py:62-70 | the evaluator changes only `earned` flags; afterwards a flag is set exactly when it was set before or the badge's progress has reached its threshold; the table keeps its shape and its progress |
| Badges.Newly | app.py:62-70 | the evaluator announces exactly the visited badges whose threshold is reached and that were not yet earned, each at most once |
| Badges.Visit | app.py:62-70 | the evaluator's pass adds and removes no badge |
| Badges.VisitAwards | app.py:62-70 | visiting distinct badges one after another awards each visited badge from its own original state and announces exactly the flipped ones, in visiting order |
| Badges.VisitInTableOrder | app.py:62 | the pass in table order yields the order-free result `Awarded` and the announcements `Newly` |
| Badges.EvaluatorIdempotent | app.py:64-68 | evaluating twice in a row: the second pass changes nothing and announces nothing |
| Badges.Bump | app.py:159 | `+= 1` on a badge's progress, leaving its description, threshold and flag alone |
| Badges.Engage | app.py:159-161 | a safe question adds one to the counts of Explorer, Question Champion and Knowledge Keeper, and leaves Learning Streak, Fun Seeker and every flag unchanged |
| Badges.Tick | app.py:181 | every run adds one to Learning Streak's `time_spent` and changes no other badge |
| Badges.AwardRestoresConsistency | app.py:62-70 | if flags agreed with progress and progress has only grown, then after the evaluator every flag is set exactly when its threshold is reached |
| Conversation.InputWarning | app.py:154 | the warning stored for a blocked question ends with the code, " - " and the code's category |
| Conversation.OutputWarning | app.py:174 | the warning stored for a flagged answer ends with the code, " - " and the code's category |
| Conversation.Asked | app.py:150 | `if prompt:` holds exactly for a submitted chat input that is not empty |
| Conversation.Request | app.py:169 | the conversational model is called exactly on a safe question, with the persona message, then the whole transcript, then the question just recorded |
| Conversation.Reply | app.py:171-176 | the stored answer is the generated text when its moderation passes or fails open, and otherwise the answer warning for the reported code |
| Conversation.Exchange | app.py:150-178 | the `if prompt:` block keeps the badge table's shape: the five badges with their kinds of progress |
| Conversation.Turn | app.py:150-184 | a whole run keeps the badge table's shape |
| Conversation.Replay | app.py:150-184 | any number of runs keeps the badge table's shape |
| Conversation.WarningsDiffer | app.py:154-174 | the question warning and the answer warning are never equal, whatever the codes |
| Conversation.TurnTranscript | app.py:150-178 | the transcript is append-only. With no question it is unchanged and generation is not called. A blocked question adds the question and the question warning, and generation is not called. A safe question adds the question, and the generation request is the persona message followed by the whole transcript up to that question. Exactly one answer is added if generation succeeded, and none otherwise |
| Conversation.NoQuestionCallsNoModel | app.py:150-184 | a run without a question depends on neither moderation reply nor on the generated answer: no model is consulted |
| Conversation.TurnCounters | app.py:159-181 | Explorer, Question Champion and Knowledge Keeper grow by one on a safe question and stay put otherwise; Learning Streak grows by one on every run; Fun Seeker never moves |
| Conversation.TurnKeepsTable | app.py:150-184 | a run never lowers progress and never changes a description, a threshold or a kind of progress |
| Conversation.TurnAwards | app.py:184 | after a run a flag is set exactly when it was set or its progress reached the threshold; the announcements are exactly the newly earned badges, each once |
| Conversation.ReplayKeepsTable | app.py:37-46 | across a whole session, descriptions and thresholds stay those of the initial table |
| Conversation.ReplayQuestionCounts | app.py:159-161 | from the start of a session, the counts of Explorer, Question Champion and Knowledge Keeper equal the number of safe questions |
| Conversation.ReplayRunCounts | app.py:181 | from the start of a session, Learning Streak's `time_spent` equals the number of runs and Fun Seeker's count stays 0 |
| Conversation.ReplayConsistent | app.py:62-70 | from the start of a session, every flag is set exactly when its progress has reached its threshold |
| Conversation.FunSeekerNeverEarned | app.py:44 | Fun Seeker is never earned and its count is always 0 |
| Conversation.ExplorerAfterFiveSafeQuestions | app.py:39 | Explorer is earned exactly when at least five safe questions have been asked |
| Conversation.ExplorerAnnouncedAtFifth | app.py:64-66 | in a state whose flags agree with progress, a run announces Explorer exactly when its count was 4 and the run's question is safe |
| Conversation.ExplorerAnnouncedOnce | app.py:64-66 | over a session, Explorer is announced in the run of the fifth safe question and in no other run |
| Session.ChatSession.constructor | app.py:33-46 | a new session holds an empty transcript and the initial badge table |
| Session.ChatSession.CheckAndAwardBadges | app.py:49-70 | the loop over the table leaves the transcript alone, makes the table `Awarded` of the old table and returns the announcements `Newly` in table order |
| Session.ChatSession.SubmitPrompt | app.py:150-178 | the `if prompt:` block updates the state as `Exchange` prescribes and returns the generation request, if generation is called |
| Session.ChatSession.AnswerSafeQuestion | app.py:158-178 | the safe-question branch updates the state as `Exchange` prescribes for a safe question and returns the generation request it sends |
| Session.ChatSession.Run | app.py:148-184 | a script run leaves the session in the state `Turn` prescribes and returns the generation request and the announcements `Turn` prescribes, so every `Turn...` and `Replay...` lemma applies to the session |

## Left out

- Streamlit rendering is not modelled: the page header and style block, the
  replay of the transcript on screen, the sidebar progress display and the
  "Show Badge Progression" checkbox. These only display state.
- Reading the SVG file, `load_dotenv` and the API key lookup are not
  modelled. They are input and configuration.
- The Groq calls are not modelled. They are network calls to opaque models.
  Each becomes an input of the run: the moderation reply on the question,
  the generated answer and the moderation reply on the answer. Each is
  `None` when the call raised.
- The model identifiers, `max_tokens` and `temperature` passed to those
  calls are not modelled.
- The `st.error` diagnostics shown when a call raises are not modelled. The
  model keeps the behaviour that follows (fail-open, or no answer stored).
- Badge notifications are modelled as the badge's name only. The emoji and
  the surrounding sentence are left out.
- Text.LowerChar: lower-cases only the ASCII letters A-Z, while Python's
  `str.lower` also lower-cases other Unicode letters. The hazard codes are
  ASCII and no other character lower-cases to `s` or to a digit, so this is
  not expected to change a verdict. That is not proved.
- Text.Lower: keeps the length because it lower-cases only ASCII letters.
  Python's `str.lower` can lengthen a text ("İ" becomes "i" followed by a
  combining dot) and lower-cases other Unicode letters. As for `LowerChar`,
  no character other than "S" lower-cases to "s" and none lower-cases to a
  digit, so this is not expected to change a verdict. That is not proved.
- Conversation.Reply: does not model an answer whose content is `None` (the
  client returning no text). Generation is either a string or a failure.
- Session.ChatSession: models the session-state keys `messages` and
  `badges`. The `show_sidebar` key belongs to the display and is left out,
  as is the per-session isolation that Streamlit provides.
