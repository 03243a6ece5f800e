/** One script run of the chat page, as a function of the session state
    before it and of what the outside world answers during it. This is the
    specification the session's `Run` method is proved against. */
module Conversation {
  import opened Wrappers
  import opened Hazards
  import opened Badges

  datatype Role = User | Assistant | System

  datatype Message = Message(role: Role, content: string)

  /** The persona instruction placed before the transcript in every generation request. */
  const SystemPrompt: string :=
    "You are Doctor Groq, a kid-friendly, educational assistant. Please answer in a way that is safe, friendly, and easy for children to understand. Your responses should be educational and fun!"

  /** The assistant message that replaces a blocked question. */
  function InputWarning(code: string): (w: string)
    requires IsCode(code)
    ensures var tail := code + " - " + Category(code);
      |tail| < |w| && w[|w| - |tail|..] == tail
  {
    var tail := code + " - " + Category(code);
    var w := "\U{1F6A8} Warning: Unsafe content detected. Hazard: " + tail;
    assert w[|w| - |tail|..] == tail;
    w
  }

  /** The assistant message that replaces a flagged answer. */
  function OutputWarning(code: string): (w: string)
    requires IsCode(code)
    ensures var tail := code + " - " + Category(code);
      |tail| < |w| && w[|w| - |tail|..] == tail
  {
    var tail := code + " - " + Category(code);
    var w := "\U{1F6A8} Warning: Unsafe content. Hazard: " + tail;
    assert w[|w| - |tail|..] == tail;
    w
  }

  /** The two warnings can never be mistaken for one another: they part
      right after "Unsafe content", whatever the codes. */
  lemma WarningsDiffer(c: string, d: string)
    requires IsCode(c) && IsCode(d)
    ensures InputWarning(c) != OutputWarning(d)
  {
    var k := |"\U{1F6A8} Warning: Unsafe content"|;
    assert InputWarning(c)[k] == ' ';
    assert OutputWarning(d)[k] == '.';
  }

  /** What the outside world contributes to one script run: the chat input
      (`None` when nothing was submitted), the moderation model's reply on
      the question, the conversational model's answer, and the moderation
      model's reply on that answer. A `None` reply or answer is a call that raised. */
  datatype TurnInput = TurnInput(
    prompt: Option<string>,
    inputModeration: Option<string>,
    generation: Option<string>,
    outputModeration: Option<string>)

  /** `if prompt:` holds for a submitted, non-empty string only. */
  predicate Asked(t: TurnInput): (b: bool)
    ensures b <==> t.prompt.Some? && |t.prompt.value| > 0
  {
    t.prompt.Some? && t.prompt.value != ""
  }

  function InputVerdict(t: TurnInput): Verdict {
    CheckContentSafety(t.inputModeration)
  }

  predicate BlockedQuestion(t: TurnInput) {
    Asked(t) && !InputVerdict(t).isSafe
  }

  predicate SafeQuestion(t: TurnInput) {
    Asked(t) && InputVerdict(t).isSafe
  }

  /** The assistant message stored for a generated answer: the answer itself
      if moderation passes it, otherwise the output warning for its hazard. */
  function Reply(t: TurnInput): (r: string)
    requires t.generation.Some?
    ensures CheckContentSafety(t.outputModeration).isSafe ==> r == t.generation.value
    ensures t.outputModeration.None? ==> r == t.generation.value
    ensures !CheckContentSafety(t.outputModeration).isSafe ==>
      r == OutputWarning(CheckContentSafety(t.outputModeration).hazardCode.value)
  {
    var v := CheckContentSafety(t.outputModeration);
    if v.isSafe then t.generation.value else OutputWarning(v.hazardCode.value)
  }

  datatype State = State(messages: seq<Message>, badges: map<string, Badge>)

  /** The state after a run, the generation request sent during it (`None`
      when the conversational model was not called), and the names of the
      badges announced at its end. */
  datatype Outcome = Outcome(state: State, request: Option<seq<Message>>, notices: seq<string>)

  function InitialState(): State {
    State([], InitialBadges())
  }

  /** The part of a run that depends on the chat input: the transcript after
      it and the counters before Learning Streak's tick. */
  function Exchange(s: State, t: TurnInput): (r: State)
    requires WellFormed(s.badges)
    ensures WellFormed(r.badges)
  {
    if !Asked(t) then s
    else if !InputVerdict(t).isSafe then
      State(s.messages + [Message(User, t.prompt.value),
                          Message(Assistant, InputWarning(InputVerdict(t).hazardCode.value))],
            s.badges)
    else
      State(s.messages + [Message(User, t.prompt.value)]
              + (if t.generation.Some? then [Message(Assistant, Reply(t))] else []),
            Engage(s.badges))
  }

  /** The request sent to the conversational model, if it is called at all. */
  function Request(s: State, t: TurnInput): (r: Option<seq<Message>>)
    ensures r.Some? <==> SafeQuestion(t)
    ensures r.Some? ==>
      && |r.value| == |s.messages| + 2
      && r.value[0] == Message(System, SystemPrompt)
      && r.value[1..|s.messages| + 1] == s.messages
      && r.value[|s.messages| + 1] == Message(User, t.prompt.value)
  {
    if SafeQuestion(t) then Some([Message(System, SystemPrompt)] + s.messages + [Message(User, t.prompt.value)])
    else None
  }

  /** One script run: the exchange, then Learning Streak's tick, then the evaluator. */
  function Turn(s: State, t: TurnInput): (o: Outcome)
    requires WellFormed(s.badges)
    ensures WellFormed(o.state.badges)
  {
    var before := Exchange(s, t);
    var ticked := Tick(before.badges);
    Outcome(State(before.messages, Awarded(ticked)), Request(s, t), Newly(BadgeOrder, ticked))
  }

  /** What a run does to the transcript and whether it calls the conversational model. */
  lemma TurnTranscript(s: State, t: TurnInput)
    requires WellFormed(s.badges)
    ensures var o := Turn(s, t); var n := |s.messages|;
      // the transcript only grows
      && s.messages <= o.state.messages
      // nothing submitted: the transcript is untouched and no model is asked
      && (!Asked(t) ==> o.state.messages == s.messages && o.request.None?)
      // a blocked question: the question and the input warning, and no generation
      && (BlockedQuestion(t) ==>
            && |o.state.messages| == n + 2
            && o.state.messages[n] == Message(User, t.prompt.value)
            && o.state.messages[n + 1] == Message(Assistant, InputWarning(InputVerdict(t).hazardCode.value))
            && o.request.None?)
      // a safe question: generation sees the persona and the whole transcript
      // including the question; one assistant message if generation succeeded
      && (SafeQuestion(t) ==>
            && o.request == Some([Message(System, SystemPrompt)] + o.state.messages[..n + 1])
            && o.state.messages[n] == Message(User, t.prompt.value)
            && (t.generation.None? ==> |o.state.messages| == n + 1)
            && (t.generation.Some? ==>
                  |o.state.messages| == n + 2 &&
                  o.state.messages[n + 1] == Message(Assistant, Reply(t))))
  {
    var o := Turn(s, t);
    var n := |s.messages|;
    if SafeQuestion(t) {
      var question := [Message(User, t.prompt.value)];
      var answer := if t.generation.Some? then [Message(Assistant, Reply(t))] else [];
      assert o.state.messages == s.messages + question + answer;
      assert o.state.messages[..n + 1] == s.messages + question;
      assert [Message(System, SystemPrompt)] + s.messages + question
          == [Message(System, SystemPrompt)] + (s.messages + question);
    }
  }

  /** The badges a safe question advances. */
  predicate QuestionBadge(k: string) {
    k == Explorer || k == QuestionChampion || k == KnowledgeKeeper
  }

  /** A run without a question depends on no model: whatever the replies and
      the answer would have been, the run is the same. */
  lemma NoQuestionCallsNoModel(s: State, t: TurnInput, u: TurnInput)
    requires WellFormed(s.badges)
    requires !Asked(t) && u.prompt == t.prompt
    ensures Turn(s, t) == Turn(s, u)
  {
    assert Exchange(s, t) == s == Exchange(s, u);
  }

  /** What a run does to the progress counters: the three question badges
      count safe questions only, Learning Streak counts every run, Fun Seeker
      never moves. */
  lemma TurnCounters(s: State, t: TurnInput)
    requires WellFormed(s.badges)
    ensures var b := s.badges; var r := Turn(s, t).state.badges;
      && (forall k :: QuestionBadge(k) ==>
            r[k].metric.n == b[k].metric.n + (if SafeQuestion(t) then 1 else 0))
      && r[FunSeeker].metric.n == b[FunSeeker].metric.n
      && r[LearningStreak].metric.n == b[LearningStreak].metric.n + 1
  {
  }

  /** No run lowers a progress value, changes its kind, or touches a
      description or a threshold. */
  lemma TurnKeepsTable(s: State, t: TurnInput)
    requires WellFormed(s.badges)
    ensures Grown(s.badges, Turn(s, t).state.badges)
  {
    var before := Exchange(s, t).badges;
    var ticked := Tick(before);
    assert Grown(s.badges, before) by {
      if SafeQuestion(t) {
        assert before == Engage(s.badges);
      }
    }
    GrownTransitive(s.badges, before, ticked);
    GrownTransitive(s.badges, ticked, Awarded(ticked));
  }

  /** The evaluator at the end of a run: flags only go up, every badge whose
      progress reached its threshold is earned, no other badge becomes earned,
      and exactly the newly earned badges are announced, each once. */
  lemma TurnAwards(s: State, t: TurnInput)
    requires WellFormed(s.badges)
    ensures var b := s.badges; var o := Turn(s, t); var r := o.state.badges;
      && (forall k :: k in b ==> (r[k].earned <==> b[k].earned || Reached(k, r[k])))
      && (forall x :: x in o.notices <==> x in b && !b[x].earned && r[x].earned)
      && Distinct(o.notices)
  {
    assert Distinct(BadgeOrder);
  }

  /** The state after a sequence of runs. */
  function Replay(s: State, ts: seq<TurnInput>): (r: State)
    requires WellFormed(s.badges)
    ensures WellFormed(r.badges)
  {
    if ts == [] then s
    else Turn(Replay(s, ts[..|ts| - 1]), ts[|ts| - 1]).state
  }

  /** The number of safe questions among `ts`. */
  function SafeQuestions(ts: seq<TurnInput>): nat {
    if ts == [] then 0
    else SafeQuestions(ts[..|ts| - 1]) + (if SafeQuestion(ts[|ts| - 1]) then 1 else 0)
  }

  /** From the start of a session, descriptions and thresholds are those of
      the initial table: no run changes them. */
  lemma {:induction false} ReplayKeepsTable(ts: seq<TurnInput>)
    ensures var b := Replay(InitialState(), ts).badges;
      forall k :: k in b ==>
        b[k].description == InitialBadges()[k].description &&
        b[k].threshold == InitialBadges()[k].threshold
  {
    if ts != [] {
      ReplayKeepsTable(ts[..|ts| - 1]);
      TurnKeepsTable(Replay(InitialState(), ts[..|ts| - 1]), ts[|ts| - 1]);
    }
  }

  /** From the start of a session, Explorer, Question Champion and
      Knowledge Keeper each count the safe questions. */
  lemma {:induction false} ReplayQuestionCounts(ts: seq<TurnInput>, k: string)
    requires QuestionBadge(k)
    ensures Replay(InitialState(), ts).badges[k].metric.n == SafeQuestions(ts)
  {
    if ts != [] {
      ReplayQuestionCounts(ts[..|ts| - 1], k);
      TurnCounters(Replay(InitialState(), ts[..|ts| - 1]), ts[|ts| - 1]);
    }
  }

  /** From the start of a session, Learning Streak counts the runs and Fun
      Seeker keeps its initial count of zero. */
  lemma {:induction false} ReplayRunCounts(ts: seq<TurnInput>)
    ensures var b := Replay(InitialState(), ts).badges;
      && b[LearningStreak].metric.n == |ts|
      && b[FunSeeker].metric.n == 0
  {
    if ts != [] {
      ReplayRunCounts(ts[..|ts| - 1]);
      TurnCounters(Replay(InitialState(), ts[..|ts| - 1]), ts[|ts| - 1]);
    }
  }

  /** From the start of a session, every flag agrees with its progress: a
      badge is earned exactly when its progress has reached its threshold. */
  lemma {:induction false} ReplayConsistent(ts: seq<TurnInput>)
    ensures Consistent(Replay(InitialState(), ts).badges)
  {
    if ts != [] {
      var init := ts[..|ts| - 1];
      ReplayConsistent(init);
      var s := Replay(InitialState(), init);
      TurnKeepsTable(s, ts[|ts| - 1]);
      TurnAwards(s, ts[|ts| - 1]);
    }
  }

  /** Fun Seeker is never earned: nothing ever raises its count. */
  lemma FunSeekerNeverEarned(ts: seq<TurnInput>)
    ensures !Replay(InitialState(), ts).badges[FunSeeker].earned
    ensures Replay(InitialState(), ts).badges[FunSeeker].metric.n == 0
  {
    ReplayKeepsTable(ts);
    assert InitialBadges()[FunSeeker].threshold == 3;
    ReplayRunCounts(ts);
    ReplayConsistent(ts);
  }

  /** Explorer is earned exactly once five safe questions have been asked. */
  lemma ExplorerAfterFiveSafeQuestions(ts: seq<TurnInput>)
    ensures Replay(InitialState(), ts).badges[Explorer].earned <==> SafeQuestions(ts) >= 5
  {
    ReplayKeepsTable(ts);
    ReplayQuestionCounts(ts, Explorer);
    ReplayConsistent(ts);
    var b := Replay(InitialState(), ts).badges;
    assert InitialBadges()[Explorer].threshold == 5;
    assert b[Explorer].earned <==> Reached(Explorer, b[Explorer]);
  }

  /** In a state whose flags agree with their progress, a run announces
      Explorer exactly when it is the fifth safe question. */
  lemma ExplorerAnnouncedAtFifth(s: State, t: TurnInput)
    requires WellFormed(s.badges) && Consistent(s.badges)
    requires s.badges[Explorer].threshold == 5
    ensures Explorer in Turn(s, t).notices <==> s.badges[Explorer].metric.n == 4 && SafeQuestion(t)
  {
    var o := Turn(s, t);
    TurnCounters(s, t);
    TurnKeepsTable(s, t);
    TurnAwards(s, t);
    var before, after := s.badges[Explorer], o.state.badges[Explorer];
    assert before.earned <==> before.metric.n >= 5;
    assert after.earned <==> before.earned || after.metric.n >= 5;
  }

  /** The Explorer notification fires in the run of the fifth safe question
      of a session and in no other run: as the count grows by at most one per
      run, the notification fires once per session. */
  lemma ExplorerAnnouncedOnce(ts: seq<TurnInput>, t: TurnInput)
    ensures Explorer in Turn(Replay(InitialState(), ts), t).notices <==>
      SafeQuestions(ts) == 4 && SafeQuestion(t)
  {
    ReplayKeepsTable(ts);
    ReplayQuestionCounts(ts, Explorer);
    ReplayConsistent(ts);
    assert InitialBadges()[Explorer].threshold == 5;
    ExplorerAnnouncedAtFifth(Replay(InitialState(), ts), t);
  }
}
