/** The session state a user's browser session keeps between script runs
    (`st.session_state.messages` and `st.session_state.badges`), and the two
    procedures that update it in place. */
module Session {
  import opened Wrappers
  import opened Hazards
  import opened Badges
  import opened Conversation

  class ChatSession {
    var messages: seq<Message>
    var badges: map<string, Badge>

    ghost predicate Valid()
      reads this
    {
      WellFormed(badges)
    }


    /** The session state as a value, for stating runs against `Turn`. */
    function Snapshot(): State
      reads this
    {
      State(messages, badges)
    }

    /** A new session: an empty transcript and the initial badge table. */
    constructor ()
      ensures Valid()
      ensures messages == [] && badges == InitialBadges()
    {
      messages := [];
      badges := InitialBadges();
    }

    /** `check_and_award_badges`: visits the badges in table order, sets
        `earned` on each tracked badge whose progress reached its threshold
        and that was not yet earned, and returns the names it announced. */
    method CheckAndAwardBadges() returns (notices: seq<string>)
      requires Valid()
      modifies this
      ensures Valid()
      ensures messages == old(messages)
      ensures badges == Awarded(old(badges))
      ensures notices == Newly(BadgeOrder, old(badges))
    {
      notices := [];
      var i := 0;
      while i < |BadgeOrder|
        invariant 0 <= i <= |BadgeOrder|
        invariant messages == old(messages)
        invariant (badges, notices) == Visit(BadgeOrder[..i], old(badges))
      {
        var badge := BadgeOrder[i];
        var details := badges[badge];
        var award := false;
        if badge in CountBadges {
          // progress is the badge's count
          award := details.metric.n >= details.threshold && !details.earned;
        } else if badge == LearningStreak {
          // progress is the time spent
          award := details.metric.n >= details.threshold && !details.earned;
        }
        if award {
          badges := badges[badge := details.(earned := true)];
          notices := notices + [badge];
        }
        assert BadgeOrder[..i + 1][..i] == BadgeOrder[..i];
        i := i + 1;
      }
      assert BadgeOrder[..i] == BadgeOrder;
      VisitInTableOrder(old(badges));
    }

    /** The `if prompt:` block of a run: records the question and either the
        input warning (blocked) or, for a safe question, counts it and records
        the answer, if generation succeeded, or the output warning in its
        place. Returns the generation request when the model is called. */
    method SubmitPrompt(t: TurnInput) returns (request: Option<seq<Message>>)
      requires Valid()
      modifies this
      ensures Valid()
      ensures Snapshot() == Exchange(old(Snapshot()), t)
      ensures request == Request(old(Snapshot()), t)
    {
      request := None;
      var prompt := t.prompt;
      ghost var start := Snapshot();
      if prompt.Some? && prompt.value != "" {
        var verdict := CheckContentSafety(t.inputModeration);
        if !verdict.isSafe {
          var warning := InputWarning(verdict.hazardCode.value);
          messages := messages + [Message(User, prompt.value)];
          messages := messages + [Message(Assistant, warning)];
        } else {
          request := AnswerSafeQuestion(t);
        }
      }
    }

    /** The safe-question branch of the `if prompt:` block: counts the
        question for three badges, records it, asks the conversational model
        and records the answer (or the output warning in its place) if
        generation succeeded. */
    method AnswerSafeQuestion(t: TurnInput) returns (request: Option<seq<Message>>)
      requires Valid() && SafeQuestion(t)
      modifies this
      ensures Valid()
      ensures Snapshot() == Exchange(old(Snapshot()), t)
      ensures request == Request(old(Snapshot()), t)
    {
      ghost var start := Snapshot();
      var prompt := t.prompt.value;
      badges := badges[Explorer := Bump(badges[Explorer])];
      badges := badges[QuestionChampion := Bump(badges[QuestionChampion])];
      badges := badges[KnowledgeKeeper := Bump(badges[KnowledgeKeeper])];
      assert badges == Engage(start.badges);
      messages := messages + [Message(User, prompt)];
      request := Some([Message(System, SystemPrompt)] + messages);
      assert [Message(System, SystemPrompt)] + messages
          == [Message(System, SystemPrompt)] + start.messages + [Message(User, prompt)];
      if t.generation.Some? {
        var content := t.generation.value;
        var answerVerdict := CheckContentSafety(t.outputModeration);
        if !answerVerdict.isSafe {
          content := OutputWarning(answerVerdict.hazardCode.value);
        }
        assert content == Reply(t);
        messages := messages + [Message(Assistant, content)];
      }
    }

    /** One script run: handles the chat input, if any, with the moderation
        replies and the generated answer given as arguments, advances
        Learning Streak, and runs the evaluator. Returns the request sent to
        the conversational model (`None` if it was not called) and the
        badge names announced. */
    method Run(prompt: Option<string>, inputModeration: Option<string>,
               generation: Option<string>, outputModeration: Option<string>)
      returns (request: Option<seq<Message>>, notices: seq<string>)
      requires Valid()
      modifies this
      ensures Valid()
      ensures Turn(old(Snapshot()), TurnInput(prompt, inputModeration, generation, outputModeration))
           == Outcome(Snapshot(), request, notices)
    {
      var t := TurnInput(prompt, inputModeration, generation, outputModeration);
      ghost var start := Snapshot();
      request := SubmitPrompt(t);
      badges := badges[LearningStreak := Bump(badges[LearningStreak])];
      assert badges == Tick(Exchange(start, t).badges);
      notices := CheckAndAwardBadges();
    }
  }
}
