/** The badge table of a session and the specification of the badge
    evaluator `check_and_award_badges`. */
module Badges {

  const Explorer: string := "Explorer"
  const QuestionChampion: string := "Question Champion"
  const LearningStreak: string := "Learning Streak"
  const FunSeeker: string := "Fun Seeker"
  const KnowledgeKeeper: string := "Knowledge Keeper"

  /** The table's keys in insertion order: the order in which the evaluator
      visits them and emits its notifications. No key is ever added. */
  const BadgeOrder: seq<string> := [Explorer, QuestionChampion, LearningStreak, FunSeeker, KnowledgeKeeper]

  /** The badges the evaluator measures by their `count`. */
  const CountBadges: seq<string> := [Explorer, QuestionChampion, FunSeeker, KnowledgeKeeper]

  /** A badge's progress field: `count`, or `time_spent` for Learning Streak. */
  datatype Metric = Count(n: nat) | TimeSpent(n: nat)

  datatype Badge = Badge(description: string, metric: Metric, threshold: nat, earned: bool)

  /** The shape of the table: exactly the five keys, Learning Streak with a
      `time_spent` field and the others with a `count` field. */
  ghost predicate WellFormed(m: map<string, Badge>) {
    && m.Keys == {Explorer, QuestionChampion, LearningStreak, FunSeeker, KnowledgeKeeper}
    && m[Explorer].metric.Count?
    && m[QuestionChampion].metric.Count?
    && m[LearningStreak].metric.TimeSpent?
    && m[FunSeeker].metric.Count?
    && m[KnowledgeKeeper].metric.Count?
  }

  predicate Distinct(s: seq<string>) {
    forall i, j :: 0 <= i < j < |s| ==> s[i] != s[j]
  }

  /** `after` is `before` with some progress advanced: the same keys, and per
      badge the same description, threshold and kind of progress, and no
      less progress. */
  ghost predicate Grown(before: map<string, Badge>, after: map<string, Badge>) {
    && after.Keys == before.Keys
    && forall k :: k in before ==>
      && after[k].description == before[k].description
      && after[k].threshold == before[k].threshold
      && after[k].metric.Count? == before[k].metric.Count?
      && after[k].metric.n >= before[k].metric.n
  }

  lemma GrownTransitive(a: map<string, Badge>, b: map<string, Badge>, c: map<string, Badge>)
    requires Grown(a, b) && Grown(b, c)
    ensures Grown(a, c)
  {
  }

  /** The table a new session starts with: every progress at zero, nothing earned. */
  function InitialBadges(): (m: map<string, Badge>)
    ensures WellFormed(m)
    ensures forall k :: k in m ==> m[k].metric.n == 0 && !m[k].earned && m[k].threshold > 0
    ensures m[Explorer].threshold == 5 && m[FunSeeker].threshold == 3
  {
    map[
      Explorer := Badge("Ask 5 questions", Count(0), 5, false),
      QuestionChampion := Badge("Answer 10 educational questions", Count(0), 10, false),
      LearningStreak := Badge("Spend 10 minutes with Doctor Groq", TimeSpent(0), 10, false),
      FunSeeker := Badge("Engage in 3 fun quizzes", Count(0), 3, false),
      KnowledgeKeeper := Badge("Reach 15 interactions", Count(0), 15, false)
    ]
  }

  /** The evaluator looks at a badge only if its name is one of the count
      badges or Learning Streak. */
  predicate Tracked(name: string) {
    name in CountBadges || name == LearningStreak
  }

  /** The badge's progress has reached its threshold. */
  predicate Reached(name: string, b: Badge) {
    Tracked(name) && b.metric.n >= b.threshold
  }

  /** The evaluator flips this badge: threshold reached and not yet earned. */
  predicate Flips(name: string, b: Badge) {
    Reached(name, b) && !b.earned
  }

  /** One badge after the evaluator has looked at it. */
  function Award(name: string, b: Badge): (r: Badge)
    ensures r.description == b.description && r.metric == b.metric && r.threshold == b.threshold
    ensures r.earned <==> b.earned || Reached(name, b)
  {
    if Flips(name, b) then b.(earned := true) else b
  }

  /** The table after the evaluator: only `earned` flags change; a flag is
      set afterwards exactly when it was set before or the threshold is reached. */
  function Awarded(m: map<string, Badge>): (r: map<string, Badge>)
    ensures r.Keys == m.Keys
    ensures forall k :: k in m ==>
      && r[k].description == m[k].description
      && r[k].metric == m[k].metric
      && r[k].threshold == m[k].threshold
      && (r[k].earned <==> m[k].earned || Reached(k, m[k]))
    ensures WellFormed(m) ==> WellFormed(r)
    ensures Grown(m, r)
  {
    map k | k in m :: Award(k, m[k])
  }

  /** The notifications the evaluator emits while visiting `names` in order:
      the names of exactly the badges it flips, each at most once. */
  function Newly(names: seq<string>, m: map<string, Badge>): (r: seq<string>)
    ensures forall x :: x in r <==> x in names && x in m && Flips(x, m[x])
    ensures |r| <= |names|
    ensures Distinct(names) ==> Distinct(r)
  {
    if names == [] then []
    else
      var last := names[|names| - 1];
      var init := names[..|names| - 1];
      assert names == init + [last];
      Newly(init, m) + (if last in m && Flips(last, m[last]) then [last] else [])
  }

  /** The evaluator's pass over `names` in order, one badge at a time, as
      its loop performs it: the table afterwards and the names announced. */
  function Visit(names: seq<string>, m: map<string, Badge>): (r: (map<string, Badge>, seq<string>))
    ensures r.0.Keys == m.Keys
  {
    if names == [] then (m, [])
    else
      var (table, notices) := Visit(names[..|names| - 1], m);
      var name := names[|names| - 1];
      if name in table && Flips(name, table[name]) then
        (table[name := table[name].(earned := true)], notices + [name])
      else
        (table, notices)
  }

  /** Visiting distinct names one after another awards each visited badge
      from its original state and announces exactly the flipped ones. */
  lemma {:induction false} VisitAwards(names: seq<string>, m: map<string, Badge>)
    requires Distinct(names)
    ensures forall k :: k in m ==>
      Visit(names, m).0[k] == if k in names then Award(k, m[k]) else m[k]
    ensures Visit(names, m).1 == Newly(names, m)
  {
    if names != [] {
      var init, name := names[..|names| - 1], names[|names| - 1];
      assert Distinct(init);
      assert names == init + [name];
      assert name !in init;
      VisitAwards(init, m);
    }
  }

  /** Visiting the table in its own order gives the order-free result
      `Awarded`: the order of the visit does not matter. */
  lemma VisitInTableOrder(m: map<string, Badge>)
    requires WellFormed(m)
    ensures Visit(BadgeOrder, m) == (Awarded(m), Newly(BadgeOrder, m))
  {
    assert Distinct(BadgeOrder);
    VisitAwards(BadgeOrder, m);
    var table := Visit(BadgeOrder, m).0;
    forall k | k in m
      ensures table[k] == Awarded(m)[k]
    {
      assert k in BadgeOrder;
    }
    assert table == Awarded(m);
  }

  /** Evaluating twice in a row: the second run changes nothing and emits nothing. */
  lemma {:induction false} EvaluatorIdempotent(names: seq<string>, m: map<string, Badge>)
    ensures Awarded(Awarded(m)) == Awarded(m)
    ensures Newly(names, Awarded(m)) == []
  {
    if names != [] {
      EvaluatorIdempotent(names[..|names| - 1], m);
    }
  }

  /** Adds one to a badge's progress, leaving the rest of the badge alone. */
  function Bump(b: Badge): (r: Badge)
    ensures r.metric.n == b.metric.n + 1
    ensures r.metric.Count? == b.metric.Count?
    ensures r.description == b.description && r.threshold == b.threshold && r.earned == b.earned
  {
    match b.metric
    case Count(n) => b.(metric := Count(n + 1))
    case TimeSpent(n) => b.(metric := TimeSpent(n + 1))
  }

  /** A safe question: Explorer, Question Champion and Knowledge Keeper each
      count one more; Learning Streak and Fun Seeker are untouched. */
  function Engage(m: map<string, Badge>): (r: map<string, Badge>)
    requires WellFormed(m)
    ensures WellFormed(r)
    ensures forall k :: k in [Explorer, QuestionChampion, KnowledgeKeeper] ==>
      r[k].metric.n == m[k].metric.n + 1
    ensures r[LearningStreak] == m[LearningStreak] && r[FunSeeker] == m[FunSeeker]
    ensures forall k :: k in m ==> r[k].earned == m[k].earned
    ensures Grown(m, r)
  {
    var m1 := m[Explorer := Bump(m[Explorer])];
    var m2 := m1[QuestionChampion := Bump(m1[QuestionChampion])];
    m2[KnowledgeKeeper := Bump(m2[KnowledgeKeeper])]
  }

  /** One script run: Learning Streak's `time_spent` grows by one; nothing else changes. */
  function Tick(m: map<string, Badge>): (r: map<string, Badge>)
    requires WellFormed(m)
    ensures WellFormed(r)
    ensures r[LearningStreak].metric.n == m[LearningStreak].metric.n + 1
    ensures forall k :: k in m && k != LearningStreak ==> r[k] == m[k]
    ensures forall k :: k in m ==> r[k].earned == m[k].earned
    ensures Grown(m, r)
  {
    m[LearningStreak := Bump(m[LearningStreak])]
  }

  /** Every flag agrees with its progress: set exactly when the threshold is reached. */
  ghost predicate Consistent(m: map<string, Badge>) {
    forall k :: k in m ==> (m[k].earned <==> Reached(k, m[k]))
  }

  /** If progress only grows and flags and thresholds stay put, evaluating
      restores the agreement between flags and progress. */
  lemma AwardRestoresConsistency(before: map<string, Badge>, after: map<string, Badge>)
    requires Consistent(before)
    requires after.Keys == before.Keys
    requires forall k :: k in before ==>
      && after[k].earned == before[k].earned
      && after[k].threshold == before[k].threshold
      && after[k].metric.n >= before[k].metric.n
    ensures Consistent(Awarded(after))
  {
  }
}
