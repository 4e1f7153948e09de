/**
 * The study-plan page (`view_study_plan`, app/routes/study_plan.py): the
 * accepted-slug set, the questions grouped by topic, and the progress cursor.
 */
module StudyPlan {
  import opened Wrappers
  import opened Judge

  const GENERAL: string := "General"

  /** A plan question; `topic` is None when the key is absent. */
  datatype Question = Question(title: string, titleSlug: string, topic: Option<string>)

  /** The user's study-plan record; `currentQuestionIndex` is None when the key is absent. */
  datatype PlanProgress = PlanProgress(currentQuestionIndex: Option<nat>)

  type Groups = map<string, seq<Question>>

  datatype View =
    | NotSeeded
    | AllCompleted(groups: Groups, topics: seq<string>, solvedSlugs: set<string>)
    | Current(question: Question, progress: PlanProgress, totalQuestions: nat, isCurrentSolved: bool,
              groups: Groups, topics: seq<string>, solvedSlugs: set<string>)

  /** `question.get('topic', 'General')` */
  function TopicOf(q: Question): string {
    q.topic.GetOr(GENERAL)
  }

  /** The questions of one topic, in plan order. */
  function Group(qs: seq<Question>, t: string): (g: seq<Question>)
    ensures |g| <= |qs|
    ensures forall i :: 0 <= i < |g| ==> TopicOf(g[i]) == t
    decreases |qs|
  {
    if qs == [] then []
    else Group(qs[..|qs| - 1], t) + (if TopicOf(qs[|qs| - 1]) == t then [qs[|qs| - 1]] else [])
  }

  /** Grouping keeps plan order: the group of a concatenation is the concatenation of the groups. */
  lemma {:induction false} GroupAppend(a: seq<Question>, b: seq<Question>, t: string)
    ensures Group(a + b, t) == Group(a, t) + Group(b, t)
    decreases |b|
  {
    if b == [] {
      assert a + b == a;
    } else {
      var n := |b| - 1;
      GroupAppend(a, b[..n], t);
      assert (a + b)[..|a + b| - 1] == a + b[..n];
      assert (a + b)[|a + b| - 1] == b[n];
    }
  }

  /** The topics in order of first appearance (the key order of the `defaultdict`). */
  function Topics(qs: seq<Question>): (ts: seq<string>)
    ensures |ts| <= |qs|
    ensures qs != [] ==> ts != [] && ts[0] == TopicOf(qs[0])
    decreases |qs|
  {
    if qs == [] then []
    else
      var ts := Topics(qs[..|qs| - 1]);
      var t := TopicOf(qs[|qs| - 1]);
      if t in ts then ts else ts + [t]
  }

  /** The topics are exactly the topics of the questions, each listed once. */
  lemma {:induction false} TopicsShape(qs: seq<Question>)
    ensures forall t :: t in Topics(qs) <==> exists i :: 0 <= i < |qs| && TopicOf(qs[i]) == t
    ensures forall i, j :: 0 <= i < j < |Topics(qs)| ==> Topics(qs)[i] != Topics(qs)[j]
    decreases |qs|
  {
    if qs != [] {
      var n := |qs| - 1;
      TopicsShape(qs[..n]);
      forall i | 0 <= i < n ensures qs[..n][i] == qs[i] { }
    }
  }

  /**
   * The topics are listed in order of first appearance: before any question of a
   * later-listed topic, some question of each earlier-listed topic occurs.
   */
  lemma {:induction false} TopicsFirstAppearance(qs: seq<Question>, i: nat, j: nat)
    requires i < j < |Topics(qs)|
    ensures exists k :: 0 <= k < |qs| && TopicOf(qs[k]) == Topics(qs)[i] &&
              forall m :: 0 <= m <= k ==> TopicOf(qs[m]) != Topics(qs)[j]
    decreases |qs|
  {
    var n := |qs| - 1;
    var front := qs[..n];
    var ts := Topics(front);
    assert forall m :: 0 <= m < n ==> front[m] == qs[m];
    if j < |ts| {
      TopicsFirstAppearance(front, i, j);
      var k :| 0 <= k < |front| && TopicOf(front[k]) == ts[i] &&
               forall m :: 0 <= m <= k ==> TopicOf(front[m]) != ts[j];
      assert TopicOf(qs[k]) == Topics(qs)[i];
    } else {
      TopicsShape(front);
      var t := TopicOf(qs[n]);
      assert Topics(qs) == ts + [t] && Topics(qs)[j] == t && t !in ts;
      assert ts[i] in ts;
      var k :| 0 <= k < |front| && TopicOf(front[k]) == ts[i];
      forall m | 0 <= m <= k ensures TopicOf(qs[m]) != t {
        assert TopicOf(front[m]) in ts;
      }
    }
  }

  /** Each question sits in the group of its own topic and in no other. */
  lemma {:induction false} GroupMembership(qs: seq<Question>, t: string, q: Question)
    ensures q in Group(qs, t) <==> q in qs && TopicOf(q) == t
    decreases |qs|
  {
    if qs != [] {
      var n := |qs| - 1;
      GroupMembership(qs[..n], t, q);
      assert qs == qs[..n] + [qs[n]];
    }
  }

  /** Total size of the groups of the listed topics. */
  function SumSizes(qs: seq<Question>, ts: seq<string>): nat
    decreases |ts|
  {
    if ts == [] then 0 else |Group(qs, ts[0])| + SumSizes(qs, ts[1..])
  }

  lemma {:induction false} SumSizesSnoc(qs: seq<Question>, ts: seq<string>, q: Question)
    requires forall i, j :: 0 <= i < j < |ts| ==> ts[i] != ts[j]
    ensures SumSizes(qs + [q], ts) == SumSizes(qs, ts) + (if TopicOf(q) in ts then 1 else 0)
    decreases |ts|
  {
    if ts != [] {
      SumSizesSnoc(qs, ts[1..], q);
      assert (qs + [q])[..|qs + [q]| - 1] == qs;
      assert TopicOf(q) == ts[0] ==> TopicOf(q) !in ts[1..];
    }
  }

  lemma {:induction false} SumSizesAppend(qs: seq<Question>, ts: seq<string>, t: string)
    ensures SumSizes(qs, ts + [t]) == SumSizes(qs, ts) + |Group(qs, t)|
    decreases |ts|
  {
    if ts != [] {
      SumSizesAppend(qs, ts[1..], t);
      assert (ts + [t])[1..] == ts[1..] + [t];
    }
  }

  /** The groups partition the plan: together they hold every question exactly once. */
  lemma {:induction false} GroupsPartition(qs: seq<Question>)
    ensures SumSizes(qs, Topics(qs)) == |qs|
    decreases |qs|
  {
    if qs != [] {
      var n := |qs| - 1;
      var front, q := qs[..n], qs[n];
      assert qs == front + [q];
      GroupsPartition(front);
      TopicsShape(front);
      var ts := Topics(front);
      SumSizesSnoc(front, ts, q);
      if TopicOf(q) !in ts {
        SumSizesAppend(qs, ts, TopicOf(q));
        GroupEmpty(front, TopicOf(q));
        assert Group(qs, TopicOf(q)) == Group(front, TopicOf(q)) + [q];
      }
    }
  }

  lemma GroupEmpty(qs: seq<Question>, t: string)
    requires t !in Topics(qs)
    ensures Group(qs, t) == []
  {
    TopicsShape(qs);
    if Group(qs, t) != [] {
      GroupMembership(qs, t, Group(qs, t)[0]);
    }
  }

  /** The grouping loop over a `defaultdict(list)`. */
  method GroupByTopic(planQuestions: seq<Question>) returns (groups: Groups, topics: seq<string>)
    ensures topics == Topics(planQuestions)
    ensures groups.Keys == set t | t in topics
    ensures forall t :: t in groups ==> groups[t] == Group(planQuestions, t)
  {
    groups, topics := map[], [];
    for i := 0 to |planQuestions|
      invariant topics == Topics(planQuestions[..i])
      invariant groups.Keys == set t | t in topics
      invariant forall t :: t in groups ==> groups[t] == Group(planQuestions[..i], t)
    {
      var prefix := planQuestions[..i];
      assert planQuestions[..i + 1][..i] == prefix;
      var q := planQuestions[i];
      var t := TopicOf(q);
      TopicsShape(prefix);
      if t !in groups {
        GroupEmpty(prefix, t);
      }
      var existing := if t in groups then groups[t] else [];
      groups := groups[t := existing + [q]];
      if t !in topics {
        topics := topics + [t];
      }
    }
    assert planQuestions[..|planQuestions|] == planQuestions;
  }

  /**
   * `view_study_plan` for a logged-in user: no page without questions; the
   * completion view once the cursor has passed the last question; otherwise
   * the question under the cursor and whether it is solved.
   */
  method ViewStudyPlan(planQuestions: seq<Question>, userProgress: PlanProgress, recentSubmissions: seq<Submission>)
    returns (view: View)
    ensures planQuestions == [] <==> view == NotSeeded
    ensures planQuestions != [] ==> view.solvedSlugs == AcceptedSlugs(recentSubmissions)
    ensures planQuestions != [] ==> view.topics == Topics(planQuestions)
                                    && view.groups.Keys == (set t | t in view.topics)
                                    && forall t :: t in view.groups ==> view.groups[t] == Group(planQuestions, t)
    ensures var cursor := userProgress.currentQuestionIndex.GetOr(0);
            && (view.AllCompleted? <==> planQuestions != [] && cursor >= |planQuestions|)
            && (view.Current? ==>
                  && cursor < |planQuestions|
                  && view.question == planQuestions[cursor]
                  && view.totalQuestions == |planQuestions|
                  && view.progress == userProgress
                  && (view.isCurrentSolved <==> planQuestions[cursor].titleSlug in AcceptedSlugs(recentSubmissions)))
  {
    if planQuestions == [] {
      return NotSeeded;
    }
    var solvedSlugs := AcceptedSlugs(recentSubmissions);
    var groupedQuestions, topics := GroupByTopic(planQuestions);
    var currentIndex := userProgress.currentQuestionIndex.GetOr(0);
    var totalQuestions := |planQuestions|;
    if currentIndex >= totalQuestions {
      return AllCompleted(groupedQuestions, topics, solvedSlugs);
    }
    var currentQuestion := planQuestions[currentIndex];
    var isCurrentSolved := currentQuestion.titleSlug in solvedSlugs;
    view := Current(currentQuestion, userProgress, totalQuestions, isCurrentSolved, groupedQuestions, topics, solvedSlugs);
  }
}
