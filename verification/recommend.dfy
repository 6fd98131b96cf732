/** The keyword heuristic of the chat view (components/ChatInterface.jsx, generateContextualRecommendations):
    six fixed topics, checked in a fixed priority order against the lower-cased user input and
    assistant reply; each firing topic contributes one static learning-resource record, and only
    the first three survive. */
module Recommend {
  import opened Text
  import opened Seqs

  /** A learning resource shown in the recommendation panel. Records come from the chat API or
      from the heuristic below. */
  datatype Recommendation = Recommendation(
    id: String,
    title: String,
    description: String,
    url: String,
    kind: String,
    difficulty: String,
    estimatedTime: String,
    tags: seq<String>)

  datatype Topic = JavaScript | React | Python | MachineLearning | Sql | Web

  /** The order the heuristic tests the topics in, which is also its priority order. */
  const Topics: seq<Topic> := [JavaScript, React, Python, MachineLearning, Sql, Web]

  /** The panel bound the heuristic applies to its own output (`slice(0, 3)`). */
  const MaxSuggestions: nat := 3

  /** Position of a topic in `Topics`. */
  function Rank(t: Topic): (k: int)
    ensures 0 <= k < |Topics| && Topics[k] == t
  {
    match t
    case JavaScript => 0
    case React => 1
    case Python => 2
    case MachineLearning => 3
    case Sql => 4
    case Web => 5
  }

  /** The keyword test of one topic. Both texts are lower-cased first; the Web topic looks at the
      user input only. */
  predicate Fires(t: Topic, input: String, reply: String) {
    var i := Lower(input);
    var r := Lower(reply);
    match t
    case JavaScript => Includes(i, "javascript") || Includes(i, "js") || Includes(r, "javascript")
    case React => Includes(i, "react") || Includes(r, "react")
    case Python => Includes(i, "python") || Includes(r, "python")
    case MachineLearning =>
      Includes(i, "machine learning") || Includes(i, "ai") || Includes(r, "machine learning")
    case Sql => Includes(i, "database") || Includes(i, "sql") || Includes(r, "database")
    case Web => Includes(i, "web development") || Includes(i, "html") || Includes(i, "css")
  }

  function FiresOn(input: String, reply: String): Topic -> bool {
    t => Fires(t, input, reply)
  }

  /** Every topic appears once in `Topics`, at its rank. */
  lemma TopicsByRank()
    ensures forall k :: 0 <= k < |Topics| ==> Rank(Topics[k]) == k
    ensures StrictlyIncreasing(Rank, Topics)
    ensures Distinct(Topics)
  {
    forall k | 0 <= k < |Topics| ensures Rank(Topics[k]) == k {
      if k == 0 {} else if k == 1 {} else if k == 2 {} else if k == 3 {} else if k == 4 {} else {}
    }
    forall i, j | 0 <= i < j < |Topics| ensures Rank(Topics[i]) < Rank(Topics[j]) {
      assert Rank(Topics[i]) == i && Rank(Topics[j]) == j;
    }
    forall i, j | 0 <= i < j < |Topics| ensures Topics[i] != Topics[j] {
      assert Rank(Topics[i]) == i && Rank(Topics[j]) == j;
    }
  }

  /** How many topics of higher priority than `t` fire on this exchange. */
  function FiringAhead(t: Topic, input: String, reply: String): nat {
    |Filter(FiresOn(input, reply), Topics[..Rank(t)])|
  }

  /** The static records of the heuristic, in priority order; their ids are filled in per call. */
  const Catalog: seq<Recommendation> := [
    Recommendation("", "JavaScript Fundamentals Course",
      "Master JavaScript basics with interactive exercises and real-world projects.",
      "https://javascript.info/", "course", "beginner", "20 hours",
      ["javascript", "web development", "programming"]),
    Recommendation("", "React Official Documentation",
      "Learn React from the official docs with hands-on examples.",
      "https://react.dev/", "tutorial", "intermediate", "15 hours",
      ["react", "frontend", "components"]),
    Recommendation("", "Python for Beginners",
      "Start your Python journey with this comprehensive beginner guide.",
      "https://www.python.org/about/gettingstarted/", "course", "beginner", "25 hours",
      ["python", "programming", "basics"]),
    Recommendation("", "Machine Learning Crash Course",
      "Google's fast-paced, practical introduction to machine learning.",
      "https://developers.google.com/machine-learning/crash-course", "course", "intermediate",
      "15 hours", ["machine learning", "ai", "tensorflow"]),
    Recommendation("", "SQL Tutorial",
      "Learn SQL with interactive exercises and real database examples.",
      "https://www.w3schools.com/sql/", "tutorial", "beginner", "10 hours",
      ["sql", "database", "queries"]),
    Recommendation("", "MDN Web Docs",
      "The most comprehensive web development resource for developers.",
      "https://developer.mozilla.org/", "article", "beginner", "5 hours",
      ["html", "css", "web development"])]

  /** The id prefix of a topic's record; the clock reading follows it. */
  function IdPrefix(t: Topic): String {
    match t
    case JavaScript => "rec_js_"
    case React => "rec_react_"
    case Python => "rec_python_"
    case MachineLearning => "rec_ml_"
    case Sql => "rec_sql_"
    case Web => "rec_web_"
  }

  /** The record a topic contributes: its catalog entry, with the id stamped by the clock
      reading `stamp`. The source reads the clock once per topic; one reading stands for all six
      here, so the ids of one call share their suffix. */
  function Entry(t: Topic, stamp: String): Recommendation {
    Catalog[Rank(t)].(id := IdPrefix(t) + stamp)
  }

  /** The topics whose records the heuristic returns: the firing topics in priority order, at
      most three of them, none when nothing fires. */
  function SuggestedTopics(input: String, reply: String): (ts: seq<Topic>)
    ensures |ts| <= MaxSuggestions
    ensures IsSubsequence(ts, Topics)
    ensures StrictlyIncreasing(Rank, ts)
    ensures forall t :: t in ts ==> Fires(t, input, reply)
    ensures ts == [] <==> forall t :: !Fires(t, input, reply)
  {
    var firing := Filter(FiresOn(input, reply), Topics);
    var ts := Take(firing, MaxSuggestions);
    SubsequencePrefix(firing, Topics, |ts|);
    TopicsByRank();
    SubsequenceIncreasing(Rank, ts, Topics);
    assert forall t :: t in ts ==> t in firing;
    assert forall t :: Fires(t, input, reply) ==> t in firing by {
      forall t | Fires(t, input, reply) ensures t in firing {
        assert Topics[Rank(t)] == t;
      }
    }
    assert firing != [] ==> firing[0] in ts;
    ts
  }

  /** A topic is suggested exactly when it fires and fewer than three topics of higher priority
      fire: the cut keeps the first three in priority order, not the "best" three. */
  lemma SuggestedTopicsMember(t: Topic, input: String, reply: String)
    ensures t in SuggestedTopics(input, reply) <==>
              Fires(t, input, reply) && FiringAhead(t, input, reply) < MaxSuggestions
  {
    TopicsByRank();
    TakeFilterMember(FiresOn(input, reply), Topics, Rank(t), MaxSuggestions);
  }

  /** The records for a list of topics, in the same order. */
  function Entries(ts: seq<Topic>, stamp: String): (r: seq<Recommendation>)
    ensures |r| == |ts|
    ensures forall i :: 0 <= i < |ts| ==> r[i] == Entry(ts[i], stamp)
  {
    seq(|ts|, i requires 0 <= i < |ts| => Entry(ts[i], stamp))
  }

  /** generateContextualRecommendations(input, reply): the records of the suggested topics, in
      priority order; at most three, and none exactly when no keyword matches. Which records
      appear is stated by `SuggestCovers` and `SuggestSound`. */
  function Suggest(input: String, reply: String, stamp: String): (r: seq<Recommendation>)
    ensures r == Entries(SuggestedTopics(input, reply), stamp)
    ensures |r| <= MaxSuggestions
    ensures r == [] <==> forall t :: !Fires(t, input, reply)
  {
    Entries(SuggestedTopics(input, reply), stamp)
  }

  /** A topic that fires with fewer than three higher-priority topics firing has its record among
      the suggested ones. */
  lemma SuggestCovers(input: String, reply: String, stamp: String, t: Topic)
    requires Fires(t, input, reply) && FiringAhead(t, input, reply) < MaxSuggestions
    ensures Entry(t, stamp) in Suggest(input, reply, stamp)
  {
    SuggestedTopicsMember(t, input, reply);
    EntriesCover(SuggestedTopics(input, reply), stamp, t);
  }

  /** Each suggested record is that of a firing topic with fewer than three higher-priority topics
      firing. */
  lemma SuggestSound(input: String, reply: String, stamp: String, i: nat)
    ensures i < |Suggest(input, reply, stamp)| ==>
      var t := SuggestedTopics(input, reply)[i];
      && Suggest(input, reply, stamp)[i] == Entry(t, stamp)
      && Fires(t, input, reply) && FiringAhead(t, input, reply) < MaxSuggestions
  {
    var ts := SuggestedTopics(input, reply);
    if i < |ts| {
      assert ts[i] in ts;
      SuggestedTopicsMember(ts[i], input, reply);
    }
  }

  /** Every listed topic contributes its record. */
  lemma EntriesCover(ts: seq<Topic>, stamp: String, t: Topic)
    requires t in ts
    ensures Entry(t, stamp) in Entries(ts, stamp)
  {
    var i :| 0 <= i < |ts| && ts[i] == t;
    assert Entries(ts, stamp)[i] == Entry(t, stamp);
  }

  /** The Web topic ignores the assistant reply. */
  lemma WebIgnoresReply(input: String, reply1: String, reply2: String)
    ensures Fires(Web, input, reply1) == Fires(Web, input, reply2)
  {
  }
}
