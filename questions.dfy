/** The question pool and the draw of `/conduct-interview`,
    `random.sample(questions, 6)`. The random generator is an input: the
    positions it picks. */
module Questions {
  import opened Wrappers

  const DRAW_SIZE: int := 6

  const Pool: seq<string> := [
    "Tell Us something about Yourself?",
    "Why are you interested in this internship, and how does it align with your career goals?",
    "What specific skills or knowledge do you hope to gain from this internship?",
    "Can you provide an example of a time when you had to work as part of a team? What was your approach to collaboration, and how did you handle any conflicts or challenges?",
    "Can you describe a project or task from your previous experience (or academic work) that you are particularly proud of? What was your role, and what did you learn from it?",
    "Describe a situation where you had to quickly learn something new or adapt to a change. How did you handle it, and what was the outcome?",
    "What motivated you to apply for this internship, and what interests you about our company or the role?",
    "What skills or strengths do you believe you bring to this internship, and how do you think they will help you succeed?",
    "How do you handle challenges or setbacks, especially when you\U{2019}re working on something unfamiliar or difficult?",
    "Can you tell us about your educational background and any relevant coursework or projects you have completed?",
    "What are your strengths and weaknesses, and how do you plan to address your weaknesses during this internship?",
    "How do you handle feedback and criticism, and can you give an example of how you have used feedback to improve your work?",
    "How would you approach a project or task if you were unfamiliar with the topic or required specific knowledge?",
    "What tools or software are you familiar with that are relevant to this internship role?",
    "What are your long-term career goals, and how does this internship help you achieve them?",
    "Can you give an example of a situation where you had to communicate complex information to someone with less expertise?",
    "How would you handle a situation where you were given unclear instructions or expectations for a task?",
    "What extracurricular activities or volunteer experiences have you been involved in, and how do they relate to this internship?",
    "How do you plan to balance this internship with any other commitments you may have?"
  ]

  predicate Distinct<T(==)>(s: seq<T>)
  {
    forall i, j :: 0 <= i < j < |s| ==> s[i] != s[j]
  }

  /** What the generator may pick for a sample of `k` out of `n`: `k`
      distinct positions below `n`. */
  predicate ValidPicks(picks: seq<int>, k: int, n: int)
  {
    |picks| == k && Distinct(picks) && forall i :: 0 <= i < |picks| ==> 0 <= picks[i] < n
  }

  /** `random.sample(population, k)`: `ValueError` when `k` is negative or
      larger than the population; otherwise the elements at `k` distinct
      positions, so no element is drawn twice. */
  function Sample<T(==)>(population: seq<T>, k: int, picks: seq<int>): (r: Result<seq<T>>)
    requires 0 <= k <= |population| ==> ValidPicks(picks, k, |population|)
    ensures r.ValueError? <==> k < 0 || k > |population|
    ensures r.Ok? ==> |r.value| == k && forall i :: 0 <= i < k ==> r.value[i] in population
    ensures r.Ok? && Distinct(population) ==> Distinct(r.value)
  {
    if k < 0 || k > |population| then ValueError
    else Ok(seq(k, i requires 0 <= i < k => population[picks[i]]))
  }

  /** The pool holds 19 pairwise distinct questions. */
  lemma PoolDistinct()
    ensures |Pool| == 19 && Distinct(Pool)
  {
  }

  /** Some choice of positions is always available for the route's draw. */
  lemma DrawIsPossible()
    ensures ValidPicks(seq(DRAW_SIZE, i => i), DRAW_SIZE, |Pool|)
  {
  }

  /** `conduct_interview`: the draw never fails, and yields six distinct
      questions of the pool. */
  function ConductInterview(picks: seq<int>): (questions: seq<string>)
    requires ValidPicks(picks, DRAW_SIZE, |Pool|)
    ensures Sample(Pool, DRAW_SIZE, picks) == Ok(questions)
    ensures |questions| == DRAW_SIZE && Distinct(questions)
    ensures forall i :: 0 <= i < |questions| ==> questions[i] in Pool
  {
    PoolDistinct();
    Sample(Pool, DRAW_SIZE, picks).value
  }
}
