/** quiz.py: the scoring curve, one problem's decision, and the count resolution and running totals of `main`. */
module Quiz {
  import opened Wrappers
  import opened Text
  import opened PolicyDict
  import opened Generator

  // ---------------------------------------------------------------- score_p

  /** `score_p(p) = 1 - (1 - p) ** 2`, over the reals. */
  function ScoreP(p: real): real
  {
    1.0 - (1.0 - p) * (1.0 - p)
  }

  /** The same curve as a product: p * (2 - p); it is 0 at 0 and 1 at 1. */
  lemma ScorePFactored(p: real)
    ensures ScoreP(p) == p * (2.0 - p)
    ensures ScoreP(0.0) == 0.0 && ScoreP(1.0) == 1.0
  {
  }

  lemma ScorePDifference(p: real, q: real)
    ensures ScoreP(q) - ScoreP(p) == (q - p) * (2.0 - p - q)
  {
  }

  lemma ProductPositive(a: real, b: real)
    requires a > 0.0 && b > 0.0
    ensures a * b > 0.0
  {
  }

  lemma ProductNonNegative(a: real, b: real)
    requires a >= 0.0 && b >= 0.0
    ensures a * b >= 0.0
  {
  }

  /** Raising the probability up to 1 never lowers the score. */
  lemma ScorePMonotone(p: real, q: real)
    requires p <= q <= 1.0
    ensures ScoreP(p) <= ScoreP(q)
  {
    ScorePDifference(p, q);
    ProductNonNegative(q - p, 2.0 - p - q);
  }

  /** Up to 1 (so on all of [0, 1]) the score strictly increases with the probability. */
  lemma ScorePStrictlyIncreasing(p: real, q: real)
    requires p < q <= 1.0
    ensures ScoreP(p) < ScoreP(q)
  {
    ScorePDifference(p, q);
    ProductPositive(q - p, 2.0 - p - q);
  }

  /** Probabilities in [0, 1] score in [0, 1]. */
  lemma ScorePRange(p: real)
    requires 0.0 <= p <= 1.0
    ensures 0.0 <= ScoreP(p) <= 1.0
  {
    ScorePFactored(p);
    ScorePMonotone(0.0, p);
    ScorePMonotone(p, 1.0);
  }

  /** The curve is strictly concave: the score of a midpoint beats the mean of the two scores. */
  lemma ScorePConcave(p: real, q: real)
    requires p < q
    ensures ScoreP((p + q) / 2.0) > (ScoreP(p) + ScoreP(q)) / 2.0
  {
    var m := (p + q) / 2.0;
    var low := ScoreP(m) - ScoreP(p);
    var high := ScoreP(q) - ScoreP(m);
    ScorePDifference(p, m);
    ScorePDifference(m, q);
    var h := m - p;
    assert q - m == h;
    assert low == h * (2.0 - p - m);
    assert high == h * (2.0 - m - q);
    var gap := (2.0 - p - m) - (2.0 - m - q);
    assert gap == q - p;
    assert low - high == h * gap;
    ProductPositive(h, gap);
  }

  /** Up to 1, two probabilities score the same only when they are equal. */
  lemma ScorePInjective(p: real, q: real)
    requires p <= 1.0 && q <= 1.0
    ensures ScoreP(p) == ScoreP(q) <==> p == q
  {
    if p < q {
      ScorePStrictlyIncreasing(p, q);
    } else if q < p {
      ScorePStrictlyIncreasing(q, p);
    }
  }

  // ---------------------------------------------------------------- the guess

  /** `input(...).strip().upper()`. */
  function Normalise(raw: string): string
  {
    Upper(Strip(raw))
  }

  /** Stripping sees through whitespace added on either side. */
  lemma StripPadding(pre: string, s: string, post: string)
    requires SpaceRun(pre, 0, |pre|) && SpaceRun(post, 0, |post|)
    ensures Strip(pre + s + post) == Strip(s)
  {
    var i, j := StripSlice(s);
    if i < j {
      StripPaddingKept(pre, s, post, i, j);
    } else {
      PaddedRuns(pre, s, post, i, i);
      StripUnique(pre + s + post, |pre| + i, |pre| + i);
    }
  }

  lemma StripPaddingKept(pre: string, s: string, post: string, i: nat, j: nat)
    requires i < j <= |s| && SpaceRun(s, 0, i) && SpaceRun(s, j, |s|)
    requires !IsSpace(s[i]) && !IsSpace(s[j - 1])
    requires SpaceRun(pre, 0, |pre|) && SpaceRun(post, 0, |post|)
    ensures Strip(pre + s + post) == s[i..j]
  {
    var x := pre + s + post;
    var n := |pre|;
    PaddedRuns(pre, s, post, i, j);
    assert x[n + i] == s[i] && x[n + j - 1] == s[j - 1];
    StripUnique(x, n + i, n + j);
  }

  lemma PaddedRuns(pre: string, s: string, post: string, i: nat, j: nat)
    requires i <= j <= |s|
    requires SpaceRun(pre, 0, |pre|) && SpaceRun(post, 0, |post|) && SpaceRun(s, 0, i) && SpaceRun(s, j, |s|)
    ensures SpaceRun(pre + s + post, 0, |pre| + i) && SpaceRun(pre + s + post, |pre| + j, |pre + s + post|)
    ensures (pre + s + post)[|pre| + i..|pre| + j] == s[i..j]
  {
    var x := pre + s + post;
    forall k | 0 <= k < |pre| + i ensures IsSpace(x[k]) {
      if k < |pre| { assert x[k] == pre[k]; } else { assert x[k] == s[k - |pre|]; }
    }
    forall k | |pre| + j <= k < |x| ensures IsSpace(x[k]) {
      if k < |pre| + |s| { assert x[k] == s[k - |pre|]; } else { assert x[k] == post[k - |pre| - |s|]; }
    }
  }

  /** Whitespace typed around a move does not matter. */
  lemma NormaliseIgnoresPadding(pre: string, s: string, post: string)
    requires SpaceRun(pre, 0, |pre|) && SpaceRun(post, 0, |post|)
    ensures Normalise(pre + s + post) == Normalise(s)
  {
    StripPadding(pre, s, post);
  }

  /** Upper-casing keeps whitespace where it was and every other character non-whitespace. */
  lemma UpperKeepsSpace(c: char)
    ensures IsSpace(UpperChar(c)) <==> IsSpace(c)
  {
  }

  /** Normalising twice is normalising once: letter case and surrounding whitespace are all it changes. */
  lemma NormaliseIdempotent(raw: string)
    ensures Normalise(Normalise(raw)) == Normalise(raw)
  {
    var i, j := StripSlice(raw);
    var s := Strip(raw);
    var u := Upper(s);
    if |u| > 0 {
      assert s[0] == raw[i] && s[|s| - 1] == raw[j - 1];
      UpperKeepsSpace(s[0]);
      UpperKeepsSpace(s[|s| - 1]);
    }
    StripUnique(u, 0, |u|);
    assert u[0..|u|] == u;
    assert Upper(u) == u;
  }

  // ---------------------------------------------------------------- attempt_problem

  /** `max(policy.items(), key=lambda item: item[1])`: the first entry of largest probability. */
  function BestIndex(d: Policy): (b: nat)
    requires |d| > 0
    ensures b < |d|
    ensures forall j :: 0 <= j < |d| ==> d[j].1 <= d[b].1
    ensures forall j :: 0 <= j < b ==> d[j].1 < d[b].1
  {
    if |d| == 1 then 0
    else
      var b := BestIndex(d[..|d| - 1]);
      assert forall j :: 0 <= j < |d| - 1 ==> d[..|d| - 1][j] == d[j];
      if d[|d| - 1].1 > d[b].1 then |d| - 1 else b
  }

  /** What is printed after a valid guess. */
  datatype Report = Perfect | BestWas(move: string)

  /** The result of one problem: `problem["prompts"][prompt_key]` raising KeyError, the bare `-1` of an invalid guess,
      or the pair (score, best_score) with the printed report. */
  datatype Attempt = MissingPrompt | Invalid | Scored(score: real, bestScore: real, report: Report)

  /** `attempt_problem` for one problem, with `raw` the line typed in. */
  function AttemptProblem(problem: Example, promptKey: string, raw: string): Attempt
  {
    if promptKey !in problem.prompts then MissingPrompt
    else
      var guess := Normalise(raw);
      if guess !in Keys(problem.policy) then Invalid
      else
        var score := ScoreP(Get(problem.policy, guess));
        var b := BestIndex(problem.policy);
        var bestScore := ScoreP(problem.policy[b].1);
        Scored(score, bestScore, if bestScore == score then Perfect else BestWas(problem.policy[b].0))
  }

  /** A problem as the generator writes it: distinct moves, probabilities in [0, 1]. */
  predicate WellFormed(problem: Example)
  {
    DistinctKeys(problem.policy) && forall i :: 0 <= i < |problem.policy| ==> 0.0 <= problem.policy[i].1 <= 1.0
  }

  /** The largest probability of a non-empty policy. */
  function MaxProb(d: Policy): real
    requires |d| > 0
  {
    d[BestIndex(d)].1
  }

  /** A guess is invalid exactly when the prompt exists but the normalised guess is not a move of the policy. */
  lemma AttemptInvalid(problem: Example, promptKey: string, raw: string)
    ensures AttemptProblem(problem, promptKey, raw) == MissingPrompt <==> promptKey !in problem.prompts
    ensures AttemptProblem(problem, promptKey, raw) == Invalid <==>
      promptKey in problem.prompts && Normalise(raw) !in Keys(problem.policy)
  {
  }

  /** A valid guess scores score_p of its probability, the best score is score_p of the largest probability,
      and with probabilities in [0, 1] neither leaves [0, 1] and the score never exceeds the best score. */
  lemma AttemptScores(problem: Example, promptKey: string, raw: string)
    requires WellFormed(problem)
    requires AttemptProblem(problem, promptKey, raw).Scored?
    ensures Normalise(raw) in Keys(problem.policy) && |problem.policy| > 0
    ensures AttemptProblem(problem, promptKey, raw).score == ScoreP(Get(problem.policy, Normalise(raw)))
    ensures AttemptProblem(problem, promptKey, raw).bestScore == ScoreP(MaxProb(problem.policy))
    ensures 0.0 <= AttemptProblem(problem, promptKey, raw).score
      <= AttemptProblem(problem, promptKey, raw).bestScore <= 1.0
  {
    var d := problem.policy;
    var g := Normalise(raw);
    var i := KeyIndex(d, g);
    var b := BestIndex(d);
    ScorePRange(d[i].1);
    ScorePRange(d[b].1);
    ScorePMonotone(d[i].1, d[b].1);
  }

  /** "Perfect" is reported exactly when the guessed move has the largest probability,
      otherwise the report names the first move of largest probability. */
  lemma PerfectIffMaximal(problem: Example, promptKey: string, raw: string)
    requires WellFormed(problem)
    requires AttemptProblem(problem, promptKey, raw).Scored?
    ensures |problem.policy| > 0 && Normalise(raw) in Keys(problem.policy)
    ensures AttemptProblem(problem, promptKey, raw).report == Perfect <==>
      Get(problem.policy, Normalise(raw)) == MaxProb(problem.policy)
    ensures AttemptProblem(problem, promptKey, raw).report.BestWas? ==>
      var b := BestIndex(problem.policy);
      && AttemptProblem(problem, promptKey, raw).report.move == problem.policy[b].0
      && (forall j :: 0 <= j < |problem.policy| ==> problem.policy[j].1 <= problem.policy[b].1)
      && (forall j :: 0 <= j < b ==> problem.policy[j].1 < problem.policy[b].1)
  {
    var d := problem.policy;
    var i := KeyIndex(d, Normalise(raw));
    ScorePInjective(d[i].1, d[BestIndex(d)].1);
  }

  /** Guessing any move of largest probability, in any letter case, is Perfect. */
  lemma GuessingBestIsPerfect(problem: Example, promptKey: string, raw: string)
    requires WellFormed(problem) && promptKey in problem.prompts
    requires Normalise(raw) in Keys(problem.policy)
    requires forall j :: 0 <= j < |problem.policy| ==> problem.policy[j].1 <= Get(problem.policy, Normalise(raw))
    ensures AttemptProblem(problem, promptKey, raw).Scored?
    ensures AttemptProblem(problem, promptKey, raw).report == Perfect
    ensures AttemptProblem(problem, promptKey, raw).score == AttemptProblem(problem, promptKey, raw).bestScore
  {
    var d := problem.policy;
    var i := KeyIndex(d, Normalise(raw));
    PerfectIffMaximal(problem, promptKey, raw);
  }

  /** A guess with no surrounding whitespace and no lower-case letters is looked up as typed. */
  lemma NormaliseClean(g: string)
    requires |g| > 0 && !IsSpace(g[0]) && !IsSpace(g[|g| - 1])
    requires forall k :: 0 <= k < |g| ==> !('a' <= g[k] <= 'z')
    ensures Normalise(g) == g
  {
    StripUnique(g, 0, |g|);
    assert g[0..|g|] == g;
  }

  /** The policy of the two-move scenario: D4 at 0.8 and Q16 at 0.2. */
  const TwoMoves: Policy := [("D4", 0.8), ("Q16", 0.2)]

  lemma TwoMovesFacts()
    ensures Keys(TwoMoves) == {"D4", "Q16"} && DistinctKeys(TwoMoves)
    ensures Get(TwoMoves, "D4") == 0.8 && Get(TwoMoves, "Q16") == 0.2
    ensures BestIndex(TwoMoves) == 0
  {
    assert TwoMoves[0].0 == "D4" && TwoMoves[1].0 == "Q16";
    assert "D4" != "Q16" by { assert "D4"[0] != "Q16"[0]; }
  }

  /** In the two-move scenario a guess that reads D4 scores 0.96 and is Perfect. */
  lemma TwoMovesBest(prompts: map<string, string>, raw: string)
    requires "ansi" in prompts
    requires Normalise(raw) == "D4"
    ensures AttemptProblem(Example(prompts, TwoMoves), "ansi", raw) == Scored(0.96, 0.96, Perfect)
  {
    TwoMovesFacts();
  }

  /** A guess that reads Q16 scores 0.36 against a best of 0.96, and the report names D4. */
  lemma TwoMovesSecond(prompts: map<string, string>, raw: string)
    requires "ansi" in prompts
    requires Normalise(raw) == "Q16"
    ensures AttemptProblem(Example(prompts, TwoMoves), "ansi", raw) == Scored(0.36, 0.96, BestWas("D4"))
  {
    TwoMovesFacts();
  }

  /** A guess that reads Z1 is not in the policy: an invalid guess. */
  lemma TwoMovesInvalid(prompts: map<string, string>, raw: string)
    requires "ansi" in prompts
    requires Normalise(raw) == "Z1"
    ensures AttemptProblem(Example(prompts, TwoMoves), "ansi", raw) == Invalid
  {
    TwoMovesFacts();
    assert "Z1" != "D4" && "Z1" != "Q16" by { assert "Z1"[0] == 'Z' && "D4"[0] == 'D' && "Q16"[0] == 'Q'; }
  }

  /** A generated record has no "gtp" prompt, so asking for that style always raises KeyError. */
  lemma GtpPromptMissing(game: Board.Game, r: Ranking, raw: string)
    requires GenerateExample(game, r).Ok?
    ensures AttemptProblem(GenerateExample(game, r).value, "gtp", raw) == MissingPrompt
  {
    GenerateExampleShape(game, r);
  }

  // ---------------------------------------------------------------- main

  /** Python's rule for `xs[:n]` on a list of length `len`: index i is kept when it is below n, or, for a negative n,
      below `len + n`. */
  predicate SliceKeeps(n: int, len: nat, i: int)
  {
    if n >= 0 then i < n else i < len + n
  }

  /** Python's `len(xs[:n])` for a list of length `len`: a negative n counts back from the end. */
  function SliceLength(n: int, len: nat): (k: nat)
    ensures k <= len
    ensures forall i :: 0 <= i < len ==> (i < k <==> SliceKeeps(n, len, i))
  {
    if n >= 0 then (if n <= len then n else len)
    else if len + n >= 0 then len + n else 0
  }

  /** Why `main` stops early: the prompt lookup raised KeyError, or unpacking the `-1` of an invalid guess raised TypeError. */
  datatype Crash = PromptKeyError | UnpackInvalid

  /** Where the quiz ends: the final totals, or the problem at which it crashed. */
  datatype QuizOutcome = Completed(score: real, maxScore: real) | Crashed(problem: nat, reason: Crash)

  /** The attempts at a list of problems, problem k answered with `guesses[k]`. */
  function Attempts(problems: seq<Example>, promptKey: string, guesses: seq<string>): (r: seq<Attempt>)
    requires |guesses| >= |problems|
  {
    seq(|problems|, k requires 0 <= k < |problems| => AttemptProblem(problems[k], promptKey, guesses[k]))
  }

  /** The running totals `score` and `max_score` after a list of attempts, or the first attempt that crashes `main`. */
  function Tally(attempts: seq<Attempt>): QuizOutcome
  {
    if |attempts| == 0 then Completed(0.0, 0.0)
    else
      var n := |attempts| - 1;
      match Tally(attempts[..n])
      case Crashed(i, c) => Crashed(i, c)
      case Completed(s, m) =>
        match attempts[n]
        case MissingPrompt => Crashed(n, PromptKeyError)
        case Invalid => Crashed(n, UnpackInvalid)
        case Scored(a, b, _) => Completed(s + a, m + b)
  }

  /** The quiz completes exactly when every attempt is scored; otherwise it stops at the first that is not,
      with the exception that attempt raises. */
  lemma {:induction false} TallyOutcome(attempts: seq<Attempt>)
    ensures Tally(attempts).Completed? <==> forall k :: 0 <= k < |attempts| ==> attempts[k].Scored?
    ensures Tally(attempts).Crashed? ==>
      var i := Tally(attempts).problem;
      && i < |attempts|
      && (forall k :: 0 <= k < i ==> attempts[k].Scored?)
      && (Tally(attempts).reason == PromptKeyError <==> attempts[i] == MissingPrompt)
      && (Tally(attempts).reason == UnpackInvalid <==> attempts[i] == Invalid)
  {
    if |attempts| > 0 {
      var n := |attempts| - 1;
      var a0 := attempts[..n];
      TallyOutcome(a0);
      assert forall k :: 0 <= k < n ==> a0[k] == attempts[k];
    }
  }

  /** Sum of a list of reals. */
  function Sum(xs: seq<real>): real
  {
    if |xs| == 0 then 0.0 else Sum(xs[..|xs| - 1]) + xs[|xs| - 1]
  }

  /** A completed quiz's totals are the sums of the per-problem scores and best scores. */
  lemma {:induction false} TallySums(attempts: seq<Attempt>)
    requires forall k :: 0 <= k < |attempts| ==> attempts[k].Scored?
    ensures Tally(attempts) == Completed(
      Sum(seq(|attempts|, k requires 0 <= k < |attempts| => attempts[k].score)),
      Sum(seq(|attempts|, k requires 0 <= k < |attempts| => attempts[k].bestScore)))
  {
    if |attempts| > 0 {
      var n := |attempts| - 1;
      var a0 := attempts[..n];
      TallySums(a0);
      var ss := seq(|attempts|, k requires 0 <= k < |attempts| => attempts[k].score);
      var bs := seq(|attempts|, k requires 0 <= k < |attempts| => attempts[k].bestScore);
      assert ss[..n] == seq(|a0|, k requires 0 <= k < |a0| => a0[k].score);
      assert bs[..n] == seq(|a0|, k requires 0 <= k < |a0| => a0[k].bestScore);
    }
  }

  /** With well-formed problems, a completed quiz scores between 0 and the best possible total,
      which is at most the number of problems. */
  lemma {:induction false} TallyBounded(problems: seq<Example>, promptKey: string, guesses: seq<string>)
    requires |guesses| >= |problems|
    requires forall k :: 0 <= k < |problems| ==> WellFormed(problems[k])
    requires Tally(Attempts(problems, promptKey, guesses)).Completed?
    ensures 0.0 <= Tally(Attempts(problems, promptKey, guesses)).score <= Tally(Attempts(problems, promptKey, guesses)).maxScore
    ensures Tally(Attempts(problems, promptKey, guesses)).maxScore <= |problems| as real
  {
    if |problems| > 0 {
      var n := |problems| - 1;
      var p0 := problems[..n];
      assert Attempts(problems, promptKey, guesses)[..n] == Attempts(p0, promptKey, guesses);
      TallyBounded(p0, promptKey, guesses);
      AttemptScores(problems[n], promptKey, guesses[n]);
    }
  }

  /** Once the quiz has crashed on a prefix of the attempts it stays crashed there. */
  lemma {:induction false} TallyCrashStays(attempts: seq<Attempt>, i: nat)
    requires i <= |attempts|
    requires Tally(attempts[..i]).Crashed?
    ensures Tally(attempts) == Tally(attempts[..i])
    decreases |attempts| - i
  {
    if i < |attempts| {
      assert attempts[..i + 1][..i] == attempts[..i];
      TallyCrashStays(attempts, i + 1);
    } else {
      assert attempts[..i] == attempts;
    }
  }

  /** One more scored attempt adds its score and best score to the running totals. */
  lemma TallyStep(attempts: seq<Attempt>, i: nat, score: real, maxScore: real)
    requires i < |attempts| && attempts[i].Scored?
    requires Tally(attempts[..i]) == Completed(score, maxScore)
    ensures Tally(attempts[..i + 1]) == Completed(score + attempts[i].score, maxScore + attempts[i].bestScore)
  {
    assert attempts[..i + 1][..i] == attempts[..i];
  }

  /** An attempt that is not scored ends the quiz there, for good. */
  lemma TallyStops(attempts: seq<Attempt>, i: nat)
    requires i < |attempts| && !attempts[i].Scored?
    requires Tally(attempts[..i]).Completed?
    ensures Tally(attempts) == Crashed(i, if attempts[i].MissingPrompt? then PromptKeyError else UnpackInvalid)
  {
    assert attempts[..i + 1][..i] == attempts[..i];
    TallyCrashStays(attempts, i + 1);
  }

  /** `main`'s count resolution: `None` or 0 means every example; a count above the number of examples is
      clamped to it, with the warning printed (`shortfall`); anything else, a negative count included, is kept. */
  method ResolveCount(requested: Option<int>, available: nat) returns (count: int, shortfall: bool)
    ensures requested.None? || requested == Some(0) ==> count == available && !shortfall
    ensures requested.Some? && requested.value > available ==> count == available && shortfall
    ensures requested.Some? && 0 < requested.value <= available ==> count == requested.value && !shortfall
    ensures requested.Some? && requested.value < 0 ==> count == requested.value && !shortfall
  {
    var c := requested;
    shortfall := false;
    if c.Some? && c.value != 0 && available < c.value {
      shortfall := true;
      c := Some(available);
    }
    if c.None? || c.value == 0 {
      c := Some(available);
    }
    count := c.value;
  }

  /** `main` after loading and shuffling: resolve the count, then play `examples[:count]`, accumulating the totals. */
  method RunQuiz(examples: seq<Example>, requested: Option<int>, promptKey: string, guesses: seq<string>)
    returns (count: int, shortfall: bool, outcome: QuizOutcome)
    requires |guesses| == |examples|
    ensures requested.None? || requested == Some(0) ==> count == |examples| && !shortfall
    ensures requested.Some? && requested.value > |examples| ==> count == |examples| && shortfall
    ensures requested.Some? && 0 < requested.value <= |examples| ==> count == requested.value && !shortfall
    ensures requested.Some? && requested.value < 0 ==> count == requested.value && !shortfall
    ensures requested.None? || requested == Some(0) ==> SliceLength(count, |examples|) == |examples|
    ensures requested.Some? && requested.value > 0 ==>
      SliceLength(count, |examples|) == if requested.value <= |examples| then requested.value else |examples|
    ensures requested.Some? && requested.value < 0 ==>
      SliceLength(count, |examples|) == if |examples| + requested.value >= 0 then |examples| + requested.value else 0
    ensures outcome == Tally(Attempts(examples[..SliceLength(count, |examples|)], promptKey, guesses))
  {
    count, shortfall := ResolveCount(requested, |examples|);
    var presented := examples[..SliceLength(count, |examples|)];
    ghost var attempts := Attempts(presented, promptKey, guesses);
    var score, maxScore := 0.0, 0.0;
    var i := 0;
    while i < |presented|
      invariant 0 <= i <= |presented|
      invariant Tally(attempts[..i]) == Completed(score, maxScore)
    {
      var attempt := AttemptProblem(presented[i], promptKey, guesses[i]);
      assert attempt == attempts[i];
      if attempt.MissingPrompt? {
        outcome := Crashed(i, PromptKeyError);
        TallyStops(attempts, i);
        return;
      } else if attempt.Invalid? {
        outcome := Crashed(i, UnpackInvalid);
        TallyStops(attempts, i);
        return;
      }
      TallyStep(attempts, i, score, maxScore);
      score := score + attempt.score;
      maxScore := maxScore + attempt.bestScore;
      i := i + 1;
    }
    assert attempts[..i] == attempts;
    outcome := Completed(score, maxScore);
  }
}
