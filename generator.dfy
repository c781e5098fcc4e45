/** The parts of generate_data.py around the engine calls: the policy filter, the example record and `parse_args`. */
module Generator {
  import opened Wrappers
  import opened Text
  import opened Board
  import opened Prompts
  import opened PolicyDict

  /** The engine's `policy_ranking`: (probability, move) pairs, moves in GTP notation. */
  type Ranking = seq<(real, string)>

  /** Entry i of the ranking is for move m and survives the `policy >= 0` filter. */
  predicate Kept(r: Ranking, i: int, m: string)
    requires 0 <= i < |r|
  {
    r[i].1 == m && r[i].0 >= 0.0
  }

  /** The dict comprehension `{move.gtp(): policy for policy, move in ranking if policy >= 0}`, entry by entry. */
  function FilterPolicy(r: Ranking): (d: Policy)
    ensures DistinctKeys(d)
  {
    if |r| == 0 then []
    else
      var d := FilterPolicy(r[..|r| - 1]);
      var (p, m) := r[|r| - 1];
      if p >= 0.0 then Insert(d, m, p) else d
  }

  /** Every probability that reaches the policy is non-negative. */
  lemma {:induction false} FilterNonNegative(r: Ranking)
    ensures forall i :: 0 <= i < |FilterPolicy(r)| ==> FilterPolicy(r)[i].1 >= 0.0
  {
    var d := FilterPolicy(r);
    if |r| > 0 {
      var d0 := FilterPolicy(r[..|r| - 1]);
      FilterNonNegative(r[..|r| - 1]);
      forall m | m in Keys(d0) ensures Get(d0, m) >= 0.0 {
        GetAt(d0, KeyIndex(d0, m));
      }
      forall i | 0 <= i < |d| ensures d[i].1 >= 0.0 {
        GetAt(d, i);
      }
    }
  }

  /** A move is a key exactly when some entry for it has a non-negative probability. */
  lemma {:induction false} FilterKeys(r: Ranking)
    ensures forall m :: m in Keys(FilterPolicy(r)) <==> exists i :: 0 <= i < |r| && Kept(r, i, m)
  {
    if |r| > 0 {
      var r0 := r[..|r| - 1];
      FilterKeys(r0);
      forall m ensures m in Keys(FilterPolicy(r)) <==> exists i :: 0 <= i < |r| && Kept(r, i, m) {
        if m in Keys(FilterPolicy(r)) && m !in Keys(FilterPolicy(r0)) {
          assert Kept(r, |r| - 1, m);
        }
        if exists i :: 0 <= i < |r| && Kept(r, i, m) {
          var i :| 0 <= i < |r| && Kept(r, i, m);
          if i < |r| - 1 { assert Kept(r0, i, m); }
        }
        if exists i :: 0 <= i < |r0| && Kept(r0, i, m) {
          var i :| 0 <= i < |r0| && Kept(r0, i, m);
          assert Kept(r, i, m);
        }
      }
    }
  }

  /** A repeated move takes the probability of its last kept entry: later entries overwrite earlier ones. */
  lemma {:induction false} FilterLastWins(r: Ranking, i: nat)
    requires i < |r| && r[i].0 >= 0.0
    requires forall j :: i < j < |r| ==> !Kept(r, j, r[i].1)
    ensures r[i].1 in Keys(FilterPolicy(r)) && Get(FilterPolicy(r), r[i].1) == r[i].0
  {
    if i < |r| - 1 {
      var r0 := r[..|r| - 1];
      assert r0[i] == r[i];
      forall j | i < j < |r0| ensures !Kept(r0, j, r0[i].1) {
        assert !Kept(r, j, r[i].1);
      }
      FilterLastWins(r0, i);
      var d0 := FilterPolicy(r0);
      var (p, m) := r[|r| - 1];
      assert FilterPolicy(r) == if p >= 0.0 then Insert(d0, m, p) else d0;
      assert p >= 0.0 ==> m != r[i].1 by { assert !Kept(r, |r| - 1, r[i].1); }
    } else {
      var d0 := FilterPolicy(r[..|r| - 1]);
      assert FilterPolicy(r) == Insert(d0, r[i].1, r[i].0);
    }
  }

  /** The first kept entry for move m. */
  function FirstKept(r: Ranking, m: string): (f: Option<nat>)
    ensures f.Some? ==> f.value < |r| && Kept(r, f.value, m) && forall j :: 0 <= j < f.value ==> !Kept(r, j, m)
    ensures f.None? ==> forall j :: 0 <= j < |r| ==> !Kept(r, j, m)
  {
    if |r| == 0 then None
    else
      var r0 := r[..|r| - 1];
      assert forall j :: 0 <= j < |r0| ==> (Kept(r0, j, m) <==> Kept(r, j, m));
      match FirstKept(r0, m)
      case Some(i) => Some(i)
      case None => if Kept(r, |r| - 1, m) then Some(|r| - 1) else None
  }

  /** The entries of d are in the order in which their moves are first kept in r. */
  predicate InFirstKeptOrder(r: Ranking, d: Policy)
  {
    forall a, b :: 0 <= a < b < |d| ==> FirstKeptBefore(r, d[a].0, d[b].0)
  }

  /** Move k is first kept before move l. */
  predicate FirstKeptBefore(r: Ranking, k: string, l: string)
  {
    FirstKept(r, k).Some? && FirstKept(r, l).Some? && FirstKept(r, k).value < FirstKept(r, l).value
  }

  /** Reading one more ranking entry: a kept entry is inserted, any other changes nothing. */
  lemma FilterSnoc(r0: Ranking, p: real, m: string)
    ensures (r0 + [(p, m)])[..|r0|] == r0
    ensures FilterPolicy(r0 + [(p, m)]) == if p >= 0.0 then Insert(FilterPolicy(r0), m, p) else FilterPolicy(r0)
  {
    assert (r0 + [(p, m)])[..|r0|] == r0;
  }

  /** Moves already in the policy keep their first kept entry when one more ranking entry is read. */
  lemma FirstKeptStable(r0: Ranking, p: real, m: string, k: string)
    requires k in Keys(FilterPolicy(r0))
    ensures FirstKept(r0, k).Some? && FirstKept(r0 + [(p, m)], k) == FirstKept(r0, k)
  {
    FilterKeys(r0);
    FilterSnoc(r0, p, m);
  }

  /** A new move goes to the end of the policy, and its first kept entry is the last one read. */
  lemma OrderStepNew(r0: Ranking, p: real, m: string)
    requires InFirstKeptOrder(r0, FilterPolicy(r0))
    requires p >= 0.0 && m !in Keys(FilterPolicy(r0))
    ensures InFirstKeptOrder(r0 + [(p, m)], FilterPolicy(r0 + [(p, m)]))
  {
    var r := r0 + [(p, m)];
    var d0 := FilterPolicy(r0);
    FilterSnoc(r0, p, m);
    var d := d0 + [(m, p)];
    assert FilterPolicy(r) == d;
    FilterKeys(r0);
    assert FirstKept(r0, m).None?;
    assert FirstKept(r, m) == Some(|r0|);
    forall a, b | 0 <= a < b < |d| ensures FirstKeptBefore(r, d[a].0, d[b].0) {
      assert d[a] == d0[a] && d0[a].0 in Keys(d0);
      FirstKeptStable(r0, p, m, d0[a].0);
      if b < |d0| {
        assert d[b] == d0[b] && d0[b].0 in Keys(d0);
        FirstKeptStable(r0, p, m, d0[b].0);
      }
    }
  }

  /** Otherwise the policy's moves stay where they are. */
  lemma OrderStepSame(r0: Ranking, p: real, m: string)
    requires InFirstKeptOrder(r0, FilterPolicy(r0))
    requires p < 0.0 || m in Keys(FilterPolicy(r0))
    ensures InFirstKeptOrder(r0 + [(p, m)], FilterPolicy(r0 + [(p, m)]))
  {
    var r := r0 + [(p, m)];
    var d0 := FilterPolicy(r0);
    FilterSnoc(r0, p, m);
    var d := FilterPolicy(r);
    assert |d| == |d0| && forall a :: 0 <= a < |d| ==> d[a].0 == d0[a].0;
    forall a, b | 0 <= a < b < |d| ensures FirstKeptBefore(r, d[a].0, d[b].0) {
      assert d0[a].0 in Keys(d0) && d0[b].0 in Keys(d0);
      assert FirstKeptBefore(r0, d0[a].0, d0[b].0);
      FirstKeptStable(r0, p, m, d0[a].0);
      FirstKeptStable(r0, p, m, d0[b].0);
    }
  }

  /** The policy lists its moves in the order in which they first pass the filter. */
  lemma {:induction false} FilterOrder(r: Ranking)
    ensures InFirstKeptOrder(r, FilterPolicy(r))
  {
    if |r| > 0 {
      var r0, p, m := r[..|r| - 1], r[|r| - 1].0, r[|r| - 1].1;
      assert r == r0 + [(p, m)];
      FilterOrder(r0);
      if p >= 0.0 && m !in Keys(FilterPolicy(r0)) {
        OrderStepNew(r0, p, m);
      } else {
        OrderStepSame(r0, p, m);
      }
    }
  }

  /** One example record: the prompts by rendering style, and the filtered policy. */
  datatype Example = Example(prompts: map<string, string>, policy: Policy)

  /** The record `generate_example` returns for the position reached and the engine's ranking there. */
  function GenerateExample(game: Game, r: Ranking): Result<Example, PromptError>
  {
    var policy := FilterPolicy(r);
    match AsciiPrompt(game)
    case Err(e) => Err(e)
    case Ok(ascii) =>
      match AnsiPrompt(game)
      case Err(e) => Err(e)
      case Ok(ansi) => Ok(Example(map["ascii" := ascii, "ansi" := ansi], policy))
  }

  /** A record exists exactly when the prompt can be built; it holds the two styles, and the filtered policy,
      whose entries are distinct and non-negative and whose moves are those the ranking keeps. */
  lemma GenerateExampleShape(game: Game, r: Ranking)
    ensures GenerateExample(game, r).Ok? <==> AsciiPrompt(game).Ok?
    ensures GenerateExample(game, r).Err? ==> GenerateExample(game, r).error == AsciiPrompt(game).error
    ensures GenerateExample(game, r).Ok? ==>
      var ex := GenerateExample(game, r).value;
      && ex.prompts.Keys == {"ascii", "ansi"}
      && ex.prompts["ascii"] == AsciiPrompt(game).value && ex.prompts["ansi"] == AnsiPrompt(game).value
      && DistinctKeys(ex.policy)
      && (forall i :: 0 <= i < |ex.policy| ==> ex.policy[i].1 >= 0.0)
      && ex.policy == FilterPolicy(r)
      && forall m :: m in Keys(ex.policy) <==> exists i :: 0 <= i < |r| && Kept(r, i, m)
  {
    AsciiAnsiAgree(game);
    FilterNonNegative(r);
    FilterKeys(r);
  }

  /** The exceptions `parse_args` raises: ValueError for a short argv or a count `int()` rejects,
      AssertionError for a file name without the `.jsonl` suffix. */
  datatype ArgsError = TooFewArguments | CountNotInteger | NotJsonl

  /** `parse_args` over the argument vector; `toInt` stands for Python's `int()` on a string. */
  function ParseArgs(argv: seq<string>, toInt: string -> Option<int>): (r: Result<(int, string), ArgsError>)
    ensures r.Ok? <==> |argv| >= 3 && toInt(argv[1]).Some? && EndsWith(argv[2], ".jsonl")
    ensures |argv| < 3 ==> r == Err(TooFewArguments)
    ensures |argv| >= 3 && toInt(argv[1]).None? ==> r == Err(CountNotInteger)
    ensures |argv| >= 3 && toInt(argv[1]).Some? && !EndsWith(argv[2], ".jsonl") ==> r == Err(NotJsonl)
    ensures r.Ok? ==> r.value.0 == toInt(argv[1]).value && r.value.1 == argv[2] && |r.value.1| >= 6
  {
    if |argv| < 3 then Err(TooFewArguments)
    else match toInt(argv[1])
      case None => Err(CountNotInteger)
      case Some(n) => if EndsWith(argv[2], ".jsonl") then Ok((n, argv[2])) else Err(NotJsonl)
  }
}
