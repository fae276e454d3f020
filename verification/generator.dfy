/**
 * Board generation: one board from a fresh sample of the pool, and a board
 * set of a requested count. Each board draws from its own stream of random
 * indices; the first failed sample ends the whole run.
 */
module Generator {
  import opened Seqs
  import opened Catalog
  import opened Sampling
  import opened Board

  /** The draws of board `i`; boards past the end of `rngs` draw zeros. */
  function BoardDraws(rngs: seq<seq<nat>>, i: nat): seq<nat> {
    if i < |rngs| then rngs[i] else []
  }

  /** One board: sample 24 phrases of the pool and arrange them. */
  function GenerateBoard(pool: seq<string>, rng: seq<nat>): (r: Outcome<Grid>)
    ensures r.Ok? <==> |pool| >= BoardPhrases
    ensures r.ValueError? ==> r.message == SampleTooLarge
    ensures r.Ok? ==> Shaped(r.value)
    ensures r.Ok? && Distinct(pool) && FreeSpace !in pool ==> ValidBoard(r.value, pool)
  {
    var sampled := Sample(pool, BoardPhrases, rng);
    if sampled.ValueError? then ValueError(sampled.message)
    else if Distinct(pool) && FreeSpace !in pool then
      SampledBoardValid(pool, rng);
      Ok(Arrange(sampled.value))
    else
      Ok(Arrange(sampled.value))
  }

  /** A sample of a pool of distinct non-sentinel phrases arranges into a valid board. */
  lemma SampledBoardValid(pool: seq<string>, rng: seq<nat>)
    requires Distinct(pool) && FreeSpace !in pool && |pool| >= BoardPhrases
    ensures Sample(pool, BoardPhrases, rng).Ok?
    ensures ValidBoard(Arrange(Sample(pool, BoardPhrases, rng).value), pool)
  {
    SampleDistinct(pool, BoardPhrases, rng);
    ArrangeValid(Sample(pool, BoardPhrases, rng).value, pool);
  }

  /**
   * The result of evaluating a list of draws in order: all their values,
   * or the first failure, which ends the evaluation.
   */
  function Collect<T>(outcomes: seq<Outcome<T>>): (r: Outcome<seq<T>>)
    ensures r.Ok? <==> forall i :: 0 <= i < |outcomes| ==> outcomes[i].Ok?
    ensures r.Ok? ==> |r.value| == |outcomes|
    ensures r.Ok? ==> forall i :: 0 <= i < |outcomes| ==> r.value[i] == outcomes[i].value
    ensures r.ValueError? ==>
      exists i :: 0 <= i < |outcomes| && outcomes[i] == ValueError(r.message) && forall k :: 0 <= k < i ==> outcomes[k].Ok?
  {
    if |outcomes| == 0 then Ok([])
    else if outcomes[0].ValueError? then ValueError(outcomes[0].message)
    else
      var rest := Collect(outcomes[1..]);
      if rest.ValueError? then
        assert forall k :: 1 <= k < |outcomes| ==> outcomes[k] == outcomes[1..][k - 1];
        ValueError(rest.message)
      else
        Ok([outcomes[0].value] + rest.value)
  }

  /**
   * `count` boards in order (none for a count of zero or below), board `i`
   * drawn with `BoardDraws(rngs, i)`. Sampling fails only when a board is
   * actually needed and the pool is too small.
   */
  function GenerateMultipleBoards(pool: seq<string>, count: int, rngs: seq<seq<nat>>): (r: Outcome<seq<Grid>>)
    ensures r.Ok? <==> count <= 0 || |pool| >= BoardPhrases
    ensures r.Ok? ==> |r.value| == if count <= 0 then 0 else count
    ensures r.ValueError? ==> r.message == SampleTooLarge
    ensures r.Ok? ==> forall i :: 0 <= i < |r.value| ==> Shaped(r.value[i])
    ensures r.Ok? && Distinct(pool) && FreeSpace !in pool ==> AllValid(r.value, pool)
  {
    var n := if count <= 0 then 0 else count;
    var boards := seq(n, i requires 0 <= i < n => GenerateBoard(pool, BoardDraws(rngs, i)));
    assert forall i :: 0 <= i < n ==> BoardOutcome(pool, boards[i]);
    CollectedBoards(pool, boards);
    Collect(boards)
  }

  /** What `GenerateBoard` promises about one outcome drawn from `pool`. */
  ghost predicate BoardOutcome(pool: seq<string>, o: Outcome<Grid>) {
    && (o.Ok? <==> |pool| >= BoardPhrases)
    && (o.ValueError? ==> o.message == SampleTooLarge)
    && (o.Ok? ==> Shaped(o.value))
    && (o.Ok? && Distinct(pool) && FreeSpace !in pool ==> ValidBoard(o.value, pool))
  }

  /** What collecting a list of board outcomes from one pool yields. */
  lemma CollectedBoards(pool: seq<string>, boards: seq<Outcome<Grid>>)
    requires forall i :: 0 <= i < |boards| ==> BoardOutcome(pool, boards[i])
    ensures Collect(boards).Ok? <==> |boards| == 0 || |pool| >= BoardPhrases
    ensures Collect(boards).ValueError? ==> Collect(boards).message == SampleTooLarge
    ensures Collect(boards).Ok? ==> forall i :: 0 <= i < |Collect(boards).value| ==> Shaped(Collect(boards).value[i])
    ensures Collect(boards).Ok? && Distinct(pool) && FreeSpace !in pool ==> AllValid(Collect(boards).value, pool)
  {
    var r := Collect(boards);
    if |boards| > 0 {
      assert BoardOutcome(pool, boards[0]);
    }
    if r.ValueError? {
      var i :| 0 <= i < |boards| && boards[i] == ValueError(r.message) && forall k :: 0 <= k < i ==> boards[k].Ok?;
      assert BoardOutcome(pool, boards[i]);
    }
    if r.Ok? {
      forall i | 0 <= i < |r.value|
        ensures Shaped(r.value[i])
        ensures Distinct(pool) && FreeSpace !in pool ==> ValidBoard(r.value[i], pool)
      {
        assert BoardOutcome(pool, boards[i]);
      }
    }
  }

  /** Every board of the set satisfies the board invariant. */
  ghost predicate AllValid(boards: seq<Grid>, pool: seq<string>) {
    forall i :: 0 <= i < |boards| ==> ValidBoard(boards[i], pool)
  }

  /**
   * The boards of a set are independent: board `i` is exactly the board
   * generated from its own draws, whatever the other boards drew.
   */
  lemma BoardSetIsIndependentBoards(pool: seq<string>, count: int, rngs: seq<seq<nat>>, i: nat)
    requires |pool| >= BoardPhrases && i < count
    ensures GenerateMultipleBoards(pool, count, rngs).Ok?
    ensures i < |GenerateMultipleBoards(pool, count, rngs).value|
    ensures GenerateMultipleBoards(pool, count, rngs).value[i] == GenerateBoard(pool, BoardDraws(rngs, i)).value
  {
  }

  /**
   * Every valid board of a usable pool can come out of the generator: some
   * draw stream produces it.
   */
  lemma GenerateReachesEveryValidBoard(pool: seq<string>, b: Grid)
    requires Usable(pool) && ValidBoard(b, pool)
    ensures exists rng :: GenerateBoard(pool, rng) == Ok(b)
  {
    ValidBoardIsArranged(b, pool);
    var selected := Unarrange(b);
    DrawReachesEverySelection(pool, selected);
    var rng := DrawsFor(pool, selected);
    assert Sample(pool, BoardPhrases, rng) == Ok(selected);
    assert GenerateBoard(pool, rng) == Ok(b);
  }

  /**
   * With the pool as the program defines it, generation never fails and
   * every board satisfies the invariant.
   */
  lemma ExcusesAlwaysGenerate(count: int, rngs: seq<seq<nat>>)
    ensures GenerateMultipleBoards(Excuses, count, rngs).Ok?
    ensures |GenerateMultipleBoards(Excuses, count, rngs).value| == if count <= 0 then 0 else count
    ensures forall i :: 0 <= i < |GenerateMultipleBoards(Excuses, count, rngs).value| ==>
      ValidBoard(GenerateMultipleBoards(Excuses, count, rngs).value[i], Excuses)
  {
    ExcusesUsable();
  }

  /** The same holds for the restored 28-phrase pool. */
  lemma IntendedExcusesAlwaysGenerate(count: int, rngs: seq<seq<nat>>)
    ensures GenerateMultipleBoards(IntendedExcuses, count, rngs).Ok?
    ensures |GenerateMultipleBoards(IntendedExcuses, count, rngs).value| == if count <= 0 then 0 else count
    ensures forall i :: 0 <= i < |GenerateMultipleBoards(IntendedExcuses, count, rngs).value| ==>
      ValidBoard(GenerateMultipleBoards(IntendedExcuses, count, rngs).value[i], IntendedExcuses)
  {
    IntendedExcusesUsable();
  }
}
