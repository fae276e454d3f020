/**
 * Drawing k phrases without replacement. The random generator is not
 * modelled: its successive index draws arrive as the stream `rng`, and a
 * stream that runs dry reads as zeros. The draw follows the pool scheme of
 * the language's sampling routine: pick an index below the current pool
 * size, take that entry, and move the pool's last entry into the hole.
 */
module Sampling {
  import opened Seqs

  /** A draw either succeeds or fails with the routine's ValueError message. */
  datatype Outcome<T> = Ok(value: T) | ValueError(message: string)

  const SampleTooLarge: string := "Sample larger than population or is negative"

  /** The next random draw of the stream. */
  function Head(rng: seq<nat>): nat {
    if |rng| == 0 then 0 else rng[0]
  }

  /** The stream after its next draw. */
  function Tail(rng: seq<nat>): seq<nat> {
    if |rng| == 0 then [] else rng[1..]
  }

  /** The pool after its entry `j` is taken: the last entry fills the hole. */
  function Take<T>(pool: seq<T>, j: nat): (rest: seq<T>)
    requires j < |pool|
    ensures |rest| == |pool| - 1
    ensures DrawnFrom(rest, pool)
  {
    var rest := pool[j := pool[|pool| - 1]][..|pool| - 1];
    assert forall i :: 0 <= i < |rest| ==> rest[i] == pool[i] || rest[i] == pool[|pool| - 1];
    rest
  }

  /** Taking an entry from a pool of distinct items removes exactly that entry. */
  lemma TakeRemovesOne<T>(pool: seq<T>, j: nat)
    requires j < |pool| && Distinct(pool)
    ensures Distinct(Take(pool, j))
    ensures pool[j] !in Take(pool, j)
    ensures forall x :: x in pool && x != pool[j] ==> x in Take(pool, j)
  {
    var rest := Take(pool, j);
    var last := |pool| - 1;
    forall x | x in pool && x != pool[j]
      ensures x in rest
    {
      var i :| 0 <= i < |pool| && pool[i] == x;
      if i == last {
        assert rest[j] == x;
      } else {
        assert rest[i] == x;
      }
    }
  }

  /** The `k` entries drawn from `pool`, in draw order. */
  function Draw<T>(pool: seq<T>, k: nat, rng: seq<nat>): (picked: seq<T>)
    requires k <= |pool|
    ensures |picked| == k
    ensures DrawnFrom(picked, pool)
    decreases k
  {
    if k == 0 then []
    else
      var j := Head(rng) % |pool|;
      [pool[j]] + Draw(Take(pool, j), k - 1, Tail(rng))
  }

  /** Drawing from distinct items never draws the same item twice. */
  lemma {:induction false} DrawDistinct<T>(pool: seq<T>, k: nat, rng: seq<nat>)
    requires k <= |pool| && Distinct(pool)
    ensures Distinct(Draw(pool, k, rng))
    decreases k
  {
    if k > 0 {
      var j := Head(rng) % |pool|;
      var rest := Take(pool, j);
      TakeRemovesOne(pool, j);
      DrawDistinct(rest, k - 1, Tail(rng));
      var tail := Draw(rest, k - 1, Tail(rng));
      assert pool[j] !in tail;
      assert Draw(pool, k, rng) == [pool[j]] + tail;
    }
  }

  /**
   * Sampling `k` items: the routine rejects a negative `k` or one larger
   * than the population, and otherwise draws without replacement.
   */
  function Sample<T>(population: seq<T>, k: int, rng: seq<nat>): (r: Outcome<seq<T>>)
    ensures r.Ok? <==> 0 <= k <= |population|
    ensures r.Ok? ==> |r.value| == k && DrawnFrom(r.value, population)
    ensures r.ValueError? ==> r.message == SampleTooLarge
  {
    if 0 <= k <= |population| then Ok(Draw(population, k, rng)) else ValueError(SampleTooLarge)
  }

  /** A successful sample of distinct items holds no repeats. */
  lemma SampleDistinct<T>(population: seq<T>, k: int, rng: seq<nat>)
    requires Distinct(population)
    ensures Sample(population, k, rng).Ok? ==> Distinct(Sample(population, k, rng).value)
  {
    if 0 <= k <= |population| {
      DrawDistinct(population, k, rng);
    }
  }

  /** Position of `x` in `s`. */
  function IndexOf<T(==)>(s: seq<T>, x: T): (i: nat)
    requires x in s
    ensures i < |s| && s[i] == x
  {
    if s[0] == x then 0 else 1 + IndexOf(s[1..], x)
  }

  /**
   * The draws that make `Draw` pick exactly `picked`: at each step, the
   * position of the next pick in what is left of the pool. Once a pick is
   * missing from the pool the stream simply ends.
   */
  function DrawsFor<T(==)>(pool: seq<T>, picked: seq<T>): seq<nat>
    decreases |picked|
  {
    if |picked| == 0 || picked[0] !in pool then []
    else
      var j := IndexOf(pool, picked[0]);
      [j] + DrawsFor(Take(pool, j), picked[1..])
  }

  /** A stream that starts with an in-range index draws exactly that entry first. */
  lemma DrawFirst<T>(pool: seq<T>, k: nat, j: nat, later: seq<nat>)
    requires 0 < k <= |pool| && j < |pool|
    ensures Draw(pool, k, [j] + later) == [pool[j]] + Draw(Take(pool, j), k - 1, later)
  {
    var rng := [j] + later;
    assert Head(rng) % |pool| == j;
    assert Tail(rng) == later;
  }

  /**
   * After the first pick is taken from the pool, the remaining picks are
   * still a repeat-free selection from what is left of the pool.
   */
  lemma RestOfSelection<T>(pool: seq<T>, picked: seq<T>)
    requires Distinct(pool) && Distinct(picked) && DrawnFrom(picked, pool)
    requires 0 < |picked| <= |pool|
    ensures picked[0] in pool
    ensures Distinct(picked[1..]) && |picked[1..]| <= |Take(pool, IndexOf(pool, picked[0]))|
    ensures Distinct(Take(pool, IndexOf(pool, picked[0])))
    ensures DrawnFrom(picked[1..], Take(pool, IndexOf(pool, picked[0])))
  {
    assert picked[0] in picked;
    var j := IndexOf(pool, picked[0]);
    var tail := picked[1..];
    TakeRemovesOne(pool, j);
    forall x | x in tail
      ensures x in Take(pool, j)
    {
      var i :| 0 <= i < |tail| && tail[i] == x;
      assert picked[i + 1] == x;
    }
  }

  /** Every selection of distinct pool items, in every order, is some draw. */
  lemma {:induction false} DrawReachesEverySelection<T>(pool: seq<T>, picked: seq<T>)
    requires Distinct(pool) && Distinct(picked) && DrawnFrom(picked, pool)
    requires |picked| <= |pool|
    ensures Draw(pool, |picked|, DrawsFor(pool, picked)) == picked
    decreases |picked|
  {
    if |picked| > 0 {
      RestOfSelection(pool, picked);
      var j := IndexOf(pool, picked[0]);
      var rest := Take(pool, j);
      var later := DrawsFor(rest, picked[1..]);
      var n := |picked| - 1;
      assert |picked[1..]| == n;
      DrawReachesEverySelection(rest, picked[1..]);
      assert Draw(rest, n, later) == picked[1..];
      DrawFirst(pool, |picked|, j, later);
      calc {
        Draw(pool, |picked|, DrawsFor(pool, picked));
        Draw(pool, |picked|, [j] + later);
        [pool[j]] + Draw(rest, n, later);
        [picked[0]] + picked[1..];
        picked;
      }
    }
  }

  /**
   * The samples of size `k` from distinct items are exactly the repeat-free
   * selections of `k` of them: each one is produced by some draw stream.
   */
  lemma SampleReachesEverySelection<T>(population: seq<T>, picked: seq<T>)
    requires Distinct(population) && Distinct(picked) && DrawnFrom(picked, population)
    requires |picked| <= |population|
    ensures exists rng :: Sample(population, |picked|, rng) == Ok(picked)
  {
    DrawReachesEverySelection(population, picked);
    var rng := DrawsFor(population, picked);
    assert Sample(population, |picked|, rng) == Ok(picked);
  }
}
