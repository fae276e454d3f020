/** The fixed phrase pool the boards are drawn from, and the centre sentinel. */
module Catalog {
  import opened Seqs

  /** The sentinel placed in the centre cell of every board. */
  const FreeSpace: string := "FREE SPACE"

  /** How many phrases one board needs: 25 cells minus the centre. */
  const BoardPhrases: nat := 24

  /**
   * The phrase pool as the program defines it. Two adjacent literals of the
   * list have no comma between them, so the language joins them into a single
   * entry (the eighteenth one below): the pool holds 27 phrases, not 28.
   */
  const Excuses: seq<string> := [
    "My hand was unplayable",
    "I drew my brick card(s)",
    "I only drew non-engine",
    "I only drew engine",
    "You had a custom hand",
    "I didn’t see any starters",
    "I didn’t see my Side Deck cards",
    "I sided wrong",
    "I always lose against you",
    "The judge call was wrong",
    "I misplayed",
    "I forgot to activate my effect",
    "Dice roll screwed me",
    "Your deck only wins when you go first",
    "You had the 1-of",
    "You drew the out",
    "My topdecks were bad",
    "Your topdecks were crazy" + "My deck isn’t finished",
    "I’m still learning the deck",
    "I was testing tech cards",
    "I didn’t know what your cards did",
    "Bad matchup",
    "Time rules screwed me",
    "That’s not how it works on Master Duel",
    "I would’ve won next turn",
    "I don’t know the matchup",
    "You’re playing a higher tier deck"
  ]

  /** The pool with the missing separator restored: 28 phrases. */
  const IntendedExcuses: seq<string> := [
    "My hand was unplayable",
    "I drew my brick card(s)",
    "I only drew non-engine",
    "I only drew engine",
    "You had a custom hand",
    "I didn’t see any starters",
    "I didn’t see my Side Deck cards",
    "I sided wrong",
    "I always lose against you",
    "The judge call was wrong",
    "I misplayed",
    "I forgot to activate my effect",
    "Dice roll screwed me",
    "Your deck only wins when you go first",
    "You had the 1-of",
    "You drew the out",
    "My topdecks were bad",
    "Your topdecks were crazy",
    "My deck isn’t finished",
    "I’m still learning the deck",
    "I was testing tech cards",
    "I didn’t know what your cards did",
    "Bad matchup",
    "Time rules screwed me",
    "That’s not how it works on Master Duel",
    "I would’ve won next turn",
    "I don’t know the matchup",
    "You’re playing a higher tier deck"
  ]

  /**
   * A pool boards can be drawn from: its phrases are pairwise distinct, none
   * of them is the sentinel, and there are enough of them for one board.
   */
  predicate Usable(pool: seq<string>) {
    && Distinct(pool)
    && FreeSpace !in pool
    && |pool| >= BoardPhrases
  }

  /**
   * A phrase's length with its first and last characters. Phrases with
   * different fingerprints differ; those of the catalogs happen to be
   * pairwise different, which makes their distinctness cheap to check.
   */
  function Fingerprint(p: string): (nat, char, char) {
    if |p| == 0 then (0, ' ', ' ') else (|p|, p[0], p[|p| - 1])
  }

  /** A list whose entries have pairwise different fingerprints has no repeats. */
  lemma DistinctByFingerprint(pool: seq<string>)
    requires forall i, j :: 0 <= i < j < |pool| ==> Fingerprint(pool[i]) != Fingerprint(pool[j])
    ensures Distinct(pool)
  {
  }

  /** No phrase of the pool as written is listed twice. */
  lemma ExcusesDistinct()
    ensures Distinct(Excuses)
  {
    DistinctByFingerprint(Excuses);
  }

  /** No phrase of the restored pool is listed twice. */
  lemma IntendedExcusesDistinct()
    ensures Distinct(IntendedExcuses)
  {
    DistinctByFingerprint(IntendedExcuses);
  }

  /** The pool as written is usable, so drawing 24 phrases from it never fails. */
  lemma ExcusesUsable()
    ensures |Excuses| == 27
    ensures Usable(Excuses)
  {
    ExcusesDistinct();
  }

  /** The restored pool is usable as well. */
  lemma IntendedExcusesUsable()
    ensures |IntendedExcuses| == 28
    ensures Usable(IntendedExcuses)
  {
    IntendedExcusesDistinct();
  }

  /**
   * The pool as written is the intended pool with its eighteenth and
   * nineteenth phrases fused into one entry; every other phrase keeps its place.
   */
  lemma MissingSeparatorFusesTwoPhrases()
    ensures |Excuses| == |IntendedExcuses| - 1
    ensures Excuses[17] == IntendedExcuses[17] + IntendedExcuses[18]
    ensures Excuses[..17] == IntendedExcuses[..17]
    ensures Excuses[18..] == IntendedExcuses[19..]
  {
  }

  /**
   * Because of the fusion, neither of the two intended phrases can ever appear
   * on a board, and a phrase that is not in the intended pool can.
   */
  lemma FusedPhrasesNeverDrawn()
    ensures IntendedExcuses[17] !in Excuses && IntendedExcuses[18] !in Excuses
    ensures Excuses[17] !in IntendedExcuses
  {
  }
}
