/**
 * The whack-a-word session engine: each round five moles pop up carrying
 * words, one of which names the target picture; hitting it scores by speed
 * and starts the next round, hitting another retracts that mole only, and a
 * one-second countdown ends the session.
 */
module WhackAWord {
  import opened Shuffling

  const MoleCount: nat := 5
  const GameDuration: nat := 60

  datatype Entry = Entry(word: string, image: string)

  /** The word bank every round is drawn from. */
  const InitialGameData: seq<Entry> := [
    Entry("Apple", "https://placehold.co/100x100/FF0000/FFFFFF?text=Apple"),
    Entry("Banana", "https://placehold.co/100x100/FFFF00/000000?text=Banana"),
    Entry("Carrot", "https://placehold.co/100x100/FFA500/FFFFFF?text=Carrot"),
    Entry("Dog", "https://placehold.co/100x100/A52A2A/FFFFFF?text=Dog"),
    Entry("Cat", "https://placehold.co/100x100/808080/FFFFFF?text=Cat"),
    Entry("Sun", "https://placehold.co/100x100/FFD700/000000?text=Sun"),
    Entry("Moon", "https://placehold.co/100x100/F0E68C/000000?text=Moon"),
    Entry("Star", "https://placehold.co/100x100/FFFF00/000000?text=Star"),
    Entry("House", "https://placehold.co/100x100/DEB887/000000?text=House"),
    Entry("Tree", "https://placehold.co/100x100/008000/FFFFFF?text=Tree"),
    Entry("Car", "https://placehold.co/100x100/0000FF/FFFFFF?text=Car"),
    Entry("Ball", "https://placehold.co/100x100/FF4500/FFFFFF?text=Ball")
  ]

  datatype Mole = Mole(up: bool, word: string)

  /** A board of n moles, all down and blank. */
  function MakeEmptyMoles(n: nat): (r: seq<Mole>)
    ensures |r| == n
    ensures forall i :: 0 <= i < n ==> r[i] == Mole(false, "")
  {
    seq(n, _ => Mole(false, ""))
  }

  function Words(moles: seq<Mole>): (r: seq<string>)
    ensures |r| == |moles| && forall i :: 0 <= i < |moles| ==> r[i] == moles[i].word
  {
    seq(|moles|, i requires 0 <= i < |moles| => moles[i].word)
  }

  /** The words of the entries of data at the positions idx. */
  function WordsAt(data: seq<Entry>, idx: seq<nat>): (r: seq<string>)
    requires forall k :: 0 <= k < |idx| ==> idx[k] < |data|
    ensures |r| == |idx| && forall k :: 0 <= k < |idx| ==> r[k] == data[idx[k]].word
  {
    seq(|idx|, k requires 0 <= k < |idx| => data[idx[k]].word)
  }

  predicate Distinct(s: seq<nat>)
  {
    forall i, j :: 0 <= i < j < |s| ==> s[i] != s[j]
  }

  /** pool[k] is the entry at data position poolIdx[k]. */
  ghost predicate Tracks(data: seq<Entry>, pool: seq<Entry>, poolIdx: seq<nat>)
  {
    |poolIdx| == |pool| && forall k :: 0 <= k < |pool| ==> poolIdx[k] < |data| && pool[k] == data[poolIdx[k]]
  }

  /** The chosen positions, the correct one and the pool's positions are pairwise different. */
  ghost predicate Apart(correctIdx: nat, picked: seq<nat>, poolIdx: seq<nat>)
  {
    && Distinct(picked) && Distinct(poolIdx)
    && (forall x :: x in picked ==> x !in poolIdx)
    && correctIdx !in picked && correctIdx !in poolIdx
  }

  /** Splicing a position out of a list of distinct positions keeps them distinct and drops exactly that one. */
  lemma RemoveAtDistinct(s: seq<nat>, i: nat)
    requires i < |s| && Distinct(s)
    ensures Distinct(RemoveAt(s, i))
    ensures s[i] !in RemoveAt(s, i)
    ensures forall x :: x in RemoveAt(s, i) ==> x in s
  {
  }

  lemma TracksRemoveAt(data: seq<Entry>, pool: seq<Entry>, poolIdx: seq<nat>, i: nat)
    requires Tracks(data, pool, poolIdx) && i < |pool|
    ensures Tracks(data, RemoveAt(pool, i), RemoveAt(poolIdx, i))
  {
  }

  /** Moving the pool's i-th position to the chosen ones keeps all positions apart. */
  lemma ApartAfterPick(correctIdx: nat, picked: seq<nat>, poolIdx: seq<nat>, i: nat)
    requires Apart(correctIdx, picked, poolIdx) && i < |poolIdx|
    ensures Apart(correctIdx, picked + [poolIdx[i]], RemoveAt(poolIdx, i))
  {
    RemoveAtDistinct(poolIdx, i);
    var picked', pool' := picked + [poolIdx[i]], RemoveAt(poolIdx, i);
    forall a, b | 0 <= a < b < |picked'| ensures picked'[a] != picked'[b] {
      if b == |picked| {
        assert picked'[a] in picked;
      }
    }
  }

  /**
   * A round's words: the correct word of entry correctIdx together with the
   * words of the distinct other entries picked, in some order.
   */
  ghost predicate RoundOf(data: seq<Entry>, correctIdx: nat, picked: seq<nat>, correctWord: string, words: seq<string>)
  {
    && correctIdx < |data| && correctWord == data[correctIdx].word
    && |words| == MoleCount && correctWord in words
    && |picked| == MoleCount - 1 && Distinct(picked)
    && (forall k :: 0 <= k < |picked| ==> picked[k] < |data| && picked[k] != correctIdx)
    && multiset(words) == multiset([correctWord] + WordsAt(data, picked))
  }

  /**
   * `shuffleArray`: copy the argument, then run the descending Fisher–Yates
   * pass over the copy. The argument is a value, so it is left as it was.
   */
  method ShuffleArray<T>(arr: seq<T>, rand: Oracle) returns (r: seq<T>)
    ensures r == FisherYates(arr, rand)
    ensures |r| == |arr| && multiset(r) == multiset(arr)
  {
    var a := new T[|arr|](k requires 0 <= k < |arr| => arr[k]);
    assert a[..] == arr;
    var i := |arr| - 1;
    while i > 0
      invariant -1 <= i < |arr| && a.Length == |arr|
      invariant FisherYatesBelow(a[..], rand, i + 1) == FisherYates(arr, rand)
      decreases i
    {
      var j := Draw(rand, |arr| - 1 - i, i + 1);
      ghost var before := a[..];
      FisherYatesStep(before, rand, i + 1);
      a[i], a[j] := a[j], a[i];
      assert a[..] == Swap(before, i, j);
      i := i - 1;
    }
    r := a[..];
    FisherYatesPermutes(arr, rand);
  }

  /** The draws that choose the positions of a round's words come after the five pool draws. */
  function ShuffleDraws(rand: Oracle): Oracle
  {
    if |rand| <= MoleCount then [] else rand[MoleCount..]
  }

  /**
   * `buildRoundWords`: draw the correct entry (draw 0), then MoleCount - 1
   * distractors without replacement (draws 1 to 4), then shuffle the five
   * words. With fewer than MoleCount entries the source dereferences an empty
   * pool, so that is excluded. The ghost results name the data positions chosen.
   */
  method BuildRoundWords(data: seq<Entry>, rand: Oracle)
    returns (correct: Entry, words: seq<string>, ghost correctIdx: nat, ghost picked: seq<nat>)
    requires |data| >= MoleCount
    ensures correctIdx == Draw(rand, 0, |data|) && correct == data[correctIdx]
    ensures |words| == MoleCount && correct.word in words
    ensures |picked| == MoleCount - 1 && Distinct(picked)
    ensures forall k :: 0 <= k < |picked| ==> picked[k] < |data| && picked[k] != correctIdx
    ensures multiset(words) == multiset([correct.word] + WordsAt(data, picked))
    ensures words == FisherYates([correct.word] + WordsAt(data, picked), ShuffleDraws(rand))
  {
    ghost var allIdx: seq<nat> := seq(|data|, i => i);
    var ci := Draw(rand, 0, |data|);
    correct := data[ci];
    correctIdx := ci;
    assert Apart(correctIdx, [], RemoveAt(allIdx, ci)) by {
      RemoveAtDistinct(allIdx, ci);
    }
    assert Tracks(data, RemoveAt(data, ci), RemoveAt(allIdx, ci)) by {
      TracksRemoveAt(data, data, allIdx, ci);
    }
    var wrong;
    wrong, picked := PickDistractors(data, RemoveAt(data, ci), RemoveAt(allIdx, ci), correctIdx, rand);
    words := ShuffleArray([correct.word] + wrong, ShuffleDraws(rand));
    assert correct.word in multiset(words);
  }

  /**
   * The `while` loop of `buildRoundWords`: draw 1 + k picks the k-th
   * distractor from what is left of the pool and splices it out.
   */
  method PickDistractors(data: seq<Entry>, pool: seq<Entry>, ghost poolIdx: seq<nat>, ghost correctIdx: nat, rand: Oracle)
    returns (wrong: seq<string>, ghost picked: seq<nat>)
    requires |pool| == |data| - 1 >= MoleCount - 1
    requires Tracks(data, pool, poolIdx) && Apart(correctIdx, [], poolIdx)
    ensures |wrong| == |picked| == MoleCount - 1 && Distinct(picked)
    ensures forall k :: 0 <= k < |picked| ==> picked[k] < |data| && picked[k] != correctIdx
    ensures wrong == WordsAt(data, picked)
  {
    var left := pool;
    ghost var leftIdx := poolIdx;
    wrong, picked := [], [];
    while |wrong| < MoleCount - 1
      invariant |wrong| <= MoleCount - 1
      invariant |left| == |data| - 1 - |wrong|
      invariant Tracks(data, left, leftIdx)
      invariant |picked| == |wrong|
      invariant forall k :: 0 <= k < |picked| ==> picked[k] < |data| && wrong[k] == data[picked[k]].word
      invariant Apart(correctIdx, picked, leftIdx)
    {
      var ri := Draw(rand, 1 + |wrong|, |left|);
      assert Apart(correctIdx, picked + [leftIdx[ri]], RemoveAt(leftIdx, ri)) by {
        ApartAfterPick(correctIdx, picked, leftIdx, ri);
      }
      assert Tracks(data, RemoveAt(left, ri), RemoveAt(leftIdx, ri)) by {
        TracksRemoveAt(data, left, leftIdx, ri);
      }
      wrong := wrong + [left[ri].word];
      picked := picked + [leftIdx[ri]];
      left, leftIdx := RemoveAt(left, ri), RemoveAt(leftIdx, ri);
    }
  }

  /**
   * Points for a correct hit `elapsedMs` after the reveal: 100 less one per
   * started tenth of a second, never below 10. The source computes this in
   * floating-point seconds; here the time is whole milliseconds.
   */
  function Points(elapsedMs: int): (p: int)
    ensures p >= 10
    ensures elapsedMs >= 0 ==> p <= 100
    ensures 0 <= elapsedMs < 100 ==> p == 100
    ensures elapsedMs >= 9000 ==> p == 10
  {
    var p := 100 - elapsedMs / 100;
    if p < 10 then 10 else p
  }

  /** A slower hit never earns more. */
  lemma PointsMonotone(e1: int, e2: int)
    requires e1 <= e2
    ensures Points(e2) <= Points(e1)
  {
  }

  /** Between the fastest and the slowest band, each further 100 ms costs exactly one point. */
  lemma PointsStep(e: int)
    requires 0 <= e && e + 100 < 9100
    ensures Points(e + 100) == Points(e) - 1
  {
  }

  /** What a hit did. */
  datatype Hit = Ignored | Correct(points: int) | Wrong

  class Game {
    /** The word bank rounds are drawn from: always InitialGameData. */
    const bank: seq<Entry>
    var score: int
    var timeLeft: int
    const moles: array<Mole>
    var active: bool
    var correctWord: string
    var targetImage: string
    /** Time of the current round's reveal, as given by the caller's clock. */
    var roundStart: int

    ghost predicate Valid()
      reads this
    {
      moles.Length == MoleCount && |bank| >= MoleCount && 0 <= timeLeft <= GameDuration && score >= 0
    }

    /** A hit on slot with the given word reaches a mole: the game is on, the slot holds a raised mole, the word is not blank. */
    predicate Hittable(slot: int, word: string)
      reads this, moles
    {
      active && 0 <= slot < moles.Length && moles[slot].up && word != ""
    }

    /** The state of a freshly mounted game, before the first start. */
    constructor (now: int)
      ensures Valid() && fresh(moles) && bank == InitialGameData
      ensures score == 0 && timeLeft == GameDuration && !active
      ensures correctWord == "" && targetImage == "" && roundStart == now
      ensures moles[..] == MakeEmptyMoles(MoleCount)
    {
      bank := InitialGameData;
      score := 0;
      timeLeft := GameDuration;
      moles := new Mole[MoleCount](_ => Mole(false, ""));
      active := false;
      correctWord := "";
      targetImage := "";
      roundStart := now;
    }

    /** `endGameInternal`: stop the session and pull every mole down, words kept. */
    method EndGameInternal()
      requires Valid()
      modifies this, moles
      ensures Valid() && !active
      ensures score == old(score) && timeLeft == old(timeLeft)
      ensures correctWord == old(correctWord) && targetImage == old(targetImage) && roundStart == old(roundStart)
      ensures forall i :: 0 <= i < moles.Length ==> moles[i] == old(moles[i]).(up := false)
    {
      active := false;
      forall i | 0 <= i < moles.Length {
        moles[i] := moles[i].(up := false);
      }
    }

    /**
     * `updateGameTimer`, the one-second tick. The interval is armed by StartGame
     * and cleared by EndGameInternal, so a tick only arrives while active.
     */
    method UpdateGameTimer()
      requires Valid()
      modifies this, moles
      ensures Valid()
      ensures !old(active) ==> unchanged(this) && unchanged(moles)
      ensures old(active) && old(timeLeft) > 1 ==>
        active && timeLeft == old(timeLeft) - 1 && unchanged(moles)
      ensures old(active) && old(timeLeft) <= 1 ==>
        !active && timeLeft == 0 &&
        forall i :: 0 <= i < moles.Length ==> moles[i] == old(moles[i]).(up := false)
      ensures score == old(score) && correctWord == old(correctWord)
      ensures targetImage == old(targetImage) && roundStart == old(roundStart)
    {
      if !active {
        return;
      }
      var next := timeLeft - 1;
      if next <= 0 {
        EndGameInternal();
        timeLeft := 0;
      } else {
        timeLeft := next;
      }
    }

    /** `startGame`: a new session; the first round is asked for by the caller (NextRound) 100 ms later. */
    method StartGame()
      requires Valid()
      modifies this
      ensures Valid() && active && score == 0 && timeLeft == GameDuration
      ensures correctWord == old(correctWord) && targetImage == old(targetImage) && roundStart == old(roundStart)
    {
      active := true;
      score := 0;
      timeLeft := GameDuration;
    }

    /** `nextRound`: clear the board; the caller's timer runs the reveal (RevealRound) 500 ms later. */
    method NextRound()
      requires Valid()
      modifies moles
      ensures Valid()
      ensures old(active) ==> moles[..] == MakeEmptyMoles(MoleCount)
      ensures !old(active) ==> unchanged(moles)
    {
      if !active {
        return;
      }
      forall i | 0 <= i < moles.Length {
        moles[i] := Mole(false, "");
      }
    }

    /**
     * The reveal callback scheduled by NextRound: build the round from the
     * word bank InitialGameData, remember its correct word and picture, and raise all moles.
     */
    method RevealRound(rand: Oracle, now: int) returns (ghost correctIdx: nat, ghost picked: seq<nat>)
      requires Valid()
      modifies this, moles
      ensures Valid()
      ensures !old(active) ==> unchanged(this) && unchanged(moles)
      ensures score == old(score) && timeLeft == old(timeLeft) && active == old(active)
      ensures old(active) ==>
        && roundStart == now
        && (forall i :: 0 <= i < moles.Length ==> moles[i].up)
        && RoundOf(bank, correctIdx, picked, correctWord, Words(moles[..]))
        && targetImage == bank[correctIdx].image
    {
      if !active {
        correctIdx, picked := 0, [];
        return;
      }
      var correct, words;
      correct, words, correctIdx, picked := BuildRoundWords(bank, rand);
      RaiseMoles(words);
      correctWord := correct.word;
      targetImage := correct.image;
      roundStart := now;
    }

    /** Raise every mole, the i-th showing words[i]. */
    method RaiseMoles(words: seq<string>)
      requires moles.Length == |words|
      modifies moles
      ensures forall i :: 0 <= i < moles.Length ==> moles[i] == Mole(true, words[i])
      ensures Words(moles[..]) == words
    {
      forall i | 0 <= i < moles.Length {
        moles[i] := Mole(true, words[i]);
      }
      assert Words(moles[..]) == words;
    }

    /**
     * `handleMoleHit` on slot `slot` showing `word`, `elapsedMs` after the
     * reveal. A hit that reaches no raised mole does nothing. The correct word
     * scores Points(elapsedMs), clears the board and starts the next round; any
     * other word retracts the hit mole alone.
     */
    method HandleMoleHit(slot: int, word: string, elapsedMs: int) returns (outcome: Hit)
      requires Valid()
      modifies this, moles
      ensures Valid()
      ensures outcome.Ignored? <==> !old(Hittable(slot, word))
      ensures outcome.Ignored? ==> unchanged(this) && unchanged(moles)
      ensures outcome.Correct? <==> old(Hittable(slot, word)) && word == old(correctWord)
      ensures outcome.Correct? ==>
        && outcome.points == Points(elapsedMs)
        && score == old(score) + outcome.points
        && moles[..] == MakeEmptyMoles(MoleCount)
      ensures outcome.Wrong? ==>
        && score == old(score)
        && 0 <= slot < moles.Length
        && moles[slot] == old(moles[slot]).(up := false)
        && forall i :: 0 <= i < moles.Length && i != slot ==> moles[i] == old(moles[i])
      ensures active == old(active) && timeLeft == old(timeLeft) && correctWord == old(correctWord)
      ensures targetImage == old(targetImage) && roundStart == old(roundStart)
    {
      if !Hittable(slot, word) {
        return Ignored;
      }
      if word == correctWord {
        var points := Points(elapsedMs);
        score := score + points;
        forall i | 0 <= i < moles.Length {
          moles[i] := Mole(false, "");
        }
        NextRound();
        outcome := Correct(points);
      } else {
        moles[slot] := moles[slot].(up := false);
        outcome := Wrong;
      }
    }
  }
}
