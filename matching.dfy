/**
 * The matching-pairs engine: a board of picture and word cards, two picks per
 * move, a matched pair leaves the board and the next queued item takes its
 * place, and a one-second countdown ends the game. The three copies of this
 * hook keep the same state and rules and differ only in how they load their
 * sounds, so one class models them all.
 */
module MatchingPairs {
  import opened Shuffling

  /** Pairs dealt onto a fresh board; the other items wait in the queue. */
  const BoardPairs: nat := 6

  /** An item of the game data: a word and the picture it names. */
  datatype Item = Item(text: string, image: string)

  /** A card shows the picture or the word of an item; `pair` is the item's text either way. */
  datatype Card = ImageCard(image: string, pair: string) | WordCard(word: string, pair: string)

  /** The game data and time budget the second copy falls back to. */
  const DefaultGameData: seq<Item> := [
    Item("Apple", "https://upload.wikimedia.org/wikipedia/commons/1/15/Red_Apple.jpg"),
    Item("Banana", "https://upload.wikimedia.org/wikipedia/commons/8/8a/Banana-Single.jpg"),
    Item("Strawberry", "https://upload.wikimedia.org/wikipedia/commons/2/29/PerfectStrawberry.jpg"),
    Item("Grape", "https://upload.wikimedia.org/wikipedia/commons/b/bb/Table_grapes_on_white.jpg"),
    Item("Orange", "https://upload.wikimedia.org/wikipedia/commons/c/c4/Orange-Fruit-Pieces.jpg"),
    Item("Pineapple", "https://upload.wikimedia.org/wikipedia/commons/c/cb/Pineapple_and_cross_section.jpg"),
    Item("Lemon", "https://cdn.britannica.com/84/188484-050-F27B0049/lemons-tree.jpg"),
    Item("Water Melon", "https://thvnext.bing.com/th/id/OIP.1GQiZGpoPVXadfZCucNi2AHaFE?cb=12&rs=1&pid=ImgDetMain&o=7&rm=3")
  ]
  const DefaultTotalTime: nat := 60

  function Min(x: nat, y: nat): nat { if x <= y then x else y }

  /** The two cards of one item. */
  function PairOf(item: Item): seq<Card>
  {
    [ImageCard(item.image, item.text), WordCard(item.text, item.text)]
  }

  /** The `flatMap` of PairOf: each item's picture card, then its word card. */
  function Cards(items: seq<Item>): (r: seq<Card>)
    ensures |r| == 2 * |items|
    ensures forall k :: 0 <= k < |items| ==>
      r[2 * k] == ImageCard(items[k].image, items[k].text) && r[2 * k + 1] == WordCard(items[k].text, items[k].text)
  {
    if items == [] then [] else PairOf(items[0]) + Cards(items[1..])
  }

  /** The card at position i of Cards(items) belongs to item i / 2; even positions hold pictures. */
  lemma CardAt(items: seq<Item>, i: nat)
    requires i < 2 * |items|
    ensures Cards(items)[i] == if i % 2 == 0 then ImageCard(items[i / 2].image, items[i / 2].text)
                               else WordCard(items[i / 2].text, items[i / 2].text)
  {
    var k := i / 2;
    assert k < |items|;
    if i % 2 == 0 {
      assert i == 2 * k;
    } else {
      assert i == 2 * k + 1;
    }
  }

  /** Two cards match when they name the same item and one is its picture, the other its word. */
  predicate Matches(x: Card, y: Card)
  {
    x.pair == y.pair && x.ImageCard? != y.ImageCard?
  }

  predicate TextsDistinct(items: seq<Item>)
  {
    forall i, j :: 0 <= i < j < |items| ==> items[i].text != items[j].text
  }

  /**
   * When no two items share a text, two cards of a dealt board match exactly
   * when they are the picture and the word of one item.
   */
  lemma {:induction false} MatchesExactlyOneItem(items: seq<Item>, i: nat, j: nat)
    requires TextsDistinct(items) && i < 2 * |items| && j < 2 * |items|
    ensures Matches(Cards(items)[i], Cards(items)[j]) <==> i != j && i / 2 == j / 2
  {
    CardAt(items, i);
    CardAt(items, j);
    if i / 2 < j / 2 {
      assert items[i / 2].text != items[j / 2].text;
    } else if j / 2 < i / 2 {
      assert items[j / 2].text != items[i / 2].text;
    }
  }

  /** A card never matches itself, and matching does not depend on the order of the picks. */
  lemma MatchesSymmetric(x: Card, y: Card)
    ensures !Matches(x, x)
    ensures Matches(x, y) <==> Matches(y, x)
  {
  }

  /**
   * `board.filter((_, i) => i !== a && i !== b)`: the board without the two
   * picked positions, the other cards in their order.
   */
  function RemovePicked<T>(s: seq<T>, a: nat, b: nat): (r: seq<T>)
    requires a < |s| && b < |s| && a != b
    ensures |r| == |s| - 2
    ensures forall k :: 0 <= k < |r| ==>
      r[k] == s[if k < Min(a, b) then k else if k + 1 < Max(a, b) then k + 1 else k + 2]
  {
    var once := RemoveAt(s, Max(a, b));
    assert once[Min(a, b)] == s[Min(a, b)];
    RemoveAt(once, Min(a, b))
  }

  function Max(x: nat, y: nat): nat { if x <= y then y else x }

  /** The filter drops exactly the two picked cards: what is left and what was picked make up the board. */
  lemma RemovePickedMultiset<T>(s: seq<T>, a: nat, b: nat)
    requires a < |s| && b < |s| && a != b
    ensures multiset(RemovePicked(s, a, b)) + multiset{s[a], s[b]} == multiset(s)
  {
    var lo, hi := Min(a, b), Max(a, b);
    var once := RemoveAt(s, hi);
    assert once[lo] == s[lo];
    RemoveAtMultiset(s, hi);
    RemoveAtMultiset(once, lo);
    calc {
      multiset(RemovePicked(s, a, b)) + multiset{s[a], s[b]};
      multiset(RemoveAt(once, lo)) + multiset{once[lo]} + multiset{s[hi]};
      multiset(once) + multiset{s[hi]};
      multiset(s);
    }
  }

  /** A board and the items still waiting to be dealt onto it. */
  datatype Layout = Layout(board: seq<Card>, queue: seq<Item>)

  /** The items `startGame` deals onto the board: the first BoardPairs of the shuffled data. */
  function OnBoard(data: seq<Item>, itemDraws: Oracle): (r: seq<Item>)
    ensures |r| == Min(BoardPairs, |data|)
  {
    FisherYates(data, itemDraws)[..Min(BoardPairs, |data|)]
  }

  /**
   * The deal of `startGame`: shuffle the items, put the cards of the first
   * BoardPairs of them on the board in shuffled order (`shuffle` sorts by a
   * random comparator; here it is the rearrangement the draws pick), and
   * queue the rest. Every item is dealt once: two cards each on the board,
   * one entry each in the queue.
   */
  function Deal(data: seq<Item>, itemDraws: Oracle, cardDraws: Oracle): (r: Layout)
    ensures |r.board| == 2 * Min(BoardPairs, |data|)
    ensures |r.queue| == |data| - Min(BoardPairs, |data|)
    ensures |r.board| + 2 * |r.queue| == 2 * |data|
  {
    var shuffled := FisherYates(data, itemDraws);
    Layout(FisherYates(Cards(OnBoard(data, itemDraws)), cardDraws), shuffled[Min(BoardPairs, |data|)..])
  }

  /**
   * The deal loses and invents nothing: the board holds exactly the cards of
   * the dealt items, and those items and the queue together are the game data.
   */
  lemma DealPermutes(data: seq<Item>, itemDraws: Oracle, cardDraws: Oracle)
    ensures multiset(OnBoard(data, itemDraws)) + multiset(Deal(data, itemDraws, cardDraws).queue) == multiset(data)
    ensures multiset(Deal(data, itemDraws, cardDraws).board) == multiset(Cards(OnBoard(data, itemDraws)))
  {
    var shuffled := FisherYates(data, itemDraws);
    var k := Min(BoardPairs, |data|);
    assert shuffled == shuffled[..k] + shuffled[k..];
    FisherYatesPermutes(data, itemDraws);
    FisherYatesPermutes(Cards(OnBoard(data, itemDraws)), cardDraws);
  }

  /**
   * What the match callback makes of the board and queue it captured: the
   * two picked cards leave; if an item is queued, its two cards join the
   * rest and the whole board is shuffled, and the queue loses its head.
   */
  function AfterMatch(board: seq<Card>, queue: seq<Item>, a: nat, b: nat, rand: Oracle): (r: Layout)
    requires a < |board| && b < |board| && a != b
    ensures |r.board| + 2 * |r.queue| == |board| + 2 * |queue| - 2
    ensures queue == [] ==> r.board == RemovePicked(board, a, b) && r.queue == []
    ensures queue != [] ==> |r.board| == |board| && r.queue == queue[1..]
  {
    var rest := RemovePicked(board, a, b);
    if queue == [] then Layout(rest, queue)
    else Layout(FisherYates(rest + PairOf(queue[0]), rand), queue[1..])
  }

  /**
   * A match takes exactly the two picked cards off the board and, when an
   * item is queued, puts exactly that item's two cards on.
   */
  lemma AfterMatchCards(board: seq<Card>, queue: seq<Item>, a: nat, b: nat, rand: Oracle)
    requires a < |board| && b < |board| && a != b
    ensures multiset(AfterMatch(board, queue, a, b, rand).board) + multiset{board[a], board[b]}
      == multiset(board) + (if queue == [] then multiset{} else multiset(PairOf(queue[0])))
  {
    RemovePickedMultiset(board, a, b);
    if queue != [] {
      FisherYatesPermutes(RemovePicked(board, a, b) + PairOf(queue[0]), rand);
    }
  }

  /**
   * The callback a selection leaves behind, to run 600 ms later: resolve a
   * match of positions a and b using the board and queue of the moment of
   * selection, or clear a mismatch, or nothing.
   */
  datatype Pending =
    | NoCallback
    | ResolveLater(a: nat, b: nat, board: seq<Card>, queue: seq<Item>)
    | ClearLater

  /** A pending match names two different positions of the board it captured. */
  predicate Resolvable(p: Pending)
  {
    p.ResolveLater? && p.a != p.b && p.a < |p.board| && p.b < |p.board|
  }

  class Game {
    /** The hook's arguments: the items to play with and the time budget in seconds. */
    const gameData: seq<Item>
    const totalTime: nat

    var board: seq<Card>
    var selected: seq<nat>
    var queue: seq<Item>
    var score: nat
    var moves: nat
    var timeLeft: int
    var isStarted: bool
    var isEnded: bool
    var wrongPair: seq<nat>
    var correctPair: seq<nat>
    /** Whether the one-second interval in `timerRef` is armed. */
    var ticking: bool
    /** The number of items dealt by the last start (0 before any, and after going home). */
    ghost var dealt: nat

    ghost predicate Valid()
      reads this
    {
      0 <= timeLeft <= totalTime
    }

    /**
     * Every dealt item is on the board as two cards, waiting in the queue, or
     * already counted in the score.
     */
    ghost predicate Conserved()
      reads this
    {
      |board| + 2 * |queue| + 2 * score == 2 * dealt
    }

    /** A pending match still sees the board and queue it captured. */
    ghost predicate Current(p: Pending)
      reads this
    {
      p.ResolveLater? && p.board == board && p.queue == queue
    }

    /** The state of a freshly mounted hook. */
    constructor (gameData: seq<Item>, totalTime: nat)
      ensures Valid() && Conserved()
      ensures this.gameData == gameData && this.totalTime == totalTime
      ensures board == [] && queue == [] && selected == [] && wrongPair == [] && correctPair == []
      ensures score == 0 && moves == 0 && timeLeft == totalTime
      ensures !isStarted && !isEnded && !ticking
    {
      this.gameData := gameData;
      this.totalTime := totalTime;
      board, queue, selected, wrongPair, correctPair := [], [], [], [], [];
      score, moves, timeLeft := 0, 0, totalTime;
      isStarted, isEnded, ticking := false, false, false;
      dealt := 0;
    }

    /** The hook called without arguments: the default items and a 60-second budget. */
    constructor Default()
      ensures Valid() && Conserved()
      ensures gameData == DefaultGameData && totalTime == DefaultTotalTime
      ensures board == [] && queue == [] && selected == [] && wrongPair == [] && correctPair == []
      ensures score == 0 && moves == 0 && timeLeft == DefaultTotalTime
      ensures !isStarted && !isEnded && !ticking
    {
      gameData := DefaultGameData;
      totalTime := DefaultTotalTime;
      board, queue, selected, wrongPair, correctPair := [], [], [], [], [];
      score, moves, timeLeft := 0, 0, DefaultTotalTime;
      isStarted, isEnded, ticking := false, false, false;
      dealt := 0;
    }

    /** `endGame`: mark the game over and clear the interval. */
    method EndGame()
      modifies this
      ensures isEnded && !ticking
      ensures board == old(board) && queue == old(queue) && selected == old(selected)
      ensures score == old(score) && moves == old(moves) && timeLeft == old(timeLeft)
      ensures isStarted == old(isStarted) && wrongPair == old(wrongPair) && correctPair == old(correctPair)
      ensures dealt == old(dealt)
    {
      isEnded := true;
      ticking := false;
    }

    /**
     * `homeBack`: every field of the game back to its initial value. The
     * interval is left as it is.
     */
    method HomeBack()
      requires Valid()
      modifies this
      ensures Valid() && Conserved()
      ensures board == [] && queue == [] && selected == [] && wrongPair == [] && correctPair == []
      ensures score == 0 && moves == 0 && timeLeft == totalTime
      ensures !isStarted && !isEnded && ticking == old(ticking)
    {
      isStarted, isEnded := false, false;
      board, queue, selected, wrongPair, correctPair := [], [], [], [], [];
      score, moves, timeLeft := 0, 0, totalTime;
      dealt := 0;
    }

    /**
     * `startGame`: deal a fresh board from the game data, reset every counter,
     * and (re)arm the one-second interval.
     */
    method StartGame(itemDraws: Oracle, cardDraws: Oracle)
      requires Valid()
      modifies this
      ensures Valid() && Conserved()
      ensures Layout(board, queue) == Deal(gameData, itemDraws, cardDraws)
      ensures selected == [] && wrongPair == [] && correctPair == []
      ensures score == 0 && moves == 0 && timeLeft == totalTime
      ensures isStarted && !isEnded && ticking
    {
      var layout := Deal(gameData, itemDraws, cardDraws);
      board, queue := layout.board, layout.queue;
      selected, wrongPair, correctPair := [], [], [];
      score, moves, timeLeft := 0, 0, totalTime;
      isStarted, isEnded := true, false;
      ticking := true;
      dealt := |gameData|;
    }

    /**
     * The interval callback: at one second or less the game ends at 0,
     * otherwise one second passes. No tick arrives once the interval is cleared.
     */
    method Tick()
      requires Valid()
      modifies this
      ensures Valid()
      ensures !old(ticking) ==> unchanged(this)
      ensures old(ticking) && old(timeLeft) <= 1 ==> timeLeft == 0 && isEnded && !ticking
      ensures old(ticking) && old(timeLeft) > 1 ==>
        timeLeft == old(timeLeft) - 1 && isEnded == old(isEnded) && ticking
      ensures board == old(board) && queue == old(queue) && selected == old(selected)
      ensures score == old(score) && moves == old(moves) && isStarted == old(isStarted)
      ensures wrongPair == old(wrongPair) && correctPair == old(correctPair) && dealt == old(dealt)
    {
      if !ticking {
        return;
      }
      if timeLeft <= 1 {
        EndGame();
        timeLeft := 0;
      } else {
        timeLeft := timeLeft - 1;
      }
    }

    /** This pick completes a pair: the game is on, the card is new, and one card is already picked. */
    predicate SecondPick(index: nat)
      reads this
    {
      isStarted && index !in selected && |selected| == 1
    }

    /**
     * `handleSelect(index)`. A pick before the start or of a picked card is
     * ignored. Otherwise the card joins the selection, and when that makes two
     * the move is counted and the two cards are compared: a match is marked in
     * `correctPair` and resolved later, a mismatch is marked in `wrongPair`
     * and cleared later. The source reads `board[a]` and `board[b]` on the
     * second pick, so both must be cards of the board.
     */
    method HandleSelect(index: nat) returns (pending: Pending)
      requires Valid()
      requires SecondPick(index) ==> selected[0] < |board| && index < |board|
      modifies this
      ensures Valid()
      ensures board == old(board) && queue == old(queue) && score == old(score)
      ensures !old(isStarted) || index in old(selected) ==> unchanged(this) && pending == NoCallback
      ensures old(isStarted) && index !in old(selected) ==> selected == old(selected) + [index]
      ensures moves == old(moves) + (if old(SecondPick(index)) then 1 else 0)
      ensures pending.ResolveLater? <==>
        old(SecondPick(index)) && Matches(board[old(selected)[0]], board[index])
      ensures pending.ClearLater? <==>
        old(SecondPick(index)) && !Matches(board[old(selected)[0]], board[index])
      ensures pending.ResolveLater? ==>
        && pending == ResolveLater(old(selected)[0], index, board, queue)
        && Resolvable(pending) && Current(pending)
        && correctPair == [pending.a, pending.b] && wrongPair == old(wrongPair)
      ensures pending.ClearLater? ==> wrongPair == selected && correctPair == old(correctPair)
      ensures pending.NoCallback? ==> wrongPair == old(wrongPair) && correctPair == old(correctPair)
      ensures timeLeft == old(timeLeft) && isStarted == old(isStarted) && isEnded == old(isEnded)
      ensures ticking == old(ticking) && dealt == old(dealt)
    {
      if !isStarted {
        return NoCallback;
      }
      if index in selected {
        return NoCallback;
      }
      var newSelected := selected + [index];
      selected := newSelected;
      pending := NoCallback;
      if |newSelected| == 2 {
        moves := moves + 1;
        var a, b := newSelected[0], newSelected[1];
        if Matches(board[a], board[b]) {
          correctPair := [a, b];
          pending := ResolveLater(a, b, board, queue);
        } else {
          wrongPair := newSelected;
          pending := ClearLater;
        }
      }
    }

    /**
     * The 600 ms callback of a match. The score goes up by one on the current
     * value, the board becomes the captured board without the pair (refilled
     * from the captured queue when it has an item, which then leaves that
     * queue), the selection is cleared, and an empty board ends the game.
     * Run on the state it captured, it keeps every dealt item accounted for.
     */
    method ResolveMatch(p: Pending, rand: Oracle)
      requires Valid() && Resolvable(p)
      modifies this
      ensures Valid()
      ensures score == old(score) + 1
      ensures board == AfterMatch(p.board, p.queue, p.a, p.b, rand).board
      ensures queue == if p.queue == [] then old(queue) else AfterMatch(p.board, p.queue, p.a, p.b, rand).queue
      ensures selected == [] && correctPair == [] && wrongPair == old(wrongPair)
      ensures isEnded == (old(isEnded) || board == [])
      ensures ticking == (old(ticking) && board != [])
      ensures moves == old(moves) && timeLeft == old(timeLeft) && isStarted == old(isStarted)
      ensures dealt == old(dealt)
      ensures old(Conserved()) && old(Current(p)) ==> Conserved()
      ensures old(Conserved()) && old(Current(p)) ==> (board == [] <==> queue == [] && score == dealt)
    {
      var next := AfterMatch(p.board, p.queue, p.a, p.b, rand);
      assert |next.board| + 2 * |next.queue| == |p.board| + 2 * |p.queue| - 2;
      assert p.queue != [] ==> |next.board| >= 2;
      score := score + 1;
      if p.queue != [] {
        queue := next.queue;
      }
      board := next.board;
      selected := [];
      correctPair := [];
      if |board| == 0 {
        EndGame();
      }
    }

    /** The 600 ms callback of a mismatch: forget the picks; nothing else changes. */
    method ClearWrong()
      requires Valid()
      modifies this
      ensures Valid()
      ensures wrongPair == [] && selected == []
      ensures board == old(board) && queue == old(queue) && score == old(score)
      ensures moves == old(moves) && timeLeft == old(timeLeft) && correctPair == old(correctPair)
      ensures isStarted == old(isStarted) && isEnded == old(isEnded) && ticking == old(ticking)
      ensures dealt == old(dealt)
    {
      wrongPair := [];
      selected := [];
    }
  }
}
