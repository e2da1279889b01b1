# Whack-a-word and matching-pairs engines, modelled in Dafny

This project models the two timer-driven game engines of a small React
arcade, with the audio, DOM and timers taken out.

- **Whack-a-word** (`src/whack-a-mole/useGameLogic.js`). Five moles pop up
  each round. Each shows a word, and one word names the target picture.
  Hitting the right word scores by speed, clears the board and starts the next
  round. Hitting a wrong word pulls that one mole down. A 60-second countdown
  ends the session.
- **Matching pairs**. Three near-identical copies of this hook exist. A board
  holds picture cards and word cards for up to six items; the other items
  wait in a queue. Two picks make a move. A picture and a word of the same
  item match: after 600 ms they leave the board, and the next queued item's
  two cards are shuffled in. The game ends when the board is empty or the
  countdown runs out.

Files:

- `shuffling.dfy` (module `Shuffling`): randomness as an oracle, a sequence
  of draws. It holds the descending Fisher–Yates pass those draws select and
  splicing one element out of a sequence.
- `whack.dfy` (module `WhackAWord`): round building, the points formula, and
  the session as a class `Game`. Its fields are `score`, `timeLeft`, the mole
  array `moles`, `active`, `correctWord`, `targetImage` and `roundStart`.
- `matching.dfy` (module `MatchingPairs`): cards, the deal, match resolution,
  and the game as a class `Game`. Its fields are `board`, `selected`,
  `queue`, `score`, `moves`, `timeLeft`, `isStarted`, `isEnded`,
  `wrongPair`, `correctPair` and `ticking` (whether the interval in
  `timerRef` is armed).

How the outside world is handled:

- **Randomness** is a parameter of type `Oracle`. Each `Math.floor(Math.random() * m)`
  is one draw, so the model proves results for every possible sequence of draws.
- **Timer callbacks** are methods the caller invokes: the one-second ticks,
  the whack-a-word reveal 500 ms after `nextRound`, and the two 600 ms
  matching callbacks. A callback whose timer the source clears is simply
  never invoked.
- **The match callback** works on what it captured at selection time.
  `HandleSelect` returns a `Pending` value holding the two positions and that
  moment's board and queue. `ResolveMatch` consumes it. The score update reads
  the current score (`setScore(prev => prev + 1)`), as in the source.
- **A whack-a-word hit** arrives as `(slot, word, elapsedMs)` instead of a DOM
  event.

## Model

| member | source | states |
|---|---|---|
| `Shuffling.Draw` | src/whack-a-mole/useGameLogic.js:29 | a draw scaled to `m` options is always an index below `m` |
| `Shuffling.RemoveAt` | src/whack-a-mole/useGameLogic.js:38-42 | `splice(i, 1)` leaves one element fewer; the elements before `i` stay put and those after shift down by one |
| `Shuffling.RemoveAtMultiset` | src/whack-a-mole/useGameLogic.js:42 | the spliced-out element plus what is left is exactly the original multiset |
| `Shuffling.FisherYatesBelowPermutes` | src/whack-a-mole/useGameLogic.js:28-31 | for every sequence of draws, the descending swap loop produces a permutation of its input and never touches positions at or above its start |
| `Shuffling.FisherYatesPermutes` | src/games/MatchingGame4x3/useGameLogic.js:3-5 | a shuffle is a permutation of its argument whatever the random choices (for `shuffle`, the rearrangement the draws pick) |
| `WhackAWord.MakeEmptyMoles` | src/whack-a-mole/useGameLogic.js:24 | `n` moles, every one down and blank |
| `WhackAWord.ShuffleArray` | src/whack-a-mole/useGameLogic.js:26-33 | the in-place swap loop on a fresh copy yields the Fisher–Yates permutation of the input, with the same length and multiset; the argument is a value and is not modified |
| `WhackAWord.BuildRoundWords` | src/whack-a-mole/useGameLogic.js:35-45 | with at least `MOLE_COUNT` entries: the correct entry is the first draw; exactly 5 words come back, the correct word among them; the other 4 are words of 4 distinct entries, none of them the correct one; the words are a permutation of correct word + distractors |
| `WhackAWord.PickDistractors` | src/whack-a-mole/useGameLogic.js:39-43 | the splicing loop picks `MOLE_COUNT - 1` distinct data positions, all different from the correct one, and returns their words in pick order |
| `WhackAWord.Points` | src/whack-a-mole/useGameLogic.js:173-174 | points are at least 10 and at most 100 for non-negative elapsed time; 100 in the first tenth of a second, 10 from 9 s on |
| `WhackAWord.PointsMonotone` | src/whack-a-mole/useGameLogic.js:174 | a slower hit never earns more points |
| `WhackAWord.PointsStep` | src/whack-a-mole/useGameLogic.js:174 | between the two clamps, each further 100 ms costs exactly one point |
| `WhackAWord.Game.constructor` | src/whack-a-mole/useGameLogic.js:48-61 | initial state: score 0, 60 s left, inactive, five empty moles, no correct word |
| `WhackAWord.Game.EndGameInternal` | src/whack-a-mole/useGameLogic.js:92-98 | the game becomes inactive and every mole goes down with its word kept; nothing else changes |
| `WhackAWord.Game.UpdateGameTimer` | src/whack-a-mole/useGameLogic.js:100-109 | a tick above 1 s takes exactly one second off; at 1 s or less the time becomes 0 (never negative), the game becomes inactive and all moles go down; score is untouched |
| `WhackAWord.Game.StartGame` | src/whack-a-mole/useGameLogic.js:111-122 | score 0, `timeLeft` = `GAME_DURATION` (60), active |
| `WhackAWord.Game.NextRound` | src/whack-a-mole/useGameLogic.js:124-129 | inactive: nothing changes; active: the board becomes five empty moles |
| `WhackAWord.Game.RevealRound` | src/whack-a-mole/useGameLogic.js:130-137 | inactive: nothing changes; active: all five moles up, showing a valid round of the word bank, and the correct word and image recorded with the round's start time |
| `WhackAWord.Game.RaiseMoles` | src/whack-a-mole/useGameLogic.js:136 | mole `i` is up and shows `words[i]` |
| `WhackAWord.Game.HandleMoleHit` | src/whack-a-mole/useGameLogic.js:156-187 | ignored exactly when inactive, off the board, on a lowered mole or with a blank word; a correct word adds `Points(elapsedMs)` and leaves all moles down and blank; a wrong word leaves the score, lowers only the hit mole and keeps every other mole |
| `MatchingPairs.Cards` | src/games/MatchingGame4x3/useGameLogic.js:88-91 | two cards per item, the picture card at `2k` and the word card at `2k+1`, both with `pair` = the item's text |
| `MatchingPairs.CardAt` | src/games/MatchingGame4x3/useGameLogic.js:88-91 | card `i` belongs to item `i / 2`; even positions hold pictures, odd positions words |
| `MatchingPairs.MatchesExactlyOneItem` | src/games/MatchingGame4x3/useGameLogic.js:131-134 | when item texts are distinct, two dealt cards match (same `pair`, different `type`) iff they are the picture and the word of one item |
| `MatchingPairs.MatchesSymmetric` | src/MatchingGame4x3/useGameLogic.js:127-130 | a card never matches itself, and the order of the two picks does not matter |
| `MatchingPairs.RemovePicked` | src/games/MatchingGame4x3/useGameLogic.js:140 | the filter leaves two cards fewer; the others keep their order |
| `MatchingPairs.RemovePickedMultiset` | src/matching-game-4x3/useGameLogic.js:155 | the filter removes exactly the two picked cards |
| `MatchingPairs.OnBoard` | src/games/MatchingGame4x3/useGameLogic.js:83-84 | `min(6, n)` items go to the board |
| `MatchingPairs.Deal` | src/games/MatchingGame4x3/useGameLogic.js:83-92 | the board has `2·min(6, n)` cards; the queue has `n − min(6, n)` items; so board + 2·queue = 2·n |
| `MatchingPairs.DealPermutes` | src/games/MatchingGame4x3/useGameLogic.js:83-92 | board items plus queue are exactly the game data; the board is exactly the cards of the board items, one picture and one word each |
| `MatchingPairs.AfterMatch` | src/games/MatchingGame4x3/useGameLogic.js:140-150 | a match takes 2 cards off; with a queued item the board length stays and the queue loses its head; with none the board shrinks by 2 and the queue stays empty; board + 2·queue drops by exactly 2 |
| `MatchingPairs.AfterMatchCards` | src/MatchingGame4x3/useGameLogic.js:136-146 | the new board is the old one minus the two picked cards, plus the queue head's picture and word cards when there is one |
| `MatchingPairs.Game.constructor` | src/games/MatchingGame4x3/useGameLogic.js:7-17 | initial state: empty board, queue and selections; score and moves 0; `timeLeft = totalTime`; not started, not ended, no interval |
| `MatchingPairs.Game.Default` | src/matching-game-4x3/useGameLogic.js:8-65 | the same initial state, with the default eight items and a 60 s budget |
| `MatchingPairs.Game.EndGame` | src/games/MatchingGame4x3/useGameLogic.js:61-65 | ended, interval cleared, nothing else changes |
| `MatchingPairs.Game.HomeBack` | src/games/MatchingGame4x3/useGameLogic.js:67-78 | every field back to its initial value (board, queue, selections empty; score, moves 0; `timeLeft = totalTime`; not started, not ended); the interval is not touched |
| `MatchingPairs.Game.StartGame` | src/games/MatchingGame4x3/useGameLogic.js:80-115 | board and queue are the deal of the game data; selections empty; score and moves 0; `timeLeft = totalTime`; started, not ended, interval armed; the conservation invariant holds |
| `MatchingPairs.Game.Tick` | src/games/MatchingGame4x3/useGameLogic.js:106-114 | with the interval armed: at ≤ 1 s the time becomes 0 and the game ends (interval cleared); otherwise exactly one second passes; `timeLeft` stays within `0..totalTime`; no other field changes |
| `MatchingPairs.Game.HandleSelect` | src/games/MatchingGame4x3/useGameLogic.js:117-169 | nothing changes when not started or already picked; otherwise the index is appended; `moves` grows by 1 exactly on the pick that makes the selection length 2; that pick schedules a resolution iff the cards match (and marks `correctPair`), else a clear (and marks `wrongPair` with both indices); board, queue and score never change |
| `MatchingPairs.Game.ResolveMatch` | src/games/MatchingGame4x3/useGameLogic.js:138-157 | score + 1; the board is the captured board after the match; the queue loses its head only when the captured queue had one; selection and `correctPair` cleared; the game ends, and the interval stops, exactly when the board is empty; run on the state it captured, it keeps board + 2·queue + 2·score = 2·(items dealt), and the board ends empty exactly when nothing is queued and every dealt item has been matched |
| `MatchingPairs.Game.ClearWrong` | src/games/MatchingGame4x3/useGameLogic.js:161-164 | `wrongPair` and `selected` emptied; board, queue, score and every other field unchanged |

## Copies

The matching engine exists three times, and one class models all of them.
The line ranges of each operation in the three copies:

| operation | src/games/MatchingGame4x3 | src/matching-game-4x3 | src/MatchingGame4x3 |
|---|---|---|---|
| `shuffle` | 3-5 | 53-55 | 3-5 |
| `endGame` | 61-65 | 84-87 | 58-62 |
| `homeBack` | 67-78 | 89-100 | 64-75 |
| `startGame` and the tick | 80-115 | 102-135 | 77-112 |
| `handleSelect` | 117-169 | 137-182 | 114-165 |
| match callback | 138-157 | 153-172 | 134-153 |
| mismatch callback | 161-164 | 176-179 | 157-160 |

State, branches and constants are the same in all three. The differences:

- `src/matching-game-4x3` loads its sounds as module assets on every render.
  Its `endGame` plays no final sound. Its hook arguments default to eight
  built-in items and a 60-second budget (`MatchingPairs.Game.Default`).
- `src/MatchingGame4x3` loads its sounds inside a `try`.
- `src/games/MatchingGame4x3` builds each sound URL by trying several file
  extensions.

None of these differences touches game state.

## Behaviour worth knowing

- Conservation holds only for a fresh capture. `ResolveMatch` keeps
  board + 2·queue + 2·score = 2·(items dealt) when the board and queue it
  captured are still current. The source does not guard the 600 ms
  callback. A `homeBack` or `startGame` in that window lets the old
  resolution overwrite the new board and add 1 to the new score. The
  contract therefore states conservation under that condition only.
- `homeBack` leaves the interval running. Ticks after it count down from
  `totalTime` again and can set `isEnded` while `isStarted` is false.
  `MatchingPairs.Game.HomeBack` keeps `ticking` unchanged to match.
- A third pick before the 600 ms callback is recorded but counts no move.
  The selection is then longer than 2, and the callback clears it.
- The component in `src/whack-a-mole/WhackAMole.jsx` sets `data-id` and
  `data-word` on its moles, but no `data-up` attribute. The lookup
  `closest('[data-up="true"]')` therefore finds no mole, so with that
  component every hit is ignored. The model treats a hit as reaching a mole
  when that mole is up (`WhackAWord.Game.Hittable`), which is what the
  lookup evidently intends.

## Left out

- Audio: the Tone.js synths (`initSounds`) and every `Audio` load and play. These are fire-and-forget calls that no game state depends on.
- DOM and geometry: mapping a click to a slot (`closest`, `getAttribute`), point popups, hammer position and the feedback flashes. These are cosmetic; a hit arrives as `(slot, word, elapsedMs)`.
- Real timers: `setInterval`/`setTimeout`, clearing them, the 100 ms delay before the first whack-a-word round, and React re-rendering. Each callback is a method the caller invokes; clearing a timer means the caller no longer invokes it.
- React closure staleness of `handleSelect` between renders: the model reads the current state on each pick. Only the 600 ms match callback's capture is modelled.
- WhackAWord.Points: the source computes in floating-point seconds; the model uses whole milliseconds, `max(10, 100 - elapsedMs / 100)`.
- Shuffling.FisherYatesPermutes: `shuffle` sorts by a random comparator. The model takes it to be some permutation picked by the draws. The distribution of either shuffle is not modelled.
- MatchingPairs.Game.HandleSelect: the source throws when the second pick reads a card outside the board. The model requires both picked indices to be on the board at that pick.
- WhackAWord.BuildRoundWords: with fewer than five entries the source reads from an empty pool; the model requires at least five.
- The config-driven quiz engine in `src/games/whack-a-mole/useGameLogic.js`, used by `src/games/whack-a-mole/WhackAMole.jsx`, is a separate engine and is not modelled.
- The `gameConfig` in `src/examples/GameExample.jsx` has no effect, because the whack-a-word component takes no props.
- Presentation components: the start and end screens, buttons, both whack-a-mole components, the matching component's hard-coded report, and routing.
- `restartGame` is `startGame` again and has no member of its own. The unmount cleanup effects only clear timers.
