# Turn logic and attention countdown of a party card game

The game page registers players, then gives them turns. On each turn the current
player presses "show card" and gets a card key with a challenge text. A card with
the same key as the previous one cancels the challenge and brings the repeat
penalty instead. A 15-second attention countdown runs from the start of each turn.
When it runs out, the inattention penalty appears and "next turn" becomes
available. This project models that logic in Dafny and proves properties of the
model. It has two parts:

- `turns.dfy`, module `Turns`: the page's module-level state (`listaJugadores`,
  `turnoIndex`, `ultimaCarta` in `js/app.js`) as the fields `players`, `turn` and
  `lastCard` of class `Game`. The buttons and messages of the turn panel become
  abstract fields: `canShow`, `canAdvance`, `penaltyShown`, `penaltyKind`,
  `deckEndShown`, `faceUp`, `face` and `badge`. The page's event handlers are
  methods that change those fields in place. The card draw (`voltearCarta`) is
  an input of type `Draw`: a key with its text, or a failure with a message.
- `timer.dfy`, module `Timer`: the countdown of `js/components/temporizador.js`
  as class `Countdown`. It has the fields `remaining`, `active` and
  `expiredCount`, plus a ghost `log` of every tick and expiry reported to the
  listener. One firing of the interval is the method `Step`, and the returned
  stop function is `Cancel`. The pure functions `Begin`, `Elapse`, `Stopped` and
  `Run` specify the class. The lemmas about them give the exact sequence of
  ticks and expiries.

`names.dfy` (module `Names`) models the `trim` that the add-player handler applies
before it rejects an empty name. `scenarios.dfy` (module `Play`) plays short
sessions through the `Game` class, starting from registration.

Behaviour the model keeps as the code has it:

- The stop function returned at js/app.js:74 is thrown away. So showing a card
  or advancing the turn never stops the attention countdown. Its expiry handler
  (js/app.js:76-81) checks nothing, so it also penalizes a player who has already
  shown a card. `Game.ShowCard` leaves `attention` untouched, and
  `Play.RevealThenTimeout` proves that the revealed card and the inattention
  penalty can be on screen together.
- The countdown expires on "at most zero" (js/components/temporizador.js:24), not
  on "equal to zero". A start value of zero or less therefore ticks once more
  and expires after the first second (`Timer.NonPositiveStart`).
- A card is drawn with replacement, and no code raises the deck-empty error
  (js/components/cartaDisplay.js:18-22). So there is no deck to exhaust. The
  handler's test for `MAZO_VACIO` is modelled as written, on whatever message
  the draw fails with.
- A turn has no explicit phase variable. The phase is the combination of the
  panel flags. The invariant `Game.Valid` states that while "show card" can be
  used, the turn has had no outcome yet.

## Model

| member | source | states |
|---|---|---|
| `Names.Leading` | js/app.js:110 | counts the white space a name starts with: every character it counts is white space, and the next one is not |
| `Names.Trailing` | js/app.js:110 | counts the white space a name ends with: every character it counts is white space, and the one before is not |
| `Names.Trim` | js/app.js:110-111 | the trimmed name is the piece of the input after its leading white space, everything after it in the input is white space, it has no white space at either end, and is empty exactly when the input is all white space. This emptiness test is how the handler decides to refuse a name |
| `Names.RegistrableIffTrimmed` | js/app.js:110-113 | a name with no white space at its ends is exactly a non-empty name that trimming leaves unchanged |
| `Names.TrimIdempotent` | js/app.js:110 | trimming twice is the same as trimming once |
| `Timer.Elapse` | js/components/temporizador.js:19-27 | one elapsed second of a running countdown lowers the counter by exactly 1 and reports the new value, followed by the expiry report and nothing else when it expires. It expires exactly when the counter becomes zero or less: the expiry count rises by one on that second and on no other, and the countdown stops. A stopped countdown is unchanged, so the counter never increases |
| `Timer.Stopped` | js/components/temporizador.js:24-31 | the stop function ends the countdown and keeps everything already reported. On a countdown that has already expired or been stopped it changes nothing |
| `Timer.Deadline` | js/components/temporizador.js:20-24 | a countdown from a positive value expires after that many seconds, with the counter at zero. A start of zero or less expires after exactly one second |
| `Timer.TicksAt` | js/components/temporizador.js:16-21 | in the tick sequence from n, tick i reports n-i, so each tick is one less than the one before |
| `Timer.RunFromStart` | js/components/temporizador.js:13-27 | after k seconds a countdown from n is running and has reported n, n-1, ..., n-k, provided k is before the deadline. From the deadline on it has reported n down to n-Deadline(n), then exactly one expiry, and it has stopped |
| `Timer.PositiveCountdown` | js/components/temporizador.js:13-27 | for n >= 1 the reports are exactly n, n-1, ..., 0 (n+1 ticks) followed by one expiry. Before second n the countdown neither expires nor stops |
| `Timer.NonPositiveStart` | js/components/temporizador.js:16-27 | for n <= 0 the reports are n, then n-1 after the first second, then the expiry |
| `Timer.ActiveUntilDeadline` | js/components/temporizador.js:24-26 | a countdown is still running after k seconds exactly when k is before its deadline |
| `Timer.QuietAfterExpiry` | js/components/temporizador.js:24-26 | once expired, further seconds add no tick and no second expiry |
| `Timer.StoppedStaysPut` | js/components/temporizador.js:24-31 | a stopped countdown stays exactly as it is however many seconds pass |
| `Timer.CancelBeforeExpiry` | js/components/temporizador.js:31 | stopping before the deadline suppresses every later tick and the expiry |
| `Timer.NeverIncreases` | js/components/temporizador.js:20-21 | the counter never increases, however many seconds pass |
| `Timer.Countdown.Start` | js/components/temporizador.js:11-16 | a new countdown holds the start value, is running, and has reported the start value before any time passes |
| `Timer.Countdown.Step` | js/components/temporizador.js:19-28 | one firing of the interval changes the object's state exactly as `Elapse` does |
| `Timer.Countdown.Cancel` | js/components/temporizador.js:31 | calling the stop function changes the object's state exactly as `Stopped` does |
| `Turns.NextIndex` | js/app.js:164 | the index after an advance stays in [0, n). It is the next index, or 0 after the last player |
| `Turns.Rotate` | js/app.js:164 | after any number of advances the index stays in [0, n) |
| `Turns.RotateWithinRound` | js/app.js:164 | within one round, k advances move the turn k places and wrap past the end at most once |
| `Turns.RotateAdds` | js/app.js:164 | a advances followed by b advances are the same as a+b advances |
| `Turns.FullRound` | js/app.js:164 | n advances return to the starting player, and no smaller positive number of advances does |
| `Turns.Periodic` | js/app.js:164 | the turn order repeats with period n |
| `Turns.Game.constructor` | js/app.js:45-47 | the page starts with no players, index 0, no last card, registration shown, and no countdown |
| `Turns.Game.AddPlayer` | js/app.js:109-118 | the trimmed name is appended after the earlier names, whose order is unchanged. A name that is empty after trimming leaves the list unchanged. Nothing else changes, and every registered name stays non-empty and trimmed |
| `Turns.Game.StartTurn` | js/app.js:59-88 | only "show card" is usable. "Next turn", the penalty message, the end-of-deck message and the card face are hidden. The badge names `players[turn]` and a new 15-second countdown starts. The last card and the index are untouched |
| `Turns.Game.StartGame` | js/app.js:121-129 | with fewer than 2 players nothing changes. Otherwise the game is shown and the turn of `players[turn]` starts |
| `Turns.Game.ShowCard` | js/app.js:132-160 | with the previous key, the repeat penalty is shown and the card stays hidden. With any other key, the card is shown face up with its text. Exactly one of these happens on a fresh turn. After any draw the key becomes the last card, "show card" is hidden and "next turn" appears. A failed draw leaves the button disabled and the list, index and last card unchanged, and only the deck-empty message shows the end-of-deck notice. The countdown is not touched |
| `Turns.Game.AttentionExpired` | js/app.js:76-81 | expiry disables "show card", sets the inattention penalty, shows it, and shows "next turn". The card face is left as it was |
| `Turns.Game.AttentionSecond` | js/app.js:74-81 | one second of the latest attention countdown. The countdown changes as `Elapse` says, and the expiry handler runs exactly when that second makes the countdown expire. Otherwise the game is unchanged |
| `Turns.Game.Advance` | js/app.js:163-166 | the index becomes `(turn + 1) % n` and a new turn starts, as in `StartTurn` |
| `Turns.Game.BackToRegistration` | js/app.js:95-102 | the list becomes empty, the index 0 and the last card none, and registration is shown. The panel and the countdown are left as they were |
| `Play.TimeoutThenAdvance` | js/app.js:121-129 | two players register and the first player's turn starts. The attention window runs out with no card shown, so the inattention penalty appears. The next turn belongs to the second player |
| `Play.RepeatedKey` | js/app.js:138-149 | the same key drawn on two consecutive turns is shown the first time. The second time it gives the repeat penalty and is not shown |
| `Play.RevealThenTimeout` | js/app.js:74-81 | a card shown in time leaves the countdown running. When it runs out, the inattention penalty appears next to the revealed card |
| `Play.ThreeAdvances` | js/app.js:163-166 | with three players, three advances go through the second and third players and back to the first |

## Left out

- No deck is modelled: no shuffled copies, no draws without replacement, no exhaustion count and no deck reset. The modelled code draws with replacement and has none of these.
- `js/components/cartaDisplay.js` is not part of this model. It fetches `data/retos.json` and picks a key with `Math.random()`. The model takes its outcome as the `Draw` argument of `Game.ShowCard`. The empty-mapping case, where the picked key is undefined, is not represented.
- "Reset deck" reloads the page (js/app.js:169-171). Navigation is not a transition of the model; a reload amounts to a new `Game`.
- DOM lookups, text and `aria-*` writes, and list rendering are left out. The message texts are reduced to the two `Penalty` kinds. Clearing the name input after an add is not modelled.
- The sounds, `alert` (js/app.js:123) and `console.error` (js/app.js:157) are left out because they are output only.
- The progress-bar width and the seconds text written by the tick callback (js/app.js:83-86) are left out because they are presentation (the bar width is also floating point). The values they receive are the countdown's `log`.
- Real time is not modelled: `setInterval` and `clearInterval` become explicit `Step` and `Cancel` calls.
- Only the countdown of the latest turn is held by the game. Older countdowns that were never stopped keep firing in the source, and their ticks and expiries are not modelled.
- `Game.ShowCard` runs as one step. The source awaits the draw, so a countdown expiry that fires between the click and the draw's result is not modelled.
- `Names.IsSpace`: strings are sequences of Unicode scalar values, not JavaScript's UTF-16 code units. Lone surrogates are therefore not represented.
- `Timer.Countdown`: the start value is an integer. A fractional or non-numeric JavaScript start value is not modelled.
- The missing import of `iniciarTemporizador` in `js/app.js` is not modelled. A turn start calls `iniciarTemporizador`, but `js/app.js` imports only `voltearCarta` (js/app.js:11, js/app.js:74). As written, that call has no binding in the module and would throw a `ReferenceError` after the panel reset, so no countdown would start. The model assumes the countdown of `js/components/temporizador.js` is the one meant, and starts it.
