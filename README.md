# Bouncing-ball game: session and ball state in Dafny

This project models the two state holders of a small Unity rolling-ball game.

- **The game manager** (`GameManager.cs`) keeps the current score, the high score, the pause and game-over flags and a score timer. A pickup adds a fixed score, and every full second of unpaused play adds another. The pause key toggles pause. A new high score is written to the engine's key-value store under the key `"HighScore"`. Restart and main-menu clear state.
- **The player ball** (`BallController.cs`) keeps its health and two contact flags, "grounded" and "in water". Collision and trigger notifications, dispatched on the other object's tag, change those flags or apply damage (spike) and healing (heart). Each frame the ball decides which upward forces to apply: a bounce on every grounded frame, a jump, or a float force in water.

Modules:

- `Int32` (`int32.dfy`) models C#'s unchecked 32-bit `int`. `Wrap` gives the wrapped result of `+` and `-`.
- `SessionSpec` (`session_spec.dfy`) describes the game manager as values. A `SessionState` holds the five fields. Each operation returns the next state plus the list of values it wrote to the store. The module also defines runs of frames and runs of score additions, with the lemmas about them.
- `GameManager` (`game_manager.dfy`) has the class `Session`. Its fields mirror the C# fields. The store is the field `prefs: map<string, int>`, and the ghost field `saved` logs every high-score write. Each method's `ensures` ties the new state and the new writes to the `SessionSpec` function of the old state.
- `BallSpec` (`ball_spec.dfy`) describes the ball as values. It defines `Tag`, the abstract `Effect`s (`Bounce`, `Jump`, `Float`, `GameOverSignal`) that stand in for physics calls and the game-over hook, and the damage, heal and contact handlers. It also defines runs of events, with the lemmas about them.
- `BallController` (`ball_controller.dfy`) has the class `Ball`. Its event methods update the fields in place and return the effects they emit. `Update` only reads the fields and returns the forces for the frame.

The timer counts whole milliseconds (`ONE_SECOND = 1000`), and a frame's delta is a `nat`. Input (the pause key, the jump key) and the frame delta are parameters. The store is an abstract map.

Behaviour of the code that the model pins down:

- **Timer remainder.** An award sets the timer to 0, so time above one second is dropped: frames of 700, 700 and 600 ms give one award, not two (`SessionSpec.DroppedRemainderLosesAnAward`). Awards never exceed the whole seconds elapsed (`SessionSpec.AwardsNeedWholeSeconds`).
- **Game-over signal.** The ball's game-over hook fires on every hit that leaves health at 0, including every further hit at 0, not only the first (`BallSpec.EveryHitAtZeroSignals`).
- **Negative score amounts.** `AddScore` takes any `int`, negative amounts included; the high-score properties hold for every amount (`SessionSpec.AddScoresKeepRecord`, `SessionSpec.AddScoresStoreRecords`).

## Model

| member | source | states |
|---|---|---|
| `Int32.Wrap` | Assets/Scripts/GameManager.cs:80 | the result of unchecked C# `int` addition: in range, equal to the exact sum when that fits, congruent to it modulo 2^32 |
| `SessionSpec.StoredHighScore` | Assets/Scripts/GameManager.cs:182-185 | loading the high score yields the stored value, or 0 when the key is absent |
| `SessionSpec.AddScore` | Assets/Scripts/GameManager.cs:78-90 | the score grows by exactly `amount` when no overflow occurs (modulo 2^32 in general); the new high score is max(old high score, new score), so it is at least the score and never decreases; a value is stored iff the new score beats the old high score, and it is the new high score; flags and timer are untouched |
| `SessionSpec.ResetHighScore` | Assets/Scripts/GameManager.cs:187-193 | the high score becomes 0 and 0 is stored; nothing else changes; afterwards the high score is below the current score exactly when the current score is positive |
| `SessionSpec.Tick` | Assets/Scripts/GameManager.cs:55-76 | the pause key toggles pause only when the game is not over, and the toggle happens before scoring: the frame that pauses awards nothing, and the frame that resumes scores from the kept timer; a paused or finished game keeps score, timer and high score and writes nothing; a running game adds the delta to the timer, and at one second or more awards `scorePerSecond` through `AddScore` and restarts the timer at 0; the timer stays below one second; the high score never decreases |
| `SessionSpec.RunTicks` | Assets/Scripts/GameManager.cs:66-75 | across any sequence of frames without the pause key: the scores stay C# ints, the high score never decreases, the flags stay as they were, and there is at most one award per frame |
| `SessionSpec.FrozenRunChangesNothing` | Assets/Scripts/GameManager.cs:66-75 | while paused or game over, any number of frames leaves the state unchanged, writes nothing and awards nothing |
| `SessionSpec.AwardsNeedWholeSeconds` | Assets/Scripts/GameManager.cs:67-75 | the awards made over a run of frames, times one second, never exceed the starting timer plus the total frame time |
| `SessionSpec.DroppedRemainderLosesAnAward` | Assets/Scripts/GameManager.cs:69-74 | frames of 700, 700 and 600 ms (two whole seconds) from a running session with an empty timer give exactly one award, because the remainder is dropped: the score ends at 1, and 1 is the one value stored |
| `SessionSpec.AddScoresKeepRecord` | Assets/Scripts/GameManager.cs:78-90 | after any sequence of `AddScore` calls, negative amounts included, the high score has not decreased, is at least every current score seen after each call, and is at least the final score |
| `SessionSpec.AddScoresStoreRecords` | Assets/Scripts/GameManager.cs:84-89 | the values stored during a sequence of `AddScore` calls are strictly increasing and above the starting high score; the last one is the final high score; if nothing was stored, the high score is unchanged |
| `SessionSpec.ResetBreaksRecordBound` | Assets/Scripts/GameManager.cs:187-193 | for every state with 0 < current score <= high score, a reset leaves the high score below the unchanged current score |
| `GameManager.Session.constructor` | Assets/Scripts/GameManager.cs:10-44 | field initialisation plus the load done when the manager wakes up: score 0, flags clear, timer 0, high score read from the store (0 if absent), no writes yet |
| `GameManager.Session.SaveHighScore` | Assets/Scripts/GameManager.cs:176-180 | the store maps the high-score key to the current high score, one write is logged, and the session state is unchanged |
| `GameManager.Session.LoadHighScore` | Assets/Scripts/GameManager.cs:182-185 | only the high score changes, to the stored value or 0 |
| `GameManager.Session.AddScore` | Assets/Scripts/GameManager.cs:78-90 | the new state and the logged writes are those of `SessionSpec.AddScore`; the store changes only when a value is written; the configuration is unchanged |
| `GameManager.Session.AddPickupScore` | Assets/Scripts/GameManager.cs:92-95 | exactly `AddScore(scorePerPickup)` |
| `GameManager.Session.PauseGame` | Assets/Scripts/GameManager.cs:109-119 | sets the pause flag; nothing else changes |
| `GameManager.Session.ResumeGame` | Assets/Scripts/GameManager.cs:121-131 | clears the pause flag; nothing else changes |
| `GameManager.Session.GameOver` | Assets/Scripts/GameManager.cs:133-146 | sets the game-over flag; nothing else changes |
| `GameManager.Session.RestartGame` | Assets/Scripts/GameManager.cs:148-156 | score 0, timer 0, both flags cleared, high score and store unchanged |
| `GameManager.Session.MainMenu` | Assets/Scripts/GameManager.cs:158-165 | clears both flags; scores, timer and store unchanged |
| `GameManager.Session.ResetHighScore` | Assets/Scripts/GameManager.cs:187-193 | the state and writes are those of `SessionSpec.ResetHighScore`; the store now holds 0, and current score and configuration are unchanged |
| `GameManager.Session.Tick` | Assets/Scripts/GameManager.cs:55-76 | the new state and the logged writes are those of `SessionSpec.Tick` for the configured `scorePerSecond`; the store changes only with a write |
| `BallSpec.TakeDamage` | Assets/Scripts/BallController.cs:119-136 | health becomes max(0, health - damage) when the subtraction fits an `int`, and is never negative; non-negative damage never raises health; the game-over signal is emitted iff health ends at 0, so it fires again on every hit at 0; nothing else changes |
| `BallSpec.HealAsWritten` | Assets/Scripts/BallController.cs:138-145 | healing with the C# wrap-around before the clamp: health never exceeds the maximum, and the result agrees with `BallSpec.Heal` whenever the sum fits an `int` |
| `BallSpec.HealOverflowLeavesRange` | Assets/Scripts/BallController.cs:140-141 | at health 1 of 3, healing by `int.MaxValue` as written leaves health at `int.MinValue`, outside [0, maxHealth] |
| `BallSpec.HeartAtLargestMaximumWraps` | Assets/Scripts/BallController.cs:97-99 | at health == maxHealth == `int.MaxValue`, the heart's `Heal(1)` as written leaves health at `int.MinValue`, while the model's trigger handler keeps `int.MaxValue` |
| `BallSpec.Heal` | Assets/Scripts/BallController.cs:138-145 | health becomes min(maxHealth, health + amount): either the maximum or the exact sum; a non-negative heal keeps 0 <= health <= maxHealth and never lowers health; healing at full health changes nothing |
| `BallSpec.OnCollisionEnter` | Assets/Scripts/BallController.cs:71-84 | grounded afterwards iff it was grounded before or the tag is Ground or Obstacle; a Spike applies `TakeDamage(1)` with its signal; any other tag leaves health alone and emits nothing; the water flag is untouched |
| `BallSpec.OnCollisionExit` | Assets/Scripts/BallController.cs:86-92 | grounded afterwards iff it was grounded before and the tag is neither Ground nor Obstacle; nothing else changes |
| `BallSpec.OnTriggerEnter` | Assets/Scripts/BallController.cs:94-109 | a Heart heals 1 up to the maximum; Water sets the water flag; no trigger touches the grounded flag |
| `BallSpec.OnTriggerExit` | Assets/Scripts/BallController.cs:111-117 | in water afterwards iff it was in water before and the tag is not Water; nothing else changes |
| `BallSpec.Run` | Assets/Scripts/BallController.cs:71-145 | any sequence of contact events and non-negative damage and heal calls keeps 0 <= health <= maxHealth, and the maximum never changes |
| `BallSpec.GameOverOnlyFromDamage` | Assets/Scripts/BallController.cs:132-135 | in any sequence of events, a game-over signal comes from a damage call or a Spike collision |
| `BallSpec.EveryHitAtZeroSignals` | Assets/Scripts/BallController.cs:132-135 | at health 0, every one of a sequence of non-negative hits emits the game-over signal |
| `BallSpec.DamageScenario` | Assets/Scripts/BallController.cs:119-136 | a ball at 3 of 3 hit for 1 goes to 2 with no signal, then hit for 5 goes to 0 with one signal |
| `BallController.Ball.constructor` | Assets/Scripts/BallController.cs:30-38 | a new ball starts at full health, neither grounded nor in water |
| `BallController.Ball.TakeDamage` | Assets/Scripts/BallController.cs:119-136 | the new state and emitted effects are those of `BallSpec.TakeDamage`; the game-over signal is emitted iff health is now 0; 0 <= health <= maxHealth is kept |
| `BallController.Ball.Heal` | Assets/Scripts/BallController.cs:138-145 | the new state is that of `BallSpec.Heal`; 0 <= health <= maxHealth is kept |
| `BallController.Ball.OnCollisionEnter` | Assets/Scripts/BallController.cs:71-84 | the new state and effects are those of `BallSpec.OnCollisionEnter` |
| `BallController.Ball.OnCollisionExit` | Assets/Scripts/BallController.cs:86-92 | the new state is that of `BallSpec.OnCollisionExit` |
| `BallController.Ball.OnTriggerEnter` | Assets/Scripts/BallController.cs:94-109 | the new state is that of `BallSpec.OnTriggerEnter` |
| `BallController.Ball.OnTriggerExit` | Assets/Scripts/BallController.cs:111-117 | the new state is that of `BallSpec.OnTriggerExit` |
| `BallController.Ball.Update` | Assets/Scripts/BallController.cs:40-69 | on every frame: a bounce is emitted iff grounded, a jump iff the jump key went down while grounded (and then after the bounce), a float iff in water; never a game-over signal; each force at most once; the ball does not change |

## Left out

- `AnimationController.cs` (`AnimationController`, `UIAnimator`) is not part of this model. It is float animation (sine, lerp, ping-pong, random shake) and coroutines, with no discrete state.
- Engine side effects are left out: `Time.timeScale`, cursor lock and visibility, `pauseMenu.SetActive`, text updates for score, high score, final score and health, `Debug.Log`, scene loading on restart, and `QuitGame`.
- The singleton lifecycle in `Awake` (`Instance`, `DontDestroyOnLoad`, destroying duplicates) is left out. The constructor covers only its high-score load.
- The store is an abstract map with a write log. `PlayerPrefs.Save` and disk persistence are not modelled.
- The score timer counts whole milliseconds. The rounding of the engine's floating-point `Time.deltaTime` is not modelled.
- Rigidbody forces are left out: the movement force from the input axes and all force magnitudes are floats. Only which force event fires is modelled.
- Sounds (`PlaySound`), the red-flash coroutine and the destruction of a picked-up heart are left out. None of them changes the modelled state.
- The ball's game-over hook is a local stub, and nothing couples the ball to the game manager. The model emits `GameOverSignal` and does not connect the two classes.
- `BallController.Ball.TakeDamage`: requires non-negative damage. Every caller in the source passes 1, and negative damage would heal past the maximum. `BallSpec.TakeDamage` itself accepts any `int`.
- `BallController.Ball.Heal`: requires a non-negative amount and follows the corrected `BallSpec.Heal`, not the wrap-around of the source (see Findings).
- `BallSpec.OnTriggerEnter`: a heart heals through the corrected `BallSpec.Heal`, so at health == maxHealth == `int.MaxValue` it keeps `int.MaxValue`, where the source's `Heal(1)` wraps to `int.MinValue` (see Findings).
- `BallController.Ball.OnTriggerEnter`: calls the corrected `Heal(1)`, with the same gap at health == maxHealth == `int.MaxValue` as `BallSpec.OnTriggerEnter`.
- `BallSpec.Run`: the range invariant 0 <= health <= maxHealth rests on the corrected heal; with the source's wrapping heal, a heart pickup at maxHealth == `int.MaxValue` or a heal by a large amount leaves the range.
- `BallController.Ball.constructor`: requires a maximum health between 0 and `int.MaxValue`. The source reads it from an editor field and does not check it.

## Findings

| source | as written | input that shows it | evidently intended | confidence | as-written member | corrected member |
|---|---|---|---|---|---|---|
| Assets/Scripts/BallController.cs:140-141 | `currentHealth += amount` wraps around in 32 bits before `Mathf.Min(maxHealth, …)` clamps from above only | health 1, maxHealth 3, `Heal(int.MaxValue)` gives health `int.MinValue`; also the heart pickup's `Heal(1)` at health == maxHealth == `int.MaxValue` gives `int.MinValue` | health = min(maxHealth, health + amount), staying in [0, maxHealth] for any non-negative amount | not executed; the repository's only caller passes 1, which overflows only when maxHealth is `int.MaxValue` | `BallSpec.HealAsWritten`, `BallSpec.HealOverflowLeavesRange`, `BallSpec.HeartAtLargestMaximumWraps` | `BallSpec.Heal` |
