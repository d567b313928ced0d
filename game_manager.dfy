/** The game manager object: its score, pause and game-over fields updated in place,
    and the key-value store into which it writes the high score. */
module GameManager {
  import opened Int32
  import opened SessionSpec

  class Session {
    var currentScore: int
    var highScore: int
    var scorePerPickup: int
    var scorePerSecond: int
    var scoreTimer: nat  // milliseconds
    var isPaused: bool
    var isGameOver: bool

    /** The key-value store (the engine's player preferences) as seen by this session. */
    var prefs: map<string, int>
    /** Every value written under the high-score key, oldest first. */
    ghost var saved: seq<int>

    /** The session's score and flags as a value. */
    function State(): SessionState
      reads this
    {
      SessionState(currentScore, highScore, isPaused, isGameOver, scoreTimer)
    }

    /** Fields are C# ints, a stored high score is one too, and the store holds the last value written. */
    ghost predicate Valid()
      reads this
    {
      State().Valid() && InRange(scorePerPickup) && InRange(scorePerSecond) &&
      StoreValid(prefs) &&
      (saved != [] ==> HIGH_SCORE_KEY in prefs && prefs[HIGH_SCORE_KEY] == saved[|saved| - 1])
    }

    static predicate StoreValid(store: map<string, int>) {
      HIGH_SCORE_KEY in store ==> InRange(store[HIGH_SCORE_KEY])
    }

    /** Field initialisation and the high-score load done when the manager wakes up. */
    constructor (store: map<string, int>, perPickup: int, perSecond: int)
      requires StoreValid(store) && InRange(perPickup) && InRange(perSecond)
      ensures Valid()
      ensures State() == SessionState(0, StoredHighScore(store), false, false, 0)
      ensures prefs == store && saved == []
      ensures scorePerPickup == perPickup && scorePerSecond == perSecond
    {
      currentScore, highScore := 0, 0;
      scorePerPickup, scorePerSecond := perPickup, perSecond;
      scoreTimer := 0;
      isPaused, isGameOver := false, false;
      prefs := store;
      saved := [];
      new;
      LoadHighScore();
    }

    /** Writes the high score to the store. */
    method SaveHighScore()
      requires Valid()
      modifies this
      ensures Valid()
      ensures prefs == old(prefs)[HIGH_SCORE_KEY := highScore] && saved == old(saved) + [highScore]
      ensures StoredHighScore(prefs) == highScore
      ensures State() == old(State())
      ensures scorePerPickup == old(scorePerPickup) && scorePerSecond == old(scorePerSecond)
    {
      prefs := prefs[HIGH_SCORE_KEY := highScore];
      saved := saved + [highScore];
    }

    /** Reads the high score back from the store, 0 when none is stored. */
    method LoadHighScore()
      requires Valid()
      modifies this
      ensures Valid()
      ensures State() == old(State()).(highScore := StoredHighScore(prefs))
      ensures prefs == old(prefs) && saved == old(saved)
      ensures scorePerPickup == old(scorePerPickup) && scorePerSecond == old(scorePerSecond)
    {
      highScore := if HIGH_SCORE_KEY in prefs then prefs[HIGH_SCORE_KEY] else 0;
    }

    method AddScore(amount: int)
      requires Valid() && InRange(amount)
      modifies this
      ensures Valid()
      ensures State() == SessionSpec.AddScore(old(State()), amount).state
      ensures saved == old(saved) + SessionSpec.AddScore(old(State()), amount).written
      ensures prefs == if saved == old(saved) then old(prefs) else old(prefs)[HIGH_SCORE_KEY := highScore]
      ensures scorePerPickup == old(scorePerPickup) && scorePerSecond == old(scorePerSecond)
    {
      currentScore := Wrap(currentScore + amount);
      if currentScore > highScore {
        highScore := currentScore;
        SaveHighScore();
      }
    }

    method AddPickupScore()
      requires Valid()
      modifies this
      ensures Valid()
      ensures State() == SessionSpec.AddScore(old(State()), scorePerPickup).state
      ensures saved == old(saved) + SessionSpec.AddScore(old(State()), scorePerPickup).written
      ensures prefs == if saved == old(saved) then old(prefs) else old(prefs)[HIGH_SCORE_KEY := highScore]
      ensures scorePerPickup == old(scorePerPickup) && scorePerSecond == old(scorePerSecond)
    {
      AddScore(scorePerPickup);
    }

    method PauseGame()
      requires Valid()
      modifies this
      ensures Valid()
      ensures State() == old(State()).(isPaused := true)
      ensures prefs == old(prefs) && saved == old(saved)
      ensures scorePerPickup == old(scorePerPickup) && scorePerSecond == old(scorePerSecond)
    {
      isPaused := true;
    }

    method ResumeGame()
      requires Valid()
      modifies this
      ensures Valid()
      ensures State() == old(State()).(isPaused := false)
      ensures prefs == old(prefs) && saved == old(saved)
      ensures scorePerPickup == old(scorePerPickup) && scorePerSecond == old(scorePerSecond)
    {
      isPaused := false;
    }

    method GameOver()
      requires Valid()
      modifies this
      ensures Valid()
      ensures State() == old(State()).(isGameOver := true)
      ensures prefs == old(prefs) && saved == old(saved)
      ensures scorePerPickup == old(scorePerPickup) && scorePerSecond == old(scorePerSecond)
    {
      isGameOver := true;
    }

    /** Clears the score, the timer and both flags; the high score stays. */
    method RestartGame()
      requires Valid()
      modifies this
      ensures Valid()
      ensures State() == SessionState(0, old(highScore), false, false, 0)
      ensures prefs == old(prefs) && saved == old(saved)
      ensures scorePerPickup == old(scorePerPickup) && scorePerSecond == old(scorePerSecond)
    {
      isPaused := false;
      isGameOver := false;
      currentScore := 0;
      scoreTimer := 0;
    }

    /** Clears both flags only; scores and timer stay. */
    method MainMenu()
      requires Valid()
      modifies this
      ensures Valid()
      ensures State() == old(State()).(isPaused := false, isGameOver := false)
      ensures prefs == old(prefs) && saved == old(saved)
      ensures scorePerPickup == old(scorePerPickup) && scorePerSecond == old(scorePerSecond)
    {
      isPaused := false;
      isGameOver := false;
    }

    method ResetHighScore()
      requires Valid()
      modifies this
      ensures Valid()
      ensures State() == SessionSpec.ResetHighScore(old(State())).state
      ensures saved == old(saved) + SessionSpec.ResetHighScore(old(State())).written
      ensures prefs == old(prefs)[HIGH_SCORE_KEY := 0] && StoredHighScore(prefs) == 0
      ensures scorePerPickup == old(scorePerPickup) && scorePerSecond == old(scorePerSecond)
    {
      highScore := 0;
      prefs := prefs[HIGH_SCORE_KEY := 0];
      saved := saved + [0];
    }

    /** One frame: the pause key first, then scoring over time. */
    method Tick(pauseKey: bool, delta: nat)
      requires Valid()
      modifies this
      ensures Valid()
      ensures State() == SessionSpec.Tick(old(State()), scorePerSecond, pauseKey, delta).state
      ensures saved == old(saved) + SessionSpec.Tick(old(State()), scorePerSecond, pauseKey, delta).written
      ensures prefs == if saved == old(saved) then old(prefs) else old(prefs)[HIGH_SCORE_KEY := highScore]
      ensures scorePerPickup == old(scorePerPickup) && scorePerSecond == old(scorePerSecond)
    {
      if pauseKey && !isGameOver {
        if isPaused {
          ResumeGame();
        } else {
          PauseGame();
        }
      }
      if !isPaused && !isGameOver {
        scoreTimer := scoreTimer + delta;
        if scoreTimer >= ONE_SECOND {
          AddScore(scorePerSecond);
          scoreTimer := 0;
        }
      }
    }
  }
}
