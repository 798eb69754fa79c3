// The game-state machine of a world: PLAYING, GAME_OVER or PAUSED, and the
// time spent in GAME_OVER. Float time is modelled as a real.

module GameStates {

  datatype GameState = PLAYING | GAME_OVER | PAUSED

  class GameStateManager {
    var currentState: GameState
    var gameOverTime: real

    constructor ()
      ensures currentState == PLAYING && gameOverTime == 0.0
    {
      currentState := PLAYING;
      gameOverTime := 0.0;
    }

    /** setState: entering GAME_OVER restarts the game-over clock; any
        other state keeps it. */
    method SetState(newState: GameState)
      modifies this
      ensures currentState == newState
      ensures gameOverTime == if newState == GAME_OVER then 0.0 else old(gameOverTime)
    {
      currentState := newState;
      if newState == GAME_OVER {
        gameOverTime := 0.0;
      }
    }

    /** update: the clock runs only in GAME_OVER. */
    method Update(deltaTime: real)
      modifies this
      ensures currentState == old(currentState)
      ensures gameOverTime == if old(currentState) == GAME_OVER then old(gameOverTime) + deltaTime else old(gameOverTime)
    {
      if currentState == GAME_OVER {
        gameOverTime := gameOverTime + deltaTime;
      }
    }

    method TriggerGameOver()
      modifies this
      ensures currentState == GAME_OVER && gameOverTime == 0.0
    {
      SetState(GAME_OVER);
    }

    method ResetGame()
      modifies this
      ensures currentState == PLAYING && gameOverTime == 0.0
    {
      SetState(PLAYING);
      gameOverTime := 0.0;
    }

    predicate IsPlaying()
      reads this
    {
      currentState == PLAYING
    }

    predicate IsGameOver()
      reads this
    {
      currentState == GAME_OVER
    }

    predicate IsPaused()
      reads this
    {
      currentState == PAUSED
    }
  }
}
