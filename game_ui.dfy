/**
 * The dialog step of `GameUI::continue_game` (`ui/mod.rs`): moving the
 * highlighted choice with the arrow keys, choosing with Enter, and the
 * waiting state the renderer keeps between inputs. The game's own reaction
 * to an action (`perform_action`, the screen that follows, what that screen
 * draws) comes from outside and is passed in.
 */
module GameUi {
  import opened Wrappers
  import opened Ints
  import opened UiTypes
  import opened CursorRenderer

  /**
   * KeyUp: `(option_count + current_choice - 1) % option_count` on `u8`. The
   * sum must not overflow and the count must not be zero, or the Rust code panics.
   */
  function ChoiceUp(n: u8, c: u8): (r: u8)
    requires 0 < n && n + c < U8_LIMIT
    ensures r < n
    ensures c < n ==> r == (if c == 0 then n - 1 else c - 1)
  {
    WrapStep(n, n + c - 1);
    (n + c - 1) % n
  }

  /** KeyDown: `(option_count + current_choice + 1) % option_count` on `u8`. */
  function ChoiceDown(n: u8, c: u8): (r: u8)
    requires 0 < n && n + c + 1 < U8_LIMIT
    ensures r < n
    ensures c < n ==> r == (if c == n - 1 then 0 else c + 1)
  {
    WrapStep(n, n + c + 1);
    (n + c + 1) % n
  }

  /** A sum in `[n - 1, 2n]` reduced modulo `n`. */
  lemma WrapStep(n: int, m: int)
    requires 0 < n && n - 1 <= m
    ensures 0 <= m % n < n
    ensures m < n ==> m % n == m
    ensures n <= m < 2 * n ==> m % n == m - n
    ensures m == 2 * n ==> m % n == 0
  {
    if n <= m < 2 * n {
      assert m == n + (m - n);
    } else if m == 2 * n {
      assert m == n * 2;
    }
  }

  /** Up then down, or down then up, comes back to the same choice. */
  lemma ChoiceUpDown(n: u8, c: u8)
    requires 0 < n && c < n && 2 * n < U8_LIMIT
    ensures ChoiceDown(n, ChoiceUp(n, c)) == c
    ensures ChoiceUp(n, ChoiceDown(n, c)) == c
  {
  }

  /** The choice after `k` presses of KeyDown. */
  function DownPresses(n: u8, c: u8, k: nat): u8
    requires 0 < n && c < n && 2 * n < U8_LIMIT
  {
    if k == 0 then c else ChoiceDown(n, DownPresses(n, c, k - 1))
  }

  /** Pressing `a` times and then `b` times is pressing `a + b` times. */
  lemma {:induction false} DownPressesAppend(n: u8, c: u8, a: nat, b: nat)
    requires 0 < n && c < n && 2 * n < U8_LIMIT
    ensures DownPresses(n, c, a + b) == DownPresses(n, DownPresses(n, c, a), b)
    decreases b
  {
    if b > 0 {
      DownPressesAppend(n, c, a, b - 1);
    }
  }

  /** Below the last option, each KeyDown moves one option on. */
  lemma {:induction false} DownPressesWalk(n: u8, c: u8, k: nat)
    requires 0 < n && c < n && 2 * n < U8_LIMIT && c + k < n
    ensures DownPresses(n, c, k) == c + k
  {
    if k > 0 {
      DownPressesWalk(n, c, k - 1);
    }
  }

  /** KeyDown walks the choices in a cycle: `n` presses come back to the start. */
  lemma FullRound(n: u8, c: u8)
    requires 0 < n && c < n && 2 * n < U8_LIMIT
    ensures DownPresses(n, c, n) == c
  {
    var toLast := n - 1 - c;
    DownPressesWalk(n, c, toLast);
    assert DownPresses(n, c, toLast + 1) == 0;
    DownPressesAppend(n, c, toLast + 1, c);
    if c > 0 {
      DownPressesWalk(n, 0, c);
    }
  }

  /** The number of dialog options, `actions.len() as u8`: the length truncated to eight bits. */
  function OptionCount(count: nat): u8
  {
    count % U8_LIMIT
  }

  /** What `continue_game` demands of its caller so that no step panics. */
  predicate CanContinue<A>(waiting: Option<WaitingState>, input: Input, actions: seq<A>)
  {
    match waiting
    case Some(Dialog(c, _)) =>
      (input == KeyUp ==> 0 < OptionCount(|actions|) && OptionCount(|actions|) + c < U8_LIMIT) &&
      (input == KeyDown ==> 0 < OptionCount(|actions|) && OptionCount(|actions|) + c + 1 < U8_LIMIT) &&
      (input == Enter ==> c < |actions|)
    case _ => true
  }

  class GameUI {
    const renderer: Renderer

    constructor ()
      ensures fresh(renderer) && renderer.waitingState == None
    {
      renderer := new Renderer();
    }

    /**
     * `continue_game(input)`. `actions` are the actions available in the
     * current game state and `anyKey` the action a key press performs on a
     * "press any key" screen; `terminal` and `next` say what the screen after
     * the action is: the terminal one, or one that waits as `next` says.
     * Returns whether the game goes on and the action to perform, if any.
     */
    method ContinueGame<A>(input: Input, actions: seq<A>, anyKey: A, terminal: bool, next: WaitingState)
      returns (continues: bool, performed: Option<A>)
      requires CanContinue(renderer.waitingState, input, actions)
      modifies renderer`waitingState
      ensures var w := old(renderer.waitingState);
        w.Some? && w.value.Dialog? && input != Enter ==> continues && performed == None
      ensures var w := old(renderer.waitingState);
        w.Some? && w.value.Dialog? && input == KeyUp ==>
        renderer.waitingState == Some(Dialog(ChoiceUp(OptionCount(|actions|), w.value.currentChoice), w.value.start))
      ensures var w := old(renderer.waitingState);
        w.Some? && w.value.Dialog? && input == KeyDown ==>
        renderer.waitingState == Some(Dialog(ChoiceDown(OptionCount(|actions|), w.value.currentChoice), w.value.start))
      ensures var w := old(renderer.waitingState);
        w.Some? && w.value.Dialog? && input == Other ==> renderer.waitingState == w
      ensures var w := old(renderer.waitingState);
        w.Some? && w.value.Dialog? && input == Enter ==> performed == Some(actions[w.value.currentChoice])
      ensures old(renderer.waitingState) == Some(PressAnyKey) ==> performed == Some(anyKey)
      ensures old(renderer.waitingState) == None ==> performed == None
      ensures performed.Some? || old(renderer.waitingState) == None ==>
        continues == !terminal && renderer.waitingState == (if terminal then None else Some(next))
    {
      performed := None;
      var waiting := renderer.waitingState;
      if waiting.Some? {
        match waiting.value
        case PressAnyKey =>
          performed := Some(anyKey);
        case Dialog(currentChoice, start) =>
          var optionCount := OptionCount(|actions|);
          match input
          case KeyUp =>
            var choice := ChoiceUp(optionCount, currentChoice);
            renderer.waitingState := Some(Dialog(choice, start));
            return true, None;
          case KeyDown =>
            var choice := ChoiceDown(optionCount, currentChoice);
            renderer.waitingState := Some(Dialog(choice, start));
            return true, None;
          case Enter =>
            performed := Some(actions[currentChoice]);
          case Other =>
            return true, None;
      }
      if terminal {
        renderer.waitingState := None;
        return false, performed;
      }
      renderer.waitingState := Some(next);
      continues := true;
    }
  }
}
