/**
 * `TryRenderer` of the iOS shell: every call goes to the primary renderer
 * first and, when that throws, the same call with the same arguments goes to
 * the fallback renderer. It is used with a replay renderer as primary to
 * restore a saved game and then hand over to the screen.
 *
 * A renderer is modelled as a state-passing function from its state and a
 * call to its new state and what the call returned or threw.
 */
module TryRendering {
  import opened Wrappers
  import opened UiTypes
  import opened RendererCalls
  import IosReplay

  /** The states of both wrapped renderers. */
  datatype Pair<P, F> = Pair(primary: P, fallback: F)

  /**
   * One call through the composition. The primary's error is dropped; an
   * error of the fallback is what the composition throws. A call the primary
   * answers never reaches the fallback.
   */
  function TryCall<P, F, E1, E2>(
    primary: (P, Call) -> Answer<P, E1>, fallback: (F, Call) -> Answer<F, E2>,
    s: Pair<P, F>, call: Call): (a: Answer<Pair<P, F>, E2>)
    ensures primary(s.primary, call).result.Ok? ==>
      a.result == Ok(primary(s.primary, call).result.value) &&
      a.state == Pair(primary(s.primary, call).state, s.fallback)
    ensures primary(s.primary, call).result.Err? ==>
      a.result == fallback(s.fallback, call).result &&
      a.state == Pair(primary(s.primary, call).state, fallback(s.fallback, call).state)
  {
    var p := primary(s.primary, call);
    if p.result.Ok? then
      Answer(Pair(p.state, s.fallback), Ok(p.result.value))
    else
      var f := fallback(s.fallback, call);
      Answer(Pair(p.state, f.state), f.result)
  }

  /** A run of calls through one renderer: its final state and every result, in order. */
  function Run<S, E>(renderer: (S, Call) -> Answer<S, E>, s: S, calls: seq<Call>): (seq<Result<Reply, E>>, S)
    decreases |calls|
  {
    if calls == [] then ([], s)
    else
      var a := renderer(s, calls[0]);
      var (results, final) := Run(renderer, a.state, calls[1..]);
      ([a.result] + results, final)
  }

  /** A run of calls through the composition. */
  function TryRun<P, F, E1, E2>(
    primary: (P, Call) -> Answer<P, E1>, fallback: (F, Call) -> Answer<F, E2>,
    s: Pair<P, F>, calls: seq<Call>): (seq<Result<Reply, E2>>, Pair<P, F>)
    decreases |calls|
  {
    if calls == [] then ([], s)
    else
      var a := TryCall(primary, fallback, s, calls[0]);
      var (results, final) := TryRun(primary, fallback, a.state, calls[1..]);
      ([a.result] + results, final)
  }

  /** The iOS replay renderer as a state-passing function over the keys it has left. */
  function Replay(remaining: seq<Input>, call: Call): Answer<seq<Input>, IosReplay.ReplayError>
  {
    ReplayStep(remaining, call, IosReplay.NoMoreInput)
  }

  /**
   * Once the replay is used up, the composition behaves exactly as the
   * fallback alone: the same results for every call, and the fallback ends in
   * the same state.
   */
  lemma {:induction false} ExhaustedReplayDefersToFallback<F, E>(
    fallback: (F, Call) -> Answer<F, E>, f: F, calls: seq<Call>)
    ensures TryRun(Replay, fallback, Pair([], f), calls).0 == Run(fallback, f, calls).0
    ensures TryRun(Replay, fallback, Pair([], f), calls).1 == Pair([], Run(fallback, f, calls).1)
    decreases |calls|
  {
    if calls != [] {
      var a := TryCall(Replay, fallback, Pair([], f), calls[0]);
      assert a.state == Pair([], fallback(f, calls[0]).state);
      ExhaustedReplayDefersToFallback(fallback, a.state.fallback, calls[1..]);
    }
  }

  /**
   * While the replay still holds a key for every `getch` to come, the
   * fallback is never called: the composition gives the replay's own results
   * and the fallback's state is untouched.
   */
  lemma {:induction false} LiveReplayServesAll<F, E>(
    input: seq<Input>, fallback: (F, Call) -> Answer<F, E>, f: F, calls: seq<Call>)
    requires GetchCount(calls) < |input|
    ensures var (results, final) := TryRun(Replay, fallback, Pair(input, f), calls);
      var replayed := ReplayRun(input, calls, IosReplay.NoMoreInput);
      final == Pair(replayed.0, f) && |results| == |calls| == |replayed.1| &&
      forall k :: 0 <= k < |calls| ==> replayed.1[k].Ok? && results[k] == Ok(replayed.1[k].value)
    decreases |calls|
  {
    if calls != [] {
      var a := Replay(input, calls[0]);
      assert a.result.Ok?;
      assert |a.state| > GetchCount(calls[1..]);
      LiveReplayServesAll(a.state, fallback, f, calls[1..]);
      var (results, final) := TryRun(Replay, fallback, Pair(input, f), calls);
      var replayed := ReplayRun(input, calls, IosReplay.NoMoreInput);
      var tail := TryRun(Replay, fallback, Pair(a.state, f), calls[1..]);
      var replayedTail := ReplayRun(a.state, calls[1..], IosReplay.NoMoreInput);
      assert results == [Ok(a.result.value)] + tail.0;
      assert replayed.1 == [a.result] + replayedTail.1;
      forall k | 0 <= k < |calls|
        ensures replayed.1[k].Ok? && results[k] == Ok(replayed.1[k].value)
      {
        if k > 0 {
          assert results[k] == tail.0[k - 1];
          assert replayed.1[k] == replayedTail.1[k - 1];
        }
      }
    }
  }
}
