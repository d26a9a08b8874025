/**
 * The renderer protocol both platform layers share: the calls a renderer
 * answers, and the replay semantics of a renderer that serves recorded keys.
 */
module RendererCalls {
  import opened Wrappers
  import opened UiTypes

  /** One call of the renderer protocol with its arguments. */
  datatype Call =
    | ClearScreen
    | Flush
    | WriteString(s: string)
    | MoveCursor(line: int, column: int)
    | GetCursorPosition
    | SetColor(foreground: Color, background: Color)
    | Getch
    | Sleep(ms: int)

  /** The value a call returns when it does not fail. */
  datatype Reply = Done | Position(line: int, column: int) | Key(input: Input)

  /** The renderer's state after a call, and what the call returned or threw. */
  datatype Answer<S, E> = Answer(state: S, result: Result<Reply, E>)

  /** The reply a successful call of this kind gives (for a replay renderer). */
  function Success(call: Call, next: Input): Reply
  {
    match call
    case Getch => Key(next)
    case GetCursorPosition => Position(0, 0)
    case _ => Done
  }

  /**
   * A replay renderer in state `remaining` (the keys it has still to give):
   * `getch` hands out the next key; every other call has no effect; every
   * call fails with `exhausted` once no key is left.
   */
  function ReplayStep<E>(remaining: seq<Input>, call: Call, exhausted: E): (a: Answer<seq<Input>, E>)
    ensures a.result.Err? <==> remaining == []
    ensures remaining == [] ==> a == Answer(remaining, Err(exhausted))
    ensures remaining != [] && call.Getch? ==> a == Answer(remaining[1..], Ok(Key(remaining[0])))
    ensures !call.Getch? ==> a.state == remaining
  {
    if remaining == [] then Answer(remaining, Err(exhausted))
    else if call.Getch? then Answer(remaining[1..], Ok(Key(remaining[0])))
    else Answer(remaining, Ok(Success(call, remaining[0])))
  }

  /** Runs the calls one after another through a replay renderer. */
  function ReplayRun<E>(remaining: seq<Input>, calls: seq<Call>, exhausted: E): (seq<Input>, seq<Result<Reply, E>>)
    decreases |calls|
  {
    if calls == [] then (remaining, [])
    else
      var a := ReplayStep(remaining, calls[0], exhausted);
      var (final, results) := ReplayRun(a.state, calls[1..], exhausted);
      (final, [a.result] + results)
  }

  function GetchCount(calls: seq<Call>): nat
  {
    if calls == [] then 0 else (if calls[0].Getch? then 1 else 0) + GetchCount(calls[1..])
  }

  /** The keys among a list of results, in order. */
  function Keys<E>(results: seq<Result<Reply, E>>): seq<Input>
  {
    if results == [] then []
    else (if results[0].Ok? && results[0].value.Key? then [results[0].value.input] else [])
         + Keys(results[1..])
  }

  function Min(a: nat, b: nat): nat { if a <= b then a else b }

  /**
   * Over any sequence of calls, the keys handed out are the recorded ones in
   * order, one per `getch`, until the recording runs out; the renderer is
   * left with the keys no `getch` asked for.
   */
  lemma {:induction false} ReplayInOrder<E>(input: seq<Input>, calls: seq<Call>, exhausted: E)
    ensures var m := Min(GetchCount(calls), |input|);
      ReplayRun(input, calls, exhausted).0 == input[m..] &&
      Keys(ReplayRun(input, calls, exhausted).1) == input[..m]
    decreases |calls|
  {
    if calls != [] {
      var a := ReplayStep(input, calls[0], exhausted);
      ReplayInOrder(a.state, calls[1..], exhausted);
      var run := ReplayRun(a.state, calls[1..], exhausted);
      var results := [a.result] + run.1;
      assert results[1..] == run.1;
      if input != [] && calls[0].Getch? {
        assert input[1..][Min(GetchCount(calls[1..]), |input| - 1)..]
            == input[Min(GetchCount(calls), |input|)..];
        assert [input[0]] + input[1..][..Min(GetchCount(calls[1..]), |input| - 1)]
            == input[..Min(GetchCount(calls), |input|)];
      } else if input == [] {
        assert a.state == [];
      }
    }
  }

  /** Once the recording is used up, every call fails, whatever it is. */
  lemma {:induction false} ReplayExhausted<E>(calls: seq<Call>, exhausted: E)
    ensures ReplayRun([], calls, exhausted).0 == []
    ensures var results := ReplayRun([], calls, exhausted).1;
      |results| == |calls| && forall k :: 0 <= k < |results| ==> results[k] == Err(exhausted)
    decreases |calls|
  {
    if calls != [] {
      ReplayExhausted(calls[1..], exhausted);
    }
  }
}
