/**
 * What the plugin and dispatcher registries share: components that answer
 * lifecycle calls, the log of calls a registry makes, and the "run until the
 * first error" specification that `init_all`, `start_all` and `stop_all`
 * follow.
 */
module Lifecycle {
  import opened Wrappers

  datatype Hook = Init | Start | Stop | SetupMessaging

  /** `anyhow::Result<()>`, with the error message. */
  type Outcome = Result<Unit, string>

  /**
   * How one component answers each lifecycle call. The component's own state
   * is not modelled: it answers each hook the same way every time.
   */
  datatype Behaviour = Behaviour(init: Outcome, start: Outcome, stop: Outcome, setup: Outcome)

  function Answer(b: Behaviour, h: Hook): Outcome
  {
    match h
    case Init => b.init
    case Start => b.start
    case Stop => b.stop
    case SetupMessaging => b.setup
  }

  /** What each component of a registry answers to `h`, in registration order. */
  function Answers<E>(components: seq<E>, behaviourOf: E -> Behaviour, h: Hook): (r: seq<Outcome>)
    ensures |r| == |components| && forall i :: 0 <= i < |components| ==> r[i] == Answer(behaviourOf(components[i]), h)
  {
    seq(|components|, i requires 0 <= i < |components| => Answer(behaviourOf(components[i]), h))
  }

  /** One call made by a registry: the hook, on the component at this position. */
  datatype Call = Call(index: nat, hook: Hook)

  /** The position of the first error among the answers; their length when there is none. */
  function FirstErr(answers: seq<Outcome>): (k: nat)
    ensures k <= |answers|
    ensures forall i :: 0 <= i < k ==> answers[i].Ok?
    ensures k < |answers| ==> answers[k].Err?
  {
    if answers == [] then 0
    else if answers[0].Err? then 0
    else 1 + FirstErr(answers[1..])
  }

  /** The first error is pinned down by the answers before it and at it. */
  lemma FirstErrAt(answers: seq<Outcome>, i: nat)
    requires i <= |answers|
    requires forall j :: 0 <= j < i ==> answers[j].Ok?
    requires i < |answers| ==> answers[i].Err?
    ensures FirstErr(answers) == i
  {
  }

  /** How many components are called: up to and including the first that fails. */
  function Reached(answers: seq<Outcome>): (n: nat)
    ensures n <= |answers|
    ensures n == |answers| || (0 < n && answers[n - 1].Err?)
  {
    var k := FirstErr(answers);
    if k < |answers| then k + 1 else |answers|
  }

  /** The result of a run: the first error, or `Ok(())` when every call succeeded. */
  function Verdict(answers: seq<Outcome>): (r: Outcome)
    ensures r.Ok? <==> forall i :: 0 <= i < |answers| ==> answers[i].Ok?
    ensures r.Err? ==> r == answers[Reached(answers) - 1]
  {
    var k := FirstErr(answers);
    if k < |answers| then answers[k] else Ok(Unit)
  }

  /** Calls to positions 0, 1, ..., n - 1 in that order. */
  function Ascending(h: Hook, n: nat): (calls: seq<Call>)
    ensures |calls| == n && forall i :: 0 <= i < n ==> calls[i] == Call(i, h)
  {
    seq(n, i requires 0 <= i => Call(i, h))
  }

  /** Calls to positions total - 1, total - 2, ..., total - n in that order. */
  function Descending(h: Hook, total: nat, n: nat): (calls: seq<Call>)
    requires n <= total
    ensures |calls| == n && forall i :: 0 <= i < n ==> calls[i] == Call(total - 1 - i, h)
  {
    seq(n, i requires 0 <= i < n => Call(total - 1 - i, h))
  }

  function Reverse<T>(s: seq<T>): (r: seq<T>)
    ensures |r| == |s| && forall i :: 0 <= i < |s| ==> r[i] == s[|s| - 1 - i]
  {
    seq(|s|, i requires 0 <= i < |s| => s[|s| - 1 - i])
  }
}
