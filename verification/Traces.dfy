/** What has been recorded of a transition system: its settings, the states it was in and the steps between. */
module Traces {
  datatype Recorded<C, S, L> = Recorded(config: C, states: seq<S>, labels: seq<L>)

  /** The present state. */
  function Now<C, S, L>(t: Recorded<C, S, L>): S
    requires t.states != []
  {
    t.states[|t.states| - 1]
  }

  function Next<C, S, L>(t: Recorded<C, S, L>, s: S, l: L): Recorded<C, S, L>
  {
    t.(states := t.states + [s], labels := t.labels + [l])
  }

  /** u goes on from t: nothing recorded is taken back. */
  ghost predicate Extends<C, S, L>(t: Recorded<C, S, L>, u: Recorded<C, S, L>)
  {
    u.config == t.config && t.states != [] && t.states <= u.states && t.labels <= u.labels
  }

  lemma NextIsNow<C, S, L>(t: Recorded<C, S, L>, s: S, l: L)
    ensures Next(t, s, l).states != [] && Now(Next(t, s, l)) == s && Next(t, s, l).config == t.config
  {
  }

  /** The states of a trace keep their place in the traces that go on from it. */
  lemma StateKept<C, S, L>(t: Recorded<C, S, L>, u: Recorded<C, S, L>)
    requires Extends(t, u)
    ensures |t.states| <= |u.states| && forall k :: 0 <= k < |t.states| ==> u.states[k] == t.states[k]
  {
  }

  lemma BeforeLast<C, S, L>(t: Recorded<C, S, L>, s: S, l: L)
    requires t.states != []
    ensures var u := Next(t, s, l); |u.states| > 1 && u.states[|u.states| - 2] == Now(t)
  {
  }
}
