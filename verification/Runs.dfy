/** Machines that take inputs one at a time, and their runs. */
module Runs {

  datatype Machine<!S, !I, !E> = Machine(next: (S, I) -> S, emit: (S, I) -> seq<E>)

  function One(b: bool): nat {
    if b then 1 else 0
  }

  /** The state after `inputs`, from `s`. */
  function StateAfter<S, I, E>(m: Machine<S, I, E>, s: S, inputs: seq<I>): S {
    if inputs == [] then
      s
    else
      var n := |inputs| - 1;
      m.next(StateAfter(m, s, inputs[..n]), inputs[n])
  }

  /** Everything emitted over `inputs`, from `s`, in order. */
  function Output<S, I, E>(m: Machine<S, I, E>, s: S, inputs: seq<I>): seq<E> {
    if inputs == [] then
      []
    else
      var n := |inputs| - 1;
      Output(m, s, inputs[..n]) + m.emit(StateAfter(m, s, inputs[..n]), inputs[n])
  }

  lemma {:induction false} RunConcat<S, I, E>(m: Machine<S, I, E>, s: S, a: seq<I>, b: seq<I>)
    ensures StateAfter(m, s, a + b) == StateAfter(m, StateAfter(m, s, a), b)
    ensures Output(m, s, a + b) == Output(m, s, a) + Output(m, StateAfter(m, s, a), b)
  {
    if b == [] {
      assert a + b == a;
    } else {
      var n := |b| - 1;
      assert (a + b)[..|a + b| - 1] == a + b[..n];
      RunConcat(m, s, a, b[..n]);
    }
  }

  /** One more input. */
  lemma RunAppend<S, I, E>(m: Machine<S, I, E>, s: S, a: seq<I>, i: I)
    ensures StateAfter(m, s, a + [i]) == m.next(StateAfter(m, s, a), i)
    ensures Output(m, s, a + [i]) == Output(m, s, a) + m.emit(StateAfter(m, s, a), i)
  {
    assert (a + [i])[..|a|] == a;
  }

  /** The first input, then the rest. */
  lemma RunPrepend<S, I, E>(m: Machine<S, I, E>, s: S, i: I, b: seq<I>)
    ensures StateAfter(m, s, [i] + b) == StateAfter(m, m.next(s, i), b)
    ensures Output(m, s, [i] + b) == m.emit(s, i) + Output(m, m.next(s, i), b)
  {
    RunAppend(m, s, [], i);
    assert [] + [i] == [i];
    RunConcat(m, s, [i], b);
  }

  /** Cutting before or after the last element of a prefix. */
  lemma Slices<T>(s: seq<T>, k: nat, m: nat)
    requires k <= m < |s|
    ensures s[..m][..k] == s[..k]
    ensures s[..m][k..] + [s[m]] == s[k..m + 1]
  {
  }
}
