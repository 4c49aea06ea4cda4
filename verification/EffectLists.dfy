/** Carrying out a list of effects, one after the other. */
module EffectLists {

  function ApplyAll<S, E>(apply: (S, E) -> S, s: S, es: seq<E>): S
    decreases |es|
  {
    if es == [] then s else ApplyAll(apply, apply(s, es[0]), es[1..])
  }

  lemma OneEffect<S, E>(apply: (S, E) -> S, s: S, e: E)
    ensures ApplyAll(apply, s, [e]) == apply(s, e)
  {
    assert [e][1..] == [];
  }

  lemma TwoEffects<S, E>(apply: (S, E) -> S, s: S, a: E, b: E)
    ensures ApplyAll(apply, s, [a, b]) == apply(apply(s, a), b)
  {
    assert [a, b][1..] == [b];
    OneEffect(apply, apply(s, a), b);
  }

  lemma {:induction false} ApplyConcat<S, E>(apply: (S, E) -> S, s: S, es: seq<E>, fs: seq<E>)
    ensures ApplyAll(apply, s, es + fs) == ApplyAll(apply, ApplyAll(apply, s, es), fs)
    decreases |es|
  {
    if es == [] {
      assert es + fs == fs;
    } else {
      assert (es + fs)[1..] == es[1..] + fs;
      ApplyConcat(apply, apply(s, es[0]), es[1..], fs);
    }
  }
}
