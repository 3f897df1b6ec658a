// The reverse loops of withHooks, withInterceptors and scanWithInterceptors.
module Compose {
  import opened Wrappers

  // The composition the loops stand for: the first wrapper is outermost.
  function WrapAll<M>(wrappers: seq<M -> M>, base: M): M {
    if wrappers == [] then base else wrappers[0](WrapAll(wrappers[1..], base))
  }

  // Main result: wrapping with two lists in a row is wrapping with the first
  // around the second.
  lemma {:induction false} WrapConcat<M>(first: seq<M -> M>, second: seq<M -> M>, base: M)
    ensures WrapAll(first + second, base) == WrapAll(first, WrapAll(second, base))
  {
    if first == [] {
      assert first + second == second;
    } else {
      assert (first + second)[1..] == first[1..] + second;
      WrapConcat(first[1..], second, base);
    }
  }

  // The loop of the interceptor runtimes: `qr = inters[i].Intercept(qr)`, last first.
  method WithInterceptors<M>(inters: seq<M -> M>, base: M) returns (qr: M)
    ensures qr == WrapAll(inters, base)
  {
    qr := base;
    var i := |inters|;
    while i > 0
      invariant 0 <= i <= |inters|
      invariant qr == WrapAll(inters[i..], base)
    {
      i := i - 1;
      assert inters[i..][0] == inters[i] && inters[i..][1..] == inters[i + 1..];
      qr := inters[i](qr);
    }
    assert inters[0..] == inters;
  }

  // withHooks: a nil hook anywhere is an error before any hook has run; otherwise
  // the loop has wrapped the base in all of them.
  method WithHooks<M>(hooks: seq<Option<M -> M>>, base: M) returns (mut: Option<M>)
    ensures mut.None? <==> AnyNone(hooks)
    ensures mut.Some? ==> mut.value == WrapAll(Values(hooks), base)
  {
    var m := base;
    var i := |hooks|;
    while i > 0
      invariant 0 <= i <= |hooks|
      invariant forall k :: i <= k < |hooks| ==> hooks[k].Some?
      invariant m == WrapAll(Values(hooks[i..]), base)
    {
      i := i - 1;
      if hooks[i].None? {
        return None;
      }
      assert hooks[i..][1..] == hooks[i + 1..];
      assert Values(hooks[i..])[1..] == Values(hooks[i + 1..]);
      m := hooks[i].value(m);
    }
    assert hooks[0..] == hooks;
    mut := Some(m);
  }
}
