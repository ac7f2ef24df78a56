/** Chains of steps: sequences whose neighbours are related. */
module Chains {

  // `chain` leads from `a` to `b`.
  ghost predicate Connects<T(!new)>(step: (T, T) -> bool, a: T, chain: seq<T>, b: T) {
    && chain != [] && chain[0] == a && chain[|chain| - 1] == b
    && forall i | 0 < i < |chain| :: step(chain[i - 1], chain[i])
  }

  function Join<T>(first: seq<T>, second: seq<T>): seq<T>
    requires second != []
  {
    first + second[1..]
  }

  lemma Joined<T(!new)>(step: (T, T) -> bool, a: T, first: seq<T>, b: T, second: seq<T>, c: T)
    requires Connects(step, a, first, b) && Connects(step, b, second, c)
    ensures Connects(step, a, Join(first, second), c)
  {
    var chain := Join(first, second);
    forall i | 0 < i < |chain| ensures step(chain[i - 1], chain[i]) {
      if i < |first| {
        assert chain[i - 1] == first[i - 1] && chain[i] == first[i];
      } else {
        var j := i - |first| + 1;
        assert chain[i - 1] == second[j - 1] && chain[i] == second[j];
      }
    }
  }

  function Reversed<T>(s: seq<T>): seq<T> {
    seq(|s|, i requires 0 <= i < |s| => s[|s| - 1 - i])
  }

  // Steps that can be taken either way make chains that can.
  lemma TurnedRound<T(!new)>(step: (T, T) -> bool, a: T, chain: seq<T>, b: T)
    requires Connects(step, a, chain, b) && forall x, y :: step(x, y) ==> step(y, x)
    ensures Connects(step, b, Reversed(chain), a)
  {
    var back := Reversed(chain);
    forall i | 0 < i < |back| ensures step(back[i - 1], back[i]) {
      var j := |chain| - i;
      assert back[i - 1] == chain[j] && back[i] == chain[j - 1];
      assert step(chain[j - 1], chain[j]);
    }
  }

  // All but the last step of a chain.
  lemma AllButLast<T(!new)>(step: (T, T) -> bool, a: T, chain: seq<T>, b: T)
    requires Connects(step, a, chain, b) && 1 < |chain|
    ensures Connects(step, a, chain[..|chain| - 1], chain[|chain| - 2]) && step(chain[|chain| - 2], b)
  {
    var n := |chain| - 1;
    forall i | 0 < i < n ensures step(chain[..n][i - 1], chain[..n][i]) {
      assert step(chain[i - 1], chain[i]);
    }
  }
}
