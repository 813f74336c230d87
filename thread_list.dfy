/**
 * The thread-id lists vpu_qpu_init builds to find the threads that
 * vc_gpuserv_init started (add_to_list, list_subtract in rpi_qpu.c). A list
 * is the sequence of its tids from the head; node allocation and relinking
 * are not modelled.
 */
module ThreadList {
  /** add_to_list: the tid becomes the new head; when malloc fails the list stays as it was. */
  function AddToList(list: seq<int>, tid: int, allocOk: bool): (r: seq<int>)
    ensures allocOk ==> |r| == |list| + 1 && r[0] == tid && r[1..] == list
    ensures allocOk ==> multiset(r) == multiset(list) + multiset{tid}
    ensures !allocOk ==> r == list
  {
    if allocOk then [tid] + list else list
  }

  /** The list with the first node holding x unlinked. */
  function RemoveFirst(s: seq<int>, x: int): seq<int>
    requires x in s
  {
    if s[0] == x then s[1..] else [s[0]] + RemoveFirst(s[1..], x)
  }

  /** Unlinking the first x drops one x and keeps the rest, in order. */
  lemma {:induction false} RemoveFirstFacts(s: seq<int>, x: int)
    requires x in s
    ensures multiset(RemoveFirst(s, x)) == multiset(s) - multiset{x}
    ensures |RemoveFirst(s, x)| == |s| - 1
  {
    if s[0] != x {
      RemoveFirstFacts(s[1..], x);
      assert s == [s[0]] + s[1..];
    } else {
      assert s == [s[0]] + s[1..];
    }
  }

  /** With t the first position of x, unlinking the first x cuts s at t. */
  lemma {:induction false} RemoveFirstAt(s: seq<int>, x: int, t: nat)
    requires t < |s| && s[t] == x && x !in s[..t]
    ensures x in s && RemoveFirst(s, x) == s[..t] + s[t + 1..]
  {
    if t > 0 {
      assert s[0] in s[..t];
      assert s[1..][t - 1] == x;
      assert s[1..][..t - 1] == s[..t][1..];
      RemoveFirstAt(s[1..], x, t - 1);
      assert s[1..][t..] == s[t + 1..];
    }
  }

  /** Every delta tid is still in base when its turn comes: otherwise list_subtract dereferences NULL. */
  predicate Subtractable(base: seq<int>, delta: seq<int>)
    decreases |delta|
  {
    |delta| == 0 || (delta[0] in base && Subtractable(RemoveFirst(base, delta[0]), delta[1..]))
  }

  /** base with one node removed per element of delta, in delta's order. */
  function SubtractAll(base: seq<int>, delta: seq<int>): seq<int>
    requires Subtractable(base, delta)
    decreases |delta|
  {
    if |delta| == 0 then base else SubtractAll(RemoveFirst(base, delta[0]), delta[1..])
  }

  /**
   * The subtraction is defined exactly when base holds every delta tid at
   * least as often as delta does, and then takes away delta's tids, one
   * node each.
   */
  lemma {:induction false} SubtractableIff(base: seq<int>, delta: seq<int>)
    ensures Subtractable(base, delta) <==> multiset(delta) <= multiset(base)
    ensures Subtractable(base, delta) ==>
      multiset(SubtractAll(base, delta)) == multiset(base) - multiset(delta)
    decreases |delta|
  {
    if |delta| > 0 {
      var d := delta[0];
      assert delta == [d] + delta[1..];
      assert multiset(delta) == multiset{d} + multiset(delta[1..]);
      if d in base {
        RemoveFirstFacts(base, d);
        SubtractableIff(RemoveFirst(base, d), delta[1..]);
      } else {
        assert multiset(base)[d] == 0;
      }
    }
  }

  /**
   * list_subtract: for each delta tid in turn, search base from the head
   * and unlink the first node holding it.
   */
  method ListSubtract(base: seq<int>, delta: seq<int>) returns (r: seq<int>)
    requires Subtractable(base, delta)
    ensures r == SubtractAll(base, delta)
    ensures multiset(r) == multiset(base) - multiset(delta)
  {
    r := base;
    var i := 0;
    while i < |delta|
      invariant 0 <= i <= |delta|
      invariant Subtractable(r, delta[i..])
      invariant SubtractAll(r, delta[i..]) == SubtractAll(base, delta)
    {
      var d := delta[i];
      assert delta[i..][0] == d && delta[i..][1..] == delta[i + 1..];
      var t := 0;
      while t < |r| && r[t] != d
        invariant 0 <= t <= |r|
        invariant d !in r[..t]
      {
        assert r[..t + 1] == r[..t] + [r[t]];
        t := t + 1;
      }
      assert r[..|r|] == r;
      RemoveFirstAt(r, d, t);
      r := r[..t] + r[t + 1..];
      i := i + 1;
    }
    SubtractableIff(base, delta);
  }
}
