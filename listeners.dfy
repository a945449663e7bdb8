/**
 * The listener list of the store as a value: the identities of the registered
 * callbacks, the copy-on-write removal performed by an unsubscribe handle, and
 * the record of the notification cycles that have been delivered.
 */
module Listeners {

  /** A registered zero-argument callback. Only its identity matters: removal
      compares entries by identity, which is equality of ids here. */
  datatype ListenerId = ListenerId(id: nat)

  /** The listener list with every entry identical to `l` filtered out, the
      others kept in their order (the `filter` of the unsubscribe handle). */
  function Without(s: seq<ListenerId>, l: ListenerId): (r: seq<ListenerId>)
    ensures l !in r
    ensures multiset(r) == multiset(s)[l := 0]
  {
    if s == [] then []
    else
      assert s == [s[0]] + s[1..];
      if s[0] == l then Without(s[1..], l)
      else [s[0]] + Without(s[1..], l)
  }

  /** `t` can be obtained from `s` by deleting entries, so every pair of
      entries of `t` keeps the relative order it has in `s`. */
  ghost predicate IsSubsequence(t: seq<ListenerId>, s: seq<ListenerId>)
    decreases |s|
  {
    if t == [] then true
    else if s == [] then false
    else (t[0] == s[0] && IsSubsequence(t[1..], s[1..])) || IsSubsequence(t, s[1..])
  }

  /** Removing a listener that is not registered changes nothing. */
  lemma {:induction false} WithoutAbsent(s: seq<ListenerId>, l: ListenerId)
    requires l !in s
    ensures Without(s, l) == s
  {
    if s != [] {
      WithoutAbsent(s[1..], l);
    }
  }

  /** A second call of the same unsubscribe handle changes nothing. */
  lemma WithoutIdempotent(s: seq<ListenerId>, l: ListenerId)
    ensures Without(Without(s, l), l) == Without(s, l)
  {
    WithoutAbsent(Without(s, l), l);
  }

  /** Filtering works entry by entry: it distributes over concatenation. */
  lemma {:induction false} WithoutAppend(a: seq<ListenerId>, b: seq<ListenerId>, l: ListenerId)
    ensures Without(a + b, l) == Without(a, l) + Without(b, l)
  {
    if a == [] {
      assert a + b == b;
    } else {
      assert (a + b)[0] == a[0] && (a + b)[1..] == a[1..] + b;
      WithoutAppend(a[1..], b, l);
    }
  }

  /** The entries that survive a removal keep their relative order. */
  lemma {:induction false} WithoutIsSubsequence(s: seq<ListenerId>, l: ListenerId)
    ensures IsSubsequence(Without(s, l), s)
  {
    if s != [] {
      WithoutIsSubsequence(s[1..], l);
      if s[0] != l {
        assert Without(s, l)[1..] == Without(s[1..], l);
      } else {
        var r := Without(s[1..], l);
        if r != [] {
          assert IsSubsequence(r, s[1..]);
        }
      }
    }
  }

  /** Subscribing `l` and then calling the handle it returned restores the
      list, provided `l` was not registered before. */
  lemma SubscribeThenUnsubscribe(s: seq<ListenerId>, l: ListenerId)
    requires l !in s
    ensures Without(s + [l], l) == s
  {
    WithoutAppend(s, [l], l);
    WithoutAbsent(s, l);
  }

  /** Removing `l` after appending `l` forgets every earlier copy of `l` too:
      two subscriptions of one callback share one removal key. */
  lemma UnsubscribeRemovesEarlierCopies(s: seq<ListenerId>, l: ListenerId)
    ensures Without(s + [l], l) == Without(s, l)
  {
    WithoutAppend(s, [l], l);
  }

  /** Two unsubscribe handles for different callbacks may be called in
      either order with the same result. */
  lemma {:induction false} WithoutCommutes(s: seq<ListenerId>, a: ListenerId, b: ListenerId)
    ensures Without(Without(s, a), b) == Without(Without(s, b), a)
  {
    if s != [] {
      WithoutCommutes(s[1..], a, b);
      var x := s[0];
      if x != a {
        assert Without(s, a) == [x] + Without(s[1..], a);
      }
      if x != b {
        assert Without(s, b) == [x] + Without(s[1..], b);
      }
      if x != a && x != b {
        assert Without([x] + Without(s[1..], a), b) == [x] + Without(Without(s[1..], a), b);
        assert Without([x] + Without(s[1..], b), a) == [x] + Without(Without(s[1..], b), a);
      }
    }
  }

  /** The invocations of all notification cycles, in delivery order. */
  ghost function Concat(cycles: seq<seq<ListenerId>>): (r: seq<ListenerId>)
  {
    if cycles == [] then [] else cycles[0] + Concat(cycles[1..])
  }

  /** Delivering one more cycle extends the invocation record by exactly
      the snapshot of that cycle. */
  lemma {:induction false} ConcatAppend(cycles: seq<seq<ListenerId>>, snapshot: seq<ListenerId>)
    ensures Concat(cycles + [snapshot]) == Concat(cycles) + snapshot
  {
    if cycles == [] {
      assert [snapshot][1..] == [];
    } else {
      assert (cycles + [snapshot])[1..] == cycles[1..] + [snapshot];
      ConcatAppend(cycles[1..], snapshot);
    }
  }
}
