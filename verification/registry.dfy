/**
 * The listener registry every profile variant carries: an ordered list of
 * observers, appended to by `subscribe`, shortened by `unsubscribe` (which
 * erases the first matching entry, or does nothing), and walked front to back
 * by `notify`, which calls `onProfile(key, value)` once on each listener.
 *
 * Listener callbacks are not executed: each call is recorded as a `Call`
 * value, so the effect of a notification is the sequence of calls it makes.
 */
module Registry {

  /** One `onProfile(key, value)` invocation on `listener`. */
  datatype Call<L, K, V> = Call(listener: L, key: K, value: V)

  /** No listener is registered twice (what the debug-build assert in `subscribe` guards). */
  ghost predicate NoDuplicates<T>(s: seq<T>) {
    forall i, j :: 0 <= i < j < |s| ==> s[i] != s[j]
  }

  // ---------------------------------------------------------------------------
  // subscribe / unsubscribe
  // ---------------------------------------------------------------------------

  /** The registry after erasing the first occurrence of `x`, if there is one. */
  function RemoveFirst<T(==)>(s: seq<T>, x: T): (r: seq<T>)
    ensures x in s ==> |r| == |s| - 1
    ensures x !in s ==> r == s
  {
    if s == [] then []
    else if s[0] == x then s[1..]
    else [s[0]] + RemoveFirst(s[1..], x)
  }

  /** Unsubscribing removes exactly one occurrence of the listener, if there is one, and nothing else. */
  lemma {:induction false} RemoveFirstMultiset<T>(s: seq<T>, x: T)
    ensures multiset(RemoveFirst(s, x)) == multiset(s) - multiset{x}
  {
    if s != [] {
      assert s == [s[0]] + s[1..];
      if s[0] != x {
        var t := RemoveFirst(s[1..], x);
        RemoveFirstMultiset(s[1..], x);
        assert multiset([s[0]] + t) == multiset{s[0]} + multiset(t);
      }
    }
  }

  /** Erasing the first occurrence keeps everything before it and everything after it, in order. */
  lemma {:induction false} RemoveFirstSplit<T>(s: seq<T>, x: T, i: nat)
    requires i < |s| && s[i] == x
    requires forall j :: 0 <= j < i ==> s[j] != x
    ensures RemoveFirst(s, x) == s[..i] + s[i + 1..]
  {
    if i > 0 {
      var t := s[1..];
      assert t[i - 1] == x;
      assert forall j :: 0 <= j < i - 1 ==> t[j] == s[j + 1];
      RemoveFirstSplit(t, x, i - 1);
      var head, mid, tail := [s[0]], t[..i - 1], t[i..];
      assert RemoveFirst(s, x) == head + RemoveFirst(t, x);
      AppendAssoc(head, mid, tail);
      assert head + mid == s[..i];
      assert tail == s[i + 1..];
    }
  }

  /** Unsubscribing keeps the registry free of duplicates, and then the listener is gone. */
  lemma {:induction false} RemoveFirstNoDuplicates<T>(s: seq<T>, x: T)
    requires NoDuplicates(s)
    ensures NoDuplicates(RemoveFirst(s, x))
    ensures x !in RemoveFirst(s, x)
  {
    var i := FirstIndex(s, x);
    if i < |s| {
      RemoveFirstSplit(s, x, i);
      var r := s[..i] + s[i + 1..];
      forall a, b | 0 <= a < b < |r| ensures r[a] != r[b] {
        var a', b' := if a < i then a else a + 1, if b < i then b else b + 1;
        assert r[a] == s[a'] && r[b] == s[b'];
      }
      forall k | 0 <= k < |r| ensures r[k] != x {
        var k' := if k < i then k else k + 1;
        assert r[k] == s[k'];
      }
    }
  }

  /** The position of the first `x` in `s`, or `|s|` when `x` does not occur. */
  function FirstIndex<T(==)>(s: seq<T>, x: T): (i: nat)
    ensures i <= |s|
    ensures i < |s| ==> s[i] == x
    ensures forall j :: 0 <= j < i ==> s[j] != x
  {
    if s == [] then 0
    else if s[0] == x then 0
    else 1 + FirstIndex(s[1..], x)
  }

  /** Subscribing adds an element that was absent, and the registry stays duplicate-free. */
  lemma AppendNoDuplicates<T>(s: seq<T>, x: T)
    requires NoDuplicates(s) && x !in s
    ensures NoDuplicates(s + [x])
  {
    var r := s + [x];
    forall i, j | 0 <= i < j < |r| ensures r[i] != r[j] {
      if j == |s| {
        assert r[i] == s[i];
      }
    }
  }

  /** Subscribing a listener that is not registered and then unsubscribing it restores the registry. */
  lemma {:induction false} SubscribeThenUnsubscribe<T>(s: seq<T>, x: T)
    requires x !in s
    ensures RemoveFirst(s + [x], x) == s
  {
    if s != [] {
      assert (s + [x])[0] == s[0];
      assert (s + [x])[1..] == s[1..] + [x];
      SubscribeThenUnsubscribe(s[1..], x);
      assert [s[0]] + s[1..] == s;
    }
  }

  /**
   * The search `std::find` performs: the index of the first element equal to
   * `x`, or `|s|` when there is none.
   */
  method Find<T(==)>(s: seq<T>, x: T) returns (i: nat)
    ensures i == FirstIndex(s, x)
  {
    i := 0;
    while i < |s| && s[i] != x
      invariant i <= |s|
      invariant forall j :: 0 <= j < i ==> s[j] != x
      invariant i <= FirstIndex(s, x)
    {
      i := i + 1;
    }
  }

  // ---------------------------------------------------------------------------
  // notify
  // ---------------------------------------------------------------------------

  /** The calls one `notify(key, value)` makes: one per registered listener, oldest first. */
  function Fanout<L, K, V>(ls: seq<L>, key: K, value: V): (r: seq<Call<L, K, V>>)
    ensures |r| == |ls|
  {
    if ls == [] then [] else [Call(ls[0], key, value)] + Fanout(ls[1..], key, value)
  }

  /** The i-th call of a notification goes to the i-th listener of the registry. */
  lemma {:induction false} FanoutAt<L, K, V>(ls: seq<L>, key: K, value: V, i: nat)
    requires i < |ls|
    ensures Fanout(ls, key, value)[i] == Call(ls[i], key, value)
  {
    if i > 0 {
      FanoutAt(ls[1..], key, value, i - 1);
    }
  }

  lemma {:induction false} FanoutConcat<L, K, V>(a: seq<L>, b: seq<L>, key: K, value: V)
    ensures Fanout(a + b, key, value) == Fanout(a, key, value) + Fanout(b, key, value)
  {
    if a != [] {
      assert (a + b)[0] == a[0];
      assert (a + b)[1..] == a[1..] + b;
      FanoutConcat(a[1..], b, key, value);
      calc {
        Fanout(a + b, key, value);
        [Call(a[0], key, value)] + Fanout(a[1..] + b, key, value);
        [Call(a[0], key, value)] + (Fanout(a[1..], key, value) + Fanout(b, key, value));
        ([Call(a[0], key, value)] + Fanout(a[1..], key, value)) + Fanout(b, key, value);
      }
    } else {
      assert a + b == b;
    }
  }

  /** The loop of `notify`: visits the listeners front to back and makes one call on each. */
  method Dispatch<L, K, V>(ls: seq<L>, key: K, value: V) returns (calls: seq<Call<L, K, V>>)
    ensures calls == Fanout(ls, key, value)
  {
    calls := [];
    for i := 0 to |ls|
      invariant calls == Fanout(ls[..i], key, value)
    {
      assert ls[..i + 1] == ls[..i] + [ls[i]];
      FanoutConcat(ls[..i], [ls[i]], key, value);
      calls := calls + [Call(ls[i], key, value)];
    }
    assert ls[..|ls|] == ls;
  }

  /** The calls a sequence of notifications makes, one `notify(key, value)` per pair, in order. */
  function FanoutEach<L, K, V>(ls: seq<L>, kvs: seq<(K, V)>): seq<Call<L, K, V>>
  {
    if kvs == [] then []
    else
      var last := kvs[|kvs| - 1];
      FanoutEach(ls, kvs[..|kvs| - 1]) + Fanout(ls, last.0, last.1)
  }

  /** What listener `l` receives out of `calls`: the (key, value) pairs addressed to it, in order. */
  function CallsTo<L(==), K, V>(calls: seq<Call<L, K, V>>, l: L): (r: seq<(K, V)>)
    ensures |r| <= |calls|
  {
    if calls == [] then []
    else
      (if calls[0].listener == l then [(calls[0].key, calls[0].value)] else [])
      + CallsTo(calls[1..], l)
  }

  lemma {:induction false} CallsToConcat<L, K, V>(a: seq<Call<L, K, V>>, b: seq<Call<L, K, V>>, l: L)
    ensures CallsTo(a + b, l) == CallsTo(a, l) + CallsTo(b, l)
  {
    if a != [] {
      assert (a + b)[0] == a[0];
      assert (a + b)[1..] == a[1..] + b;
      CallsToConcat(a[1..], b, l);
    } else {
      assert a + b == b;
    }
  }

  /** In a duplicate-free registry, one notification reaches each registered listener exactly once, and no one else. */
  lemma {:induction false} CallsToFanout<L, K, V>(ls: seq<L>, key: K, value: V, l: L)
    requires NoDuplicates(ls)
    ensures CallsTo(Fanout(ls, key, value), l) == if l in ls then [(key, value)] else []
  {
    if ls != [] {
      assert NoDuplicates(ls[1..]) by {
        forall i, j | 0 <= i < j < |ls[1..]| ensures ls[1..][i] != ls[1..][j] {
          assert ls[1..][i] == ls[i + 1] && ls[1..][j] == ls[j + 1];
        }
      }
      CallsToFanout(ls[1..], key, value, l);
      assert ls[0] !in ls[1..] by {
        assert forall j :: 0 <= j < |ls[1..]| ==> ls[1..][j] == ls[j + 1] != ls[0];
      }
      assert ls == [ls[0]] + ls[1..];
      assert l in ls <==> l == ls[0] || l in ls[1..];
    }
  }

  /**
   * In a duplicate-free registry, a sequence of notifications delivers to each
   * registered listener every (key, value) pair exactly once, in order; an
   * unregistered listener receives nothing.
   */
  lemma {:induction false} CallsToFanoutEach<L, K, V>(ls: seq<L>, kvs: seq<(K, V)>, l: L)
    requires NoDuplicates(ls)
    ensures CallsTo(FanoutEach(ls, kvs), l) == if l in ls then kvs else []
  {
    if kvs != [] {
      var init, last := kvs[..|kvs| - 1], kvs[|kvs| - 1];
      CallsToFanoutEachLast(ls, kvs, l);
      CallsToFanoutEach(ls, init, l);
      CallsToFanout(ls, last.0, last.1, l);
      SnocWhen(CallsTo(FanoutEach(ls, kvs), l), CallsTo(FanoutEach(ls, init), l),
               CallsTo(Fanout(ls, last.0, last.1), l), kvs, l in ls);
    }
  }

  /** Both halves present when `p` and both empty otherwise: the whole is `s` or empty. */
  lemma SnocWhen<T>(whole: seq<T>, front: seq<T>, back: seq<T>, s: seq<T>, p: bool)
    requires s != []
    requires whole == front + back
    requires front == if p then s[..|s| - 1] else []
    requires back == if p then [s[|s| - 1]] else []
    ensures whole == if p then s else []
  {
    if p {
      assert s[..|s| - 1] + [s[|s| - 1]] == s;
    }
  }

  /** What a listener receives from a run of notifications: what the run without its last one gives it, then the last one's calls. */
  lemma CallsToFanoutEachLast<L, K, V>(ls: seq<L>, kvs: seq<(K, V)>, l: L)
    requires kvs != []
    ensures var last := kvs[|kvs| - 1];
            CallsTo(FanoutEach(ls, kvs), l)
            == CallsTo(FanoutEach(ls, kvs[..|kvs| - 1]), l) + CallsTo(Fanout(ls, last.0, last.1), l)
  {
    var last := kvs[|kvs| - 1];
    CallsToConcat(FanoutEach(ls, kvs[..|kvs| - 1]), Fanout(ls, last.0, last.1), l);
  }

  /** A sequence of notifications makes one call per (pair, listener). */
  lemma {:induction false} FanoutEachLength<L, K, V>(ls: seq<L>, kvs: seq<(K, V)>)
    ensures |FanoutEach(ls, kvs)| == |kvs| * |ls|
  {
    if kvs != [] {
      FanoutEachLength(ls, kvs[..|kvs| - 1]);
      assert |kvs| * |ls| == (|kvs| - 1) * |ls| + |ls|;
    }
  }

  lemma FanoutEachSnoc<L, K, V>(ls: seq<L>, kvs: seq<(K, V)>, key: K, value: V)
    ensures FanoutEach(ls, kvs + [(key, value)]) == FanoutEach(ls, kvs) + Fanout(ls, key, value)
  {
    assert (kvs + [(key, value)])[..|kvs|] == kvs;
  }

  lemma {:induction false} FanoutEachConcat<L, K, V>(ls: seq<L>, a: seq<(K, V)>, b: seq<(K, V)>)
    ensures FanoutEach(ls, a + b) == FanoutEach(ls, a) + FanoutEach(ls, b)
  {
    if b == [] {
      assert a + b == a;
    } else {
      var init, last := b[..|b| - 1], b[|b| - 1];
      var ab := a + b;
      assert ab[..|ab| - 1] == a + init;
      assert ab[|ab| - 1] == last;
      FanoutEachConcat(ls, a, init);
      AppendAssoc(FanoutEach(ls, a), FanoutEach(ls, init), Fanout(ls, last.0, last.1));
    }
  }

  /** Three notification loops in a row make the calls of one loop over the concatenated pairs. */
  lemma FanoutEachThreeSteps<L, K, V>(e0: seq<Call<L, K, V>>, e1: seq<Call<L, K, V>>, e2: seq<Call<L, K, V>>,
                                      e3: seq<Call<L, K, V>>, ls: seq<L>, a: seq<(K, V)>, b: seq<(K, V)>, c: seq<(K, V)>)
    requires e1 == e0 + FanoutEach(ls, a)
    requires e2 == e1 + FanoutEach(ls, b)
    requires e3 == e2 + FanoutEach(ls, c)
    ensures e3 == e0 + FanoutEach(ls, a + b + c)
  {
    var fa, fb, fc := FanoutEach(ls, a), FanoutEach(ls, b), FanoutEach(ls, c);
    FanoutEachConcat(ls, a, b);
    FanoutEachConcat(ls, a + b, c);
    AppendAssoc(e0, fa, fb);
    AppendAssoc(e0, fa + fb, fc);
  }

  /** One more notification extends the log of a notification loop by one step. */
  lemma FanoutEachStep<L, K, V>(start: seq<Call<L, K, V>>, before: seq<Call<L, K, V>>, after: seq<Call<L, K, V>>,
                                ls: seq<L>, kvs: seq<(K, V)>, i: nat)
    requires i < |kvs|
    requires before == start + FanoutEach(ls, kvs[..i])
    requires after == before + Fanout(ls, kvs[i].0, kvs[i].1)
    ensures after == start + FanoutEach(ls, kvs[..i + 1])
  {
    assert kvs[..i + 1] == kvs[..i] + [kvs[i]];
    FanoutEachSnoc(ls, kvs[..i], kvs[i].0, kvs[i].1);
    AppendAssoc(start, FanoutEach(ls, kvs[..i]), Fanout(ls, kvs[i].0, kvs[i].1));
  }

  lemma AppendAssoc<T>(a: seq<T>, b: seq<T>, c: seq<T>)
    ensures a + b + c == a + (b + c)
  {
  }

  /** A notification after a run of notifications extends the run's log by its calls. */
  lemma FanoutEachSnocStep<L, K, V>(start: seq<Call<L, K, V>>, before: seq<Call<L, K, V>>, after: seq<Call<L, K, V>>,
                                    ls: seq<L>, kvs: seq<(K, V)>, key: K, value: V)
    requires before == start + FanoutEach(ls, kvs)
    requires after == before + Fanout(ls, key, value)
    ensures after == start + FanoutEach(ls, kvs + [(key, value)])
  {
    FanoutEachSnoc(ls, kvs, key, value);
    AppendAssoc(start, FanoutEach(ls, kvs), Fanout(ls, key, value));
  }
}
