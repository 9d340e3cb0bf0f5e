/** Insertion-ordered dictionaries as association lists: the model of Python's
    `dict`, `OrderedDict` and `defaultdict`, whose iteration order is the
    order in which keys were first inserted. Assigning to a key that is
    already present changes its value and keeps its position. */
module Assoc {
  import opened Results

  function Keys<V>(m: seq<(string, V)>): (ks: seq<string>)
    ensures |ks| == |m|
    ensures forall i :: 0 <= i < |m| ==> ks[i] == m[i].0
  {
    if |m| == 0 then [] else [m[0].0] + Keys(m[1..])
  }

  predicate Distinct(xs: seq<string>) {
    forall i, j :: 0 <= i < j < |xs| ==> xs[i] != xs[j]
  }

  /** `m.get(k)`: the value stored under `k`, if any. */
  function Lookup<V>(m: seq<(string, V)>, k: string): (r: Option<V>)
    ensures r.Some? <==> k in Keys(m)
  {
    if |m| == 0 then None
    else if m[0].0 == k then Some(m[0].1)
    else Lookup(m[1..], k)
  }

  /** `m[k] = v`: a new key goes to the end, an existing key keeps its place
      and only its value changes; no other key is touched. */
  function Put<V>(m: seq<(string, V)>, k: string, v: V): (r: seq<(string, V)>)
    ensures Keys(r) == if k in Keys(m) then Keys(m) else Keys(m) + [k]
    ensures Lookup(r, k) == Some(v)
    ensures forall k' :: k' != k ==> Lookup(r, k') == Lookup(m, k')
  {
    if |m| == 0 then [(k, v)]
    else if m[0].0 == k then [(k, v)] + m[1..]
    else
      var rest := Put(m[1..], k, v);
      assert ([m[0]] + rest)[1..] == rest;
      [m[0]] + rest
  }

  /** Assign every entry of `es` in order, as a loop of `m[k] = v` does. */
  function PutAll<V>(m: seq<(string, V)>, es: seq<(string, V)>): seq<(string, V)>
  {
    if |es| == 0 then m
    else Put(PutAll(m, es[..|es| - 1]), es[|es| - 1].0, es[|es| - 1].1)
  }

  /** The value of the last entry of `es` with key `k`. */
  function LastValue<V>(es: seq<(string, V)>, k: string): Option<V>
  {
    if |es| == 0 then None
    else if es[|es| - 1].0 == k then Some(es[|es| - 1].1)
    else LastValue(es[..|es| - 1], k)
  }

  /** The elements of `xs` in order of first occurrence, each once. */
  function Dedup(xs: seq<string>): (r: seq<string>)
    ensures Distinct(r)
    ensures forall x :: x in r <==> x in xs
  {
    if |xs| == 0 then []
    else
      var p := Dedup(xs[..|xs| - 1]);
      var x := xs[|xs| - 1];
      assert forall y :: y in xs <==> y in xs[..|xs| - 1] || y == x by {
        assert xs == xs[..|xs| - 1] + [x];
      }
      if x in xs[..|xs| - 1] then p else p + [x]
  }

  lemma {:induction false} DedupOfDistinct(xs: seq<string>)
    requires Distinct(xs)
    ensures Dedup(xs) == xs
    decreases |xs|
  {
    if |xs| > 0 {
      var p := xs[..|xs| - 1];
      DedupOfDistinct(p);
      assert xs == p + [xs[|xs| - 1]];
      assert xs[|xs| - 1] !in p;
    }
  }

  lemma DedupSnoc(xs: seq<string>, x: string)
    ensures Dedup(xs + [x]) == if x in xs then Dedup(xs) else Dedup(xs) + [x]
  {
    assert (xs + [x])[..|xs|] == xs;
  }

  /** Deduplicating the tail first changes nothing. */
  lemma {:induction false} DedupOfDedupedTail(a: seq<string>, b: seq<string>)
    ensures Dedup(a + Dedup(b)) == Dedup(a + b)
    decreases |b|
  {
    if |b| == 0 {
      assert a + b == a;
      assert a + Dedup(b) == a;
    } else {
      var b' := b[..|b| - 1];
      var x := b[|b| - 1];
      DedupOfDedupedTail(a, b');
      assert a + b == (a + b') + [x];
      DedupSnoc(a + b', x);
      if x !in b' {
        assert a + Dedup(b) == (a + Dedup(b')) + [x];
        DedupSnoc(a + Dedup(b'), x);
      }
    }
  }

  /** Deduplicating the head first changes nothing. */
  lemma {:induction false} DedupOfDedupedHead(a: seq<string>, b: seq<string>)
    ensures Dedup(Dedup(a) + b) == Dedup(a + b)
    decreases |b|
  {
    if |b| == 0 {
      assert a + b == a;
      assert Dedup(a) + b == Dedup(a);
      DedupOfDistinct(Dedup(a));
    } else {
      var b' := b[..|b| - 1];
      var x := b[|b| - 1];
      DedupOfDedupedHead(a, b');
      assert a + b == (a + b') + [x];
      assert Dedup(a) + b == (Dedup(a) + b') + [x];
      DedupSnoc(a + b', x);
      DedupSnoc(Dedup(a) + b', x);
    }
  }

  /** Keys of a dictionary are always distinct. */
  lemma {:induction false} PutKeepsKeysDistinct<V>(m: seq<(string, V)>, k: string, v: V)
    requires Distinct(Keys(m))
    ensures Distinct(Keys(Put(m, k, v)))
    ensures Keys(Put(m, k, v)) == Dedup(Keys(m) + [k])
  {
    DedupOfDistinct(Keys(m));
    DedupSnoc(Keys(m), k);
  }

  lemma PutAllSnoc<V>(m: seq<(string, V)>, es: seq<(string, V)>, e: (string, V))
    ensures PutAll(m, es + [e]) == Put(PutAll(m, es), e.0, e.1)
  {
    assert (es + [e])[..|es|] == es;
  }

  /** After a run of assignments the keys are the old keys followed by the
      new ones, in order of first assignment. */
  lemma {:induction false} PutAllOrder<V>(m: seq<(string, V)>, es: seq<(string, V)>)
    requires Distinct(Keys(m))
    ensures Distinct(Keys(PutAll(m, es)))
    ensures Keys(PutAll(m, es)) == Dedup(Keys(m) + Keys(es))
    decreases |es|
  {
    if |es| == 0 {
      DedupOfDistinct(Keys(m));
      assert Keys(m) + Keys(es) == Keys(m);
    } else {
      var es' := es[..|es| - 1];
      var e := es[|es| - 1];
      PutAllOrder(m, es');
      var p := PutAll(m, es');
      PutKeepsKeysDistinct(p, e.0, e.1);
      KeysLast(es);
      AppendAssociates(Keys(m), Keys(es'), [e.0]);
      DedupSnoc(Keys(m) + Keys(es'), e.0);
    }
  }

  /** After a run of assignments each key holds the value it was last
      assigned, or its old value when the run never assigned it. */
  lemma {:induction false} PutAllValues<V>(m: seq<(string, V)>, es: seq<(string, V)>, k: string)
    ensures Lookup(PutAll(m, es), k) ==
            if LastValue(es, k).Some? then LastValue(es, k) else Lookup(m, k)
    decreases |es|
  {
    if |es| > 0 {
      PutAllValues(m, es[..|es| - 1], k);
    }
  }

  lemma {:induction false} KeysLast<V>(es: seq<(string, V)>)
    requires |es| > 0
    ensures Keys(es) == Keys(es[..|es| - 1]) + [es[|es| - 1].0]
    decreases |es|
  {
    if |es| > 1 {
      assert es[1..][..|es| - 2] == es[..|es| - 1][1..];
      KeysLast(es[1..]);
    }
  }

  /** In a dictionary with distinct keys, each entry is what its key looks
      up. */
  lemma {:induction false} LookupAt<V>(m: seq<(string, V)>, i: nat)
    requires Distinct(Keys(m)) && i < |m|
    ensures Lookup(m, m[i].0) == Some(m[i].1)
    decreases i
  {
    if i > 0 {
      assert Keys(m[1..]) == Keys(m)[1..];
      LookupAt(m[1..], i - 1);
    }
  }

  /** Dropping the last element keeps a sequence distinct, and the last
      element does not occur before it. */
  lemma DistinctSnoc(xs: seq<string>, x: string)
    requires Distinct(xs + [x])
    ensures Distinct(xs) && x !in xs
  {
    forall i | 0 <= i < |xs|
      ensures (xs + [x])[i] == xs[i] && xs[i] != x
    {
      assert (xs + [x])[|xs|] == x;
    }
  }

  lemma AppendAssociates(a: seq<string>, b: seq<string>, c: seq<string>)
    ensures a + (b + c) == (a + b) + c
  {
  }

  /** Assign `f` of every entry in order, as a loop of `m[k] = f(k, v)`
      does; the first entry whose `f` fails aborts the loop with that
      failure. */
  function TryPutAll<V>(m: seq<(string, string)>, es: seq<(string, V)>, f: (string, V) -> Result<string>): Result<seq<(string, string)>>
    decreases |es|
  {
    if |es| == 0 then Ok(m)
    else
      var out :- TryPutAll(m, es[..|es| - 1], f);
      var e := es[|es| - 1];
      var v :- f(e.0, e.1);
      Ok(Put(out, e.0, v))
  }

  lemma TryPutAllSnoc<V>(m: seq<(string, string)>, es: seq<(string, V)>, f: (string, V) -> Result<string>)
    requires |es| > 0
    ensures var prefix := TryPutAll(m, es[..|es| - 1], f);
            var e := es[|es| - 1];
            TryPutAll(m, es, f) ==
              if prefix.Err? then Err(prefix.error)
              else if f(e.0, e.1).Err? then Err(f(e.0, e.1).error)
              else Ok(Put(prefix.value, e.0, f(e.0, e.1).value))
  {
  }

  /** The loop succeeds exactly when `f` succeeds on every entry. */
  lemma {:induction false} TryPutAllSucceeds<V>(m: seq<(string, string)>, es: seq<(string, V)>, f: (string, V) -> Result<string>)
    ensures TryPutAll(m, es, f).Ok? <==> forall i :: 0 <= i < |es| ==> f(es[i].0, es[i].1).Ok?
    decreases |es|
  {
    if |es| > 0 {
      var n := |es|;
      var es' := es[..n - 1];
      TryPutAllSnoc(m, es, f);
      TryPutAllSucceeds(m, es', f);
      if TryPutAll(m, es, f).Ok? {
        forall i | 0 <= i < n
          ensures f(es[i].0, es[i].1).Ok?
        {
          if i < n - 1 {
            assert es'[i] == es[i];
          }
        }
      } else if TryPutAll(m, es', f).Err? {
        var i :| 0 <= i < n - 1 && f(es'[i].0, es'[i].1).Err?;
        assert es'[i] == es[i];
      } else {
        assert f(es[n - 1].0, es[n - 1].1).Err?;
      }
    }
  }

  /** The keys after the loop: the old keys, then every new key in order;
      a key already present keeps its position. */
  lemma {:induction false} TryPutAllKeys<V>(m: seq<(string, string)>, es: seq<(string, V)>, f: (string, V) -> Result<string>)
    requires Distinct(Keys(m)) && TryPutAll(m, es, f).Ok?
    ensures Distinct(Keys(TryPutAll(m, es, f).value))
    ensures Keys(TryPutAll(m, es, f).value) == Dedup(Keys(m) + Keys(es))
    decreases |es|
  {
    if |es| == 0 {
      DedupOfDistinct(Keys(m));
      assert Keys(m) + Keys(es) == Keys(m);
    } else {
      var es' := es[..|es| - 1];
      var e := es[|es| - 1];
      TryPutAllSnoc(m, es, f);
      TryPutAllKeys(m, es', f);
      PutKeepsKeysDistinct(TryPutAll(m, es', f).value, e.0, f(e.0, e.1).value);
      KeysLast(es);
      AppendAssociates(Keys(m), Keys(es'), [e.0]);
      DedupOfDedupedHead(Keys(m) + Keys(es'), [e.0]);
    }
  }

  /** With distinct keys, the `i`-th entry's key holds `f` of that entry. */
  lemma {:induction false} TryPutAllAt<V>(m: seq<(string, string)>, es: seq<(string, V)>, f: (string, V) -> Result<string>, i: nat)
    requires Distinct(Keys(es)) && TryPutAll(m, es, f).Ok? && i < |es|
    ensures f(es[i].0, es[i].1).Ok?
    ensures Lookup(TryPutAll(m, es, f).value, es[i].0) == Some(f(es[i].0, es[i].1).value)
    decreases |es|
  {
    var n := |es|;
    var es' := es[..n - 1];
    var e := es[n - 1];
    TryPutAllSnoc(m, es, f);
    if i < n - 1 {
      KeysLast(es);
      DistinctSnoc(Keys(es'), e.0);
      TryPutAllAt(m, es', f, i);
      assert es'[i] == es[i];
      assert Keys(es')[i] in Keys(es');
    }
  }

  /** A key no entry names keeps its old value. */
  lemma {:induction false} TryPutAllOthers<V>(m: seq<(string, string)>, es: seq<(string, V)>, f: (string, V) -> Result<string>)
    requires TryPutAll(m, es, f).Ok?
    ensures forall k :: k !in Keys(es) ==> Lookup(TryPutAll(m, es, f).value, k) == Lookup(m, k)
    decreases |es|
  {
    if |es| > 0 {
      TryPutAllSnoc(m, es, f);
      TryPutAllOthers(m, es[..|es| - 1], f);
      KeysLast(es);
    }
  }

  /** Once a prefix of the entries has failed, the loop fails with that
      failure. */
  lemma {:induction false} TryPutAllAborts<V>(m: seq<(string, string)>, es: seq<(string, V)>, f: (string, V) -> Result<string>, j: nat)
    requires j <= |es| && TryPutAll(m, es[..j], f).Err?
    ensures TryPutAll(m, es, f) == TryPutAll(m, es[..j], f)
    decreases |es| - j
  {
    if j < |es| {
      assert es[..j + 1][..j] == es[..j];
      TryPutAllSnoc(m, es[..j + 1], f);
      TryPutAllAborts(m, es, f, j + 1);
    } else {
      assert es[..j] == es;
    }
  }
}
