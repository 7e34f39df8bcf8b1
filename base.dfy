/** Generic values and sequence helpers shared by every module of the model. */
module Base {

  /** Python's `None` or a present value. */
  datatype Option<+T> = None | Some(value: T)

  /** The elements of `s` that satisfy `p`, in their original order (a list comprehension with an `if`). */
  function Filter<T>(s: seq<T>, p: T -> bool): (r: seq<T>)
    ensures |r| <= |s|
    ensures forall k :: 0 <= k < |r| ==> r[k] in s && p(r[k])
    ensures forall k :: 0 <= k < |s| && p(s[k]) ==> s[k] in r
  {
    if s == [] then [] else (if p(s[0]) then [s[0]] else []) + Filter(s[1..], p)
  }

  /** Filtering distributes over concatenation, so the kept elements stay in input order. */
  lemma {:induction false} FilterAppend<T>(a: seq<T>, b: seq<T>, p: T -> bool)
    ensures Filter(a + b, p) == Filter(a, p) + Filter(b, p)
  {
    if a == [] {
      assert a + b == b;
    } else {
      assert (a + b)[1..] == a[1..] + b;
      FilterAppend(a[1..], b, p);
    }
  }

  /** How many elements of `s` satisfy `p` (`sum(1 for x in s if p(x))`). */
  function Count<T>(s: seq<T>, p: T -> bool): (n: nat)
    ensures n <= |s|
    ensures n == |Filter(s, p)|
  {
    if s == [] then 0 else (if p(s[0]) then 1 else 0) + Count(s[1..], p)
  }

  /** The first `n` elements, or all of them when there are fewer (`s[:n]` for `n >= 0`). */
  function Take<T>(s: seq<T>, n: nat): (r: seq<T>)
    ensures |r| == if |s| < n then |s| else n
    ensures r <= s
  {
    if |s| <= n then s else s[..n]
  }

  /**
   * Reference definition: one pass over `s` that keeps the first `n`
   * elements satisfying `p` and stops once it has them.
   */
  function FirstMatching<T>(s: seq<T>, p: T -> bool, n: nat): (r: seq<T>)
    ensures |r| <= n
    ensures forall k :: 0 <= k < |r| ==> p(r[k]) && r[k] in s
    ensures n > 0 ==> (r == [] <==> forall j :: 0 <= j < |s| ==> !p(s[j]))
    decreases |s|
  {
    if s == [] || n == 0 then []
    else if p(s[0]) then
      var rest := FirstMatching(s[1..], p, n - 1);
      assert forall k :: 0 <= k < |rest| ==> rest[k] in s[1..];
      [s[0]] + rest
    else
      var rest := FirstMatching(s[1..], p, n);
      assert forall j :: 1 <= j < |s| ==> s[j] == s[1..][j - 1];
      assert forall k :: 0 <= k < |rest| ==> rest[k] in s[1..];
      rest
  }

  /** A non-empty prefix splits into its head and its tail. */
  lemma ConsAppend<T>(a: seq<T>, x: seq<T>)
    requires a != []
    ensures [a[0]] + (a[1..] + x) == a + x
  {
    assert a == [a[0]] + a[1..];
  }

  lemma TakeCons<T>(x: T, s: seq<T>, n: nat)
    requires n > 0
    ensures Take([x] + s, n) == [x] + Take(s, n - 1)
  {
    if |s| > n - 1 {
      assert ([x] + s)[..n] == [x] + s[..n - 1];
    }
  }

  /** Filtering and then keeping the first `n` is the one-pass scan. */
  lemma {:induction false} FilterThenTake<T>(s: seq<T>, p: T -> bool, n: nat)
    ensures Take(Filter(s, p), n) == FirstMatching(s, p, n)
    decreases |s|
  {
    if s == [] {
    } else if n == 0 {
      assert FirstMatching(s, p, n) == [];
    } else {
      var later := Filter(s[1..], p);
      assert Filter(s, p) == (if p(s[0]) then [s[0]] else []) + later;
      if p(s[0]) {
        FilterThenTake(s[1..], p, n - 1);
        TakeCons(s[0], later, n);
      } else {
        assert [] + later == later;
        FilterThenTake(s[1..], p, n);
      }
    }
  }

  /** The concatenation of a sequence of batches, in order. */
  function Flatten<T>(batches: seq<seq<T>>): seq<T> {
    if batches == [] then [] else Flatten(batches[..|batches| - 1]) + batches[|batches| - 1]
  }

  /** Adding an element to the open batch, and then closing that batch, both extend the flattening by it. */
  lemma BatchAppend<T>(batches: seq<seq<T>>, batch: seq<T>, x: T)
    ensures Flatten(batches) + (batch + [x]) == Flatten(batches) + batch + [x]
    ensures Flatten(batches + [batch + [x]]) + [] == Flatten(batches) + batch + [x]
  {
    FlattenSnoc(batches, batch + [x]);
  }

  /** Flattening one more batch appends it. */
  lemma FlattenSnoc<T>(batches: seq<seq<T>>, batch: seq<T>)
    ensures Flatten(batches + [batch]) == Flatten(batches) + batch
  {
    assert (batches + [batch])[..|batches|] == batches;
  }

  /** Left fold: the state after feeding the elements of `s` to `step` in order. */
  function Fold<S, T>(s: seq<T>, init: S, step: (S, T) -> S): S
    decreases |s|
  {
    if s == [] then init else step(Fold(s[..|s| - 1], init, step), s[|s| - 1])
  }

  /** Each element mapped together with the state the elements before it leave. */
  function Scan<T, S, R>(s: seq<T>, init: S, step: (S, T) -> S, derive: (T, S) -> R): (r: seq<R>)
    ensures |r| == |s|
    ensures forall k :: 0 <= k < |s| ==> r[k] == derive(s[k], Fold(s[..k], init, step))
  {
    seq(|s|, k requires 0 <= k < |s| => derive(s[k], Fold(s[..k], init, step)))
  }

  /** One more element: the state takes one more step and the scan one more image. */
  lemma ScanStep<T, S, R>(s: seq<T>, init: S, step: (S, T) -> S, derive: (T, S) -> R, i: nat)
    requires i < |s|
    ensures Fold(s[..i + 1], init, step) == step(Fold(s[..i], init, step), s[i])
    ensures Scan(s[..i + 1], init, step, derive) == Scan(s[..i], init, step, derive) + [derive(s[i], Fold(s[..i], init, step))]
  {
    var longer, shorter := Scan(s[..i + 1], init, step, derive), Scan(s[..i], init, step, derive);
    forall k | 0 <= k <= i
      ensures longer[k] == (shorter + [derive(s[i], Fold(s[..i], init, step))])[k]
    {
      assert s[..i + 1][..k] == s[..k];
      if k < i {
        assert s[..i][..k] == s[..k];
      }
    }
    assert s[..i + 1][..i] == s[..i];
  }

  /**
   * The dictionary built by one pass over `items`: each item that `parse`
   * turns into a key and a value sets that key, later items overwriting
   * earlier ones.
   */
  function Collect<T, K, V>(items: seq<T>, parse: T -> Option<(K, V)>): map<K, V>
    decreases |items|
  {
    if items == [] then map[]
    else
      var earlier := Collect(items[..|items| - 1], parse);
      match parse(items[|items| - 1])
      case Some((key, value)) => earlier[key := value]
      case None => earlier
  }

  /** One more item: the dictionary is updated by that item alone. */
  lemma CollectStep<T, K, V>(items: seq<T>, parse: T -> Option<(K, V)>, i: nat)
    requires i < |items|
    ensures Collect(items[..i + 1], parse)
            == match parse(items[i])
               case Some((key, value)) => Collect(items[..i], parse)[key := value]
               case None => Collect(items[..i], parse)
  {
    assert items[..i + 1][..i] == items[..i];
  }

  /** A key's value comes from the last item that names it. */
  lemma {:induction false} CollectLastWins<T, K, V>(items: seq<T>, parse: T -> Option<(K, V)>, i: nat, key: K, value: V)
    requires i < |items| && parse(items[i]) == Some((key, value))
    requires forall j :: i < j < |items| ==> parse(items[j]).None? || parse(items[j]).value.0 != key
    ensures key in Collect(items, parse) && Collect(items, parse)[key] == value
    decreases |items|
  {
    var init := items[..|items| - 1];
    if i < |items| - 1 {
      assert forall j :: i < j < |init| ==> init[j] == items[j];
      CollectLastWins(init, parse, i, key, value);
    }
  }

  /** Only keys named by some item are in the dictionary, each holding a value such an item gave it. */
  lemma {:induction false} CollectOnlyNamed<T, K, V>(items: seq<T>, parse: T -> Option<(K, V)>, key: K)
    requires key in Collect(items, parse)
    ensures exists i :: 0 <= i < |items| && parse(items[i]) == Some((key, Collect(items, parse)[key]))
    decreases |items|
  {
    var init := items[..|items| - 1];
    var last := parse(items[|items| - 1]);
    if !(last.Some? && last.value.0 == key) {
      CollectOnlyNamed(init, parse, key);
      var i :| 0 <= i < |init| && parse(init[i]) == Some((key, Collect(init, parse)[key]));
      assert init[i] == items[i];
    }
  }

  /** Every key some item names is in the dictionary. */
  lemma {:induction false} CollectHasNamed<T, K, V>(items: seq<T>, parse: T -> Option<(K, V)>, i: nat)
    requires i < |items| && parse(items[i]).Some?
    ensures parse(items[i]).value.0 in Collect(items, parse)
    decreases |items|
  {
    if i < |items| - 1 {
      var init := items[..|items| - 1];
      assert init[i] == items[i];
      CollectHasNamed(init, parse, i);
    }
  }

  /** The sequence read backwards (`list.reverse()`). */
  function Reverse<T>(s: seq<T>): (r: seq<T>)
    ensures |r| == |s|
    ensures forall k :: 0 <= k < |s| ==> r[k] == s[|s| - 1 - k]
  {
    if s == [] then [] else Reverse(s[1..]) + [s[0]]
  }
}
