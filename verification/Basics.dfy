/** Shared value types, and the code-unit string order behind `compareStrings`
    (tools/workspace-packages.js). */
module Basics {
  datatype Option<+T> = None | Some(value: T)
  {
    function UnwrapOr(fallback: T): T {
      if Some? then value else fallback
    }
  }

  /** Bounds of the maximum retry counts: every engine and every dashboard brings its own. */
  datatype Limits = Limits(least: int, greatest: int)
  {
    ghost predicate Valid() { 1 <= least <= greatest }

    predicate Has(maxRetries: int) { least <= maxRetries <= greatest }
  }

  function Concat<T>(runs: seq<seq<T>>): seq<T> {
    if runs == [] then [] else runs[0] + Concat(runs[1..])
  }

  /** JavaScript's `left < right` on strings: lexicographic by code unit. */
  predicate Less(a: string, b: string) {
    b != [] && (a == [] || a[0] < b[0] || (a[0] == b[0] && Less(a[1..], b[1..])))
  }

  lemma {:induction false} LessTotal(a: string, b: string)
    ensures (if Less(a, b) then 1 else 0) + (if Less(b, a) then 1 else 0) + (if a == b then 1 else 0) == 1
    decreases |a|
  {
    if a != [] && b != [] {
      LessTotal(a[1..], b[1..]);
      assert a == [a[0]] + a[1..] && b == [b[0]] + b[1..];
    }
  }

  lemma {:induction false} LessTransitive(a: string, b: string, c: string)
    requires Less(a, b) && Less(b, c)
    ensures Less(a, c)
    decreases |a|
  {
    if a != [] && a[0] == b[0] && b[0] == c[0] {
      LessTransitive(a[1..], b[1..], c[1..]);
    }
  }

  /** The first difference decides: the smaller code unit there, or the text that has ended. */
  lemma {:induction false} LessAtFirstDifference(a: string, b: string)
    ensures Less(a, b) <==> exists k :: 0 <= k <= |a| && k < |b| && a[..k] == b[..k] && (k == |a| || a[k] < b[k])
    decreases |a|
  {
    if Less(a, b) {
      if a != [] && a[0] == b[0] {
        LessAtFirstDifference(a[1..], b[1..]);
        var k :| 0 <= k <= |a[1..]| && k < |b[1..]| && a[1..][..k] == b[1..][..k] && (k == |a[1..]| || a[1..][k] < b[1..][k]);
        assert a[..k + 1] == [a[0]] + a[1..][..k] && b[..k + 1] == [b[0]] + b[1..][..k];
      } else {
        assert a[..0] == b[..0];
      }
    }
    if k :| 0 <= k <= |a| && k < |b| && a[..k] == b[..k] && (k == |a| || a[k] < b[k]) {
      if k > 0 {
        assert a[0] == a[..k][0] == b[..k][0] == b[0];
        assert a[1..][..k - 1] == a[..k][1..] == b[..k][1..] == b[1..][..k - 1];
        LessAtFirstDifference(a[1..], b[1..]);
      }
    }
  }

  ghost predicate Increasing(xs: seq<string>) {
    forall i, j :: 0 <= i < j < |xs| ==> Less(xs[i], xs[j])
  }

  function Elements(xs: seq<string>): (r: set<string>) {
    set x | x in xs
  }

  ghost predicate Distinct(xs: seq<string>) {
    forall i, j :: 0 <= i < j < |xs| ==> xs[i] != xs[j]
  }

  /** `list.push(x); list.sort(compareStrings)` on a sorted list without `x`. */
  function Insert(x: string, xs: seq<string>): (r: seq<string>)
    requires Increasing(xs) && x !in xs
    ensures Increasing(r) && Elements(r) == Elements(xs) + {x} && |r| == |xs| + 1
  {
    if xs == [] || Less(x, xs[0]) then
      InsertFirst(x, xs);
      [x] + xs
    else
      assert xs == [xs[0]] + xs[1..];
      InsertLater(x, xs, Insert(x, xs[1..]));
      [xs[0]] + Insert(x, xs[1..])
  }

  lemma InsertFirst(x: string, xs: seq<string>)
    requires Increasing(xs) && (xs == [] || Less(x, xs[0]))
    ensures Increasing([x] + xs)
  {
    forall j | 0 <= j < |xs| ensures Less(x, xs[j]) {
      if j > 0 { LessTransitive(x, xs[0], xs[j]); }
    }
  }

  lemma InsertLater(x: string, xs: seq<string>, tail: seq<string>)
    requires Increasing(xs) && xs != [] && x !in xs && !Less(x, xs[0])
    requires Increasing(tail) && Elements(tail) == Elements(xs[1..]) + {x}
    ensures Increasing([xs[0]] + tail)
  {
    LessTotal(x, xs[0]);
    forall j | 0 <= j < |tail| ensures Less(xs[0], tail[j]) {
      assert tail[j] in Elements(tail);
      if tail[j] != x {
        var k :| 0 <= k < |xs[1..]| && xs[1..][k] == tail[j];
        assert xs[k + 1] == tail[j];
      }
    }
  }

  /** `[...values].sort(compareStrings)` for a set of names. */
  method Ascending(values: set<string>) returns (xs: seq<string>)
    ensures Increasing(xs) && Elements(xs) == values
  {
    xs := [];
    var rest := values;
    while rest != {}
      invariant Increasing(xs) && Elements(xs) == values - rest && rest <= values
    {
      var x :| x in rest;
      assert x !in Elements(xs);
      xs := Insert(x, xs);
      rest := rest - {x};
    }
  }

  /** `[...new Set(values)].sort(compareStrings)`. */
  function StableUnique(values: seq<string>): (r: seq<string>)
    ensures Increasing(r) && Elements(r) == Elements(values)
  {
    if values == [] then []
    else
      var rest := StableUnique(values[1..]);
      assert Elements(values) == Elements(values[1..]) + {values[0]};
      assert values[0] in rest <==> values[0] in Elements(rest);
      if values[0] in rest then rest else Insert(values[0], rest)
  }

  /** A set has only one increasing listing. */
  lemma {:induction false} IncreasingUnique(a: seq<string>, b: seq<string>)
    requires Increasing(a) && Increasing(b) && Elements(a) == Elements(b)
    ensures a == b
  {
    if b != [] { assert b[0] in Elements(b); }
    if a != [] {
      assert a[0] in Elements(b);
      HeadIsLeast(a, b);
      HeadIsLeast(b, a);
      LessTotal(a[0], b[0]);
      TailElements(a);
      TailElements(b);
      IncreasingUnique(a[1..], b[1..]);
      assert a == [a[0]] + a[1..] && b == [b[0]] + b[1..];
    }
  }

  lemma HeadIsLeast(a: seq<string>, b: seq<string>)
    requires a != [] && b != [] && Increasing(b) && a[0] in Elements(b)
    ensures !Less(a[0], b[0])
  {
    var k :| 0 <= k < |b| && b[k] == a[0];
    LessTotal(b[0], b[k]);
  }

  lemma TailElements(a: seq<string>)
    requires a != [] && Increasing(a)
    ensures Elements(a[1..]) == Elements(a) - {a[0]}
  {
    IncreasingDistinct(a);
    assert a == [a[0]] + a[1..];
  }

  lemma IncreasingDistinct(xs: seq<string>)
    requires Increasing(xs)
    ensures Distinct(xs)
  {
    forall i, j | 0 <= i < j < |xs| ensures xs[i] != xs[j] { LessTotal(xs[i], xs[j]); }
  }

  lemma {:induction false} DistinctSize(xs: seq<string>)
    requires Distinct(xs)
    ensures |Elements(xs)| == |xs|
  {
    if xs != [] {
      var front, x := xs[..|xs| - 1], xs[|xs| - 1];
      DistinctSize(front);
      assert Elements(xs) == Elements(front) + {x};
      assert x !in Elements(front);
    }
  }

  /** The members of `order` that were chosen, in that order. */
  function Keep(order: seq<string>, chosen: set<string>): (r: seq<string>)
    ensures Elements(r) == Elements(order) * chosen
  {
    if order == [] then []
    else
      var rest := Keep(order[1..], chosen);
      assert Elements(order) == {order[0]} + Elements(order[1..]);
      if order[0] in chosen then
        assert Elements([order[0]] + rest) == {order[0]} + Elements(rest);
        [order[0]] + rest
      else rest
  }

  lemma {:induction false} KeepSnoc(order: seq<string>, x: string, chosen: set<string>)
    ensures Keep(order + [x], chosen) == Keep(order, chosen) + (if x in chosen then [x] else [])
  {
    if order == [] {
      assert order + [x] == [x] && [x][1..] == [];
    } else {
      assert (order + [x])[1..] == order[1..] + [x];
      KeepSnoc(order[1..], x, chosen);
    }
  }

  /** In the order the first name comes before the second. */
  ghost predicate StandsBefore(order: seq<string>, a: string, b: string) {
    forall p, q :: 0 <= p < |order| && 0 <= q < |order| && order[p] == a && order[q] == b ==> p < q
  }

  /** The listed names are in the order, and listed as they stand there. */
  ghost predicate ListedInOrder(order: seq<string>, names: seq<string>) {
    && (forall x <- names :: x in order)
    && forall i, j :: 0 <= i < j < |names| ==> StandsBefore(order, names[i], names[j])
  }

  /** The chosen members stand in the order in which they stood. */
  lemma KeptInOrder(order: seq<string>, chosen: set<string>)
    requires Distinct(order)
    ensures ListedInOrder(order, Keep(order, chosen))
  {
    var names := Keep(order, chosen);
    forall x <- names ensures x in order { assert x in Elements(names) && x in Elements(order); }
    forall i, j, p, q | 0 <= i < j < |names| && 0 <= p < |order| && 0 <= q < |order| && order[p] == names[i] && order[q] == names[j]
      ensures p < q
    {
      KeepInPlace(order, chosen, i, j, p, q);
    }
  }

  lemma {:induction false} KeepInPlace(order: seq<string>, chosen: set<string>, i: nat, j: nat, p: nat, q: nat)
    requires Distinct(order) && i < j < |Keep(order, chosen)| && p < |order| && q < |order|
    requires order[p] == Keep(order, chosen)[i] && order[q] == Keep(order, chosen)[j]
    ensures p < q
  {
    var first := if order[0] in chosen then 1 else 0;
    var rest := Keep(order[1..], chosen);
    if i >= first {
      assert Keep(order, chosen)[i] == rest[i - first] && Keep(order, chosen)[j] == rest[j - first];
      assert rest[i - first] in Elements(rest) && rest[j - first] in Elements(rest);
      assert order[0] !in Elements(order[1..]);
      KeepInPlace(order[1..], chosen, i - first, j - first, p - 1, q - 1);
    } else {
      assert rest[j - 1] in Elements(rest) && order[0] !in Elements(order[1..]);
    }
  }

  /** Filtering twice by the same set, or by the members just kept, changes nothing. */
  lemma {:induction false} KeepAgain(order: seq<string>, chosen: set<string>, more: set<string>)
    requires forall x <- order :: x in more <==> x in chosen
    ensures Keep(order, more) == Keep(order, chosen)
  {
    if order != [] {
      KeepAgain(order[1..], chosen, more);
    }
  }

  /** The keys `${first}|${second}` of the subscription and dedupe maps. */
  function JoinKey(first: string, second: string): string {
    first + "|" + second
  }

  /** `first` and `longer` can be confused: the longer name goes on where the shorter one
      meets the separator. */
  predicate Swallows(first: string, longer: string) {
    first + "|" <= longer
  }

  /** The pair `(a, b)` reads like `(a', b')` because the rest of `a'` has moved into `b`. */
  predicate Shifted(a: string, b: string, a': string, b': string) {
    Swallows(a, a') && b == a'[|a| + 1..] + "|" + b'
  }

  /** Two pairs share a key exactly when they are equal or one is the other with the separator
      shifted. */
  lemma JoinKeyCollidesIff(a: string, b: string, a': string, b': string)
    ensures JoinKey(a, b) == JoinKey(a', b')
       <==> (a == a' && b == b') || Shifted(a, b, a', b') || Shifted(a', b', a, b)
  {
    if |a| <= |a'| { JoinKeyAligned(a, b, a', b'); } else { JoinKeyAligned(a', b', a, b); }
  }

  lemma JoinKeyAligned(a: string, b: string, a': string, b': string)
    requires |a| <= |a'|
    ensures JoinKey(a, b) == JoinKey(a', b') <==> (a == a' && b == b') || Shifted(a, b, a', b')
  {
    var k, k' := JoinKey(a, b), JoinKey(a', b');
    assert k[..|a|] == a && k[|a|] == '|' && k[|a| + 1..] == b;
    assert k'[..|a'|] == a' && k'[|a'|] == '|' && k'[|a'| + 1..] == b';
    if k == k' && |a| < |a'| {
      assert a' == k[..|a'|];
      assert a + "|" == k[..|a| + 1] <= a';
      assert b == k'[|a| + 1..] == a'[|a| + 1..] + "|" + b';
    }
    if Shifted(a, b, a', b') {
      assert a' == a + "|" + a'[|a| + 1..];
      assert k' == a + "|" + (a'[|a| + 1..] + "|" + b');
    }
  }

  lemma SwallowedCollide(g: string, g': string)
    requires Swallows(g, g')
    ensures g != g' && JoinKey(g, g'[|g| + 1..] + "|") == JoinKey(g', "")
  {
    assert g' == g + "|" + g'[|g| + 1..];
  }

  /** Different first parts share no key, whatever the second parts, exactly when neither
      swallows the other. */
  lemma NoKeyInCommonIff(g: string, g': string)
    requires g != g'
    ensures (forall b, b' :: JoinKey(g, b) != JoinKey(g', b')) <==> !Swallows(g, g') && !Swallows(g', g)
  {
    forall b, b' ensures JoinKey(g, b) == JoinKey(g', b') <==> Shifted(g, b, g', b') || Shifted(g', b', g, b) {
      JoinKeyCollidesIff(g, b, g', b');
    }
    if Swallows(g, g') { SwallowedCollide(g, g'); }
    if Swallows(g', g) { SwallowedCollide(g', g); }
  }

  ghost predicate NoneSwallows(names: set<string>) {
    forall g <- names, g' <- names :: !Swallows(g, g')
  }

  ghost predicate KeysAreInjective(names: set<string>) {
    forall g <- names, g' <- names, b, b' :: JoinKey(g, b) == JoinKey(g', b') ==> g == g' && b == b'
  }

  /** Keys over a set of names are injective exactly when none of the names swallows another. */
  lemma InjectiveIffNoneSwallows(names: set<string>)
    ensures KeysAreInjective(names) <==> NoneSwallows(names)
  {
    forall g <- names, g' <- names, b, b'
      ensures JoinKey(g, b) == JoinKey(g', b') <==> (g == g' && b == b') || Shifted(g, b, g', b') || Shifted(g', b', g, b)
    {
      JoinKeyCollidesIff(g, b, g', b');
    }
    forall g <- names, g' <- names | Swallows(g, g')
      ensures g != g' && JoinKey(g, g'[|g| + 1..] + "|") == JoinKey(g', "")
    {
      SwallowedCollide(g, g');
    }
  }
}
