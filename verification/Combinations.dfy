/** Cartesian products of lists, and the signatures that name their members. */
module Combinations {
  import opened Common
  import opened Text

  /** Each prefix followed by the key. */
  function Branch(prefix: seq<string>, list: seq<string>): (r: seq<seq<string>>)
    ensures |r| == |list|
    ensures forall j | 0 <= j < |r| :: r[j] == prefix + [list[j]]
  {
    seq(|list|, j requires 0 <= j < |list| => prefix + [list[j]])
  }

  /** Every prefix extended by every key of the list, prefix by prefix. */
  function FlatMap(prefixes: seq<seq<string>>, list: seq<string>): seq<seq<string>> {
    if prefixes == [] then []
    else FlatMap(prefixes[..|prefixes| - 1], list) + Branch(prefixes[|prefixes| - 1], list)
  }

  /** All combinations of one key from each list, in lexicographic order of the lists. */
  function Cartesian(lists: seq<seq<string>>): seq<seq<string>> {
    if lists == [] then [[]]
    else FlatMap(Cartesian(lists[..|lists| - 1]), lists[|lists| - 1])
  }

  /** One key from each list. */
  predicate Chooses(c: seq<string>, lists: seq<seq<string>>) {
    |c| == |lists| && forall i | 0 <= i < |lists| :: c[i] in lists[i]
  }

  function Size(lists: seq<seq<string>>): nat {
    if lists == [] then 1 else Size(lists[..|lists| - 1]) * |lists[|lists| - 1]|
  }

  // --- membership ------------------------------------------------------------------

  lemma {:induction false} FlatMapMember(prefixes: seq<seq<string>>, list: seq<string>, c: seq<string>)
    ensures c in FlatMap(prefixes, list) <==>
      c != [] && c[..|c| - 1] in prefixes && c[|c| - 1] in list
    decreases |prefixes|
  {
    if prefixes != [] {
      var n := |prefixes| - 1;
      var last := prefixes[n];
      FlatMapMember(prefixes[..n], list, c);
      assert prefixes == prefixes[..n] + [last];
      if c in Branch(last, list) {
        var j :| 0 <= j < |list| && c == last + [list[j]];
        assert c[..|c| - 1] == last;
      }
      if c != [] && c[..|c| - 1] == last && c[|c| - 1] in list {
        var j :| 0 <= j < |list| && list[j] == c[|c| - 1];
        assert Branch(last, list)[j] == c;
      }
    }
  }

  lemma ChoosesStep(lists: seq<seq<string>>, c: seq<string>)
    requires lists != []
    ensures var n := |lists| - 1;
      Chooses(c, lists) <==> |c| == n + 1 && Chooses(c[..n], lists[..n]) && c[n] in lists[n]
  {
  }

  /** The product holds exactly the sequences that take one key from each list. */
  lemma {:induction false} CartesianMember(lists: seq<seq<string>>, c: seq<string>)
    ensures c in Cartesian(lists) <==> Chooses(c, lists)
    decreases |lists|
  {
    if lists != [] {
      var n := |lists| - 1;
      FlatMapMember(Cartesian(lists[..n]), lists[n], c);
      ChoosesStep(lists, c);
      if c != [] {
        CartesianMember(lists[..n], c[..|c| - 1]);
        assert Chooses(c[..|c| - 1], lists[..n]) ==> |c| - 1 == n;
      }
    }
  }

  // --- each once -------------------------------------------------------------------

  lemma {:induction false} FlatMapDistinct(prefixes: seq<seq<string>>, list: seq<string>)
    requires NoDuplicates(prefixes) && NoDuplicates(list)
    ensures NoDuplicates(FlatMap(prefixes, list))
    ensures |FlatMap(prefixes, list)| == |prefixes| * |list|
    decreases |prefixes|
  {
    if prefixes != [] {
      var n := |prefixes| - 1;
      var last := prefixes[n];
      var before, branch := FlatMap(prefixes[..n], list), Branch(last, list);
      FlatMapDistinct(prefixes[..n], list);
      forall i, j | 0 <= i < |before| && 0 <= j < |branch|
        ensures before[i] != branch[j]
      {
        FlatMapMember(prefixes[..n], list, before[i]);
        assert before[i] in before;
        assert branch[j][..|branch[j]| - 1] == last;
      }
      forall i, j | 0 <= i < j < |branch|
        ensures branch[i] != branch[j]
      {
        assert branch[i][|last|] == list[i] && branch[j][|last|] == list[j];
      }
      MultiplyStep(|prefixes|, |list|);
    }
  }

  lemma MultiplyStep(n: nat, k: nat)
    requires 1 <= n
    ensures n * k == (n - 1) * k + k
  {
  }

  /** Lists without repetitions have a product without repetitions, of the size one expects. */
  lemma {:induction false} CartesianDistinct(lists: seq<seq<string>>)
    requires forall i | 0 <= i < |lists| :: NoDuplicates(lists[i])
    ensures NoDuplicates(Cartesian(lists))
    ensures |Cartesian(lists)| == Size(lists)
    decreases |lists|
  {
    if lists != [] {
      var n := |lists| - 1;
      CartesianDistinct(lists[..n]);
      FlatMapDistinct(Cartesian(lists[..n]), lists[n]);
    }
  }

  // --- signatures ------------------------------------------------------------------

  /** The keys joined with "/"; "" when there are none. */
  function Signature(keys: seq<string>): string {
    Join(keys, "/")
  }

  predicate Plain(key: string) {
    '/' !in key
  }

  /** Text before the first separator and text after it are determined by the whole. */
  lemma SeparatorSplits(c: char, x: string, a: string, y: string, b: string)
    requires c !in x && c !in y && x + [c] + a == y + [c] + b
    ensures x == y && a == b
  {
    var s := x + [c] + a;
    assert s[|x|] == c && s[|y|] == c;
    assert forall i | 0 <= i < |x| :: s[i] == x[i];
    assert forall i | 0 <= i < |y| :: s[i] == y[i];
    assert x == s[..|x|] && y == s[..|y|];
    assert a == s[|x| + 1..] && b == s[|y| + 1..];
  }

  /** Slash-free keys, equally many of them, are determined by their signature. */
  lemma {:induction false} SignatureInjective(a: seq<string>, b: seq<string>)
    requires |a| == |b| && Signature(a) == Signature(b)
    requires forall i | 0 <= i < |a| :: Plain(a[i]) && Plain(b[i])
    ensures a == b
    decreases |a|
  {
    if 2 <= |a| {
      assert a[0] + "/" + Signature(a[1..]) == a[0] + ['/'] + Signature(a[1..]);
      SeparatorSplits('/', a[0], Signature(a[1..]), b[0], Signature(b[1..]));
      SignatureInjective(a[1..], b[1..]);
      assert a == [a[0]] + a[1..] && b == [b[0]] + b[1..];
    }
  }

  /** A signature holds a character other than "/" only if one of its keys does. */
  lemma {:induction false} SignatureHasNo(keys: seq<string>, c: char)
    requires c != '/'
    requires forall i | 0 <= i < |keys| :: c !in keys[i]
    ensures c !in Signature(keys)
    decreases |keys|
  {
    if 2 <= |keys| {
      SignatureHasNo(keys[1..], c);
    }
  }
}
