/**
 The page-update ordering engine: precedence rules between pages, an index of
 those rules keyed by the unordered page pair, the enumeration of all index
 pairs of an update, the validator that checks every applicable rule, and the
 single-pass corrector that swaps the two pages of every violated rule.

 The functions compute; what they compute is stated by the lemmas that follow
 each of them.
 */
module PageOrdering {

  /** A page number (an `i8` in the program; unbounded here). */
  type Page = int

  /** An unordered page pair in canonical form: smaller page first. */
  type Key = (Page, Page)

  /** "`before` must appear at a lower index than `after`". */
  datatype Rule = Rule(before: Page, after: Page)

  /** An update: its pages and the map from each page to its index. */
  datatype PageUpdate = PageUpdate(pages: seq<Page>, positions: map<Page, nat>)

  datatype Option<T> = None | Some(value: T)

  // ---------------------------------------------------------------------------
  // Unordered keys
  // ---------------------------------------------------------------------------

  /** The canonical key of the pair `(a, b)`: the two pages, smaller first. */
  function UnorderedKey(a: Page, b: Page): (k: Key)
    ensures k.0 <= k.1
    ensures (k.0 == a && k.1 == b) || (k.0 == b && k.1 == a)
  {
    if a < b then (a, b) else (b, a)
  }

  /** The key of a rule, computed by the rule's own comparison; it agrees
      with the key of the rule's page pair. */
  function RuleKey(r: Rule): (k: Key)
    ensures k == UnorderedKey(r.before, r.after)
  {
    if r.before < r.after then (r.before, r.after) else (r.after, r.before)
  }

  /** The order of the two pages does not matter to the key. */
  lemma UnorderedKeySymmetric(a: Page, b: Page)
    ensures UnorderedKey(a, b) == UnorderedKey(b, a)
  {
  }

  // ---------------------------------------------------------------------------
  // Pair enumeration
  // ---------------------------------------------------------------------------

  /** The pairs `(v[i], v[j])` for `j` from `j0` up: one pass of the inner loop. */
  function RowPairs<T>(v: seq<T>, i: nat, j0: nat): seq<(T, T)>
    requires i < |v|
    decreases |v| - j0
  {
    if j0 >= |v| then [] else [(v[i], v[j0])] + RowPairs(v, i, j0 + 1)
  }

  /** The pairs `(v[i], v[j])` with `i0 <= i < j`, by `i` then `j`. */
  function PairsFrom<T>(v: seq<T>, i0: nat): seq<(T, T)>
    decreases |v| - i0
  {
    if i0 >= |v| then [] else RowPairs(v, i0, i0 + 1) + PairsFrom(v, i0 + 1)
  }

  /** All pairs of elements at increasing indices, ordered by the first index
      and then by the second. */
  function Pairs<T>(v: seq<T>): seq<(T, T)>
  {
    PairsFrom(v, 0)
  }

  /** The nested loops that build the pair list. */
  method FindPairs<T>(v: seq<T>) returns (ps: seq<(T, T)>)
    ensures ps == Pairs(v)
  {
    ps := [];
    var i := 0;
    while i < |v|
      invariant ps + PairsFrom(v, i) == Pairs(v)
    {
      var j := i + 1;
      assert PairsFrom(v, i) == RowPairs(v, i, j) + PairsFrom(v, i + 1);
      while j < |v|
        invariant ps + RowPairs(v, i, j) + PairsFrom(v, i + 1) == Pairs(v)
      {
        assert RowPairs(v, i, j) == [(v[i], v[j])] + RowPairs(v, i, j + 1);
        ps := ps + [(v[i], v[j])];
        j := j + 1;
      }
      i := i + 1;
    }
  }

  /** The index pairs `(i, j)`, `j0 <= j < n`: the positions behind `RowPairs`. */
  function IndexRow(n: nat, i: nat, j0: nat): seq<(nat, nat)>
    decreases n - j0
  {
    if j0 >= n then [] else [(i, j0)] + IndexRow(n, i, j0 + 1)
  }

  /** The index pairs behind `PairsFrom`. */
  function IndexPairsFrom(n: nat, i0: nat): seq<(nat, nat)>
    decreases n - i0
  {
    if i0 >= n then [] else IndexRow(n, i0, i0 + 1) + IndexPairsFrom(n, i0 + 1)
  }

  /** Lexicographic order on index pairs: by first index, then by second. */
  predicate LexLess(p: (nat, nat), q: (nat, nat))
  {
    p.0 < q.0 || (p.0 == q.0 && p.1 < q.1)
  }

  /** One inner pass lists `(i, j)` for every `j` from `j0` to `n - 1`, in
      increasing order. */
  lemma {:induction false} IndexRowSpec(n: nat, i: nat, j0: nat)
    ensures |IndexRow(n, i, j0)| == if j0 <= n then n - j0 else 0
    ensures forall k :: 0 <= k < |IndexRow(n, i, j0)| ==> IndexRow(n, i, j0)[k] == (i, j0 + k)
    decreases n - j0
  {
    if j0 < n {
      IndexRowSpec(n, i, j0 + 1);
    }
  }

  /** The index enumeration from row `i0` has `m(m-1)/2` entries for
      `m = n - i0`. */
  lemma {:induction false} IndexPairsFromLength(n: nat, i0: nat)
    requires i0 <= n
    ensures |IndexPairsFrom(n, i0)| == (n - i0) * (n - i0 - 1) / 2
    decreases n - i0
  {
    if i0 < n {
      IndexPairsFromLength(n, i0 + 1);
      IndexRowSpec(n, i0, i0 + 1);
      var m := n - i0 - 1;
      assert (m + 1) * m == m * (m - 1) + 2 * m;
    }
  }

  /** Every entry of the index enumeration from row `i0` is a pair `(a, b)`
      with `i0 <= a < b < n`. */
  lemma {:induction false} IndexPairsFromInRange(n: nat, i0: nat)
    requires i0 <= n
    ensures forall k :: 0 <= k < |IndexPairsFrom(n, i0)| ==>
      i0 <= IndexPairsFrom(n, i0)[k].0 < IndexPairsFrom(n, i0)[k].1 < n
    decreases n - i0
  {
    if i0 < n {
      IndexPairsFromInRange(n, i0 + 1);
      IndexRowSpec(n, i0, i0 + 1);
      var row := IndexRow(n, i0, i0 + 1);
      var rest := IndexPairsFrom(n, i0 + 1);
      var ps: seq<(nat, nat)> := row + rest;
      assert IndexPairsFrom(n, i0) == ps;
      forall k | 0 <= k < |ps| ensures i0 <= ps[k].0 < ps[k].1 < n {
        if k < |row| {
          assert ps[k] == row[k] == (i0, i0 + 1 + k);
        } else {
          assert ps[k] == rest[k - |row|];
        }
      }
    }
  }

  /** Every pair `(a, b)` with `i0 <= a < b < n` occurs in the index
      enumeration from row `i0`. */
  lemma {:induction false} IndexPairsFromCovers(n: nat, i0: nat)
    requires i0 <= n
    ensures forall a, b :: i0 <= a < b < n ==> (a, b) in IndexPairsFrom(n, i0)
    decreases n - i0
  {
    if i0 < n {
      IndexPairsFromCovers(n, i0 + 1);
      IndexRowSpec(n, i0, i0 + 1);
      var row := IndexRow(n, i0, i0 + 1);
      var rest := IndexPairsFrom(n, i0 + 1);
      var ps: seq<(nat, nat)> := row + rest;
      assert IndexPairsFrom(n, i0) == ps;
      forall a, b | i0 <= a < b < n ensures (a, b) in ps {
        if a == i0 {
          assert ps[b - i0 - 1] == row[b - i0 - 1];
        } else {
          assert (a, b) in rest;
        }
      }
    }
  }

  /** The index enumeration from row `i0` holds exactly the pairs `(a, b)`
      with `i0 <= a < b < n`. */
  lemma IndexPairsFromSpec(n: nat, i0: nat)
    requires i0 <= n
    ensures var ps := IndexPairsFrom(n, i0);
      && (forall k :: 0 <= k < |ps| ==> i0 <= ps[k].0 < ps[k].1 < n)
      && (forall a, b :: i0 <= a < b < n ==> (a, b) in ps)
  {
    IndexPairsFromInRange(n, i0);
    IndexPairsFromCovers(n, i0);
  }

  /** The index enumeration is strictly increasing in lexicographic order, so
      no pair occurs twice. */
  lemma {:induction false} IndexPairsFromSorted(n: nat, i0: nat)
    requires i0 <= n
    ensures var ps := IndexPairsFrom(n, i0);
      forall k, l :: 0 <= k < l < |ps| ==> LexLess(ps[k], ps[l])
    decreases n - i0
  {
    if i0 < n {
      IndexPairsFromSorted(n, i0 + 1);
      IndexPairsFromSpec(n, i0 + 1);
      IndexRowSpec(n, i0, i0 + 1);
      var row := IndexRow(n, i0, i0 + 1);
      var rest := IndexPairsFrom(n, i0 + 1);
      var ps := row + rest;
      forall k, l | 0 <= k < l < |ps| ensures LexLess(ps[k], ps[l]) {
        if l < |row| {
        } else if k < |row| {
          assert ps[l] == rest[l - |row|];
        } else {
          assert ps[k] == rest[k - |row|] && ps[l] == rest[l - |row|];
        }
      }
    }
  }

  /** The value pairs are the index pairs read through `v`. */
  lemma {:induction false} PairsFromIndexed<T>(v: seq<T>, i0: nat)
    ensures |PairsFrom(v, i0)| == |IndexPairsFrom(|v|, i0)|
    ensures forall k :: 0 <= k < |PairsFrom(v, i0)| ==>
      IndexPairsFrom(|v|, i0)[k].0 < |v| && IndexPairsFrom(|v|, i0)[k].1 < |v| &&
      PairsFrom(v, i0)[k] == (v[IndexPairsFrom(|v|, i0)[k].0], v[IndexPairsFrom(|v|, i0)[k].1])
    decreases |v| - i0
  {
    if i0 < |v| {
      PairsFromIndexed(v, i0 + 1);
      RowPairsIndexed(v, i0, i0 + 1);
    }
  }

  lemma {:induction false} RowPairsIndexed<T>(v: seq<T>, i: nat, j0: nat)
    requires i < |v|
    ensures |RowPairs(v, i, j0)| == |IndexRow(|v|, i, j0)|
    ensures forall k :: 0 <= k < |RowPairs(v, i, j0)| ==>
      IndexRow(|v|, i, j0)[k].1 < |v| && IndexRow(|v|, i, j0)[k].0 == i &&
      RowPairs(v, i, j0)[k] == (v[i], v[IndexRow(|v|, i, j0)[k].1])
    decreases |v| - j0
  {
    if j0 < |v| {
      RowPairsIndexed(v, i, j0 + 1);
    }
  }

  /** One inner pass from `j0` yields `(v[i], v[j])` for every `j0 <= j`,
      and nothing else. */
  lemma {:induction false} RowPairsMembers<T>(v: seq<T>, i: nat, j0: nat)
    requires i < |v|
    ensures forall j :: j0 <= j < |v| ==> (v[i], v[j]) in RowPairs(v, i, j0)
    ensures forall x :: x in RowPairs(v, i, j0) ==> exists j :: j0 <= j < |v| && x == (v[i], v[j])
    decreases |v| - j0
  {
    if j0 < |v| {
      RowPairsMembers(v, i, j0 + 1);
    }
  }

  /** The pairs from row `i0` include `(v[i], v[j])` for all `i0 <= i < j`. */
  lemma {:induction false} PairsFromComplete<T>(v: seq<T>, i0: nat)
    ensures forall i, j :: i0 <= i < j < |v| ==> (v[i], v[j]) in PairsFrom(v, i0)
    decreases |v| - i0
  {
    if i0 < |v| {
      PairsFromComplete(v, i0 + 1);
      RowPairsMembers(v, i0, i0 + 1);
      var row := RowPairs(v, i0, i0 + 1);
      var rest := PairsFrom(v, i0 + 1);
      forall i, j | i0 <= i < j < |v| ensures (v[i], v[j]) in row + rest {
        if i == i0 {
          assert (v[i], v[j]) in row;
        } else {
          assert (v[i], v[j]) in rest;
        }
      }
    }
  }

  /** The pairs from row `i0` are all of the form `(v[i], v[j])` with
      `i0 <= i < j`. */
  lemma {:induction false} PairsFromSound<T>(v: seq<T>, i0: nat)
    ensures forall x :: x in PairsFrom(v, i0) ==> exists i, j :: i0 <= i < j < |v| && x == (v[i], v[j])
    decreases |v| - i0
  {
    if i0 < |v| {
      PairsFromSound(v, i0 + 1);
      RowPairsMembers(v, i0, i0 + 1);
      var row := RowPairs(v, i0, i0 + 1);
      var rest := PairsFrom(v, i0 + 1);
      forall x | x in row + rest ensures exists i, j :: i0 <= i < j < |v| && x == (v[i], v[j]) {
        if x in row {
          var j :| i0 + 1 <= j < |v| && x == (v[i0], v[j]);
        } else {
          var i, j :| i0 + 1 <= i < j < |v| && x == (v[i], v[j]);
        }
      }
    }
  }

  /** `Pairs` on a length-`n` sequence has `n(n-1)/2` entries: the pairs
      `(v[i], v[j])` with `i < j`, all of them and nothing else. */
  lemma PairsSpec<T>(v: seq<T>)
    ensures |Pairs(v)| == |v| * (|v| - 1) / 2
    ensures forall i, j :: 0 <= i < j < |v| ==> (v[i], v[j]) in Pairs(v)
    ensures forall x :: x in Pairs(v) ==> exists i, j :: 0 <= i < j < |v| && x == (v[i], v[j])
  {
    IndexPairsFromLength(|v|, 0);
    PairsFromLength(v, 0);
    PairsFromComplete(v, 0);
    PairsFromSound(v, 0);
  }

  /** The value pairs and the index pairs are equally many. */
  lemma {:induction false} PairsFromLength<T>(v: seq<T>, i0: nat)
    ensures |PairsFrom(v, i0)| == |IndexPairsFrom(|v|, i0)|
    decreases |v| - i0
  {
    if i0 < |v| {
      PairsFromLength(v, i0 + 1);
      RowPairsIndexed(v, i0, i0 + 1);
    }
  }

  /** The `k`-th entry of `Pairs(v)` is `v` read at the `k`-th index pair,
      and the index pairs come in strictly increasing lexicographic order:
      by the first index, then by the second, each pair once. */
  lemma PairsOrder<T>(v: seq<T>)
    ensures |Pairs(v)| == |IndexPairsFrom(|v|, 0)|
    ensures forall k :: 0 <= k < |Pairs(v)| ==>
      var ij := IndexPairsFrom(|v|, 0)[k];
      ij.0 < ij.1 < |v| && Pairs(v)[k] == (v[ij.0], v[ij.1])
    ensures forall k, l :: 0 <= k < l < |Pairs(v)| ==>
      LexLess(IndexPairsFrom(|v|, 0)[k], IndexPairsFrom(|v|, 0)[l])
  {
    IndexPairsFromSpec(|v|, 0);
    IndexPairsFromSorted(|v|, 0);
    PairsFromIndexed(v, 0);
  }

  // ---------------------------------------------------------------------------
  // The rule index
  // ---------------------------------------------------------------------------

  /** Every rule in the index is stored under its own key. */
  predicate WellKeyed(m: map<Key, Rule>)
  {
    forall k :: k in m ==> RuleKey(m[k]) == k
  }

  /** The index of the first `n` rules: each inserted under its key, in list
      order, so a later rule with the same key replaces an earlier one. */
  function RulesUpTo(rules: seq<Rule>, n: nat): (m: map<Key, Rule>)
    requires n <= |rules|
    ensures WellKeyed(m)
    decreases n
  {
    if n == 0 then map[]
    else RulesUpTo(rules, n - 1)[RuleKey(rules[n - 1]) := rules[n - 1]]
  }

  /** The rule index of the whole list. */
  function RulesToMap(rules: seq<Rule>): (m: map<Key, Rule>)
    ensures WellKeyed(m)
  {
    RulesUpTo(rules, |rules|)
  }

  /** No rule after `rules[i]` among the first `n` shares its key. */
  predicate LastWithKey(rules: seq<Rule>, i: nat, n: nat)
    requires i < n <= |rules|
  {
    forall j :: i < j < n ==> RuleKey(rules[j]) != RuleKey(rules[i])
  }

  /** The index of the first `n` rules holds a key exactly when one of them
      has it. */
  lemma {:induction false} RulesUpToKeys(rules: seq<Rule>, n: nat)
    requires n <= |rules|
    ensures forall k :: k in RulesUpTo(rules, n) <==> exists i :: 0 <= i < n && RuleKey(rules[i]) == k
    decreases n
  {
    if n > 0 {
      RulesUpToKeys(rules, n - 1);
      var prev := RulesUpTo(rules, n - 1);
      var m := RulesUpTo(rules, n);
      var last := rules[n - 1];
      assert m == prev[RuleKey(last) := last];
      forall k ensures k in m <==> exists i :: 0 <= i < n && RuleKey(rules[i]) == k {
        if k in m && k != RuleKey(last) {
          var i :| 0 <= i < n - 1 && RuleKey(rules[i]) == k;
        }
        if exists i :: 0 <= i < n && RuleKey(rules[i]) == k {
          var i :| 0 <= i < n && RuleKey(rules[i]) == k;
          if i < n - 1 && k != RuleKey(last) {
            assert k in prev;
          }
        }
      }
    }
  }

  /** Every entry of the index of the first `n` rules is one of the rules. */
  lemma {:induction false} RulesUpToEntries(rules: seq<Rule>, n: nat)
    requires n <= |rules|
    ensures forall k :: k in RulesUpTo(rules, n) ==> RulesUpTo(rules, n)[k] in rules
    decreases n
  {
    if n > 0 {
      RulesUpToEntries(rules, n - 1);
      var prev := RulesUpTo(rules, n - 1);
      var m := RulesUpTo(rules, n);
      var last := rules[n - 1];
      assert m == prev[RuleKey(last) := last];
      forall k | k in m ensures m[k] in rules {
        if k != RuleKey(last) {
          assert prev[k] in rules;
        }
      }
    }
  }

  /** In the index of the first `n` rules, the entry for a key is the last of
      them with that key. */
  lemma {:induction false} RulesUpToLast(rules: seq<Rule>, n: nat)
    requires n <= |rules|
    ensures forall i :: 0 <= i < n && LastWithKey(rules, i, n) ==>
      RuleKey(rules[i]) in RulesUpTo(rules, n) && RulesUpTo(rules, n)[RuleKey(rules[i])] == rules[i]
    decreases n
  {
    if n > 0 {
      RulesUpToLast(rules, n - 1);
      var prev := RulesUpTo(rules, n - 1);
      var m := RulesUpTo(rules, n);
      var last := rules[n - 1];
      assert m == prev[RuleKey(last) := last];
      forall i | 0 <= i < n && LastWithKey(rules, i, n)
        ensures RuleKey(rules[i]) in m && m[RuleKey(rules[i])] == rules[i]
      {
        if i < n - 1 {
          assert RuleKey(rules[n - 1]) != RuleKey(rules[i]);
          assert LastWithKey(rules, i, n - 1);
        }
      }
    }
  }

  /** The index of the first `n` rules holds a key exactly when one of them
      has it, every entry is one of the rules, and the entry for a key is the
      last of them with that key. */
  lemma RulesUpToSpec(rules: seq<Rule>, n: nat)
    requires n <= |rules|
    ensures var m := RulesUpTo(rules, n);
      && (forall k :: k in m <==> exists i :: 0 <= i < n && RuleKey(rules[i]) == k)
      && (forall k :: k in m ==> m[k] in rules)
      && (forall i :: 0 <= i < n && LastWithKey(rules, i, n) ==> m[RuleKey(rules[i])] == rules[i])
  {
    RulesUpToKeys(rules, n);
    RulesUpToEntries(rules, n);
    RulesUpToLast(rules, n);
  }

  /** The index holds a key exactly when some rule has it, every entry is one
      of the rules, and the entry for a key is the last rule with that key. */
  lemma RulesToMapSpec(rules: seq<Rule>)
    ensures var m := RulesToMap(rules);
      && (forall k :: k in m <==> exists i :: 0 <= i < |rules| && RuleKey(rules[i]) == k)
      && (forall k :: k in m ==> m[k] in rules)
      && (forall i :: 0 <= i < |rules| && LastWithKey(rules, i, |rules|) ==> m[RuleKey(rules[i])] == rules[i])
  {
    RulesUpToSpec(rules, |rules|);
  }

  /** The rule governing the pair `(a, b)`, if any, found through its key. */
  function Lookup(m: map<Key, Rule>, a: Page, b: Page): (r: Option<Rule>)
    requires WellKeyed(m)
    ensures r.Some? <==> UnorderedKey(a, b) in m
    ensures r.Some? ==> (r.value == Rule(a, b) || r.value == Rule(b, a))
  {
    var k := UnorderedKey(a, b);
    if k in m then Some(m[k]) else None
  }

  /** Looking a pair up in either order finds the same rule. */
  lemma LookupSymmetric(m: map<Key, Rule>, a: Page, b: Page)
    requires WellKeyed(m)
    ensures Lookup(m, a, b) == Lookup(m, b, a)
  {
    UnorderedKeySymmetric(a, b);
  }

  /** The rules that apply to the given pairs, in pair order; a pair without
      a rule contributes nothing. */
  function ApplicableRules(pairs: seq<(Page, Page)>, m: map<Key, Rule>): seq<Rule>
    requires WellKeyed(m)
    decreases |pairs|
  {
    if |pairs| == 0 then []
    else
      var rest := ApplicableRules(pairs[1..], m);
      var k := UnorderedKey(pairs[0].0, pairs[0].1);
      if k in m then [m[k]] + rest else rest
  }

  /** Rule selection works pair by pair: it distributes over concatenation,
      and a single pair yields its rule or nothing. */
  lemma {:induction false} ApplicableRulesAppend(a: seq<(Page, Page)>, b: seq<(Page, Page)>, m: map<Key, Rule>)
    requires WellKeyed(m)
    ensures ApplicableRules(a + b, m) == ApplicableRules(a, m) + ApplicableRules(b, m)
    decreases |a|
  {
    if |a| > 0 {
      assert (a + b)[0] == a[0];
      assert (a + b)[1..] == a[1..] + b;
      ApplicableRulesAppend(a[1..], b, m);
    } else {
      assert a + b == b;
    }
  }

  lemma ApplicableRulesSingle(p: (Page, Page), m: map<Key, Rule>)
    requires WellKeyed(m)
    ensures ApplicableRules([p], m) == match Lookup(m, p.0, p.1) case Some(r) => [r] case None => []
  {
    assert [p][1..] == [];
  }

  /** The selected rules are at most one per pair; every pair that has a rule
      contributes it, and every selected rule is the rule of some pair. */
  lemma {:induction false} ApplicableRulesSpec(pairs: seq<(Page, Page)>, m: map<Key, Rule>)
    requires WellKeyed(m)
    ensures |ApplicableRules(pairs, m)| <= |pairs|
    ensures forall p :: p in pairs && Lookup(m, p.0, p.1).Some? ==>
      Lookup(m, p.0, p.1).value in ApplicableRules(pairs, m)
    ensures forall r :: r in ApplicableRules(pairs, m) ==>
      exists p :: p in pairs && Lookup(m, p.0, p.1) == Some(r)
    decreases |pairs|
  {
    if |pairs| > 0 {
      ApplicableRulesSpec(pairs[1..], m);
      assert forall p :: p in pairs ==> p == pairs[0] || p in pairs[1..];
      assert forall p :: p in pairs[1..] ==> p in pairs;
    }
  }

  // ---------------------------------------------------------------------------
  // Positions
  // ---------------------------------------------------------------------------

  /** No page occurs twice. */
  predicate Distinct(pages: seq<Page>)
  {
    forall i, j :: 0 <= i < j < |pages| ==> pages[i] != pages[j]
  }

  /** The position map of the first `n` pages: each page mapped to its
      index, a later occurrence replacing an earlier one. */
  function PositionsUpTo(pages: seq<Page>, n: nat): map<Page, nat>
    requires n <= |pages|
    decreases n
  {
    if n == 0 then map[]
    else PositionsUpTo(pages, n - 1)[pages[n - 1] := n - 1]
  }

  /** The position map of a whole page list. */
  function PagesToPositions(pages: seq<Page>): map<Page, nat>
  {
    PositionsUpTo(pages, |pages|)
  }

  /** The position map of the first `n` pages holds exactly those pages and
      sends each to an index below `n` holding it, namely its last
      occurrence. */
  lemma {:induction false} PositionsUpToSpec(pages: seq<Page>, n: nat)
    requires n <= |pages|
    ensures var pos := PositionsUpTo(pages, n);
      && (forall p :: p in pos <==> exists i :: 0 <= i < n && pages[i] == p)
      && (forall p :: p in pos ==> pos[p] < n && pages[pos[p]] == p)
      && (forall i :: 0 <= i < n ==> pages[i] in pos && pos[pages[i]] >= i)
    decreases n
  {
    if n > 0 {
      PositionsUpToSpec(pages, n - 1);
      var prev := PositionsUpTo(pages, n - 1);
      var pos := PositionsUpTo(pages, n);
      assert pos == prev[pages[n - 1] := n - 1];
      forall p ensures p in pos <==> exists i :: 0 <= i < n && pages[i] == p {
        if exists i :: 0 <= i < n && pages[i] == p {
          var i :| 0 <= i < n && pages[i] == p;
          if i < n - 1 {
            assert p in prev;
          }
        }
      }
    }
  }

  /** The position map holds exactly the pages and sends each page to an
      index holding it, namely its last occurrence; so for distinct pages it
      sends `pages[i]` to `i`. */
  lemma PagesToPositionsSpec(pages: seq<Page>)
    ensures var pos := PagesToPositions(pages);
      && pos.Keys == (set p | p in pages)
      && (forall p :: p in pos ==> pos[p] < |pages| && pages[pos[p]] == p)
      && (forall i :: 0 <= i < |pages| ==> pages[i] in pos && pos[pages[i]] >= i)
  {
    PositionsUpToSpec(pages, |pages|);
    var pos := PagesToPositions(pages);
    forall p ensures p in pos <==> p in pages {
      if p in pages {
        var i :| 0 <= i < |pages| && pages[i] == p;
      }
    }
  }

  /** The pages and the position map describe each other exactly: the map
      sends every page to its index and holds no other key. */
  predicate Consistent(u: PageUpdate)
  {
    && (forall p :: p in u.positions ==> u.positions[p] < |u.pages| && u.pages[u.positions[p]] == p)
    && (forall i :: 0 <= i < |u.pages| ==> u.pages[i] in u.positions && u.positions[u.pages[i]] == i)
  }

  /** Every page of the update has a recorded position. */
  predicate Covers(u: PageUpdate)
  {
    forall i :: 0 <= i < |u.pages| ==> u.pages[i] in u.positions
  }

  /** A new update: the page list as given with its position map. */
  function NewUpdate(pages: seq<Page>): (u: PageUpdate)
    ensures u.pages == pages
  {
    PageUpdate(pages, PagesToPositions(pages))
  }

  /** A new update has a position for each of its pages and for nothing else,
      and its pages and positions correspond exactly when no page repeats. */
  lemma NewUpdateSpec(pages: seq<Page>)
    ensures Covers(NewUpdate(pages))
    ensures NewUpdate(pages).positions.Keys == set p | p in pages
    ensures Consistent(NewUpdate(pages)) <==> Distinct(pages)
  {
    PagesToPositionsSpec(pages);
    var pos := PagesToPositions(pages);
    if Distinct(pages) {
      forall i | 0 <= i < |pages| ensures pos[pages[i]] == i {
        var k := pos[pages[i]];
        assert pages[k] == pages[i];
      }
    }
    if Consistent(NewUpdate(pages)) {
      forall i, j | 0 <= i < j < |pages| ensures pages[i] != pages[j] {
        assert pos[pages[i]] == i && pos[pages[j]] == j;
      }
    }
  }

  // ---------------------------------------------------------------------------
  // Validation
  // ---------------------------------------------------------------------------

  /** Both pages of the rule have a recorded position. */
  predicate Placed(r: Rule, u: PageUpdate)
  {
    r.before in u.positions && r.after in u.positions
  }

  /** The rule holds when `before` sits at a lower index than `after`. */
  function Satisfied(r: Rule, u: PageUpdate): bool
    requires Placed(r, u)
  {
    u.positions[r.before] < u.positions[r.after]
  }

  /** On a consistent update a rule holds exactly when its `before` page
      occurs at a lower index of the page list than its `after` page. */
  lemma SatisfiedMeaning(r: Rule, u: PageUpdate)
    requires Consistent(u)
    requires Placed(r, u)
    ensures Satisfied(r, u) <==>
      exists i, j :: 0 <= i < j < |u.pages| && u.pages[i] == r.before && u.pages[j] == r.after
  {
    var bi := u.positions[r.before];
    var ai := u.positions[r.after];
    if Satisfied(r, u) {
      assert u.pages[bi] == r.before && u.pages[ai] == r.after;
    }
  }

  /** The validation loop: true unless some rule, checked in order, fails;
      stops at the first failure. */
  function AllSatisfied(rules: seq<Rule>, u: PageUpdate): bool
    requires forall r :: r in rules ==> Placed(r, u)
    decreases |rules|
  {
    if |rules| == 0 then true
    else if !Satisfied(rules[0], u) then false
    else AllSatisfied(rules[1..], u)
  }

  /** The validation loop accepts exactly when every rule holds. */
  lemma {:induction false} AllSatisfiedMeaning(rules: seq<Rule>, u: PageUpdate)
    requires forall r :: r in rules ==> Placed(r, u)
    ensures AllSatisfied(rules, u) <==> forall k :: 0 <= k < |rules| ==> Satisfied(rules[k], u)
    decreases |rules|
  {
    if |rules| > 0 {
      assert forall r :: r in rules[1..] ==> r in rules;
      AllSatisfiedMeaning(rules[1..], u);
      assert forall k :: 1 <= k < |rules| ==> rules[k] == rules[1..][k - 1];
    }
  }

  /** Every rule selected for the pairs of `pages` concerns two of its pages. */
  lemma ApplicableRulesPlaced(u: PageUpdate, m: map<Key, Rule>)
    requires WellKeyed(m)
    requires Covers(u)
    ensures forall r :: r in ApplicableRules(Pairs(u.pages), m) ==> Placed(r, u)
  {
    PairsSpec(u.pages);
    ApplicableRulesSpec(Pairs(u.pages), m);
    forall r | r in ApplicableRules(Pairs(u.pages), m) ensures Placed(r, u) {
      var p :| p in Pairs(u.pages) && Lookup(m, p.0, p.1) == Some(r);
      var i, j :| 0 <= i < j < |u.pages| && p == (u.pages[i], u.pages[j]);
      assert u.pages[i] in u.positions && u.pages[j] in u.positions;
    }
  }

  /** Whether every rule that applies to a pair of the update holds. */
  function IsCorrectlyOrdered(u: PageUpdate, m: map<Key, Rule>): bool
    requires WellKeyed(m)
    requires Covers(u)
  {
    ApplicableRulesPlaced(u, m);
    AllSatisfied(ApplicableRules(Pairs(u.pages), m), u)
  }

  /** For every two pages of the update, the rule governing them, if any,
      puts them in the order they appear. */
  predicate RespectsRules(pages: seq<Page>, m: map<Key, Rule>)
    requires WellKeyed(m)
  {
    forall i, j :: 0 <= i < j < |pages| && Lookup(m, pages[i], pages[j]).Some? ==>
      Lookup(m, pages[i], pages[j]).value == Rule(pages[i], pages[j])
  }

  /** On a consistent update the validator accepts exactly when, for every
      two pages, the governing rule (if any) orders them as they appear;
      pairs without a rule never matter. */
  lemma CorrectlyOrderedMeaning(u: PageUpdate, m: map<Key, Rule>)
    requires WellKeyed(m)
    requires Consistent(u)
    ensures IsCorrectlyOrdered(u, m) <==> RespectsRules(u.pages, m)
  {
    var rules := ApplicableRules(Pairs(u.pages), m);
    ApplicableRulesPlaced(u, m);
    AllSatisfiedMeaning(rules, u);
    if IsCorrectlyOrdered(u, m) {
      SatisfiedRespects(u, m, rules);
    }
    if RespectsRules(u.pages, m) {
      forall k | 0 <= k < |rules| ensures Satisfied(rules[k], u) {
        RespectsSatisfied(u, m, rules, rules[k]);
      }
    }
  }

  /** A pair of the pair list is made of the elements at two increasing
      indices. */
  lemma PairIndices<T>(v: seq<T>, p: (T, T)) returns (i: nat, j: nat)
    requires p in Pairs(v)
    ensures i < j < |v| && p == (v[i], v[j])
  {
    PairsSpec(v);
    i, j :| 0 <= i < j < |v| && p == (v[i], v[j]);
  }

  /** A rule the index holds for the pages at positions `i < j` is among the
      selected rules. */
  lemma PairRuleSelected(u: PageUpdate, m: map<Key, Rule>, rules: seq<Rule>, i: nat, j: nat)
    returns (k: nat)
    requires WellKeyed(m)
    requires rules == ApplicableRules(Pairs(u.pages), m)
    requires i < j < |u.pages|
    requires Lookup(m, u.pages[i], u.pages[j]).Some?
    ensures k < |rules| && rules[k] == Lookup(m, u.pages[i], u.pages[j]).value
  {
    PairsSpec(u.pages);
    assert (u.pages[i], u.pages[j]) in Pairs(u.pages);
    ApplicableRulesSpec(Pairs(u.pages), m);
    k :| 0 <= k < |rules| && rules[k] == Lookup(m, u.pages[i], u.pages[j]).value;
  }

  /** Every selected rule is the rule of the pages at some positions
      `i < j`. */
  lemma RuleOfSomePair(u: PageUpdate, m: map<Key, Rule>, rules: seq<Rule>, r: Rule)
    returns (i: nat, j: nat)
    requires WellKeyed(m)
    requires rules == ApplicableRules(Pairs(u.pages), m)
    requires r in rules
    ensures i < j < |u.pages| && Lookup(m, u.pages[i], u.pages[j]) == Some(r)
  {
    ApplicableRulesSpec(Pairs(u.pages), m);
    var p :| p in Pairs(u.pages) && Lookup(m, p.0, p.1) == Some(r);
    i, j := PairIndices(u.pages, p);
  }

  /** If every selected rule holds, the pages respect the rules. */
  lemma SatisfiedRespects(u: PageUpdate, m: map<Key, Rule>, rules: seq<Rule>)
    requires WellKeyed(m)
    requires Consistent(u)
    requires rules == ApplicableRules(Pairs(u.pages), m)
    requires forall r :: r in rules ==> Placed(r, u)
    requires forall k :: 0 <= k < |rules| ==> Satisfied(rules[k], u)
    ensures RespectsRules(u.pages, m)
  {
    forall i, j | 0 <= i < j < |u.pages| && Lookup(m, u.pages[i], u.pages[j]).Some?
      ensures Lookup(m, u.pages[i], u.pages[j]).value == Rule(u.pages[i], u.pages[j])
    {
      var k := PairRuleSelected(u, m, rules, i, j);
      var r := rules[k];
      assert Placed(r, u) && Satisfied(r, u);
      assert u.positions[u.pages[i]] == i && u.positions[u.pages[j]] == j;
    }
  }

  /** If the pages respect the rules, each selected rule holds. */
  lemma RespectsSatisfied(u: PageUpdate, m: map<Key, Rule>, rules: seq<Rule>, r: Rule)
    requires WellKeyed(m)
    requires Consistent(u)
    requires RespectsRules(u.pages, m)
    requires rules == ApplicableRules(Pairs(u.pages), m)
    requires r in rules
    ensures Placed(r, u) && Satisfied(r, u)
  {
    var i, j := RuleOfSomePair(u, m, rules, r);
    assert r == Rule(u.pages[i], u.pages[j]);
    assert u.positions[r.before] == i && u.positions[r.after] == j;
  }

  // ---------------------------------------------------------------------------
  // Correction
  // ---------------------------------------------------------------------------

  /** The update with pages `x` and `y` trading places, both in the page list
      and in the position map. */
  function Swap(u: PageUpdate, x: Page, y: Page): PageUpdate
    requires Consistent(u)
    requires x in u.positions && y in u.positions
  {
    var xi := u.positions[x];
    var yi := u.positions[y];
    PageUpdate(u.pages[xi := y][yi := x], u.positions[x := yi][y := xi])
  }

  /** Swapping keeps the correspondence and the multiset of pages, exchanges
      the two positions and touches no other page or position. */
  lemma SwapSpec(u: PageUpdate, x: Page, y: Page)
    requires Consistent(u)
    requires x in u.positions && y in u.positions
    ensures var v := Swap(u, x, y);
      && Consistent(v)
      && multiset(v.pages) == multiset(u.pages)
      && v.positions.Keys == u.positions.Keys
      && v.positions[x] == u.positions[y] && v.positions[y] == u.positions[x]
      && (forall k :: 0 <= k < |u.pages| && k != u.positions[x] && k != u.positions[y] ==>
            v.pages[k] == u.pages[k])
      && (forall p :: p in u.positions && p != x && p != y ==> v.positions[p] == u.positions[p])
  {
    var v := Swap(u, x, y);
    var xi := u.positions[x];
    var yi := u.positions[y];
    SwapPermutes(u.pages, xi, yi);
    forall p | p in v.positions ensures v.positions[p] < |v.pages| && v.pages[v.positions[p]] == p {
      if p != x && p != y {
        assert u.pages[u.positions[p]] == p;
      }
    }
    forall i | 0 <= i < |v.pages| ensures v.pages[i] in v.positions && v.positions[v.pages[i]] == i {
      if i != xi && i != yi {
        assert u.positions[u.pages[i]] == i;
      }
    }
  }

  /** Exchanging two entries of a sequence keeps its multiset. */
  lemma SwapPermutes(s: seq<Page>, i: nat, j: nat)
    requires i < |s| && j < |s|
    ensures multiset(s[i := s[j]][j := s[i]]) == multiset(s)
  {
    var t := s[i := s[j]];
    assert multiset(t) == multiset(s) - multiset{s[i]} + multiset{s[j]};
  }

  /** Enforce one rule: nothing happens when it holds; otherwise its two
      pages trade places. */
  function Apply(r: Rule, u: PageUpdate): PageUpdate
    requires Consistent(u)
    requires Placed(r, u)
  {
    if Satisfied(r, u) then u else Swap(u, r.before, r.after)
  }

  /** Applying a rule keeps the pages/positions correspondence and the
      multiset of pages; it changes nothing when the rule holds, and
      otherwise exchanges exactly the rule's two pages and their two position
      entries; afterwards the rule holds (unless it relates a page to itself). */
  lemma ApplySpec(r: Rule, u: PageUpdate)
    requires Consistent(u)
    requires Placed(r, u)
    ensures var v := Apply(r, u);
      && Consistent(v)
      && multiset(v.pages) == multiset(u.pages)
      && v.positions.Keys == u.positions.Keys
      && (Satisfied(r, u) ==> v == u)
      && (!Satisfied(r, u) ==>
            && v.pages[u.positions[r.before]] == r.after
            && v.pages[u.positions[r.after]] == r.before
            && (forall k :: 0 <= k < |u.pages| && k != u.positions[r.before] && k != u.positions[r.after] ==>
                  v.pages[k] == u.pages[k])
            && (forall p :: p in u.positions && p != r.before && p != r.after ==> v.positions[p] == u.positions[p]))
      && (r.before != r.after ==> Satisfied(r, v))
  {
    if !Satisfied(r, u) {
      SwapSpec(u, r.before, r.after);
      var v := Swap(u, r.before, r.after);
      assert v.pages[v.positions[r.before]] == r.before;
      assert v.pages[v.positions[r.after]] == r.after;
    }
  }

  /** Apply the rules one after the other, each seeing the previous swaps. */
  function ApplyAll(rules: seq<Rule>, u: PageUpdate): PageUpdate
    requires Consistent(u)
    requires forall r :: r in rules ==> Placed(r, u)
    decreases |rules|
  {
    if |rules| == 0 then u
    else
      ApplySpec(rules[0], u);
      var next := Apply(rules[0], u);
      assert forall r :: r in rules[1..] ==> Placed(r, next) by {
        forall r | r in rules[1..] ensures Placed(r, next) {
          assert r in rules && Placed(r, u);
        }
      }
      ApplyAll(rules[1..], next)
  }

  /** A pass applies its first rule, then the remaining rules to the result. */
  lemma ApplyAllFirst(rules: seq<Rule>, u: PageUpdate)
    requires Consistent(u)
    requires |rules| > 0
    requires forall r :: r in rules ==> Placed(r, u)
    ensures Consistent(Apply(rules[0], u))
    ensures forall r :: r in rules[1..] ==> Placed(r, Apply(rules[0], u))
    ensures ApplyAll(rules, u) == ApplyAll(rules[1..], Apply(rules[0], u))
  {
    ApplySpec(rules[0], u);
    forall r | r in rules[1..] ensures Placed(r, Apply(rules[0], u)) {
      assert r in rules;
    }
  }

  /** A pass keeps the correspondence, the multiset of pages and the set of
      positioned pages. */
  lemma {:induction false} ApplyAllSpec(rules: seq<Rule>, u: PageUpdate)
    requires Consistent(u)
    requires forall r :: r in rules ==> Placed(r, u)
    ensures Consistent(ApplyAll(rules, u))
    ensures multiset(ApplyAll(rules, u).pages) == multiset(u.pages)
    ensures ApplyAll(rules, u).positions.Keys == u.positions.Keys
    decreases |rules|
  {
    if |rules| > 0 {
      ApplySpec(rules[0], u);
      var next := Apply(rules[0], u);
      assert forall r :: r in rules[1..] ==> Placed(r, next) by {
        forall r | r in rules[1..] ensures Placed(r, next) {
          assert r in rules && Placed(r, u);
        }
      }
      ApplyAllSpec(rules[1..], next);
    }
  }

  /** A pass whose every rule already holds changes nothing. */
  lemma {:induction false} ApplyAllSatisfied(rules: seq<Rule>, u: PageUpdate)
    requires Consistent(u)
    requires forall r :: r in rules ==> Placed(r, u)
    requires forall k :: 0 <= k < |rules| ==> Satisfied(rules[k], u)
    ensures ApplyAll(rules, u) == u
    decreases |rules|
  {
    if |rules| > 0 {
      ApplySpec(rules[0], u);
      assert Apply(rules[0], u) == u;
      assert forall r :: r in rules[1..] ==> r in rules;
      ApplyAllSatisfied(rules[1..], u);
    }
  }

  /** The corrector: the pairs and their rules are computed once, from the
      pages as they stand, then every rule is applied in that order in a
      single pass, each application seeing the swaps made before it. */
  function Order(u: PageUpdate, m: map<Key, Rule>): PageUpdate
    requires WellKeyed(m)
    requires Consistent(u)
  {
    ApplicableRulesPlaced(u, m);
    ApplyAll(ApplicableRules(Pairs(u.pages), m), u)
  }

  /** Ordering permutes the pages and keeps pages and positions in
      correspondence. */
  lemma OrderSpec(u: PageUpdate, m: map<Key, Rule>)
    requires WellKeyed(m)
    requires Consistent(u)
    ensures Consistent(Order(u, m))
    ensures multiset(Order(u, m).pages) == multiset(u.pages)
    ensures |Order(u, m).pages| == |u.pages|
    ensures Order(u, m).positions.Keys == u.positions.Keys
  {
    ApplicableRulesPlaced(u, m);
    var v := Order(u, m);
    ApplyAllSpec(ApplicableRules(Pairs(u.pages), m), u);
    assert |v.pages| == |multiset(v.pages)| == |multiset(u.pages)| == |u.pages|;
  }

  /** Ordering an update that is already correctly ordered leaves it as is. */
  lemma OrderKeepsCorrect(u: PageUpdate, m: map<Key, Rule>)
    requires WellKeyed(m)
    requires Consistent(u)
    requires IsCorrectlyOrdered(u, m)
    ensures Order(u, m) == u
  {
    ApplicableRulesPlaced(u, m);
    var rules := ApplicableRules(Pairs(u.pages), m);
    AllSatisfiedMeaning(rules, u);
    ApplyAllSatisfied(rules, u);
  }

  /** Rule selection reads the index only at the keys of the given pairs:
      two indexes that agree there select the same rules. */
  lemma {:induction false} ApplicableRulesLocal(pairs: seq<(Page, Page)>, m1: map<Key, Rule>, m2: map<Key, Rule>)
    requires WellKeyed(m1) && WellKeyed(m2)
    requires forall p :: p in pairs ==> Lookup(m1, p.0, p.1) == Lookup(m2, p.0, p.1)
    ensures ApplicableRules(pairs, m1) == ApplicableRules(pairs, m2)
    decreases |pairs|
  {
    if |pairs| > 0 {
      assert pairs[0] in pairs;
      assert forall p :: p in pairs[1..] ==> p in pairs;
      ApplicableRulesLocal(pairs[1..], m1, m2);
    }
  }

  /** Ordering and validation see the rule index only through the rules for
      the update's own pairs of pages, so an index that holds just those
      rules gives the same order and the same verdict as the full one. */
  lemma OrderLocal(u: PageUpdate, m1: map<Key, Rule>, m2: map<Key, Rule>)
    requires WellKeyed(m1) && WellKeyed(m2)
    requires Consistent(u)
    requires forall i, j :: 0 <= i < j < |u.pages| ==>
      Lookup(m1, u.pages[i], u.pages[j]) == Lookup(m2, u.pages[i], u.pages[j])
    ensures Order(u, m1) == Order(u, m2)
    ensures IsCorrectlyOrdered(u, m1) == IsCorrectlyOrdered(u, m2)
  {
    PairsSpec(u.pages);
    forall p | p in Pairs(u.pages) ensures Lookup(m1, p.0, p.1) == Lookup(m2, p.0, p.1) {
      var i, j := PairIndices(u.pages, p);
    }
    ApplicableRulesLocal(Pairs(u.pages), m1, m2);
  }

  // ---------------------------------------------------------------------------
  // Scoring
  // ---------------------------------------------------------------------------

  /** The middle element: as many elements before it as after it, or one more
      before it when the length is even. */
  function MiddleElement(v: seq<Page>): (x: Page)
    requires |v| > 0
    ensures x == v[|v| / 2]
    ensures exists i :: 0 <= i < |v| && v[i] == x && (|v[..i]| == |v[i + 1..]| || |v[..i]| == |v[i + 1..]| + 1)
  {
    var i := |v| / 2;
    assert |v[..i]| == |v[i + 1..]| || |v[..i]| == |v[i + 1..]| + 1;
    v[i]
  }

  /** Only one index splits a sequence that way, so the middle element is
      the element at that index. */
  lemma MiddleIndexUnique(v: seq<Page>, i: nat)
    requires i < |v|
    requires |v[..i]| == |v[i + 1..]| || |v[..i]| == |v[i + 1..]| + 1
    ensures i == |v| / 2
    ensures MiddleElement(v) == v[i]
  {
  }

  /** The middle page of an update. */
  function MiddlePage(u: PageUpdate): (x: Page)
    requires |u.pages| > 0
    ensures x == u.pages[|u.pages| / 2]
    ensures x in u.pages
  {
    MiddleElement(u.pages)
  }
}
