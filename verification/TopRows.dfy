/**
`ORDER BY key DESC LIMIT n` over rows named by number: the first n rows of
some order by key, rows with equal keys in any order.
*/
module TopRows {
  import opened Basics

  predicate Within(from: set<nat>, keys: seq<int>) {
    forall i | i in from :: i < |keys|
  }

  ghost predicate IsTop(chosen: set<nat>, from: set<nat>, keys: seq<int>, n: nat)
    requires Within(from, keys)
  {
    && chosen <= from && |chosen| == Min(n, |from|)
    && forall c, r | c in chosen && r in from && r !in chosen :: keys[r] <= keys[c]
  }

  lemma TooMany(a: set<nat>, c: nat, b: set<nat>, n: nat)
    requires c !in a && |a| >= n >= |b|
    ensures !(a + {c} <= b)
  {
    assert |a + {c}| == |a| + 1;
    if a + {c} <= b {
      SubsetSize(a + {c}, b);
    }
  }

  /** Some order always exists. */
  lemma {:induction false} TopExists(from: set<nat>, keys: seq<int>, n: nat) returns (chosen: set<nat>)
    requires Within(from, keys)
    ensures IsTop(chosen, from, keys, n)
    decreases |from|
  {
    if n == 0 || from == {} {
      chosen := {};
    } else {
      var best := Greatest(from, keys);
      var rest := TopExists(from - {best}, keys, n - 1);
      chosen := rest + {best};
    }
  }

  lemma {:induction false} Greatest(from: set<nat>, keys: seq<int>) returns (best: nat)
    requires Within(from, keys) && from != {}
    ensures best in from && forall i | i in from :: keys[i] <= keys[best]
    decreases |from|
  {
    var x: nat :| x in from;
    if from - {x} == {} {
      assert from == {x};
      best := x;
    } else {
      var y := Greatest(from - {x}, keys);
      best := if keys[x] <= keys[y] then y else x;
      assert from == (from - {x}) + {x};
    }
  }

  /** A limit no smaller than the rows takes them all. */
  lemma TopOfFew(chosen: set<nat>, from: set<nat>, keys: seq<int>, n: nat)
    requires Within(from, keys) && IsTop(chosen, from, keys, n) && |from| <= n
    ensures chosen == from
  {
    SubsetSize(chosen, from);
  }

  lemma TopOfSelf(from: set<nat>, keys: seq<int>, n: nat)
    requires Within(from, keys) && |from| <= n
    ensures IsTop(from, from, keys, n)
  {
  }

  /** Keeping the top rows as each new row comes keeps the top rows of all. */
  lemma TopGrows(kept: set<nat>, more: set<nat>, keys: seq<int>, key: int, n: nat)
    requires IsTop(kept, All(|keys|), keys, n) && Within(kept + {|keys|}, keys + [key])
    requires IsTop(more, kept + {|keys|}, keys + [key], n)
    ensures IsTop(more, All(|keys| + 1), keys + [key], n)
  {
    hide All;
    var m, keys' := |keys|, keys + [key];
    assert |kept + {m}| == |kept| + 1;
    forall c, r | c in more && r in All(m + 1) && r !in more
      ensures keys'[r] <= keys'[c]
    {
      if r !in kept + {m} {
        GrowsPast(kept, more, keys, key, n, c, r);
      }
    }
  }

  lemma GrowsPast(kept: set<nat>, more: set<nat>, keys: seq<int>, key: int, n: nat, c: nat, r: nat)
    requires IsTop(kept, All(|keys|), keys, n) && Within(kept + {|keys|}, keys + [key])
    requires IsTop(more, kept + {|keys|}, keys + [key], n) && c in more && r < |keys| && r !in kept
    ensures keys[r] <= (keys + [key])[c]
  {
    Dropped(kept, keys, n, r);
    if c == |keys| {
      var e := Replaced(kept, more, keys + [key], n);
      assert (keys + [key])[e] == keys[e];
    }
  }

  lemma Replaced(kept: set<nat>, more: set<nat>, keys: seq<int>, n: nat) returns (e: nat)
    requires Within(kept, keys) && |keys| > 0 && |keys| - 1 !in kept && |kept| == n && |keys| - 1 in more
    requires IsTop(more, kept + {|keys| - 1}, keys, n)
    ensures e in kept && e !in more
  {
    var all := kept + {|keys| - 1};
    if all <= more {
      SubsetSize(all, more);
    }
    e :| e in all && e !in more;
  }

  /** A row that was dropped is no higher than any row kept, and the table is full. */
  lemma Dropped(kept: set<nat>, keys: seq<int>, n: nat, r: nat)
    requires IsTop(kept, All(|keys|), keys, n) && r < |keys| && r !in kept
    ensures |kept| == n && forall c | c in kept :: keys[r] <= keys[c]
  {
    SubsetSize(kept, All(|keys|));
    assert r in All(|keys|);
  }

  // -------------------------------------------------------- who comes before

  function NotBelow(keys: seq<int>, d: nat): set<nat>
    requires d < |keys|
  {
    set r: nat | r < |keys| && r != d && keys[d] <= keys[r]
  }

  function Above(keys: seq<int>, d: nat): set<nat>
    requires d < |keys|
  {
    set r: nat | r < |keys| && keys[d] < keys[r]
  }

  /** A row with n rows above it is never among the first n. */
  lemma NeverTop(chosen: set<nat>, keys: seq<int>, n: nat, d: nat)
    requires IsTop(chosen, All(|keys|), keys, n) && d < |keys| && |Above(keys, d)| >= n
    ensures d !in chosen
  {
    if d in chosen {
      assert Above(keys, d) + {d} <= chosen;
      TooMany(Above(keys, d), d, chosen, n);
    }
  }

  /** A row with fewer is among the first n in some order. */
  lemma SometimesTop(keys: seq<int>, n: nat, d: nat) returns (chosen: set<nat>)
    requires d < |keys| && |Above(keys, d)| < n
    ensures IsTop(chosen, All(|keys|), keys, n) && d in chosen
  {
    var above := Above(keys, d);
    var others := All(|keys|) - above - {d};
    assert forall r | r in others :: keys[r] <= keys[d];
    assert All(|keys|) == above + {d} + others;
    hide All, Above;
    var rest := TopExists(others, keys, n - |above| - 1);
    chosen := above + {d} + rest;
    AboveFirst(keys, n, above, d, others, rest);
  }

  lemma AboveFirst(keys: seq<int>, n: nat, above: set<nat>, d: nat, others: set<nat>, rest: set<nat>)
    requires d < |keys| && |above| < n && Within(above, keys) && Within(others, keys) && d !in above && d !in others && above !! others
    requires (forall i | i in above :: keys[d] < keys[i]) && (forall r | r in others :: keys[r] <= keys[d])
    requires IsTop(rest, others, keys, n - |above| - 1)
    ensures IsTop(above + {d} + rest, above + {d} + others, keys, n)
  {
    ThreeParts(above, d, others);
    ThreeParts(above, d, rest);
  }

  lemma ThreeParts(a: set<nat>, d: nat, b: set<nat>)
    requires d !in a && d !in b && a !! b
    ensures |a + {d} + b| == |a| + 1 + |b|
  {
  }

  /** A row with n others not below it is left out in some order. */
  lemma SometimesDropped(keys: seq<int>, n: nat, d: nat) returns (kept: set<nat>)
    requires d < |keys| && |NotBelow(keys, d)| >= n
    ensures IsTop(kept, All(|keys|), keys, n) && d !in kept
  {
    var all := All(|keys|);
    var others := all - {d};
    kept := TopExists(others, keys, n);
    assert |others| == |keys| - 1;
    SubsetSize(NotBelow(keys, d), others);
    forall c | c in kept ensures keys[d] <= keys[c] {
      if keys[c] < keys[d] {
        assert NotBelow(keys, d) + {c} <= kept;
        TooMany(NotBelow(keys, d), c, kept, n);
      }
    }
  }

  // ------------------------------------------------- one order inside another

  /** Every row that the first order may drop has so many rows above it in the second. */
  ghost predicate Aligned(keep: seq<int>, look: seq<int>, n: nat, w: nat)
    requires |keep| == |look|
  {
    forall d | 0 <= d < |keep| :: |NotBelow(keep, d)| >= n ==> |Above(look, d)| >= w
  }

  /** Whatever the order of equal keys, the rows kept by one column hold the first rows by the other: if and only if they are aligned. */
  lemma KeptHoldsTopIff(keep: seq<int>, look: seq<int>, n: nat, w: nat)
    requires |keep| == |look|
    ensures (forall kept, chosen | IsTop(kept, All(|keep|), keep, n) && IsTop(chosen, All(|look|), look, w) :: chosen <= kept)
            <==> Aligned(keep, look, n, w)
  {
    if Aligned(keep, look, n, w) {
      forall kept, chosen | IsTop(kept, All(|keep|), keep, n) && IsTop(chosen, All(|look|), look, w)
        ensures chosen <= kept
      {
        AlignedShows(keep, look, n, w, kept);
        ShownHolds(kept, look, w, chosen);
      }
    } else {
      var d :| 0 <= d < |keep| && |NotBelow(keep, d)| >= n && |Above(look, d)| < w;
      var kept := SometimesDropped(keep, n, d);
      var chosen := SometimesTop(look, w, d);
      assert !(chosen <= kept);
    }
  }

  /** Every row that is not kept has so many rows above it. */
  ghost predicate Shows(kept: set<nat>, look: seq<int>, w: nat) {
    forall d | 0 <= d < |look| && d !in kept :: |Above(look, d)| >= w
  }

  lemma AlignedShows(keep: seq<int>, look: seq<int>, n: nat, w: nat, kept: set<nat>)
    requires |keep| == |look| && Aligned(keep, look, n, w) && IsTop(kept, All(|keep|), keep, n)
    ensures Shows(kept, look, w)
  {
    forall d | 0 <= d < |look| && d !in kept ensures |Above(look, d)| >= w {
      Dropped(kept, keep, n, d);
      assert kept <= NotBelow(keep, d);
      SubsetSize(kept, NotBelow(keep, d));
    }
  }

  lemma ShownHolds(kept: set<nat>, look: seq<int>, w: nat, chosen: set<nat>)
    requires Shows(kept, look, w) && IsTop(chosen, All(|look|), look, w)
    ensures chosen <= kept
  {
    forall d | d in chosen ensures d in kept {
      if d !in kept {
        NeverTop(chosen, look, w, d);
      }
    }
  }

  /** Looking at the kept rows gives exactly the answers of looking at all rows: if and only if every row not kept has so many above it. */
  lemma SameTopIff(kept: set<nat>, look: seq<int>, w: nat)
    requires Within(kept, look) && |kept| >= Min(w, |look|)
    ensures (forall chosen :: IsTop(chosen, kept, look, w) <==> IsTop(chosen, All(|look|), look, w)) <==> Shows(kept, look, w)
  {
    if Shows(kept, look, w) {
      forall chosen ensures IsTop(chosen, kept, look, w) <==> IsTop(chosen, All(|look|), look, w) {
        SameTop(kept, look, w, chosen);
      }
    } else {
      var d :| 0 <= d < |look| && d !in kept && |Above(look, d)| < w;
      var chosen := SometimesTop(look, w, d);
      assert IsTop(chosen, All(|look|), look, w) && !IsTop(chosen, kept, look, w);
    }
  }

  lemma SameTop(kept: set<nat>, look: seq<int>, w: nat, chosen: set<nat>)
    requires Within(kept, look) && |kept| >= Min(w, |look|) && Shows(kept, look, w)
    ensures IsTop(chosen, kept, look, w) <==> IsTop(chosen, All(|look|), look, w)
  {
    var all := All(|look|);
    assert kept <= all;
    SubsetSize(kept, all);
    if IsTop(chosen, all, look, w) {
      ShownHolds(kept, look, w, chosen);
    }
    if IsTop(chosen, kept, look, w) {
      var first := TopExists(all, look, w);
      ShownHolds(kept, look, w, first);
      forall c, r | c in chosen && r in all && r !in chosen ensures look[r] <= look[c] {
        if r !in kept && look[c] < look[r] {
          assert r !in first;
          assert forall x | x in first :: look[r] <= look[x];
          assert c !in first && first + {c} <= chosen;
          TooMany(first, c, chosen, |first|);
        }
      }
    }
  }

  predicate Ascending(keys: seq<int>) {
    forall i, j | 0 <= i < j < |keys| :: keys[i] < keys[j]
  }

  /** The last w of n rows. */
  function LastOnes(n: nat, w: nat): set<nat> {
    set i | i in All(n) && n - i <= w
  }

  lemma {:induction false} CountLast(n: nat, w: nat)
    ensures |LastOnes(n, w)| == Min(n, w)
    decreases w
  {
    if w == 0 {
      assert LastOnes(n, w) == {};
    } else {
      CountLast(n, w - 1);
      if w <= n {
        assert LastOnes(n, w) == LastOnes(n, w - 1) + {n - w};
      } else {
        assert LastOnes(n, w) == LastOnes(n, w - 1);
      }
    }
  }

  /** With rising keys the first w rows are the last w of the list. */
  lemma TopIsLast(chosen: set<nat>, keys: seq<int>, w: nat)
    requires Ascending(keys) && IsTop(chosen, All(|keys|), keys, w)
    ensures chosen == LastOnes(|keys|, w)
  {
    var last := LastOnes(|keys|, w);
    CountLast(|keys|, w);
    forall i | i in last ensures i in chosen {
      if i !in chosen {
        assert forall c | c in chosen :: keys[i] <= keys[c];
        var later := LastOnes(|keys|, |keys| - i - 1);
        CountLast(|keys|, |keys| - i - 1);
        assert chosen <= later;
        SubsetSize(chosen, later);
      }
    }
    SubsetSize(last, chosen);
  }

  /** With rising keys the kept rows show as much as all rows if and only if they hold the last w. */
  lemma RisingShowsIff(kept: set<nat>, keys: seq<int>, w: nat)
    requires Ascending(keys)
    ensures Shows(kept, keys, w) <==> LastOnes(|keys|, w) <= kept
  {
    var last := LastOnes(|keys|, w);
    forall d | 0 <= d < |keys| ensures |Above(keys, d)| >= w <==> d !in last {
      assert Above(keys, d) == LastOnes(|keys|, |keys| - d - 1);
      CountLast(|keys|, |keys| - d - 1);
    }
  }

  /** Two columns that rise together are aligned. */
  lemma RisingAligned(keep: seq<int>, look: seq<int>, n: nat, w: nat)
    requires |keep| == |look| && w <= n && Ascending(keep) && Ascending(look)
    ensures Aligned(keep, look, n, w)
  {
    forall d | 0 <= d < |keep| ensures NotBelow(keep, d) == Above(look, d) {
    }
  }
}
