/** Theorems about the scan of every band profile: completeness and spacing of the table,
    its capacity, the noise floor and the pruning rule. */
module ScanFacts {
  import opened Reading
  import opened ScanSpec

  // ---- The table

  lemma {:induction false} PicksSpaced(pr: Profile, n: nat)
    requires n <= |pr.air|
    ensures forall j, k :: 0 <= j < k < |pr.Picks(n)| ==> pr.Picks(n)[j] + 2 <= pr.Picks(n)[k]
    ensures forall j :: 0 <= j < |pr.Picks(n)| && n > 0 && !pr.Saved(n - 1) ==> pr.Picks(n)[j] + 2 <= n
  {
    if n > 0 {
      PicksSpaced(pr, n - 1);
      var s, t := pr.Picks(n - 1), pr.Picks(n);
      if pr.Saved(n - 1) {
        var kept := |t| - 1;
        assert t[kept] == n - 1 && t[..kept] == s[..kept];
        forall j | 0 <= j < kept ensures t[j] == s[j] && t[j] + 2 <= n - 1 {
          assert t[j] == t[..kept][j];
          if n >= 2 && pr.Saved(n - 2) {
            assert s[j] + 2 <= s[|s| - 1];
          }
        }
      } else {
        assert t == s;
      }
    }
  }

  lemma CoverMember(s: seq<nat>, x: nat, i: nat)
    requires s != [] && forall j :: 0 <= j < |s| - 1 ==> s[j] < s[|s| - 1]
    ensures i in s[..|s| - 1] + [x] <==> (i in s && i != s[|s| - 1]) || i == x
  {
    assert s == s[..|s| - 1] + [s[|s| - 1]];
  }

  /** One more channel touches only the newest entries of the table. */
  lemma PicksStep(pr: Profile, n: nat, i: nat)
    requires i < n < |pr.air|
    ensures i in pr.Picks(n + 1) <==> i in pr.Picks(n) && !(i + 1 == n && pr.Saved(n))
  {
    PicksSpaced(pr, n);
    if pr.Saved(n) && pr.Saved(n - 1) {
      CoverMember(pr.Picks(n), n, i);
    }
  }

  /** The newest channel is in the table exactly if it was saved. */
  lemma NewestMember(pr: Profile, i: nat)
    requires i < |pr.air|
    ensures i in pr.Picks(i + 1) <==> pr.Saved(i)
  {
    var s := pr.Picks(i + 1);
    if pr.Saved(i) {
      assert s[|s| - 1] == i;
    } else {
      assert s == pr.Picks(i);
    }
  }

  lemma {:induction false} PicksMember(pr: Profile, n: nat, i: nat)
    requires i < n <= |pr.air|
    ensures i in pr.Picks(n) <==> pr.Stored(i, n)
  {
    if i + 1 < n {
      PicksMember(pr, n - 1, i);
      PicksStep(pr, n - 1, i);
    } else {
      NewestMember(pr, i);
    }
  }

  /** The table holds exactly the uncovered saved channels, in order, two grid steps apart. */
  lemma TableExact(pr: Profile, n: nat)
    requires n <= |pr.air|
    ensures forall i: nat :: i in pr.Picks(n) <==> i < n && pr.Stored(i, n)
    ensures forall i: nat :: i in pr.Picks(n) ==> pr.Good(i)
    ensures forall j, k :: 0 <= j < k < |pr.Picks(n)| ==> pr.Picks(n)[j] + 2 <= pr.Picks(n)[k]
  {
    PicksSpaced(pr, n);
    forall i: nat | i < n ensures i in pr.Picks(n) <==> pr.Stored(i, n) {
      PicksMember(pr, n, i);
    }
  }

  /** Strictly ascending acceptable channels i, i+1, .., e. */
  ghost predicate AscendingRun(pr: Profile, i: int, e: int)
    requires 0 <= i <= e < |pr.air|
  {
    && (forall k :: i <= k <= e ==> pr.Good(k))
    && (forall k :: i < k <= e ==> pr.Rssi(k - 1) < pr.Rssi(k))
  }

  /** A saved channel leads, up a strictly ascending run, to a stored one. */
  lemma {:induction false} SavedClimbs(pr: Profile, i: nat, n: nat) returns (e: nat)
    requires i < n <= |pr.air| && pr.Saved(i)
    ensures i <= e < n && pr.Stored(e, n) && AscendingRun(pr, i, e)
    decreases n - i
  {
    if i + 1 < n && pr.Saved(i + 1) {
      e := SavedClimbs(pr, i + 1, n);
    } else {
      e := i;
    }
  }

  /** No acceptable channel is lost without reason: it is in the table, or it sits just right of a
      stored channel at least as strong, or a strictly ascending run leads from it to a stored one. */
  lemma MissingChannel(pr: Profile, i: nat, n: nat)
    requires i < n <= |pr.air| && pr.Good(i)
    ensures i in pr.Picks(n)
            || (i > 0 && i - 1 in pr.Picks(n) && pr.Rssi(i - 1) >= pr.Rssi(i))
            || exists e: nat :: i < e < n && e in pr.Picks(n) && AscendingRun(pr, i, e)
  {
    TableExact(pr, n);
    if pr.Saved(i) {
      var e := SavedClimbs(pr, i, n);
      assert e in pr.Picks(n);
    } else {
      assert pr.Stored(i - 1, n);
    }
  }

  // ---- Capacity

  /** After n channels at most ceil(n/2) slots are in use. */
  lemma {:induction false} HalfBound(pr: Profile, n: nat)
    requires n <= |pr.air|
    ensures |pr.Picks(n)| <= (n + 1) / 2
  {
    if n == 1 {
      assert pr.Picks(0) == [];
    } else if n >= 2 {
      HalfBound(pr, n - 1);
      HalfBound(pr, n - 2);
    }
  }

  /** Every other channel is a station and nothing else is heard. */
  function Alternating(start: int, space: int, nf: int, n: nat): Profile {
    Profile(start, space, nf, [], seq(n, i => Reading(true, i % 2 == 0, 0, false)))
  }

  lemma AlternatingSaved(start: int, space: int, nf: int, n: nat, i: nat)
    requires i < n
    ensures Alternating(start, space, nf, n).Saved(i) <==> i % 2 == 0
  {
    var pr := Alternating(start, space, nf, n);
    assert pr.Good(i) <==> i % 2 == 0;
    assert i > 0 ==> (pr.Good(i - 1) <==> (i - 1) % 2 == 0);
  }

  /** The bound is reached, so a table smaller than ceil(n/2) would overflow. */
  lemma {:induction false} HalfBoundTight(start: int, space: int, nf: int, n: nat, k: nat)
    requires k <= n
    ensures |Alternating(start, space, nf, n).Picks(k)| == (k + 1) / 2
  {
    if k > 0 {
      HalfBoundTight(start, space, nf, n, k - 1);
      AlternatingSaved(start, space, nf, n, k - 1);
      if k > 1 {
        AlternatingSaved(start, space, nf, n, k - 2);
      }
    }
  }

  // ---- Noise floor

  lemma {:induction false} SumBounds(s: seq<int>, lo: int, hi: int)
    requires forall k :: 0 <= k < |s| ==> lo <= s[k] <= hi
    ensures |s| * lo <= Sum(s) <= |s| * hi
  {
    if s != [] {
      SumBounds(s[..|s| - 1], lo, hi);
      assert |s| * lo == (|s| - 1) * lo + lo && |s| * hi == (|s| - 1) * hi + hi;
    }
  }

  lemma MulMono(x: int, y: int, b: int)
    requires x <= y && b >= 0
    ensures b * x <= b * y
  {
  }

  lemma TruncDivBetween(a: int, b: int, lo: int, hi: int)
    requires b > 0 && b * lo <= a <= b * hi
    ensures lo <= TruncDiv(a, b) <= hi
  {
    var q := TruncDiv(a, b);
    TruncDivMeans(a, b);
    assert q * b == b * q && b * (q + 1) == b * q + b && b * (q - 1) == b * q - b;
    if q < lo {
      MulMono(q + 1, lo, b);
    }
    if q > hi {
      MulMono(hi, q - 1, b);
    }
  }

  /** The floor of a segment lies between its smallest and its largest sample. */
  lemma FloorBetween(pr: Profile, c: int, m: seq<int>, lo: int, hi: int)
    requires 0 <= c < |pr.air| && pr.nf > 0
    requires m == pr.Samples(pr.LastClose(c) + 1, c + 1) != []
    requires forall k :: 0 <= k < |m| ==> lo <= m[k] <= hi
    ensures lo <= pr.Floor(c) <= hi
  {
    SumBounds(m, lo, hi);
    TruncDivBetween(Sum(m), |m|, lo, hi);
  }

  // ---- Pruning

  lemma {:induction false} PicksGrow(pr: Profile, m: nat, n: nat)
    requires m <= n <= |pr.air|
    ensures |pr.Picks(m)| <= |pr.Picks(n)|
  {
    if m < n {
      PicksGrow(pr, m, n - 1);
    }
  }

  /** A slot keeps the run it was created for: covering it moves along that run. */
  lemma SlotRunStep(pr: Profile, n: nat, j: nat)
    requires 0 < n <= |pr.air| && j < |pr.Picks(n - 1)|
    ensures j < |pr.Picks(n)| && pr.Saved(pr.Picks(n)[j]) && pr.Saved(pr.Picks(n - 1)[j])
    ensures pr.RunStart(pr.Picks(n)[j]) == pr.RunStart(pr.Picks(n - 1)[j])
  {
    pr.PicksSaved(n);
    pr.PicksSaved(n - 1);
    var s, t := pr.Picks(n - 1), pr.Picks(n);
    if n >= 2 && pr.Saved(n - 1) && pr.Saved(n - 2) && j == |s| - 1 {
      assert s[j] == n - 2 && t[j] == n - 1;
    } else {
      assert t[j] == s[j];
    }
  }

  lemma SlotNew(pr: Profile, n: nat, j: nat)
    requires 0 < n <= |pr.air| && |pr.Picks(n - 1)| <= j < |pr.Picks(n)|
    ensures pr.Saved(pr.Picks(n)[j]) && pr.RunStart(pr.Picks(n)[j]) == n - 1
  {
  }

  /** Slot j exists before channel m exactly when the run it holds began before m. */
  lemma {:induction false} SlotAge(pr: Profile, n: nat, m: nat, j: nat)
    requires m <= n <= |pr.air| && j < |pr.Picks(n)|
    ensures pr.Saved(pr.Picks(n)[j])
    ensures j < |pr.Picks(m)| <==> pr.RunStart(pr.Picks(n)[j]) < m
    decreases n
  {
    pr.PicksSaved(n);
    if m < n {
      if j < |pr.Picks(n - 1)| {
        SlotRunStep(pr, n, j);
        SlotAge(pr, n - 1, m, j);
      } else {
        SlotNew(pr, n, j);
        PicksGrow(pr, m, n - 1);
      }
    }
  }

  /** Channel c is the first to close a segment from channel q on. */
  ghost predicate FirstCloseFrom(pr: Profile, q: nat, c: int)
    requires pr.nf > 0
  {
    q <= c < |pr.air| && pr.Closes(c) && forall d :: q <= d < c ==> !pr.Closes(d)
  }

  /** When a stored channel p is pruned: exactly if the first close since its run began comes at or after p
      within the sweep and finds p weaker than its floor plus the offset. So a channel escapes by its run
      crossing a close, by no close coming any more, or by being strong enough. */
  lemma PrunedExactly(pr: Profile, p: nat, n: nat)
    requires p < |pr.air| && pr.Saved(p) && pr.nf > 0 && n <= |pr.air|
    ensures pr.Pruned(p, n) <==>
            exists c :: p <= c < n && FirstCloseFrom(pr, pr.RunStart(p), c)
                        && pr.Rssi(p) < pr.Floor(c) + NOISE_FLOOR_OFFSET
  {
    forall c | p <= c < n
      ensures FirstCloseFrom(pr, pr.RunStart(p), c) <==> pr.Closes(c) && pr.LastClose(c) < pr.RunStart(p)
    {
      pr.LastCloseMeans(c);
    }
    if pr.Pruned(p, n) {
      var c :| 0 <= c < n && pr.PrunedAt(p, c);
      assert FirstCloseFrom(pr, pr.RunStart(p), c);
    }
    if c :| p <= c < n && FirstCloseFrom(pr, pr.RunStart(p), c)
            && pr.Rssi(p) < pr.Floor(c) + NOISE_FLOOR_OFFSET {
      assert pr.PrunedAt(p, c);
    }
  }

  /** In particular a channel whose ascending run began at or before a close and went past it is never
      judged again, however weak it is. */
  lemma StraddlerEscapes(pr: Profile, p: nat, c: nat, n: nat)
    requires c < p < |pr.air| && pr.Saved(p) && pr.nf > 0 && n <= |pr.air|
    requires pr.Closes(c) && pr.RunStart(p) <= c
    ensures !pr.Pruned(p, n)
  {
    PrunedExactly(pr, p, n);
  }

  /** One more channel changes the verdict on p only by closing a segment. */
  lemma PrunedStep(pr: Profile, p: nat, m: nat)
    requires p < |pr.air| && pr.Saved(p) && pr.nf > 0 && m < |pr.air|
    ensures pr.Pruned(p, m + 1) <==> pr.Pruned(p, m) || pr.PrunedAt(p, m)
  {
  }
}
