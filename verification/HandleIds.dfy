/** The 32-bit identifier space of `MSIHANDLE` values and the search for a free one. */
module HandleIds {
  import opened Sets

  const ID_SPACE: int := 0x1_0000_0000

  type Handle = h: int | 0 <= h < 0x1_0000_0000

  const NULL_HANDLE: Handle := 0

  /** One increment of a wrapping 32-bit counter. */
  function Succ(h: Handle): Handle {
    if h == ID_SPACE - 1 then 0 else h + 1
  }

  /** The value of the counter `k` increments after it showed `c`. */
  function Advance(c: Handle, k: nat): Handle {
    if k == 0 then c else Succ(Advance(c, k - 1))
  }

  lemma {:induction false} AdvanceIsModular(c: Handle, k: nat)
    ensures Advance(c, k) == (c + k) % ID_SPACE
  {
    if k > 0 {
      AdvanceIsModular(c, k - 1);
      var q, r := (c + k - 1) / ID_SPACE, (c + k - 1) % ID_SPACE;
      assert c + k - 1 == q * ID_SPACE + r;
      if r == ID_SPACE - 1 {
        assert c + k == (q + 1) * ID_SPACE;
      } else {
        assert c + k == q * ID_SPACE + (r + 1);
      }
    }
  }

  lemma AdvanceComposes(c: Handle, i: nat, j: nat)
    ensures Advance(Advance(c, i), j) == Advance(c, i + j)
  {
    AdvanceIsModular(c, i);
    AdvanceIsModular(Advance(c, i), j);
    AdvanceIsModular(c, i + j);
  }

  /** A candidate the search must skip: the null handle, or one that is live. */
  predicate Taken(live: set<Handle>, h: Handle) {
    h == NULL_HANDLE || h in live
  }

  ghost predicate AllTaken(live: set<Handle>, c: Handle, k: nat) {
    forall j: nat | j < k :: Taken(live, Advance(c, j))
  }

  ghost function Candidates(c: Handle, k: nat): set<Handle> {
    set j: nat | j < k :: Advance(c, j)
  }

  /** Two candidates less than one full turn of the counter apart are different. */
  lemma AdvanceInjective(c: Handle, i: nat, j: nat)
    requires i < j < i + ID_SPACE
    ensures Advance(c, i) != Advance(c, j)
  {
    AdvanceIsModular(c, i);
    AdvanceIsModular(c, j);
  }

  lemma {:induction false} CandidatesAreDistinct(c: Handle, k: nat)
    requires k <= ID_SPACE
    ensures |Candidates(c, k)| == k
  {
    if k > 0 {
      CandidatesAreDistinct(c, k - 1);
      forall j: nat | j < k - 1 ensures Advance(c, j) != Advance(c, k - 1) {
        AdvanceInjective(c, j, k - 1);
      }
      assert Candidates(c, k) == Candidates(c, k - 1) + {Advance(c, k - 1)};
    }
  }

  /** Pigeonhole: within one turn of the counter, the search can skip no more
      candidates than there are live handles, plus one for the null handle. */
  lemma TakenRunIsShort(live: set<Handle>, c: Handle, k: nat)
    requires k <= ID_SPACE && AllTaken(live, c, k)
    ensures k <= |live| + 1
  {
    CandidatesAreDistinct(c, k);
    SubsetSize(Candidates(c, k), live + {NULL_HANDLE});
  }

  function FirstFreeFrom(live: set<Handle>, c: Handle, k: nat): (r: nat)
    requires |live| < ID_SPACE - 1
    requires AllTaken(live, c, k) && k <= |live| + 1
    ensures !Taken(live, Advance(c, r)) && AllTaken(live, c, r)
    ensures k <= r <= |live| + 1
    decreases |live| + 1 - k
  {
    if !Taken(live, Advance(c, k)) then k
    else
      TakenRunIsShort(live, c, k + 1);
      FirstFreeFrom(live, c, k + 1)
  }

  /** Number of candidates skipped, in cyclic order from `c`, before the first free one. */
  function FirstFree(live: set<Handle>, c: Handle): (k: nat)
    requires |live| < ID_SPACE - 1
    ensures !Taken(live, Advance(c, k)) && AllTaken(live, c, k)
    ensures k <= |live| + 1
  {
    FirstFreeFrom(live, c, 0)
  }

  /** The search result is determined by being the first free candidate. */
  lemma FirstFreeIsUnique(live: set<Handle>, c: Handle, k: nat)
    requires |live| < ID_SPACE - 1
    requires !Taken(live, Advance(c, k)) && AllTaken(live, c, k)
    ensures k == FirstFree(live, c)
  {
    var r := FirstFree(live, c);
    assert k < r ==> Taken(live, Advance(c, k));
  }

  /** As long as one nonnull handle is free, the table is not full. */
  lemma RoomForOneMore(live: set<Handle>, h: Handle)
    requires NULL_HANDLE !in live && !Taken(live, h)
    ensures |live| < ID_SPACE - 1
  {
    var all := Candidates(0, ID_SPACE);
    CandidatesAreDistinct(0, ID_SPACE);
    forall x: Handle ensures x in all {
      AdvanceIsModular(0, x);
      assert x == Advance(0, x);
    }
    SubsetSize(live + {NULL_HANDLE, h}, all);
  }

  /** The search ends if and only if fewer than 2^32 - 1 handles are live. */
  lemma SearchEndsExactly(live: set<Handle>, c: Handle)
    requires NULL_HANDLE !in live
    ensures (exists k: nat :: !Taken(live, Advance(c, k))) <==> |live| < ID_SPACE - 1
  {
    if |live| < ID_SPACE - 1 {
      var k := FirstFree(live, c);
      assert !Taken(live, Advance(c, k));
    }
    if exists k: nat :: !Taken(live, Advance(c, k)) {
      var k: nat :| !Taken(live, Advance(c, k));
      RoomForOneMore(live, Advance(c, k));
    }
  }

  /** Cyclic distance from the counter value `c` up to `h`. */
  function Distance(c: Handle, h: Handle): (d: nat)
    ensures d < ID_SPACE && Advance(c, d) == h
  {
    var d: nat := if c <= h then h - c else h + ID_SPACE - c;
    AdvanceIsModular(c, d);
    d
  }

  lemma DistanceIsUnique(c: Handle, h: Handle, d: nat)
    requires d < ID_SPACE && Advance(c, d) == h
    ensures d == Distance(c, h)
  {
    AdvanceIsModular(c, d);
    AdvanceIsModular(c, Distance(c, h));
  }

  /** The search never runs past a free handle: either it stops there, or the
      counter has come strictly closer to it. */
  lemma SearchStopsAtOrBefore(live: set<Handle>, c: Handle, h: Handle)
    requires |live| < ID_SPACE - 1 && !Taken(live, h)
    ensures var k := FirstFree(live, c);
            k <= Distance(c, h)
            && (Advance(c, k) != h ==> Distance(Advance(c, k + 1), h) == Distance(c, h) - k - 1)
  {
    var k := FirstFree(live, c);
    var d := Distance(c, h);
    assert d < k ==> Taken(live, Advance(c, d));
    if Advance(c, k) != h {
      AdvanceComposes(c, k + 1, d - k - 1);
      DistanceIsUnique(Advance(c, k + 1), h, d - k - 1);
    }
  }
}
