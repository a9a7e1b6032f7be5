/** A fresh identifier: the base if it is free, else the first free of base-2, base-3, and so on. */
module FreshIds {
  import opened Prelude

  function Candidate(base: string, counter: nat): string {
    base + "-" + Decimal(counter)
  }

  function Candidates(base: string, below: nat): (ids: set<string>)
  {
    set k | 2 <= k < below :: Candidate(base, k)
  }

  lemma {:induction false} CandidatesDistinct(base: string, j: nat, k: nat)
    requires Candidate(base, j) == Candidate(base, k)
    ensures j == k
  {
    var prefix := base + "-";
    assert Decimal(j) == Candidate(base, j)[|prefix|..] == Decimal(k);
    DecimalInjective(j, k);
  }

  lemma {:induction false} CandidatesCount(base: string, below: nat)
    requires below >= 2
    ensures |Candidates(base, below)| == below - 2
  {
    if below == 2 {
      assert Candidates(base, below) == {};
    } else {
      CandidatesCount(base, below - 1);
      var last := Candidate(base, below - 1);
      assert Candidates(base, below) == Candidates(base, below - 1) + {last};
      if last in Candidates(base, below - 1) {
        var k :| 2 <= k < below - 1 && Candidate(base, k) == last;
        CandidatesDistinct(base, k, below - 1);
        assert false;
      }
    }
  }

  lemma {:induction false} MembersAtMostLength(ids: seq<string>)
    ensures |set id | id in ids| <= |ids|
  {
    if ids != [] {
      var front, last := ids[..|ids| - 1], ids[|ids| - 1];
      MembersAtMostLength(front);
      assert (set id | id in ids) == (set id | id in front) + {last};
    }
  }

  lemma {:induction false} SubsetSize<T>(a: set<T>, b: set<T>)
    requires a <= b
    ensures |a| <= |b|
  {
    assert b == a + (b - a);
  }

  /** Pigeonhole: the list cannot hold more distinct candidates than it has places. */
  lemma {:induction false} Pigeonhole(ids: seq<string>, base: string, counter: nat)
    requires counter >= 2 && forall k | 2 <= k < counter :: Candidate(base, k) in ids
    ensures counter - 2 <= |ids|
  {
    CandidatesCount(base, counter);
    MembersAtMostLength(ids);
    SubsetSize(Candidates(base, counter), set id | id in ids);
  }

  /** The first counter from `counter` on whose candidate is free. */
  function FirstFree(ids: seq<string>, base: string, counter: nat): (free: nat)
    requires counter >= 2 && forall k | 2 <= k < counter :: Candidate(base, k) in ids
    ensures free >= counter && Candidate(base, free) !in ids
    ensures forall k | 2 <= k < free :: Candidate(base, k) in ids
    decreases |ids| + 2 - counter
  {
    Pigeonhole(ids, base, counter);
    if Candidate(base, counter) !in ids then counter
    else
      Pigeonhole(ids, base, counter + 1);
      FirstFree(ids, base, counter + 1)
  }

  /** The id is not in the list, whatever the list: the base, or its first free numbered form from 2 on. */
  function UniqueId(ids: seq<string>, base: string): (id: string)
    ensures id !in ids
    ensures base !in ids ==> id == base
    ensures base in ids ==>
              exists k: nat ::
                && k >= 2 && id == Candidate(base, k) == base + "-" + Decimal(k)
                && forall j | 2 <= j < k :: Candidate(base, j) in ids
  {
    if base !in ids then base else Candidate(base, FirstFree(ids, base, 2))
  }

  /** The source's loop: it ends for every list, because the candidates run out of places to be taken. */
  method GetUniqueId(ids: seq<string>, base: string) returns (id: string)
    ensures id !in ids && id == UniqueId(ids, base)
  {
    if base !in ids {
      return base;
    }
    var counter := 2;
    while Candidate(base, counter) in ids
      invariant counter >= 2 && forall k | 2 <= k < counter :: Candidate(base, k) in ids
      decreases |ids| + 2 - counter
    {
      assert forall k | 2 <= k < counter + 1 :: Candidate(base, k) in ids;
      Pigeonhole(ids, base, counter + 1);
      counter := counter + 1;
    }
    FirstFreeUnique(ids, base, 2, counter);
    return Candidate(base, counter);
  }

  lemma {:induction false} FirstFreeUnique(ids: seq<string>, base: string, start: nat, counter: nat)
    requires 2 <= start <= counter && forall k | 2 <= k < counter :: Candidate(base, k) in ids
    requires Candidate(base, counter) !in ids
    ensures FirstFree(ids, base, start) == counter
  {
    var free := FirstFree(ids, base, start);
    assert Candidate(base, free) !in ids && Candidate(base, counter) !in ids;
  }
}
