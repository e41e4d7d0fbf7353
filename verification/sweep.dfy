/** The expiry sweep: one pass over a list that, after erasing an element,
    steps over the element that moved into its place without looking at it. */
module ExpirySweep {

  /** What is left after one pass. */
  function Sweep<T>(s: seq<T>, bad: T -> bool): (kept: seq<T>)
    ensures |kept| <= |s|
    decreases |s|
  {
    if s == [] then []
    else if !bad(s[0]) then [s[0]] + Sweep(s[1..], bad)
    else if |s| == 1 then []
    else [s[1]] + Sweep(s[2..], bad)
  }

  /** What one pass erases, in order. */
  function Erased<T>(s: seq<T>, bad: T -> bool): seq<T>
    decreases |s|
  {
    if s == [] then []
    else if !bad(s[0]) then Erased(s[1..], bad)
    else if |s| == 1 then [s[0]]
    else [s[0]] + Erased(s[2..], bad)
  }

  function Good<T>(s: seq<T>, bad: T -> bool): seq<T>
  {
    if s == [] then [] else (if bad(s[0]) then [] else [s[0]]) + Good(s[1..], bad)
  }

  /** Number of leading bad elements. */
  function Lead<T>(s: seq<T>, bad: T -> bool): (n: nat)
    ensures n <= |s|
    ensures forall i :: 0 <= i < n ==> bad(s[i])
    ensures n < |s| ==> !bad(s[n])
  {
    if s == [] || !bad(s[0]) then 0 else 1 + Lead(s[1..], bad)
  }

  /** Lengths of the runs of bad elements: the one before each good element,
      and the one at the end. */
  function Runs<T>(s: seq<T>, bad: T -> bool): seq<nat>
    decreases |s|
  {
    var n := Lead(s, bad);
    if n == |s| then [n] else [n] + Runs(s[n + 1..], bad)
  }

  function Halved(runs: seq<nat>): (r: seq<nat>)
    ensures |r| == |runs|
    ensures forall i :: 0 <= i < |runs| ==> r[i] == runs[i] / 2
  {
    seq(|runs|, i requires 0 <= i < |runs| => runs[i] / 2)
  }

  function SweepTimes<T>(k: nat, s: seq<T>, bad: T -> bool): seq<T>
  {
    if k == 0 then s else SweepTimes(k - 1, Sweep(s, bad), bad)
  }

  function Pow2(k: nat): nat
  {
    if k == 0 then 1 else 2 * Pow2(k - 1)
  }

  // ---------------------------------------------------------------------

  /** A sweep removes nothing but bad elements and keeps the rest in order. */
  lemma {:induction false} SweepKeepsGood<T>(s: seq<T>, bad: T -> bool)
    ensures Good(Sweep(s, bad), bad) == Good(s, bad)
    ensures forall x :: x in Sweep(s, bad) ==> x in s
    decreases |s|
  {
    if s == [] {
    } else if !bad(s[0]) {
      SweepKeepsGood(s[1..], bad);
      assert ([s[0]] + Sweep(s[1..], bad))[1..] == Sweep(s[1..], bad);
    } else if |s| > 1 {
      SweepKeepsGood(s[2..], bad);
      assert ([s[1]] + Sweep(s[2..], bad))[1..] == Sweep(s[2..], bad);
      assert s[1..][1..] == s[2..];
      assert Good(s, bad) == Good(s[1..], bad);
    }
  }

  lemma SweepSteps<T>(s: seq<T>, bad: T -> bool)
    requires s != []
    ensures !bad(s[0]) ==> Sweep(s, bad) == [s[0]] + Sweep(s[1..], bad) && Erased(s, bad) == Erased(s[1..], bad)
    ensures bad(s[0]) && |s| == 1 ==> Sweep(s, bad) == [] && Erased(s, bad) == [s[0]]
    ensures bad(s[0]) && |s| > 1 ==>
              Sweep(s, bad) == [s[1]] + Sweep(s[2..], bad) && Erased(s, bad) == [s[0]] + Erased(s[2..], bad)
  {
  }

  lemma LeadStep<T>(s: seq<T>, bad: T -> bool)
    requires s != []
    ensures Lead(s, bad) == if bad(s[0]) then 1 + Lead(s[1..], bad) else 0
  {
  }

  lemma RunsStep<T>(s: seq<T>, bad: T -> bool)
    ensures var n := Lead(s, bad);
            Runs(s, bad) == if n == |s| then [n] else [n] + Runs(s[n + 1..], bad)
  {
    hide Lead, Sweep;
  }

  ghost function Occurrences<T>(s: seq<T>, x: T): nat
  {
    if s == [] then 0 else (if s[0] == x then 1 else 0) + Occurrences(s[1..], x)
  }

  lemma OccurrencesCons<T>(a: T, rest: seq<T>, x: T)
    ensures Occurrences([a] + rest, x) == (if a == x then 1 else 0) + Occurrences(rest, x)
  {
    assert ([a] + rest)[1..] == rest;
  }

  /** Nothing is both kept and erased, and nothing gets lost: every element
      occurs in the two results together as often as in the list. */
  lemma {:induction false} SweepPartitions<T>(s: seq<T>, bad: T -> bool, x: T)
    ensures Occurrences(Sweep(s, bad), x) + Occurrences(Erased(s, bad), x) == Occurrences(s, x)
    decreases |s|
  {
    if s != [] {
      SweepSteps(s, bad);
      hide Sweep, Erased;
      if !bad(s[0]) {
        SweepPartitions(s[1..], bad, x);
        OccurrencesCons(s[0], Sweep(s[1..], bad), x);
      } else if |s| > 1 {
        SweepPartitions(s[2..], bad, x);
        assert s[1..][1..] == s[2..];
        OccurrencesCons(s[1], Sweep(s[2..], bad), x);
        OccurrencesCons(s[0], Erased(s[2..], bad), x);
      }
    }
  }

  lemma {:induction false} ErasedAreBad<T>(s: seq<T>, bad: T -> bool)
    ensures forall x :: x in Erased(s, bad) ==> bad(x)
    decreases |s|
  {
    if s != [] {
      SweepSteps(s, bad);
      hide Erased;
      if !bad(s[0]) {
        ErasedAreBad(s[1..], bad);
      } else if |s| > 1 {
        ErasedAreBad(s[2..], bad);
      }
    }
  }

  /** A leading run of `n` bad elements leaves `n / 2` of them. */
  lemma {:induction false} LeadingRunHalves<T>(s: seq<T>, bad: T -> bool)
    ensures var n, t := Lead(s, bad), Sweep(s, bad);
            && Lead(t, bad) == n / 2
            && (n == |s| <==> n / 2 == |t|)
            && (n < |s| ==> t[n / 2 + 1..] == Sweep(s[n + 1..], bad))
    decreases |s|
  {
    if s != [] {
      SweepSteps(s, bad);
      LeadStep(s, bad);
      var t := Sweep(s, bad);
      if !bad(s[0]) {
        LeadStep(t, bad);
      } else if |s| > 1 {
        LeadStep(s[1..], bad);
        LeadStep(t, bad);
        hide Sweep, Lead;
        assert s[1..][1..] == s[2..] && t[1..] == Sweep(s[2..], bad);
        if bad(s[1]) {
          LeadingRunHalves(s[2..], bad);
          var m := Lead(s[2..], bad);
          if m < |s[2..]| {
            assert s[2..][m + 1..] == s[m + 3..];
            assert t[1..][m / 2 + 1..] == t[m / 2 + 2..];
          }
        }
      }
    }
  }

  /** Every maximal run of `m` adjacent bad elements becomes one of `m / 2`;
      no run appears, vanishes or merges with another. */
  lemma {:induction false} SweepHalvesRuns<T>(s: seq<T>, bad: T -> bool)
    ensures Runs(Sweep(s, bad), bad) == Halved(Runs(s, bad))
    decreases |s|
  {
    hide Sweep, Lead, Runs;
    var n, t := Lead(s, bad), Sweep(s, bad);
    LeadingRunHalves(s, bad);
    RunsStep(s, bad);
    RunsStep(t, bad);
    if n < |s| {
      SweepHalvesRuns(s[n + 1..], bad);
    }
  }

  lemma {:induction false} RunsBounded<T>(s: seq<T>, bad: T -> bool)
    ensures AllBelow(Runs(s, bad), |s| + 1)
    decreases |s|
  {
    var n := Lead(s, bad);
    if n < |s| {
      RunsBounded(s[n + 1..], bad);
    }
  }

  predicate AllBelow(runs: seq<nat>, b: nat)
  {
    forall i :: 0 <= i < |runs| ==> runs[i] < b
  }

  lemma {:induction false} NoRunsMeansGood<T>(s: seq<T>, bad: T -> bool)
    ensures AllBelow(Runs(s, bad), 1) <==> forall x :: x in s ==> !bad(x)
    decreases |s|
  {
    var n := Lead(s, bad);
    RunsStep(s, bad);
    hide Runs, Lead;
    assert Runs(s, bad)[0] == n;
    if n > 0 {
      assert s[0] in s;
    } else if s != [] {
      NoRunsMeansGood(s[1..], bad);
      BelowCons(0, Runs(s[1..], bad), 1);
      assert s == [s[0]] + s[1..];
    }
  }

  lemma BelowCons(r: nat, rest: seq<nat>, b: nat)
    requires r < b
    ensures AllBelow([r] + rest, b) <==> AllBelow(rest, b)
  {
    assert forall i :: 0 <= i < |rest| ==> rest[i] == ([r] + rest)[i + 1];
  }

  lemma {:induction false} AllGood<T>(s: seq<T>, bad: T -> bool)
    requires forall x :: x in s ==> !bad(x)
    ensures Good(s, bad) == s
  {
    if s != [] {
      AllGood(s[1..], bad);
    }
  }

  lemma {:induction false} SweepTimesKeepsGood<T>(k: nat, s: seq<T>, bad: T -> bool)
    ensures Good(SweepTimes(k, s, bad), bad) == Good(s, bad)
  {
    if k > 0 {
      SweepTimesKeepsGood(k - 1, Sweep(s, bad), bad);
      SweepKeepsGood(s, bad);
    }
  }

  /** After `k` sweeps no bad element is left exactly if every run was shorter
      than 2^k. */
  lemma {:induction false} SweepsClearExactly<T>(k: nat, s: seq<T>, bad: T -> bool)
    ensures (forall x :: x in SweepTimes(k, s, bad) ==> !bad(x)) <==> AllBelow(Runs(s, bad), Pow2(k))
  {
    if k == 0 {
      NoRunsMeansGood(s, bad);
    } else {
      SweepsClearExactly(k - 1, Sweep(s, bad), bad);
      SweepHalvesRuns(s, bad);
      HalvedBelow(Runs(s, bad), Pow2(k - 1));
    }
  }

  lemma HalvedBelow(runs: seq<nat>, p: nat)
    ensures AllBelow(Halved(runs), p) <==> AllBelow(runs, 2 * p)
  {
    forall i | 0 <= i < |runs|
      ensures Halved(runs)[i] < p <==> runs[i] < 2 * p
    {
    }
  }

  /** floor(log2 n) + 1 sweeps clear a list of `n` elements of every bad one and
      leave exactly the good ones, in order. */
  lemma {:induction false} SweepsClear<T>(k: nat, s: seq<T>, bad: T -> bool)
    requires |s| < Pow2(k)
    ensures SweepTimes(k, s, bad) == Good(s, bad)
  {
    hide SweepTimes, Runs, Good, Pow2;
    RunsBounded(s, bad);
    assert AllBelow(Runs(s, bad), Pow2(k));
    SweepsClearExactly(k, s, bad);
    AllGood(SweepTimes(k, s, bad), bad);
    SweepTimesKeepsGood(k, s, bad);
  }

  // ---------------------------------------------------------------------
  // One step of the sweep at a cursor position

  /** Dropping the bad element at the cursor and stepping over its successor. */
  lemma SweepDrop<T>(list: seq<T>, i: nat, bad: T -> bool)
    requires i < |list| && bad(list[i])
    ensures var after := list[..i] + list[i + 1..];
            var k := if i + 1 <= |after| then i + 1 else |after|;
            && list[..i] + Sweep(list[i..], bad) == after[..k] + Sweep(after[k..], bad)
            && Erased(list[i..], bad) == [list[i]] + Erased(after[k..], bad)
  {
    var rest, after := list[i..], list[..i] + list[i + 1..];
    SweepSteps(rest, bad);
    SweepEnds(after, bad);
    hide Sweep, Erased;
    if |rest| > 1 {
      assert after[i + 1..] == rest[2..];
      assert after[..i + 1] == list[..i] + [rest[1]];
    } else {
      assert after == list[..i] && after[|after|..] == [];
    }
  }

  /** Stepping over a good element. */
  lemma SweepKeep<T>(list: seq<T>, i: nat, bad: T -> bool)
    requires i < |list| && !bad(list[i])
    ensures list[..i] + Sweep(list[i..], bad) == list[..i + 1] + Sweep(list[i + 1..], bad)
    ensures Erased(list[i..], bad) == Erased(list[i + 1..], bad)
  {
    SweepSteps(list[i..], bad);
    hide Sweep, Erased;
    assert list[i..][1..] == list[i + 1..];
    assert list[..i + 1] == list[..i] + [list[i]];
  }

  lemma SweepEnds<T>(list: seq<T>, bad: T -> bool)
    ensures list + Sweep([], bad) == list && Erased([], bad) == []
  {
  }
}
