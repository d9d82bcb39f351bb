/**
 * The branch-and-bound scan of TargetSearch.cpp.  Every window of a gene is
 * scored against the matrix on the forward strand and on the reverse
 * complement, one position at a time in priority order; once the hit list is
 * full, a window is dropped as soon as its partial score plus the best the
 * remaining positions can add exceeds the worst kept score, and a completed
 * window is kept only when it beats that score.
 */
module Search {
  import opened Wrappers
  import opened Nucleotide
  import opened Hits
  import opened Pssm
  import opened Sequences

  /** Every letter in `s` and its complement are key letters of `m`. */
  predicate LettersInKey(m: Matrix, s: seq<char>)
  {
    forall i :: 0 <= i < |s| ==> s[i] in m.key && s[i] in CompDomain && Comp(s[i]) in m.key
  }

  /**
   * The letters scored for the window at `start`: on the forward strand the
   * window itself; on the reverse strand position `i` is scored with the
   * complement of the letter `L - 1 - i` places into the window.
   */
  function Oriented(s: seq<char>, start: nat, L: nat, rvs: bool): (w: seq<char>)
    requires start + L <= |s| && (rvs ==> AllIn(s, CompDomain))
    ensures |w| == L
    ensures forall i :: 0 <= i < L ==> w[i] == if rvs then Comp(s[start + L - 1 - i]) else s[start + i]
  {
    var window := s[start..start + L];
    if rvs then
      assert AllIn(window, CompDomain) by {
        assert forall i :: 0 <= i < L ==> window[i] == s[start + i];
      }
      RevComp(window)
    else window
  }

  /** The letter scored at position `i` of an orientation. */
  lemma OrientedAt(s: seq<char>, start: nat, L: nat, rvs: bool, i: nat)
    requires start + L <= |s| && AllIn(s, CompDomain) && i < L
    ensures start + L - i - 1 < |s| && Oriented(s, start, L, rvs)[i] == if rvs then Comp(s[start + L - i - 1]) else s[start + i]
  {
  }

  /** A step whose bound does not fire and is not the last leaves the verdict to the next step. */
  lemma EvalAdvance(m: Matrix, w: seq<char>, full: bool, worst: real, p: nat, acc: real, score: real)
    requires m.Shaped() && |w| == m.Length() && p + 1 < |w|
    requires score == acc + m.Score(m.priority[p], w[m.priority[p]])
    requires !(full && score + m.bestCases[p] > worst)
    ensures Eval(m, w, full, worst, p + 1, score) == Eval(m, w, full, worst, p, acc)
  {
  }

  /** A step whose bound fires ends the scan there. */
  lemma EvalPrunes(m: Matrix, w: seq<char>, full: bool, worst: real, p: nat, acc: real, score: real)
    requires m.Shaped() && |w| == m.Length() && p < |w|
    requires score == acc + m.Score(m.priority[p], w[m.priority[p]])
    requires full && score + m.bestCases[p] > worst
    ensures Eval(m, w, full, worst, p, acc) == Pruned(p)
  {
  }

  /** At the last step, a window the bound lets through is rejected or accepted with its score. */
  lemma EvalCompletes(m: Matrix, w: seq<char>, full: bool, worst: real, p: nat, acc: real, score: real)
    requires m.Shaped() && |w| == m.Length() && p + 1 == |w|
    requires score == acc + m.Score(m.priority[p], w[m.priority[p]])
    requires !(full && score + m.bestCases[p] > worst)
    ensures Eval(m, w, full, worst, p, acc) == if full && score >= worst then Rejected(score) else Accepted(score)
  {
  }

  /** The scores of the window's letters, position by position. */
  function Scores(m: Matrix, w: seq<char>): (r: seq<real>)
    requires m.Shaped() && |w| == m.Length()
    ensures |r| == |w|
    ensures forall i :: 0 <= i < |w| ==> r[i] == m.Score(i, w[i])
  {
    seq(|w|, i requires 0 <= i < |w| => m.Score(i, w[i]))
  }

  /** The sum of the values at the listed indices. */
  function SumAt(vals: seq<real>, order: seq<nat>): real
    requires InRange(order, |vals|)
  {
    if order == [] then 0.0 else vals[order[0]] + SumAt(vals, order[1..])
  }

  /** The sum of all values, first to last. */
  function Sum(vals: seq<real>): real
  {
    if vals == [] then 0.0 else Sum(vals[..|vals| - 1]) + vals[|vals| - 1]
  }

  /** A window's complete score: the sum of its letters' weights in position order. */
  function Total(m: Matrix, w: seq<char>): real
    requires m.Shaped() && |w| == m.Length()
  {
    Sum(Scores(m, w))
  }

  /** The score the steps `p` and later of the priority order add. */
  function PrioritySum(m: Matrix, w: seq<char>, p: nat): real
    requires m.Shaped() && |w| == m.Length() && p <= |w|
  {
    SumAt(Scores(m, w), m.priority[p..])
  }

  /** How the scan of one window in one orientation ends. */
  datatype Verdict =
    | Pruned(step: nat)      // the early-rejection bound fired at this step
    | Rejected(score: real)  // complete, but not better than the worst kept hit
    | Accepted(score: real)  // complete and kept

  /**
   * The scan of one orientation from step `p`, with `acc` scored so far: add
   * the weight of the position ranked `p`, stop when the list is full and the
   * bound exceeds `worst`, and after the last step keep the window unless
   * the list is full and its score is not below `worst`.
   */
  function Eval(m: Matrix, w: seq<char>, full: bool, worst: real, p: nat, acc: real): Verdict
    requires m.Shaped() && |w| == m.Length() && p < |w|
    decreases |w| - p
  {
    var i := m.priority[p];
    var score := acc + m.Score(i, w[i]);
    if full && score + m.bestCases[p] > worst then Pruned(p)
    else if p == |w| - 1 then (if full && score >= worst then Rejected(score) else Accepted(score))
    else Eval(m, w, full, worst, p + 1, score)
  }

  lemma {:induction false} SumAtAppend(vals: seq<real>, a: seq<nat>, b: seq<nat>)
    requires InRange(a, |vals|) && InRange(b, |vals|)
    ensures InRange(a + b, |vals|)
    ensures SumAt(vals, a + b) == SumAt(vals, a) + SumAt(vals, b)
  {
    if a == [] {
      assert a + b == b;
    } else {
      assert (a + b)[1..] == a[1..] + b;
      SumAtAppend(vals, a[1..], b);
    }
  }

  /** Summing over the indices 0 .. n-1 is summing the first n values. */
  lemma {:induction false} SumAtIota(vals: seq<real>, n: nat)
    requires n <= |vals|
    ensures InRange(Iota(n), |vals|)
    ensures SumAt(vals, Iota(n)) == Sum(vals[..n])
  {
    if n > 0 {
      SumAtIota(vals, n - 1);
      SumAtAppend(vals, Iota(n - 1), [n - 1]);
      assert SumAt(vals, [n - 1]) == vals[n - 1];
      assert vals[..n][..n - 1] == vals[..n - 1];
    }
  }

  /** Taking one index out of the list takes its value out of the sum. */
  lemma SumAtRemove(vals: seq<real>, b: seq<nat>, k: nat)
    requires InRange(b, |vals|) && k < |b|
    ensures InRange(b[..k] + b[k + 1..], |vals|)
    ensures SumAt(vals, b) == vals[b[k]] + SumAt(vals, b[..k] + b[k + 1..])
  {
    var front, x, back := b[..k], b[k], b[k + 1..];
    assert b == front + ([x] + back);
    SumAtAppend(vals, front, [x] + back);
    assert ([x] + back)[1..] == back;
    SumAtAppend(vals, front, back);
  }

  lemma MultisetRemove(a: seq<nat>, b: seq<nat>, k: nat)
    requires multiset(a) == multiset(b) && a != [] && k < |b| && b[k] == a[0]
    ensures multiset(a[1..]) == multiset(b[..k] + b[k + 1..])
  {
    var x := a[0];
    assert b == b[..k] + [x] + b[k + 1..];
    assert a == [x] + a[1..];
    assert multiset(a[1..]) == multiset(a) - multiset{x};
    assert multiset(b[..k] + b[k + 1..]) == multiset(b) - multiset{x};
  }

  /** The sum does not depend on the order of the indices. */
  lemma {:induction false} SumAtPermutation(vals: seq<real>, a: seq<nat>, b: seq<nat>)
    requires InRange(a, |vals|) && InRange(b, |vals|)
    requires multiset(a) == multiset(b)
    ensures SumAt(vals, a) == SumAt(vals, b)
    decreases |a|
  {
    if a != [] {
      assert a[0] in multiset(b);
      var k :| 0 <= k < |b| && b[k] == a[0];
      MultisetRemove(a, b, k);
      SumAtRemove(vals, b, k);
      SumAtPermutation(vals, a[1..], b[..k] + b[k + 1..]);
    } else {
      assert |multiset(b)| == 0;
    }
  }

  /**
   * Scoring in priority order gives the position-order total: the priority
   * order is a permutation of the positions.
   */
  lemma PriorityOrderTotal(m: Matrix, w: seq<char>)
    requires m.Valid() && |w| == m.Length()
    ensures PrioritySum(m, w, 0) == Total(m, w)
  {
    var vals := Scores(m, w);
    assert m.priority[0..] == m.priority;
    SumAtPermutation(vals, m.priority, Iota(|w|));
    SumAtIota(vals, |w|);
    assert vals[..|w|] == vals;
  }

  /** One step of the priority sum. */
  lemma PrioritySumStep(m: Matrix, w: seq<char>, p: nat)
    requires m.Shaped() && |w| == m.Length() && p < |w|
    ensures PrioritySum(m, w, p) == m.Score(m.priority[p], w[m.priority[p]]) + PrioritySum(m, w, p + 1)
  {
    assert m.priority[p..][1..] == m.priority[p + 1..];
  }

  /**
   * With every letter in the key, the best weights of the steps from `p` on
   * are a lower bound for what those steps actually score.
   */
  lemma {:induction false} RemainingBestIsLowerBound(m: Matrix, w: seq<char>, p: nat)
    requires m.Valid() && |w| == m.Length() && p <= |w|
    requires forall i :: 0 <= i < |w| ==> w[i] in m.key
    ensures RemainingBest(m.positions, m.priority, p) <= PrioritySum(m, w, p)
    decreases |w| - p
  {
    if p < |w| {
      RemainingBestIsLowerBound(m, w, p + 1);
      PrioritySumStep(m, w, p);
      var i := m.priority[p];
      assert m.Best(i) <= m.Score(i, w[i]);
    }
  }

  /** Each `bestCases` entry bounds from below what the later steps score on `w`. */
  predicate BoundsHold(m: Matrix, w: seq<char>)
    requires m.Shaped() && |w| == m.Length()
  {
    forall p :: 0 <= p < |w| ==> m.bestCases[p] <= PrioritySum(m, w, p + 1)
  }

  /** A set-up matrix bounds every window made of key letters. */
  lemma BestCasesBound(m: Matrix, w: seq<char>)
    requires m.Valid() && |w| == m.Length()
    requires forall i :: 0 <= i < |w| ==> w[i] in m.key
    ensures BoundsHold(m, w)
  {
    forall p | 0 <= p < |w|
      ensures m.bestCases[p] <= PrioritySum(m, w, p + 1)
    {
      RemainingBestIsLowerBound(m, w, p + 1);
    }
  }

  /**
   * Where the bounds hold, the pruned scan keeps exactly the windows the
   * unpruned completion test keeps, with their complete score.
   */
  lemma {:induction false} EvalMatchesCompletion(m: Matrix, w: seq<char>, full: bool, worst: real, p: nat, acc: real)
    requires m.Shaped() && |w| == m.Length() && p < |w|
    requires BoundsHold(m, w)
    requires acc + PrioritySum(m, w, p) == Total(m, w)
    ensures Eval(m, w, full, worst, p, acc).Accepted? <==> !(full && Total(m, w) >= worst)
    ensures Eval(m, w, full, worst, p, acc).Accepted? ==> Eval(m, w, full, worst, p, acc).score == Total(m, w)
    ensures Eval(m, w, full, worst, p, acc).Pruned? ==> full && Total(m, w) > worst
    decreases |w| - p
  {
    var i := m.priority[p];
    var score := acc + m.Score(i, w[i]);
    var v := Eval(m, w, full, worst, p, acc);
    var rest := PrioritySum(m, w, p + 1);
    PrioritySumStep(m, w, p);
    assert m.bestCases[p] <= rest;
    assert score + rest == Total(m, w);
    if full && score + m.bestCases[p] > worst {
      assert v == Pruned(p);
    } else if p == |w| - 1 {
      assert m.priority[p + 1..] == [];
      assert score == Total(m, w);
    } else {
      EvalMatchesCompletion(m, w, full, worst, p + 1, score);
      assert v == Eval(m, w, full, worst, p + 1, score);
    }
  }

  /** The whole scan of one orientation from its first step. */
  lemma PruningIsSound(m: Matrix, w: seq<char>, full: bool, worst: real)
    requires m.Valid() && |w| == m.Length() > 0
    requires forall i :: 0 <= i < |w| ==> w[i] in m.key
    ensures Eval(m, w, full, worst, 0, 0.0).Accepted? <==> !(full && Total(m, w) >= worst)
    ensures Eval(m, w, full, worst, 0, 0.0).Accepted? ==> Eval(m, w, full, worst, 0, 0.0).score == Total(m, w)
  {
    PriorityOrderTotal(m, w);
    BestCasesBound(m, w);
    EvalMatchesCompletion(m, w, full, worst, 0, 0.0);
  }

  /** A two-position matrix over A, C, G, T whose second position is ranked first. */
  function UnknownLetterMatrix(): Matrix
  {
    Matrix("ACGT", [PssmPos(0, [1.0, 1.0, 1.0, 1.0]), PssmPos(1, [0.0, 5.0, 5.0, 5.0])], [1, 0], [1.0, 0.0])
  }

  /** The example matrix is one a setup can produce: ranked by range (5 before 0), with consistent bounds. */
  lemma UnknownLetterMatrixValid()
    ensures UnknownLetterMatrix().Valid()
  {
    var m := UnknownLetterMatrix();
    UnknownLetterWeights(m.positions[0].weights, m.positions[1].weights);
    TwoPositionsValid(m, 1, 0);
  }

  /**
   * A two-position matrix is set up when its priority lists the position
   * with the wider range first and its first best case is the best weight
   * of the position ranked second.
   */
  lemma TwoPositionsValid(m: Matrix, first: nat, second: nat)
    requires |m.positions| == 2 && |m.key| > 0
    requires |m.positions[0].weights| == |m.key| && |m.positions[1].weights| == |m.key|
    requires (first == 0 && second == 1) || (first == 1 && second == 0)
    requires m.priority == [first, second]
    requires Range(m.positions[first].weights) >= Range(m.positions[second].weights)
    requires m.bestCases == [BestWeight(m.positions[second].weights), 0.0]
    ensures m.Valid()
  {
    assert m.Shaped();
    TwoPositionsRanked(m.positions, first, second);
    TwoPositionsBestCases(m.positions, m.priority);
  }

  /** A two-position matrix whose priority lists the position with the wider range first is ranked. */
  lemma TwoPositionsRanked(positions: seq<PssmPos>, first: nat, second: nat)
    requires |positions| == 2 && NonEmptyPositions(positions)
    requires (first == 0 && second == 1) || (first == 1 && second == 0)
    requires Range(positions[first].weights) >= Range(positions[second].weights)
    ensures IsPriority(positions, [first, second])
  {
    var order := [first, second];
    assert InRange(order, 2) by {
      forall i | 0 <= i < |order| ensures order[i] < 2 { }
    }
    PairIsPermutation(first, second);
    PairIsOrdered(positions, first, second);
  }

  lemma PairIsOrdered(positions: seq<PssmPos>, first: nat, second: nat)
    requires |positions| == 2 && NonEmptyPositions(positions)
    requires (first == 0 && second == 1) || (first == 1 && second == 0)
    requires Range(positions[first].weights) >= Range(positions[second].weights)
    ensures var order := [first, second];
            forall p, q :: 0 <= p < q < |order| ==> Range(positions[order[p]].weights) >= Range(positions[order[q]].weights)
  {
    var order := [first, second];
    forall p, q | 0 <= p < q < |order|
      ensures Range(positions[order[p]].weights) >= Range(positions[order[q]].weights)
    {
      assert p == 0 && q == 1;
    }
  }

  lemma PairIsPermutation(first: nat, second: nat)
    requires (first == 0 && second == 1) || (first == 1 && second == 0)
    ensures multiset([first, second]) == multiset(Iota(2))
  {
    assert Iota(2) == [0, 1];
  }

  /** In a two-position matrix only the step after the first has a position left to bound. */
  lemma TwoPositionsBestCases(positions: seq<PssmPos>, priority: seq<nat>)
    requires |positions| == 2 == |priority| && NonEmptyPositions(positions) && InRange(priority, 2)
    ensures RemainingBest(positions, priority, 2) == 0.0
    ensures RemainingBest(positions, priority, 1) == BestWeight(positions[priority[1]].weights)
  {
    assert RemainingBest(positions, priority, 2) == 0.0;
  }

  lemma UnknownLetterWeights(p0: seq<real>, p1: seq<real>)
    requires p0 == [1.0, 1.0, 1.0, 1.0] && p1 == [0.0, 5.0, 5.0, 5.0]
    ensures BestWeight(p0) == 1.0 && WorstWeight(p0) == 1.0
    ensures BestWeight(p1) == 0.0 && WorstWeight(p1) == 5.0
    ensures Range(p0) == 0.0 && Range(p1) == 5.0
  {
    assert BestWeight(p0) in p0 && WorstWeight(p0) in p0;
    assert BestWeight(p1) in p1 && WorstWeight(p1) in p1;
    assert BestWeight(p1) <= p1[0] && WorstWeight(p1) >= p1[1];
  }

  /**
   * The bound is unsound for a letter outside the key: `score` gives it 0,
   * below the position's best weight of 1, so the window "NA" is dropped at
   * the first step although its complete score, 0, beats the worst kept 0.5.
   */
  lemma PruningUnsoundForUnknownLetter()
    ensures UnknownLetterMatrix().Valid()
    ensures Eval(UnknownLetterMatrix(), "NA", true, 0.5, 0, 0.0) == Pruned(0)
    ensures Total(UnknownLetterMatrix(), "NA") == 0.0 < 0.5
  {
    UnknownLetterMatrixValid();
    UnknownLetterTotal();
    var m := UnknownLetterMatrix();
    assert m.Score(1, 'A') == 0.0 by {
      assert KeyIndex(m.key, 'A') == 0;
    }
  }

  /** Both letters of "NA" score 0 under the example matrix: 'N' is not in the key, and 'A' weighs 0 at the second position. */
  lemma UnknownLetterTotal()
    ensures Total(UnknownLetterMatrix(), "NA") == 0.0
  {
    UnknownLetterScores();
    SumOfTwo(0.0, 0.0);
  }

  lemma UnknownLetterScores()
    ensures Scores(UnknownLetterMatrix(), "NA") == [0.0, 0.0]
  {
    var m := UnknownLetterMatrix();
    assert 'N' !in m.key;
    assert KeyIndex(m.key, 'A') == 0;
    var sc := Scores(m, "NA");
    assert sc[0] == m.Score(0, 'N') == 0.0;
    assert sc[1] == m.Score(1, 'A') == 0.0;
  }

  /** The sum of two values. */
  lemma SumOfTwo(a: real, b: real)
    ensures Sum([a, b]) == a + b
  {
    assert [a][..0] == [];
    assert Sum([a]) == Sum([]) + a;
    assert [a, b][..1] == [a];
    assert Sum([a, b]) == Sum([a]) + b;
  }

  /** The worst kept score as the scan reads it: the front entry, once the list is full. */
  function WorstKept(st: HitList): real
  {
    if st.full && st.hits != [] then st.hits[0].score else 0.0
  }

  /**
   * One orientation of the window at `start`: the hit list after its pruned
   * scan.  A kept window is submitted as its forward slice; `add_hit`
   * reverse-complements it when `rvs` is set.
   */
  function Orient(st: HitList, maxhits: nat, m: Matrix, s: seq<char>, header: string, start: nat, rvs: bool): HitList
    requires m.Shaped() && start + m.Length() <= |s| && AllIn(s, CompDomain)
  {
    var L := m.Length();
    if L == 0 then st
    else
      match Eval(m, Oriented(s, start, L, rvs), st.full, WorstKept(st), 0, 0.0)
      case Accepted(score) => Submit(st, maxhits, s, header, start, L, rvs, score)
      case _ => st
  }

  /** `add_hit` of the window at `start` with the given score: the forward slice, reverse-complemented when `rvs`. */
  function Submit(st: HitList, maxhits: nat, s: seq<char>, header: string, start: nat, L: nat, rvs: bool, score: real): HitList
    requires start + L <= |s| && AllIn(s, CompDomain)
  {
    var hitseq := s[start..start + L];
    assert AllIn(hitseq, CompDomain) by {
      assert forall i :: 0 <= i < L ==> hitseq[i] == s[start + i];
    }
    AfterAdd(st, maxhits, MakeHit(hitseq, score, header, start, rvs))
  }

  /** An orientation whose scan does not accept the window leaves the list as it was. */
  lemma OrientKept(st: HitList, maxhits: nat, m: Matrix, s: seq<char>, header: string, start: nat, rvs: bool)
    requires m.Shaped() && 0 < m.Length() && start + m.Length() <= |s| && AllIn(s, CompDomain)
    requires !Eval(m, Oriented(s, start, m.Length(), rvs), st.full, WorstKept(st), 0, 0.0).Accepted?
    ensures Orient(st, maxhits, m, s, header, start, rvs) == st
  {
  }

  /** An orientation whose scan accepts the window adds its hit with the accepted score. */
  lemma {:induction false} OrientAccepted(st: HitList, maxhits: nat, m: Matrix, s: seq<char>, header: string, start: nat, rvs: bool)
    requires m.Shaped() && 0 < m.Length() && start + m.Length() <= |s| && AllIn(s, CompDomain)
    requires Eval(m, Oriented(s, start, m.Length(), rvs), st.full, WorstKept(st), 0, 0.0).Accepted?
    ensures Orient(st, maxhits, m, s, header, start, rvs)
            == Submit(st, maxhits, s, header, start, m.Length(), rvs, Eval(m, Oriented(s, start, m.Length(), rvs), st.full, WorstKept(st), 0, 0.0).score)
  {
  }

  /**
   * The reference for one orientation, without the bound: the complete score
   * is kept unless the list is full and the score does not beat the worst.
   */
  function Complete(st: HitList, maxhits: nat, m: Matrix, s: seq<char>, header: string, start: nat, rvs: bool): HitList
    requires m.Shaped() && start + m.Length() <= |s| && AllIn(s, CompDomain)
  {
    var L := m.Length();
    if L == 0 then st
    else
      var total := Total(m, Oriented(s, start, L, rvs));
      if st.full && total >= WorstKept(st) then st
      else Submit(st, maxhits, s, header, start, L, rvs, total)
  }

  /**
   * `scan_seq(gene)` from offset `start` on: each window that fits, forward
   * then reverse, in increasing order of offset.
   */
  function ScanFrom(st: HitList, maxhits: nat, m: Matrix, s: seq<char>, header: string, start: nat): HitList
    requires m.Shaped() && AllIn(s, CompDomain)
    decreases |s| + 1 - start
  {
    if start + m.Length() > |s| then st
    else
      var fwd := Orient(st, maxhits, m, s, header, start, false);
      ScanFrom(Orient(fwd, maxhits, m, s, header, start, true), maxhits, m, s, header, start + 1)
  }

  /** The same scan with the reference test in place of the pruned one. */
  function CompleteFrom(st: HitList, maxhits: nat, m: Matrix, s: seq<char>, header: string, start: nat): HitList
    requires m.Shaped() && AllIn(s, CompDomain)
    decreases |s| + 1 - start
  {
    if start + m.Length() > |s| then st
    else
      var fwd := Complete(st, maxhits, m, s, header, start, false);
      CompleteFrom(Complete(fwd, maxhits, m, s, header, start, true), maxhits, m, s, header, start + 1)
  }

  /** Both orientations only score letters of the key when `s` and its complement do. */
  lemma OrientedInKey(m: Matrix, s: seq<char>, start: nat, rvs: bool)
    requires m.Shaped() && start + m.Length() <= |s| && AllIn(s, CompDomain)
    requires LettersInKey(m, s)
    ensures forall i :: 0 <= i < m.Length() ==> Oriented(s, start, m.Length(), rvs)[i] in m.key
  {
  }

  /** With every letter in the key, the pruned scan of one orientation is the reference one. */
  lemma OrientIsComplete(st: HitList, maxhits: nat, m: Matrix, s: seq<char>, header: string, start: nat, rvs: bool)
    requires m.Valid() && start + m.Length() <= |s| && AllIn(s, CompDomain)
    requires LettersInKey(m, s)
    ensures Orient(st, maxhits, m, s, header, start, rvs) == Complete(st, maxhits, m, s, header, start, rvs)
  {
    if m.Length() > 0 {
      OrientedInKey(m, s, start, rvs);
      PruningIsSound(m, Oriented(s, start, m.Length(), rvs), st.full, WorstKept(st));
    }
  }

  /**
   * The headline theorem: over a gene whose letters and complements are all
   * in the key, branch-and-bound leaves exactly the hit list the unpruned
   * scan leaves.
   */
  lemma {:induction false} ScanIsComplete(st: HitList, maxhits: nat, m: Matrix, s: seq<char>, header: string, start: nat)
    requires m.Valid() && AllIn(s, CompDomain) && LettersInKey(m, s)
    ensures ScanFrom(st, maxhits, m, s, header, start) == CompleteFrom(st, maxhits, m, s, header, start)
    decreases |s| + 1 - start
  {
    if start + m.Length() <= |s| {
      var fwd := Orient(st, maxhits, m, s, header, start, false);
      OrientIsComplete(st, maxhits, m, s, header, start, false);
      OrientIsComplete(fwd, maxhits, m, s, header, start, true);
      ScanIsComplete(Orient(fwd, maxhits, m, s, header, start, true), maxhits, m, s, header, start + 1);
    }
  }

  /** The scan keeps the hit list sorted and within capacity, and never clears `full`. */
  lemma {:induction false} ScanKeepsBounded(st: HitList, maxhits: nat, m: Matrix, s: seq<char>, header: string, start: nat)
    requires m.Shaped() && AllIn(s, CompDomain) && Bounded(st, maxhits)
    ensures Bounded(ScanFrom(st, maxhits, m, s, header, start), maxhits)
    ensures st.full ==> ScanFrom(st, maxhits, m, s, header, start).full
    decreases |s| + 1 - start
  {
    if start + m.Length() <= |s| {
      var fwd := Orient(st, maxhits, m, s, header, start, false);
      OrientKeepsBounded(st, maxhits, m, s, header, start, false);
      OrientKeepsBounded(fwd, maxhits, m, s, header, start, true);
      ScanKeepsBounded(Orient(fwd, maxhits, m, s, header, start, true), maxhits, m, s, header, start + 1);
    }
  }

  lemma OrientKeepsBounded(st: HitList, maxhits: nat, m: Matrix, s: seq<char>, header: string, start: nat, rvs: bool)
    requires m.Shaped() && start + m.Length() <= |s| && AllIn(s, CompDomain) && Bounded(st, maxhits)
    ensures Bounded(Orient(st, maxhits, m, s, header, start, rvs), maxhits)
    ensures st.full ==> Orient(st, maxhits, m, s, header, start, rvs).full
  {
    var L := m.Length();
    if L > 0 {
      var v := Eval(m, Oriented(s, start, L, rvs), st.full, WorstKept(st), 0, 0.0);
      if v.Accepted? {
        var hitseq := s[start..start + L];
        assert AllIn(hitseq, CompDomain) by {
          assert forall i :: 0 <= i < L ==> hitseq[i] == s[start + i];
        }
        AddKeepsBounded(st, maxhits, MakeHit(hitseq, v.score, header, start, rvs));
      }
    }
  }

  /**
   * The reverse strand is the forward strand of the reverse complement: the
   * letters scored for the reverse window at `start` are the reverse
   * complement of the forward window, and the forward window of `RevComp(s)`
   * at the mirrored offset.
   */
  lemma StrandSymmetry(s: seq<char>, start: nat, L: nat)
    requires start + L <= |s| && AllIn(s, CompDomain)
    ensures Oriented(s, start, L, true) == RevComp(s[start..start + L])
    ensures Oriented(s, start, L, true) == Oriented(RevComp(s), |s| - start - L, L, false)
  {
    StrandMirror(s, start, L);
  }

  /** The reverse window is the mirrored forward window of `RevComp(s)`. */
  lemma StrandMirror(s: seq<char>, start: nat, L: nat)
    requires start + L <= |s| && AllIn(s, CompDomain)
    ensures Oriented(s, start, L, true) == Oriented(RevComp(s), |s| - start - L, L, false)
  {
    var a, b := Oriented(s, start, L, true), Oriented(RevComp(s), |s| - start - L, L, false);
    forall i | 0 <= i < L
      ensures a[i] == b[i]
    {
      MirrorAt(s, start, L, i);
    }
  }

  lemma MirrorAt(s: seq<char>, start: nat, L: nat, i: nat)
    requires start + L <= |s| && AllIn(s, CompDomain) && i < L
    ensures Oriented(s, start, L, true)[i] == Oriented(RevComp(s), |s| - start - L, L, false)[i]
  {
    var r := RevComp(s);
    var j := |s| - start - L + i;
    var c := s[start + L - 1 - i];
    assert Oriented(s, start, L, true)[i] == Comp(c);
    assert Oriented(r, |s| - start - L, L, false)[i] == r[j];
    assert s[|s| - 1 - j] == c;
  }

  /**
   * A completed scan of one orientation reports the window's position-order
   * total, whether or not it is kept.
   */
  lemma {:induction false} EvalScoreIsTotal(m: Matrix, w: seq<char>, full: bool, worst: real, p: nat, acc: real)
    requires m.Shaped() && |w| == m.Length() && p < |w|
    requires acc + PrioritySum(m, w, p) == Total(m, w)
    ensures !Eval(m, w, full, worst, p, acc).Pruned? ==> Eval(m, w, full, worst, p, acc).score == Total(m, w)
    decreases |w| - p
  {
    var i := m.priority[p];
    var score := acc + m.Score(i, w[i]);
    PrioritySumStep(m, w, p);
    if full && score + m.bestCases[p] > worst {
      EvalPrunes(m, w, full, worst, p, acc, score);
    } else if p == |w| - 1 {
      PrioritySumEnd(m, w);
      EvalCompletes(m, w, full, worst, p, acc, score);
    } else {
      EvalAdvance(m, w, full, worst, p, acc, score);
      EvalScoreIsTotal(m, w, full, worst, p + 1, score);
    }
  }

  lemma PrioritySumEnd(m: Matrix, w: seq<char>)
    requires m.Shaped() && |w| == m.Length()
    ensures PrioritySum(m, w, |w|) == 0.0
  {
    assert m.priority[|w|..] == [];
  }

  /** From its first step, a completed scan reports the window's position-order total. */
  lemma CompletedScoreIsTotal(m: Matrix, w: seq<char>, full: bool, worst: real)
    requires m.Valid() && |w| == m.Length() > 0
    ensures !Eval(m, w, full, worst, 0, 0.0).Pruned? ==> Eval(m, w, full, worst, 0, 0.0).score == Total(m, w)
  {
    PriorityOrderTotal(m, w);
    EvalScoreIsTotal(m, w, full, worst, 0, 0.0);
  }

  /**
   * What a hit of gene `s` under `header` carries: an offset whose window
   * fits, the header, the window's letters as scored on its strand, and the
   * window's complete score.
   */
  predicate WindowHit(m: Matrix, s: seq<char>, header: string, h: Hit)
    requires m.Shaped() && AllIn(s, CompDomain)
  {
    && h.seqindex + m.Length() <= |s|
    && h.source == header
    && h.sequence == Oriented(s, h.seqindex, m.Length(), h.rvs)
    && h.score == Total(m, h.sequence)
  }

  /** The hit made from the window at `start` is a window hit when it carries the window's total. */
  lemma MadeHitIsWindowHit(m: Matrix, s: seq<char>, header: string, start: nat, rvs: bool, score: real)
    requires m.Shaped() && start + m.Length() <= |s| && AllIn(s, CompDomain)
    requires score == Total(m, Oriented(s, start, m.Length(), rvs))
    ensures AllIn(s[start..start + m.Length()], CompDomain)
    ensures WindowHit(m, s, header, MakeHit(s[start..start + m.Length()], score, header, start, rvs))
  {
    MadeHitLetters(s, start, m.Length(), rvs, score, header);
  }

  /** The hit made from a window holds the letters scored for it on its strand. */
  lemma MadeHitLetters(s: seq<char>, start: nat, L: nat, rvs: bool, score: real, header: string)
    requires start + L <= |s| && AllIn(s, CompDomain)
    ensures AllIn(s[start..start + L], CompDomain)
    ensures MakeHit(s[start..start + L], score, header, start, rvs).sequence == Oriented(s, start, L, rvs)
  {
    var hitseq := s[start..start + L];
    WindowInDomain(s, start, L);
    if rvs {
      assert MakeHit(hitseq, score, header, start, rvs).sequence == RevComp(hitseq);
    }
  }

  lemma WindowInDomain(s: seq<char>, start: nat, L: nat)
    requires start + L <= |s| && AllIn(s, CompDomain)
    ensures AllIn(s[start..start + L], CompDomain)
  {
    var w := s[start..start + L];
    assert forall i :: 0 <= i < L ==> w[i] == s[start + i];
  }

  /**
   * Every hit in `after` was already in `before`, or is a window hit of `s`
   * at an offset from `lo` to `hi`.
   */
  predicate OnlyWindowHits(m: Matrix, s: seq<char>, header: string, before: seq<Hit>, after: seq<Hit>, lo: nat, hi: nat)
    requires m.Shaped() && AllIn(s, CompDomain)
  {
    forall h :: h in after ==> h in before || (lo <= h.seqindex <= hi && WindowHit(m, s, header, h))
  }

  /** Two steps that each add only window hits in a range add only window hits in the wider range. */
  lemma OnlyWindowHitsChain(m: Matrix, s: seq<char>, header: string, a: seq<Hit>, b: seq<Hit>, c: seq<Hit>,
                            lo: nat, hi: nat, lo1: nat, hi1: nat, lo2: nat, hi2: nat)
    requires m.Shaped() && AllIn(s, CompDomain)
    requires OnlyWindowHits(m, s, header, a, b, lo1, hi1) && OnlyWindowHits(m, s, header, b, c, lo2, hi2)
    requires lo <= lo1 && lo <= lo2 && hi1 <= hi && hi2 <= hi
    ensures OnlyWindowHits(m, s, header, a, c, lo, hi)
  {
  }

  /** A hit one orientation adds is the window at `start`, on that orientation's strand. */
  lemma OrientAddsWindowHits(st: HitList, maxhits: nat, m: Matrix, s: seq<char>, header: string, start: nat, rvs: bool)
    requires m.Valid() && start + m.Length() <= |s| && AllIn(s, CompDomain)
    ensures OnlyWindowHits(m, s, header, st.hits, Orient(st, maxhits, m, s, header, start, rvs).hits, start, start)
  {
    var L := m.Length();
    if L > 0 {
      if Eval(m, Oriented(s, start, L, rvs), st.full, WorstKept(st), 0, 0.0).Accepted? {
        OrientAcceptedTotal(st, maxhits, m, s, header, start, rvs);
        SubmitAddsWindowHit(st, maxhits, m, s, header, start, rvs, Total(m, Oriented(s, start, L, rvs)));
      } else {
        OrientKept(st, maxhits, m, s, header, start, rvs);
      }
    }
  }

  /** An accepted window is submitted with its complete score. */
  lemma OrientAcceptedTotal(st: HitList, maxhits: nat, m: Matrix, s: seq<char>, header: string, start: nat, rvs: bool)
    requires m.Valid() && 0 < m.Length() && start + m.Length() <= |s| && AllIn(s, CompDomain)
    requires Eval(m, Oriented(s, start, m.Length(), rvs), st.full, WorstKept(st), 0, 0.0).Accepted?
    ensures Orient(st, maxhits, m, s, header, start, rvs)
            == Submit(st, maxhits, s, header, start, m.Length(), rvs, Total(m, Oriented(s, start, m.Length(), rvs)))
  {
    CompletedScoreIsTotal(m, Oriented(s, start, m.Length(), rvs), st.full, WorstKept(st));
    OrientAccepted(st, maxhits, m, s, header, start, rvs);
  }

  /** Submitting the window at `start` with its complete score adds only that window's hit. */
  lemma SubmitAddsWindowHit(st: HitList, maxhits: nat, m: Matrix, s: seq<char>, header: string, start: nat, rvs: bool, score: real)
    requires m.Shaped() && start + m.Length() <= |s| && AllIn(s, CompDomain)
    requires score == Total(m, Oriented(s, start, m.Length(), rvs))
    ensures OnlyWindowHits(m, s, header, st.hits, Submit(st, maxhits, s, header, start, m.Length(), rvs, score).hits, start, start)
  {
    var L := m.Length();
    MadeHitLetters(s, start, L, rvs, score, header);
    AfterAddMembers(st, maxhits, MakeHit(s[start..start + L], score, header, start, rvs));
  }

  /**
   * Every hit the scan adds is a window of the gene, stored on its strand
   * with the gene's header, its offset and its complete score.
   */
  lemma {:induction false} ScanAddsWindowHits(st: HitList, maxhits: nat, m: Matrix, s: seq<char>, header: string, start: nat)
    requires m.Valid() && AllIn(s, CompDomain)
    ensures OnlyWindowHits(m, s, header, st.hits, ScanFrom(st, maxhits, m, s, header, start).hits, start, |s|)
    decreases |s| + 1 - start
  {
    if start + m.Length() <= |s| {
      var both := Orient(Orient(st, maxhits, m, s, header, start, false), maxhits, m, s, header, start, true);
      BothStrandsAddWindowHits(st, maxhits, m, s, header, start);
      ScanAddsWindowHits(both, maxhits, m, s, header, start + 1);
      OnlyWindowHitsChain(m, s, header, st.hits, both.hits, ScanFrom(both, maxhits, m, s, header, start + 1).hits,
                          start, |s|, start, start, start + 1, |s|);
    }
  }

  /** Both orientations of the window at `start` together add only that window's hits. */
  lemma BothStrandsAddWindowHits(st: HitList, maxhits: nat, m: Matrix, s: seq<char>, header: string, start: nat)
    requires m.Valid() && start + m.Length() <= |s| && AllIn(s, CompDomain)
    ensures OnlyWindowHits(m, s, header, st.hits,
              Orient(Orient(st, maxhits, m, s, header, start, false), maxhits, m, s, header, start, true).hits, start, start)
  {
    var fwd := Orient(st, maxhits, m, s, header, start, false);
    var both := Orient(fwd, maxhits, m, s, header, start, true);
    OrientAddsWindowHits(st, maxhits, m, s, header, start, false);
    OrientAddsWindowHits(fwd, maxhits, m, s, header, start, true);
    OnlyWindowHitsChain(m, s, header, st.hits, fwd.hits, both.hits, start, start, start, start, start, start);
  }

  /**
   * The last offset as TargetSearch.cpp computes it: an unsigned 32-bit
   * difference of the gene's size and the matrix length.
   */
  function AsWrittenEnd(size: nat, length: nat): nat
    requires size < 0x1_0000_0000 && length < 0x1_0000_0000
  {
    (size - length) % 0x1_0000_0000
  }

  /**
   * For a gene shorter than the matrix the difference wraps: the loop is
   * entered at offset 0, whose window already runs past the gene's end, and
   * goes on to offsets beyond the gene.
   */
  lemma AsWrittenEndOverruns(size: nat, length: nat)
    requires size < length < 0x1_0000_0000
    ensures AsWrittenEnd(size, length) == size + 0x1_0000_0000 - length
    ensures AsWrittenEnd(size, length) >= size && 0 + length > size
  {
    var d: int := size - length;
    assert d + 0x1_0000_0000 == size + 0x1_0000_0000 - length;
    assert 0 <= d + 0x1_0000_0000 < 0x1_0000_0000;
  }

  /** A one-letter gene against a two-position matrix: the last offset is 4294967295. */
  lemma AsWrittenEndOfShortGene()
    ensures AsWrittenEnd(1, 2) == 0xFFFF_FFFF
  {
    AsWrittenEndOverruns(1, 2);
  }

  /** The last offset whose window fits inside the gene, when there is one. */
  function LastStart(size: nat, length: nat): (r: Option<nat>)
    ensures r.Some? <==> length <= size
    ensures r.Some? ==> r.value + length == size
  {
    if length <= size then Some(size - length) else None
  }

  /**
   * The windows the corrected bound admits are exactly those inside the
   * gene, and where a window fits the bound agrees with the one as written.
   */
  lemma LastStartAdmitsWindows(size: nat, length: nat, start: nat)
    ensures start + length <= size <==> LastStart(size, length).Some? && start <= LastStart(size, length).value
    ensures length <= size < 0x1_0000_0000 ==> LastStart(size, length) == Some(AsWrittenEnd(size, length))
  {
    if length <= size < 0x1_0000_0000 {
      assert 0 <= size - length < 0x1_0000_0000;
    }
  }

  /**
   * How `print_results` shows a hit's letters: a letter whose weight at its
   * position is above the position's best weight is lower-cased.
   */
  function Shown(m: Matrix, hs: seq<char>): (r: seq<char>)
    requires m.Shaped() && |hs| == m.Length() && AllIn(hs, LowerDomain)
    ensures |r| == |hs|
    ensures forall i :: 0 <= i < |hs| ==> r[i] == hs[i] || r[i] == Lower(hs[i])
    ensures AllIn(hs, Codes) ==>
      forall i :: 0 <= i < |hs| ==> (r[i] == hs[i] <==> m.Score(i, hs[i]) <= m.Best(i))
  {
    seq(|hs|, i requires 0 <= i < |hs| => if m.Score(i, hs[i]) > m.Best(i) then Lower(hs[i]) else hs[i])
  }

  /** Each position's best weight, in position order. */
  function Bests(m: Matrix): (r: seq<real>)
    requires m.Shaped()
    ensures |r| == m.Length()
  {
    seq(m.Length(), i requires 0 <= i < m.Length() => m.Best(i))
  }

  /**
   * A sum of values no smaller than their partners is no smaller than theirs,
   * and equal exactly when every value equals its partner.
   */
  lemma {:induction false} SumDominates(a: seq<real>, b: seq<real>)
    requires |a| == |b| && forall i :: 0 <= i < |a| ==> a[i] >= b[i]
    ensures Sum(a) >= Sum(b)
    ensures Sum(a) == Sum(b) <==> forall i :: 0 <= i < |a| ==> a[i] == b[i]
  {
    if a != [] {
      var n := |a| - 1;
      SumDominates(a[..n], b[..n]);
      if Sum(a) == Sum(b) {
        forall i | 0 <= i < |a|
          ensures a[i] == b[i]
        {
          if i < n {
            assert a[..n][i] == a[i] && b[..n][i] == b[i];
          }
        }
      } else {
        assert a[n] != b[n] || Sum(a[..n]) != Sum(b[..n]);
        if a[n] == b[n] {
          var i :| 0 <= i < n && a[..n][i] != b[..n][i];
          assert a[i] != b[i];
        }
      }
    }
  }

  /**
   * A hit of key letters is shown all in capitals exactly when it scores the
   * best the matrix allows: the sum of the positions' best weights.
   */
  lemma ShownUpperIffBest(m: Matrix, hs: seq<char>)
    requires m.Shaped() && |hs| == m.Length() && AllIn(hs, Codes)
    requires forall i :: 0 <= i < |hs| ==> hs[i] in m.key
    ensures AllIn(hs, LowerDomain)
    ensures Shown(m, hs) == hs <==> Total(m, hs) == Sum(Bests(m))
  {
    var sc, bs := Scores(m, hs), Bests(m);
    assert forall i :: 0 <= i < |hs| ==> sc[i] >= bs[i];
    SumDominates(sc, bs);
    assert AllIn(hs, LowerDomain);
    ShownUpperAt(m, hs);
    if Total(m, hs) == Sum(bs) {
      assert forall i :: 0 <= i < |hs| ==> Shown(m, hs)[i] == hs[i];
    }
  }

  /** A letter stays a capital exactly where it scores its position's best weight. */
  lemma ShownUpperAt(m: Matrix, hs: seq<char>)
    requires m.Shaped() && |hs| == m.Length() && AllIn(hs, Codes) && AllIn(hs, LowerDomain)
    requires forall i :: 0 <= i < |hs| ==> hs[i] in m.key
    ensures forall i :: 0 <= i < |hs| ==> (Shown(m, hs)[i] == hs[i] <==> Scores(m, hs)[i] == Bests(m)[i])
    ensures Shown(m, hs) == hs ==> forall i :: 0 <= i < |hs| ==> Scores(m, hs)[i] == Bests(m)[i]
  {
    var sc, bs, r := Scores(m, hs), Bests(m), Shown(m, hs);
    forall i | 0 <= i < |hs|
      ensures r[i] == hs[i] <==> sc[i] == bs[i]
    {
      assert sc[i] >= bs[i];
    }
  }

  /** A two-position matrix over A, C, G, T that prefers A first and T second. */
  function ATMatrix(): Matrix
  {
    Matrix("ACGT", [PssmPos(0, [0.0, 1.0, 1.0, 1.0]), PssmPos(1, [1.0, 1.0, 1.0, 0.0])], [0, 1], [0.0, 0.0])
  }

  lemma ATWeights(p0: seq<real>, p1: seq<real>)
    requires p0 == [0.0, 1.0, 1.0, 1.0] && p1 == [1.0, 1.0, 1.0, 0.0]
    ensures BestWeight(p0) == 0.0 && WorstWeight(p0) == 1.0
    ensures BestWeight(p1) == 0.0 && WorstWeight(p1) == 1.0
    ensures Range(p0) == 1.0 && Range(p1) == 1.0
  {
    assert BestWeight(p0) in p0 && WorstWeight(p0) in p0;
    assert BestWeight(p1) in p1 && WorstWeight(p1) in p1;
    assert BestWeight(p0) <= p0[0] && WorstWeight(p0) >= p0[1];
    assert BestWeight(p1) <= p1[3] && WorstWeight(p1) >= p1[0];
  }

  /** The example matrix is one a setup can produce: both ranges are 1, so the file order stands. */
  lemma ATMatrixValid()
    ensures ATMatrix().Valid()
  {
    var m := ATMatrix();
    ATWeights(m.positions[0].weights, m.positions[1].weights);
    TwoPositionsValid(m, 0, 1);
  }

  /** Both strands of "AT" read "AT", and it scores 0 under the example matrix. */
  lemma ATWindow(s: seq<char>)
    requires s == "AT"
    ensures AllIn(s, CompDomain) && LettersInKey(ATMatrix(), s)
    ensures Oriented(s, 0, 2, false) == s && Oriented(s, 0, 2, true) == s
    ensures Total(ATMatrix(), s) == 0.0
  {
    ATTotal(s);
    ATLetters(s);
    ATStrands(s);
  }

  lemma ATLetters(s: seq<char>)
    requires s == "AT"
    ensures AllIn(s, CompDomain) && LettersInKey(ATMatrix(), s)
  {
    var key := ATMatrix().key;
    assert Comp('A') == 'T' && Comp('T') == 'A';
    assert key[0] == 'A' && key[3] == 'T';
    assert s[0] == 'A' && s[1] == 'T';
  }

  lemma ATStrands(s: seq<char>)
    requires s == "AT"
    ensures AllIn(s, CompDomain)
    ensures Oriented(s, 0, 2, false) == s && Oriented(s, 0, 2, true) == s
  {
    assert s[0] == 'A' && s[1] == 'T';
    assert Comp('A') == 'T' && Comp('T') == 'A';
    var f, r := Oriented(s, 0, 2, false), Oriented(s, 0, 2, true);
    assert f[0] == s[0] && f[1] == s[1];
    assert r[0] == Comp(s[1]) && r[1] == Comp(s[0]);
  }

  /** "AT" takes the best weight at both positions of the example matrix. */
  lemma ATTotal(s: seq<char>)
    requires s == "AT"
    ensures Total(ATMatrix(), s) == 0.0
  {
    ATScores(s);
    SumOfTwo(0.0, 0.0);
  }

  lemma ATScores(s: seq<char>)
    requires s == "AT"
    ensures Scores(ATMatrix(), s) == [0.0, 0.0]
  {
    var m := ATMatrix();
    ATKeyIndices(m.key);
    var sc := Scores(m, s);
    assert sc[0] == m.Score(0, 'A') == 0.0;
    assert sc[1] == m.Score(1, 'T') == 0.0;
  }

  lemma ATKeyIndices(key: seq<char>)
    requires key == "ACGT"
    ensures KeyIndex(key, 'A') == 0 && KeyIndex(key, 'T') == 3
  {
    assert key[0] == 'A' && key[3] == 'T';
    assert key[1] != 'T' && key[2] != 'T';
  }

  /** The forward window of "AT" goes into the empty list. */
  lemma ATForward(header: string)
    ensures Complete(HitList([], false), 1, ATMatrix(), "AT", header, 0, false)
            == HitList([Hit("AT", 0.0, header, 0, false)], false)
  {
    var s := "AT";
    ATWindow(s);
    assert s[0..2] == s;
  }

  /** The reverse window of "AT" ties with the forward one, goes in front of it and is evicted. */
  lemma ATReverse(header: string)
    ensures Complete(HitList([Hit("AT", 0.0, header, 0, false)], false), 1, ATMatrix(), "AT", header, 0, true)
            == HitList([Hit("AT", 0.0, header, 0, false)], true)
  {
    ATWindow("AT");
    ATReverseSubmit(header);
  }

  lemma ATReverseSubmit(header: string)
    ensures Submit(HitList([Hit("AT", 0.0, header, 0, false)], false), 1, "AT", header, 0, 2, true, 0.0)
            == HitList([Hit("AT", 0.0, header, 0, false)], true)
  {
    var s := "AT";
    assert s[0] == 'A' && s[1] == 'T';
    assert Comp('A') == 'T' && Comp('T') == 'A';
    var r := RevComp(s);
    assert r[0] == Comp(s[1]) && r[1] == Comp(s[0]);
    assert s[0..2] == s;
    assert MakeHit(s[0..2], 0.0, header, 0, true) == Hit("AT", 0.0, header, 0, true);
    ATTieEvicts(header);
  }

  /** A tied newcomer goes in front of the kept hit and, over capacity 1, is dropped again. */
  lemma ATTieEvicts(header: string)
    ensures var fwd, rvs := Hit("AT", 0.0, header, 0, false), Hit("AT", 0.0, header, 0, true);
            AfterAdd(HitList([fwd], false), 1, rvs) == HitList([fwd], true)
  {
    var fwd, rvs := Hit("AT", 0.0, header, 0, false), Hit("AT", 0.0, header, 0, true);
    assert Insert([fwd], rvs) == [rvs, fwd];
  }

  /**
   * The worked example: scanning "AT" with room for one hit keeps the
   * forward window at offset 0 with score 0.
   */
  lemma ATScan(header: string)
    ensures ATMatrix().Valid()
    ensures ScanFrom(HitList([], false), 1, ATMatrix(), "AT", header, 0)
            == HitList([Hit("AT", 0.0, header, 0, false)], true)
  {
    var m, s := ATMatrix(), "AT";
    ATMatrixValid();
    ATWindow(s);
    ScanIsComplete(HitList([], false), 1, m, s, header, 0);
    ATForward(header);
    ATReverse(header);
    var st := HitList([Hit("AT", 0.0, header, 0, false)], true);
    assert CompleteFrom(st, 1, m, s, header, 1) == st;
  }

  /** `scan_seq(filename)` over the genes read: every gene in file order, each from offset 0. */
  function ScanGenes(st: HitList, maxhits: nat, m: Matrix, genes: seq<(string, seq<char>)>): HitList
    requires m.Shaped() && forall k :: 0 <= k < |genes| ==> AllIn(genes[k].1, CompDomain)
  {
    if genes == [] then st
    else
      var n := |genes| - 1;
      ScanFrom(ScanGenes(st, maxhits, m, genes[..n]), maxhits, m, genes[n].1, genes[n].0, 0)
  }

  /** Over a whole file, too, the list stays sorted and within capacity and `full` is never cleared. */
  lemma {:induction false} ScanGenesKeepsBounded(st: HitList, maxhits: nat, m: Matrix, genes: seq<(string, seq<char>)>)
    requires m.Shaped() && forall k :: 0 <= k < |genes| ==> AllIn(genes[k].1, CompDomain)
    requires Bounded(st, maxhits)
    ensures Bounded(ScanGenes(st, maxhits, m, genes), maxhits)
    ensures st.full ==> ScanGenes(st, maxhits, m, genes).full
  {
    if genes != [] {
      var n := |genes| - 1;
      ScanGenesKeepsBounded(st, maxhits, m, genes[..n]);
      ScanKeepsBounded(ScanGenes(st, maxhits, m, genes[..n]), maxhits, m, genes[n].1, genes[n].0, 0);
    }
  }

  /** Every hit a file adds is a window hit of one of its genes. */
  lemma {:induction false} ScanGenesAddsWindowHits(st: HitList, maxhits: nat, m: Matrix, genes: seq<(string, seq<char>)>)
    requires m.Valid() && forall k :: 0 <= k < |genes| ==> AllIn(genes[k].1, CompDomain)
    ensures forall h :: h in ScanGenes(st, maxhits, m, genes).hits ==>
              h in st.hits || exists k :: 0 <= k < |genes| && WindowHit(m, genes[k].1, genes[k].0, h)
  {
    if genes != [] {
      var n := |genes| - 1;
      var before := ScanGenes(st, maxhits, m, genes[..n]);
      ScanGenesAddsWindowHits(st, maxhits, m, genes[..n]);
      ScanAddsWindowHits(before, maxhits, m, genes[n].1, genes[n].0, 0);
      forall h | h in ScanGenes(st, maxhits, m, genes).hits
        ensures h in st.hits || exists k :: 0 <= k < |genes| && WindowHit(m, genes[k].1, genes[k].0, h)
      {
        if h !in before.hits {
          assert WindowHit(m, genes[n].1, genes[n].0, h);
        } else if h !in st.hits {
          var k :| 0 <= k < n && WindowHit(m, genes[..n][k].1, genes[..n][k].0, h);
          assert genes[..n][k] == genes[k];
        }
      }
    }
  }

  /** The `TargetSearch` application object: a matrix, a hit list and running counts. */
  class TargetSearch {
    const hits: HitManager
    const pssm: PSSM
    var numseqs: nat
    var numbps: nat

    /** What a scan needs: tables of matching shapes and a hit list with room for at least one hit. */
    ghost predicate Ready()
      reads this, hits, pssm
    {
      && pssm.length == |pssm.positions| && pssm.Model().Shaped()
      && hits.Valid() && hits.maxhits >= 1
    }

    /** Ready, with the matrix ranked and its bounds set up. */
    ghost predicate Valid()
      reads this, hits, pssm
    {
      Ready() && pssm.Valid()
    }

    /** The constructor, given the matrix its `setup` produced: no hits and zero counts. */
    constructor (matrix: PSSM, maxhits: nat)
      requires matrix.Valid() && maxhits >= 1
      ensures pssm == matrix && fresh(hits)
      ensures hits.State() == HitList([], false) && hits.maxhits == maxhits
      ensures numseqs == 0 && numbps == 0
      ensures Valid()
    {
      pssm := matrix;
      var manager := new HitManager();
      manager.SetMaxhits(maxhits);
      hits := manager;
      numseqs := 0;
      numbps := 0;
    }

    /**
     * The constructor as TargetSearch.cpp writes it: read the matrix from
     * its file, negated when `invert` is set, then size the hit list.  A
     * file the reader rejects gives its error.
     */
    static method Open(lines: seq<PssmLine>, maxhits: nat, invert: bool) returns (r: Result<TargetSearch, ReadError>)
      requires maxhits >= 1
      ensures var read := ReadLines(lines, [], []);
              if read.Failure? then r == Failure(read.error)
              else
                && r.Success? && fresh(r.value) && fresh(r.value.pssm) && r.value.Valid()
                && r.value.pssm.key == read.value.0
                && r.value.pssm.positions == (if invert then Inverted(read.value.1) else read.value.1)
                && r.value.hits.State() == HitList([], false) && r.value.hits.maxhits == maxhits
                && r.value.numseqs == 0 && r.value.numbps == 0
    {
      var matrix := new PSSM();
      var err := matrix.ReadFile(lines, invert);
      if err.Some? {
        return Failure(err.value);
      }
      var search := new TargetSearch(matrix, maxhits);
      return Success(search);
    }

    /**
     * One orientation of the window at `start`: add the weights in priority
     * order, stop early once the bound exceeds the worst kept score, and
     * submit a completed window unless the list is full and it does not
     * beat that score.
     */
    method ScanStrand(s: seq<char>, header: string, start: nat, rvs: bool)
      requires Ready() && start + pssm.length <= |s| && AllIn(s, CompDomain)
      modifies hits
      ensures Ready() && hits.maxhits == old(hits.maxhits)
      ensures hits.State() == Orient(old(hits.State()), hits.maxhits, pssm.Model(), s, header, start, rvs)
    {
      var length := pssm.length;
      if length == 0 {
        return;
      }
      ghost var st := hits.State();
      ghost var m := pssm.Model();
      var worst := if hits.full then hits.Worst() else 0.0;
      assert worst == WorstKept(st);
      var kept, score := ScoreWindow(s, start, rvs, hits.full, worst);
      if kept {
        AddWindow(s, header, start, length, rvs, score);
        OrientAccepted(st, hits.maxhits, m, s, header, start, rvs);
      } else {
        OrientKept(st, hits.maxhits, m, s, header, start, rvs);
      }
    }

    /** `add_hit` of the window at `start`: its forward slice goes to the hit list. */
    method AddWindow(s: seq<char>, header: string, start: nat, length: nat, rvs: bool, score: real)
      requires hits.Valid() && start + length <= |s| && AllIn(s, CompDomain)
      modifies hits
      ensures hits.State() == Submit(old(hits.State()), hits.maxhits, s, header, start, length, rvs, score)
      ensures hits.maxhits == old(hits.maxhits) && hits.Valid()
    {
      var hitseq := s[start..start + length];
      WindowInDomain(s, start, length);
      hits.AddHit(score, hitseq, header, start, rvs);
    }

    /**
     * The step loop of one orientation: adds the weight of each position in
     * priority order, stops as soon as the list is `full` and the score plus
     * the remaining best case exceeds `worst`, and after the last step keeps
     * the window unless the list is full and its score is not below `worst`.
     */
    method ScoreWindow(s: seq<char>, start: nat, rvs: bool, full: bool, worst: real) returns (kept: bool, score: real)
      requires pssm.length == |pssm.positions| && pssm.Model().Shaped()
      requires 0 < pssm.length && start + pssm.length <= |s| && AllIn(s, CompDomain)
      ensures var v := Eval(pssm.Model(), Oriented(s, start, pssm.length, rvs), full, worst, 0, 0.0);
              kept == v.Accepted? && (kept ==> score == v.score)
    {
      ghost var m := pssm.Model();
      ghost var w := Oriented(s, start, pssm.length, rvs);
      ghost var verdict := Eval(m, w, full, worst, 0, 0.0);
      var length := pssm.length;
      kept := false;
      score := 0.0;
      var p := 0;
      while p < length
        invariant p <= length
        invariant p < length ==> !kept && Eval(m, w, full, worst, p, score) == verdict
        invariant p == length ==> kept == verdict.Accepted? && (kept ==> score == verdict.score)
        decreases length - p
      {
        var weight, bound := Weigh(s, start, rvs, p);
        ghost var acc := score;
        score := score + weight;
        if full && score + bound > worst {
          EvalPrunes(m, w, full, worst, p, acc, score);
          return;
        }
        if p == length - 1 {
          EvalCompletes(m, w, full, worst, p, acc, score);
          kept := !(full && score >= worst);
        } else {
          EvalAdvance(m, w, full, worst, p, acc, score);
        }
        p := p + 1;
      }
    }

    /**
     * Step `p` of one orientation: the weight of the letter at the position
     * ranked `p` (on the reverse strand, the complement of its mirror), and
     * the best the later steps can add.
     */
    method Weigh(s: seq<char>, start: nat, rvs: bool, p: nat) returns (weight: real, bound: real)
      requires pssm.length == |pssm.positions| && pssm.Model().Shaped() && start + pssm.length <= |s| && AllIn(s, CompDomain) && p < pssm.length
      ensures var m := pssm.Model();
              var w := Oriented(s, start, pssm.length, rvs);
              weight == m.Score(m.priority[p], w[m.priority[p]]) && bound == m.bestCases[p]
    {
      var length := pssm.length;
      var i := pssm.Priority(p);
      var letter := if rvs then Comp(s[start + length - i - 1]) else s[start + i];
      OrientedAt(s, start, length, rvs, i);
      weight := pssm.Score(i, letter);
      bound := pssm.BestCase(p);
    }

    /**
     * `scan_seq(gene)`: every offset whose window fits, forward then
     * reverse.  The last offset is taken from `LastStart`, so a gene
     * shorter than the matrix is not scanned.
     */
    method ScanGene(gene: Gene)
      requires Ready() && AllIn(gene.sequence, CompDomain)
      modifies hits
      ensures Ready() && hits.maxhits == old(hits.maxhits)
      ensures hits.State() == ScanFrom(old(hits.State()), hits.maxhits, pssm.Model(), gene.sequence, gene.header, 0)
    {
      var s, header := gene.sequence, gene.header;
      var last := LastStart(|s|, pssm.length);
      if last.None? {
        return;
      }
      var start := 0;
      while start <= last.value
        invariant start <= last.value + 1
        invariant Ready() && hits.maxhits == old(hits.maxhits)
        invariant ScanFrom(hits.State(), hits.maxhits, pssm.Model(), s, header, start)
                  == ScanFrom(old(hits.State()), hits.maxhits, pssm.Model(), s, header, 0)
        decreases last.value + 1 - start
      {
        ScanStrand(s, header, start, false);
        ScanStrand(s, header, start, true);
        start := start + 1;
      }
    }

    /**
     * `scan_seq(filename)`: read the genes of a FASTA file, add their number
     * and their letters to the counts, and scan them in file order.
     */
    method ScanFile(lines: seq<string>)
      requires Ready()
      modifies this, hits
      ensures Ready() && hits.maxhits == old(hits.maxhits)
      ensures var genes := UpperGroups(Group(lines));
              && numseqs == old(numseqs) + |genes|
              && numbps == old(numbps) + TotalLength(Letters(genes))
              && hits.State() == ScanGenes(old(hits.State()), hits.maxhits, pssm.Model(), genes)
    {
      var list := new GeneList.FromLines(lines);
      ghost var genes := list.Contents();
      assert list.Sequences() == Letters(genes);
      numseqs := numseqs + list.numseqs;
      numbps := numbps + list.numbps;
      ScanList(list);
      assert list.Contents() == genes;
    }

    /** The loop of `scan_seq(filename)` over a finished gene list. */
    method ScanList(list: GeneList)
      requires Ready() && list.Finished()
      modifies hits
      ensures Ready() && hits.maxhits == old(hits.maxhits)
      ensures forall j :: 0 <= j < |list.Contents()| ==> AllIn(list.Contents()[j].1, CompDomain)
      ensures hits.State() == ScanGenes(old(hits.State()), hits.maxhits, pssm.Model(), list.Contents())
    {
      ghost var genes := list.Contents();
      assert forall j :: 0 <= j < |genes| ==> AllIn(genes[j].1, CompDomain) by {
        forall j | 0 <= j < |genes|
          ensures AllIn(genes[j].1, CompDomain)
        {
          assert genes[j].1 == list.genes[j].sequence;
        }
      }
      ghost var st := hits.State();
      var k := 0;
      while k < |list.genes|
        invariant k <= |list.genes|
        invariant Ready() && hits.maxhits == old(hits.maxhits)
        invariant hits.State() == ScanGenes(st, hits.maxhits, pssm.Model(), genes[..k])
      {
        var gene := list.genes[k];
        assert gene.sequence == genes[k].1 && gene.header == genes[k].0;
        ScanGene(gene);
        assert genes[..k + 1][..k] == genes[..k];
        k := k + 1;
      }
      assert genes[..k] == genes;
    }
  }
}
