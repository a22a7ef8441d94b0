/** `bisect_ci`: binary search for the commit that broke CI. The CI service is an oracle that
    gives one result per commit. */
module Bisect {
  import opened Lists
  import opened Options

  datatype CheckResult = Success | Failure | Skipped | Cancelled | Pending

  datatype CIResult = CIResult(commit: string, lint: CheckResult, format: CheckResult,
                               typecheck: CheckResult, test: CheckResult)
  {
    /** Every check succeeded or was skipped. */
    predicate AllPassed() {
      forall r | r in [lint, format, typecheck, test] :: r in {Success, Skipped}
    }
  }

  datatype BisectResult = BisectResult(firstBad: string, lastGood: string, tested: seq<CIResult>,
                                       total: nat, steps: nat)

  function Pow2(k: nat): nat { if k == 0 then 1 else 2 * Pow2(k - 1) }

  /** The least `k` with `2^k >= n`. */
  function CeilLog2(n: nat): nat
  {
    if n <= 1 then 0 else 1 + CeilLog2((n + 1) / 2)
  }

  lemma {:induction false} CeilLog2IsLeast(n: nat)
    requires n >= 1
    ensures Pow2(CeilLog2(n)) >= n
    ensures CeilLog2(n) > 0 ==> Pow2(CeilLog2(n) - 1) < n
  {
    if n > 1 {
      CeilLog2IsLeast((n + 1) / 2);
    }
  }

  lemma {:induction false} CeilLog2Monotone(m: nat, n: nat)
    requires m <= n
    ensures CeilLog2(m) <= CeilLog2(n)
    decreases n
  {
    if m > 1 {
      CeilLog2Monotone((m + 1) / 2, (n + 1) / 2);
    }
  }

  /** The oracle says that this commit is good: none of its four checks failed, was cancelled or
      is still pending. */
  predicate Good(oracle: string -> CIResult, commit: string) {
    var r := oracle(commit);
    && (r.lint == Success || r.lint == Skipped) && (r.format == Success || r.format == Skipped)
    && (r.typecheck == Success || r.typecheck == Skipped) && (r.test == Success || r.test == Skipped)
  }

  lemma PassedMeansGood(oracle: string -> CIResult, commit: string)
    ensures oracle(commit).AllPassed() <==> Good(oracle, commit)
  {
    var r := oracle(commit);
    var checks := [r.lint, r.format, r.typecheck, r.test];
    assert checks[0] in checks && checks[1] in checks && checks[2] in checks && checks[3] in checks;
  }

  /** Once a commit is bad, all later ones are. */
  ghost predicate Monotone(oracle: string -> CIResult, commits: seq<string>) {
    forall i, j | 0 <= i < j < |commits| :: !Good(oracle, commits[i]) ==> !Good(oracle, commits[j])
  }

  /** Position `r` is where the search ended: the commit there is the given bad end or was
      tested bad, the one before it is the given good end or was tested good. */
  ghost predicate Boundary(commits: seq<string>, oracle: string -> CIResult, result: BisectResult, goodSha: string,
                           r: nat)
  {
    && r < |commits|
    && result.firstBad == commits[r]
    && (r < |commits| - 1 ==> oracle(commits[r]) in result.tested && !Good(oracle, commits[r]))
    && result.lastGood == (if r == 0 then goodSha else commits[r - 1])
    && (r > 0 ==> oracle(commits[r - 1]) in result.tested && Good(oracle, commits[r - 1]))
  }

  /** The search on any oracle. `None` stands for the `ValueError` on an empty range. The last
      commit is the given bad end and is never tested; no commit is tested twice. */
  method BisectCI(commits: seq<string>, goodSha: string, oracle: string -> CIResult)
    returns (result: Option<BisectResult>)
    requires NoDuplicates(commits)
    requires forall c | c in commits :: oracle(c).commit == c
    ensures result.None? <==> commits == []
    ensures result.Some? ==>
              && (exists r :: Boundary(commits, oracle, result.value, goodSha, r))
              && result.value.total == |commits|
              && result.value.steps == |result.value.tested| <= CeilLog2(|commits|)
              && (forall t | t in result.value.tested ::
                t.commit in commits && t == oracle(t.commit) && t.commit != commits[|commits| - 1])
              && (forall i, j | 0 <= i < j < |result.value.tested| ::
                result.value.tested[i].commit != result.value.tested[j].commit)
  {
    hide CeilLog2, CIResult.AllPassed, Good;
    if commits == [] {
      return None;
    }
    var tested: seq<CIResult> := [];
    var left, right, steps := 0, |commits| - 1, 0;
    while left < right
      invariant left <= right < |commits|
      invariant right < |commits| - 1 ==> oracle(commits[right]) in tested && !Good(oracle, commits[right])
      invariant left > 0 ==> oracle(commits[left - 1]) in tested && Good(oracle, commits[left - 1])
      invariant steps == |tested| && steps + CeilLog2(right - left + 1) <= CeilLog2(|commits|)
      invariant forall t | t in tested :: t.commit in commits[..|commits| - 1] && t == oracle(t.commit)
      invariant forall t, i | t in tested && left <= i < right :: t.commit != commits[i]
      invariant forall i, j | 0 <= i < j < |tested| :: tested[i].commit != tested[j].commit
    {
      var mid := (left + right) / 2;
      steps := steps + 1;
      var result := oracle(commits[mid]);
      assert result.commit == commits[..|commits| - 1][mid];
      HalvingHelps(left, right);
      tested := tested + [result];
      PassedMeansGood(oracle, commits[mid]);
      if result.AllPassed() {
        left := mid + 1;
      } else {
        right := mid;
      }
    }
    var lastGood := if right == 0 then goodSha else commits[right - 1];
    var found := BisectResult(commits[right], lastGood, tested, |commits|, steps);
    assert Boundary(commits, oracle, found, goodSha, right);
    result := Some(found);
  }

  lemma HalvingHelps(left: nat, right: nat)
    requires left < right
    ensures var mid := (left + right) / 2;
            && left <= mid < right
            && 1 + CeilLog2(right - (mid + 1) + 1) <= CeilLog2(right - left + 1)
            && 1 + CeilLog2(mid - left + 1) <= CeilLog2(right - left + 1)
  {
    var n := right - left + 1;
    var mid := (left + right) / 2;
    CeilLog2Monotone(right - mid, (n + 1) / 2);
    CeilLog2Monotone(mid - left + 1, (n + 1) / 2);
  }

  /** On a monotone oracle whose bad end is bad, the boundary is the least bad commit. */
  lemma MonotoneBoundaryIsFirstBad(commits: seq<string>, oracle: string -> CIResult, result: BisectResult,
      goodSha: string, r: nat)
    requires Monotone(oracle, commits) && Boundary(commits, oracle, result, goodSha, r)
    requires !Good(oracle, commits[|commits| - 1])
    ensures !Good(oracle, commits[r])
    ensures forall i | 0 <= i < r :: Good(oracle, commits[i])
    ensures forall i | r <= i < |commits| :: !Good(oracle, commits[i])
  {
    forall i | 0 <= i < r ensures Good(oracle, commits[i]) {
      assert Good(oracle, commits[r - 1]);
    }
  }
}
