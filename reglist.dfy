/**
  The MOVEM register list (dis68k.cpp:814-873). The 16-bit mask names
  D0..D7 in its low byte and A0..A7 in its high byte (the source never
  reverses it, see dis68k.cpp:801-808). The source copies one byte of the
  mask into the padded array `rlist[11]` (slot k + 1 holds register k) and
  scans it; `Scanned` follows that scan, `Runs` is an independent
  reference that cuts the slots into maximal runs of set registers, and
  `ScanIsRuns` proves that both give the same text. The method
  `BuildRegisterList` runs the source's loops on an array.
*/
module RegisterList {
  import opened Format

  /** `(data >> i) & 1`. */
  function Bit(data: nat, i: nat): (b: nat)
    ensures b < 2
  {
    if i == 0 then data % 2 else Bit(data / 2, i - 1)
  }

  /**
    `rlist` after a fill loop: every slot 0 or 1, and the padding slots 0, 9
    and 10, which let the scan look one slot back and two ahead, clear.
  */
  ghost predicate Filled(rl: seq<int>)
  {
    && |rl| == 11 && rl[0] == 0 && rl[9] == 0 && rl[10] == 0
    && forall j :: 1 <= j <= 8 ==> rl[j] == 0 || rl[j] == 1
  }

  /** The contents of `rlist` after filling it from bits `base..base + 7` of the mask. */
  function Fill(data: nat, base: nat): (rl: seq<int>)
    ensures |rl| == 11 && rl[0] == 0 && rl[9] == 0 && rl[10] == 0
  {
    [0] + seq(8, k requires 0 <= k < 8 => Bit(data, base + k)) + [0, 0]
  }

  lemma FillFilled(data: nat, base: nat)
    ensures Filled(Fill(data, base))
  {
    var rl := Fill(data, base);
    forall j | 1 <= j <= 8 ensures rl[j] == 0 || rl[j] == 1 {
      assert rl[(j - 1) + 1] == Bit(data, base + (j - 1));
    }
  }

  function Reg(x: char, n: nat): string { [x] + Dec(n) }

  /** First test of the scan loop: slot `i` starts a run of three or more. */
  predicate RunStart(rl: seq<int>, i: nat)
    requires |rl| == 11 && 1 <= i <= 8
  {
    rl[i - 1] == 0 && rl[i] == 1 && rl[i + 1] == 1 && rl[i + 2] == 1
  }

  /** Second test: slot `i` is the last register of a run (or a lone register). */
  predicate RunEnd(rl: seq<int>, i: nat)
    requires |rl| == 11 && 1 <= i <= 8
  {
    rl[i] == 1 && rl[i + 1] == 0
  }

  /** Third test: slot `i` starts a run of exactly two. */
  predicate PairStart(rl: seq<int>, i: nat)
    requires |rl| == 11 && 1 <= i <= 8
  {
    rl[i - 1] == 0 && rl[i] == 1 && rl[i + 1] == 1 && rl[i + 2] == 0
  }

  /** What one iteration of a scan loop appends at slot `i`. */
  function Step(rl: seq<int>, i: nat, x: char): string
    requires |rl| == 11 && 1 <= i <= 8
  {
    (if RunStart(rl, i) then Reg(x, i - 1) + "-" else "")
    + (if RunEnd(rl, i) then Reg(x, i - 1) + "," else "")
    + (if PairStart(rl, i) then Reg(x, i - 1) + "," else "")
  }

  /** What the scan loop appends from slot `i` to slot 8. */
  function Scanned(rl: seq<int>, i: nat, x: char): string
    requires |rl| == 11 && 1 <= i <= 9
    decreases 9 - i
  {
    if i == 9 then "" else Step(rl, i, x) + Scanned(rl, i + 1, x)
  }

  /** Register `k` (0..7) is in the list. */
  predicate On(rl: seq<int>, k: nat)
    requires |rl| == 11 && k < 8
  {
    rl[k + 1] == 1
  }

  /** Registers `first..last`, all set, with `first <= last`. */
  datatype Run = Run(first: nat, last: nat)

  /** Number of consecutive set registers from register `k` on. */
  function RunLength(rl: seq<int>, k: nat): (n: nat)
    requires |rl| == 11 && k <= 8
    ensures k + n <= 8
    ensures k + n == 8 || !On(rl, k + n)
    ensures k < 8 && On(rl, k) ==> n >= 1
    decreases 8 - k
  {
    if k == 8 || !On(rl, k) then 0 else 1 + RunLength(rl, k + 1)
  }

  /** Every register the run length counts is set. */
  lemma {:induction false} RunLengthSet(rl: seq<int>, k: nat, j: nat)
    requires |rl| == 11 && k <= 8 && k <= j < k + RunLength(rl, k)
    ensures On(rl, j)
    decreases 8 - k
  {
    if j > k {
      RunLengthSet(rl, k + 1, j);
    }
  }

  /** The maximal runs of set registers from register `k` on, in ascending order. */
  function Runs(rl: seq<int>, k: nat): (rs: seq<Run>)
    requires |rl| == 11 && k <= 8
    ensures forall i :: 0 <= i < |rs| ==> k <= rs[i].first <= rs[i].last < 8
    decreases 8 - k
  {
    if k == 8 then []
    else if !On(rl, k) then Runs(rl, k + 1)
    else
      var n := RunLength(rl, k);
      [Run(k, k + n - 1)] + Runs(rl, k + n)
  }

  /** A run of three or more as `Xa-Xb,`, shorter runs register by register. */
  function RunText(x: char, r: Run): string
  {
    if r.last >= r.first + 2 then (Reg(x, r.first) + "-") + (Reg(x, r.last) + ",")
    else if r.last == r.first + 1 then (Reg(x, r.first) + ",") + (Reg(x, r.last) + ",")
    else Reg(x, r.first) + ","
  }

  function Text(x: char, rs: seq<Run>): string
  {
    if rs == [] then "" else RunText(x, rs[0]) + Text(x, rs[1..])
  }

  /** The list text the MOVEM case builds from the mask `data`: D bank, then A bank. */
  function RegisterListText(data: nat): string
  {
    Text('D', Runs(Fill(data, 0), 0)) + Text('A', Runs(Fill(data, 8), 0))
  }

  lemma Assoc(a: string, b: string, c: string)
    ensures (a + b) + c == a + (b + c)
  {
  }

  /** A clear slot contributes nothing to the scan. */
  lemma ClearStep(rl: seq<int>, k: nat, x: char)
    requires Filled(rl) && k < 8 && !On(rl, k)
    ensures Scanned(rl, k + 1, x) == Scanned(rl, k + 2, x)
  {
    SilentStep(rl, k + 1, x);
  }

  /** A slot that is clear, or strictly inside a run, contributes nothing to the scan. */
  lemma SilentStep(rl: seq<int>, i: nat, x: char)
    requires |rl| == 11 && 1 <= i <= 8
    requires rl[i] != 1 || (rl[i - 1] == 1 && rl[i + 1] == 1)
    ensures Scanned(rl, i, x) == Scanned(rl, i + 1, x)
  {
    assert Step(rl, i, x) == "";
    assert "" + Scanned(rl, i + 1, x) == Scanned(rl, i + 1, x);
  }

  /** The iteration at a lone register, or at the last register of a run, names it with a comma. */
  lemma StepAtEnd(rl: seq<int>, i: nat, x: char)
    requires |rl| == 11 && 1 <= i <= 8 && rl[i] == 1 && rl[i + 1] == 0
    ensures Step(rl, i, x) == Reg(x, i - 1) + ","
  {
  }

  /** The iteration at the first register of a run of exactly two names it with a comma. */
  lemma StepAtPair(rl: seq<int>, i: nat, x: char)
    requires |rl| == 11 && 1 <= i <= 8 && rl[i - 1] == 0 && rl[i] == 1 && rl[i + 1] == 1 && rl[i + 2] == 0
    ensures Step(rl, i, x) == Reg(x, i - 1) + ","
  {
  }

  /** The iteration at the first register of a run of three or more opens a range. */
  lemma StepAtRange(rl: seq<int>, i: nat, x: char)
    requires |rl| == 11 && 1 <= i <= 8 && rl[i - 1] == 0 && rl[i] == 1 && rl[i + 1] == 1 && rl[i + 2] == 1
    ensures Step(rl, i, x) == Reg(x, i - 1) + "-"
  {
  }

  /** A lone register: its iteration names it with a comma. */
  lemma ScanLone(rl: seq<int>, i: nat, x: char)
    requires |rl| == 11 && 1 <= i <= 8 && rl[i] == 1 && rl[i + 1] == 0
    ensures Scanned(rl, i, x) == (Reg(x, i - 1) + ",") + Scanned(rl, i + 1, x)
  {
    StepAtEnd(rl, i, x);
  }

  /** A run of two: both iterations name their register with a comma. */
  lemma ScanPair(rl: seq<int>, i: nat, x: char)
    requires |rl| == 11 && 1 <= i <= 7 && rl[i - 1] == 0 && rl[i] == 1 && rl[i + 1] == 1 && rl[i + 2] == 0
    ensures Scanned(rl, i, x) == ((Reg(x, i - 1) + ",") + (Reg(x, i) + ",")) + Scanned(rl, i + 2, x)
  {
    StepAtPair(rl, i, x);
    ScanLone(rl, i + 1, x);
    Assoc(Reg(x, i - 1) + ",", Reg(x, i) + ",", Scanned(rl, i + 2, x));
  }

  /** A run of three or more from slot `i` to slot `j`: a range from its first to its last register. */
  lemma ScanRange(rl: seq<int>, i: nat, j: nat, x: char)
    requires |rl| == 11 && 1 <= i && i + 2 <= j <= 8 && rl[i - 1] == 0 && rl[j + 1] == 0
    requires forall m :: i <= m <= j ==> rl[m] == 1
    ensures Scanned(rl, i, x) == ((Reg(x, i - 1) + "-") + (Reg(x, j - 1) + ",")) + Scanned(rl, j + 1, x)
  {
    StepAtRange(rl, i, x);
    RangeInterior(rl, i, j, i + 1, x);
    ScanLone(rl, j, x);
    Assoc(Reg(x, i - 1) + "-", Reg(x, j - 1) + ",", Scanned(rl, j + 1, x));
  }

  /** Inside such a run, the slots strictly between its ends append nothing. */
  lemma {:induction false} RangeInterior(rl: seq<int>, i: nat, j: nat, m: nat, x: char)
    requires |rl| == 11 && 1 <= i && i + 2 <= j <= 8
    requires forall p :: i <= p <= j ==> rl[p] == 1
    requires i + 1 <= m <= j
    ensures Scanned(rl, m, x) == Scanned(rl, j, x)
    decreases j - m
  {
    if m < j {
      assert rl[m - 1] == 1 && rl[m] == 1 && rl[m + 1] == 1;
      SilentStep(rl, m, x);
      RangeInterior(rl, i, j, m + 1, x);
    }
  }

  /** The registers of the run from `k` occupy the slots after slot `k`. */
  lemma RunSlots(rl: seq<int>, k: nat)
    requires |rl| == 11 && k <= 8
    ensures forall m :: k + 1 <= m <= k + RunLength(rl, k) ==> rl[m] == 1
  {
    forall m | k + 1 <= m <= k + RunLength(rl, k) ensures rl[m] == 1 {
      RunLengthSet(rl, k, m - 1);
    }
  }

  /**
    The scan over a maximal run of `n` registers from register `k` (a clear
    slot on each side) appends that run's text.
  */
  lemma RunScan(rl: seq<int>, k: nat, n: nat, x: char)
    requires |rl| == 11 && 1 <= n && k + n <= 8 && rl[k] == 0 && rl[k + n + 1] == 0
    requires forall m :: k + 1 <= m <= k + n ==> rl[m] == 1
    ensures Scanned(rl, k + 1, x) == RunText(x, Run(k, k + n - 1)) + Scanned(rl, k + n + 1, x)
  {
    var r := Run(k, k + n - 1);
    if n == 1 {
      assert rl[k + 1] == 1;
      ScanLone(rl, k + 1, x);
      assert RunText(x, r) == Reg(x, k) + ",";
    } else if n == 2 {
      assert rl[k + 1] == 1 && rl[k + 2] == 1;
      ScanPair(rl, k + 1, x);
      assert RunText(x, r) == (Reg(x, k) + ",") + (Reg(x, k + 1) + ",");
    } else {
      ScanRange(rl, k + 1, k + n, x);
      assert RunText(x, r) == (Reg(x, k) + "-") + (Reg(x, k + n - 1) + ",");
    }
  }

  /** At a set register the runs start with the run through it. */
  lemma RunsAt(rl: seq<int>, k: nat)
    requires |rl| == 11 && k < 8 && On(rl, k)
    ensures var n := RunLength(rl, k);
      Runs(rl, k) == [Run(k, k + n - 1)] + Runs(rl, k + n)
  {
  }

  lemma TextCons(x: char, r: Run, rs: seq<Run>)
    ensures Text(x, [r] + rs) == RunText(x, r) + Text(x, rs)
  {
    assert ([r] + rs)[1..] == rs;
  }

  /**
    The source's scan loop and the run reference agree: from any register
    whose left neighbour is clear, the loop appends the text of the
    remaining maximal runs.
  */
  lemma {:induction false} ScanIsRuns(rl: seq<int>, k: nat, x: char)
    requires Filled(rl) && k <= 8 && rl[k] == 0
    ensures Scanned(rl, k + 1, x) == Text(x, Runs(rl, k))
    decreases 8 - k, 1
  {
    if k < 8 {
      if !On(rl, k) {
        ClearStep(rl, k, x);
        ScanIsRuns(rl, k + 1, x);
      } else {
        ScanRunFirst(rl, k, x);
      }
    }
  }

  /** The case of `ScanIsRuns` where register `k` is set. */
  lemma {:induction false} ScanRunFirst(rl: seq<int>, k: nat, x: char)
    requires Filled(rl) && k < 8 && rl[k] == 0 && On(rl, k)
    ensures Scanned(rl, k + 1, x) == Text(x, Runs(rl, k))
    decreases 8 - k, 0
  {
    var n := RunLength(rl, k);
    RunScanAt(rl, k, x);
    RunsTextAt(rl, k, x);
    if k + n < 8 {
      ScanAfterRun(rl, k + n, x);
    }
  }

  /** The scan over the run from a set register `k`, up to the clear register after it. */
  lemma RunScanAt(rl: seq<int>, k: nat, x: char)
    requires Filled(rl) && k < 8 && rl[k] == 0 && On(rl, k)
    ensures var n := RunLength(rl, k);
      Scanned(rl, k + 1, x) == RunText(x, Run(k, k + n - 1)) + Scanned(rl, k + n + 1, x)
  {
    RunSlots(rl, k);
    RunScan(rl, k, RunLength(rl, k), x);
  }

  /** The text of the runs from a set register `k`: its run, then the rest. */
  lemma RunsTextAt(rl: seq<int>, k: nat, x: char)
    requires |rl| == 11 && k < 8 && On(rl, k)
    ensures var n := RunLength(rl, k);
      Text(x, Runs(rl, k)) == RunText(x, Run(k, k + n - 1)) + Text(x, Runs(rl, k + n))
  {
    var n := RunLength(rl, k);
    RunsAt(rl, k);
    TextCons(x, Run(k, k + n - 1), Runs(rl, k + n));
  }

  /** The scan resumes after the clear register `m` that ends a run. */
  lemma {:induction false} ScanAfterRun(rl: seq<int>, m: nat, x: char)
    requires Filled(rl) && m < 8 && !On(rl, m)
    ensures Scanned(rl, m + 1, x) == Text(x, Runs(rl, m))
    decreases 8 - m, 2
  {
    ClearStep(rl, m, x);
    RunsSkip(rl, m);
    ScanIsRuns(rl, m + 1, x);
  }

  /** A whole scan of a filled `rlist` is the text of its maximal runs. */
  lemma ScanText(rl: seq<int>, x: char)
    requires Filled(rl)
    ensures Scanned(rl, 1, x) == Text(x, Runs(rl, 0))
  {
    ScanIsRuns(rl, 0, x);
  }

  /** Register `j` lies in one of the runs `rs`. */
  predicate Covered(rs: seq<Run>, j: nat)
  {
    exists i :: 0 <= i < |rs| && rs[i].first <= j <= rs[i].last
  }

  /** A register is covered by a run list exactly when it is in its head run or its tail. */
  lemma CoveredCons(r: Run, rs: seq<Run>, j: nat)
    ensures Covered([r] + rs, j) <==> r.first <= j <= r.last || Covered(rs, j)
  {
    var all := [r] + rs;
    if Covered(rs, j) {
      var i :| 0 <= i < |rs| && rs[i].first <= j <= rs[i].last;
      assert all[i + 1] == rs[i];
    }
    if Covered(all, j) && !(r.first <= j <= r.last) {
      var i :| 0 <= i < |all| && all[i].first <= j <= all[i].last;
      assert all[i] == rs[i - 1];
    }
  }

  /** A register is in one of the runs exactly when its slot is set. */
  lemma {:induction false} RunsCover(rl: seq<int>, k: nat, j: nat)
    requires |rl| == 11 && k <= j < 8
    ensures On(rl, j) <==> Covered(Runs(rl, k), j)
    decreases 8 - k
  {
    if !On(rl, k) {
      RunsSkip(rl, k);
      if j > k {
        RunsCover(rl, k + 1, j);
      } else {
        assert !Covered(Runs(rl, k + 1), j);
      }
    } else {
      var n := RunLength(rl, k);
      RunsAt(rl, k);
      CoveredCons(Run(k, k + n - 1), Runs(rl, k + n), j);
      if j < k + n {
        RunLengthSet(rl, k, j);
      } else {
        RunsCover(rl, k + n, j);
      }
    }
  }

  /** Without register `k` the runs from `k` are those from `k + 1`. */
  lemma RunsSkip(rl: seq<int>, k: nat)
    requires |rl| == 11 && k < 8 && !On(rl, k)
    ensures Runs(rl, k) == Runs(rl, k + 1)
  {
  }

  /**
    Run `i` is maximal: it starts at a set register after a clear one (or
    at `k`) and ends before a clear register or the end of the bank.
  */
  lemma {:induction false} RunMaximal(rl: seq<int>, k: nat, i: nat)
    requires |rl| == 11 && k <= 8 && i < |Runs(rl, k)|
    ensures On(rl, Runs(rl, k)[i].first)
    ensures Runs(rl, k)[i].first == k || !On(rl, Runs(rl, k)[i].first - 1)
    ensures Runs(rl, k)[i].last == 7 || !On(rl, Runs(rl, k)[i].last + 1)
    decreases 8 - k
  {
    if !On(rl, k) {
      RunsSkip(rl, k);
      RunMaximal(rl, k + 1, i);
    } else {
      var n := RunLength(rl, k);
      var rest := Runs(rl, k + n);
      RunsAt(rl, k);
      if i == 0 {
        assert Runs(rl, k)[0] == Run(k, k + n - 1);
      } else {
        var r := rest[i - 1];
        assert Runs(rl, k)[i] == r;
        assert k + n <= r.first < 8;
        RunMaximal(rl, k + n, i - 1);
        assert r.first != k + n;
      }
    }
  }

  /** The runs are in ascending order with a clear register between neighbours. */
  lemma {:induction false} RunsSeparated(rl: seq<int>, k: nat, i: nat)
    requires |rl| == 11 && k <= 8 && 0 < i < |Runs(rl, k)|
    ensures Runs(rl, k)[i - 1].last + 1 < Runs(rl, k)[i].first
    decreases 8 - k
  {
    if !On(rl, k) {
      RunsSkip(rl, k);
      RunsSeparated(rl, k + 1, i);
    } else if i == 1 {
      FirstGap(rl, k);
    } else {
      var n := RunLength(rl, k);
      RunsAt(rl, k);
      RunsSeparated(rl, k + n, i - 1);
      ConsIndex(Run(k, k + n - 1), Runs(rl, k + n), i);
    }
  }

  /** The register after the first run is clear, so the second run starts past it. */
  lemma FirstGap(rl: seq<int>, k: nat)
    requires |rl| == 11 && k < 8 && On(rl, k) && 1 < |Runs(rl, k)|
    ensures Runs(rl, k)[0].last + 1 < Runs(rl, k)[1].first
  {
    var n := RunLength(rl, k);
    RunsAt(rl, k);
    var rest := Runs(rl, k + n);
    assert Runs(rl, k)[1] == rest[0];
    RunMaximal(rl, k + n, 0);
  }

  /** Indexing past the head of a cons. */
  lemma ConsIndex(r: Run, rs: seq<Run>, i: nat)
    requires 1 < i <= |rs|
    ensures ([r] + rs)[i - 1] == rs[i - 2] && ([r] + rs)[i] == rs[i - 1]
  {
  }

  /** The text of a list of runs: empty only for no runs, and ending with a comma. */
  lemma {:induction false} TextShape(x: char, rs: seq<Run>)
    ensures Text(x, rs) == [] <==> rs == []
    ensures rs != [] ==> Text(x, rs)[0] == x && Text(x, rs)[|Text(x, rs)| - 1] == ','
    decreases |rs|
  {
    if rs != [] {
      TextShape(x, rs[1..]);
      var head := RunText(x, rs[0]);
      assert |head| >= 3 && head[0] == x && head[|head| - 1] == ',';
    }
  }

  function Pow2(n: nat): (p: nat)
    ensures p >= 1
  {
    if n == 0 then 1 else 2 * Pow2(n - 1)
  }

  lemma Pow2Sixteen()
    ensures Pow2(16) == 0x1_0000
  {
    assert Pow2(4) == 0x10;
    assert Pow2(8) == 0x100;
    assert Pow2(12) == 0x1000;
  }

  /** The position of the lowest set bit of a non-zero value. */
  function LowestSet(data: nat): (k: nat)
    requires data > 0
    ensures Bit(data, k) == 1
    decreases data
  {
    if data % 2 == 1 then 0 else 1 + LowestSet(data / 2)
  }

  /** A non-zero value below 2^n has a set bit below position n. */
  lemma {:induction false} LowestSetBelow(data: nat, n: nat)
    requires 0 < data < Pow2(n)
    ensures LowestSet(data) < n
    decreases n
  {
    if data % 2 == 0 {
      LowestSetBelow(data / 2, n - 1);
    }
  }

  /** In a 16-bit mask the lowest set bit is one of the sixteen registers. */
  lemma LowestSetWord(data: nat)
    requires 0 < data < 0x1_0000
    ensures LowestSet(data) < 16
  {
    Pow2Sixteen();
    LowestSetBelow(data, 16);
  }

  lemma {:induction false} ZeroBit(k: nat)
    ensures Bit(0, k) == 0
  {
    if k > 0 {
      ZeroBit(k - 1);
    }
  }

  lemma {:induction false} NoRuns(rl: seq<int>, k: nat)
    requires |rl| == 11 && k <= 8
    requires forall j :: k <= j < 8 ==> !On(rl, j)
    ensures Runs(rl, k) == []
    decreases 8 - k
  {
    if k < 8 {
      NoRuns(rl, k + 1);
    }
  }

  /** Slot `k + 1` of a bank holds bit `base + k` of the mask. */
  lemma FillOn(data: nat, base: nat, k: nat)
    requires k < 8
    ensures On(Fill(data, base), k) <==> Bit(data, base + k) == 1
  {
    assert Fill(data, base)[k + 1] == Bit(data, base + k);
  }

  /** Register `j` of the bank at `base` is named in the list exactly when its bit is set. */
  lemma BankCover(data: nat, base: nat, j: nat)
    requires j < 8
    ensures Bit(data, base + j) == 1 <==> Covered(Runs(Fill(data, base), 0), j)
  {
    FillOn(data, base, j);
    RunsCover(Fill(data, base), 0, j);
  }

  /** The zero mask names no register of either bank. */
  lemma ZeroBank(base: nat)
    ensures Runs(Fill(0, base), 0) == []
  {
    var rl := Fill(0, base);
    forall j | 0 <= j < 8 ensures !On(rl, j) {
      FillOn(0, base, j);
      ZeroBit(base + j);
    }
    NoRuns(rl, 0);
  }

  /** A set register `j` at or after `k` gives a run from `k` on. */
  lemma {:induction false} RunsNonEmpty(rl: seq<int>, k: nat, j: nat)
    requires |rl| == 11 && k <= j < 8 && On(rl, j)
    ensures Runs(rl, k) != []
    decreases 8 - k
  {
    if !On(rl, k) {
      RunsSkip(rl, k);
      RunsNonEmpty(rl, k + 1, j);
    }
  }

  /** A bank with a set bit has a run. */
  lemma BankSet(data: nat, base: nat, k: nat)
    requires base <= k < base + 8 && Bit(data, k) == 1
    ensures Runs(Fill(data, base), 0) != []
  {
    var j := k - base;
    assert Bit(data, base + j) == 1;
    FillOn(data, base, j);
    RunsNonEmpty(Fill(data, base), 0, j);
  }

  /** A non-zero mask names a register in one of the banks. */
  lemma SomeBankSet(data: nat)
    requires 0 < data < 0x1_0000
    ensures Runs(Fill(data, 0), 0) != [] || Runs(Fill(data, 8), 0) != []
  {
    var k := LowestSet(data);
    LowestSetWord(data);
    if k < 8 {
      BankSet(data, 0, k);
    } else {
      BankSet(data, 8, k);
    }
  }

  /**
    Joining two bank texts: empty only when both are, and a non-empty join
    starts with the first letter of the non-empty part and ends with a comma.
  */
  lemma JoinShape(d: string, a: string)
    requires d != [] ==> d[0] == 'D' && d[|d| - 1] == ','
    requires a != [] ==> a[0] == 'A' && a[|a| - 1] == ','
    ensures d + a == [] <==> d == [] && a == []
    ensures d + a != [] ==> (d + a)[0] in "DA" && (d + a)[|d + a| - 1] == ','
  {
    if d == [] {
      assert d + a == a;
    } else if a != [] {
      assert (d + a)[|d + a| - 1] == a[|a| - 1];
    }
  }

  /** The list is empty exactly for the empty mask. */
  lemma ListEmpty(data: nat)
    requires data < 0x1_0000
    ensures RegisterListText(data) == [] <==> data == 0
  {
    var rd, ra := Runs(Fill(data, 0), 0), Runs(Fill(data, 8), 0);
    TextShape('D', rd);
    TextShape('A', ra);
    if data == 0 {
      ZeroBank(0);
      ZeroBank(8);
    } else {
      SomeBankSet(data);
    }
  }

  /**
    A non-empty list starts with a register letter and ends with the comma
    that MOVEM's `dir == 1` branch overwrites.
  */
  lemma ListShape(data: nat)
    ensures var s := RegisterListText(data);
      s != [] ==> s[0] in "DA" && s[|s| - 1] == ','
  {
    var rd, ra := Runs(Fill(data, 0), 0), Runs(Fill(data, 8), 0);
    TextShape('D', rd);
    TextShape('A', ra);
    JoinShape(Text('D', rd), Text('A', ra));
  }

  /**
    A fill loop of the MOVEM case: slots 1..8 get the bits `base..base + 7`
    of the mask, then the padding slots are cleared.
  */
  method FillSlots(rlist: array<int>, data: nat, base: nat)
    requires rlist.Length == 11
    modifies rlist
    ensures rlist[..] == Fill(data, base)
  {
    for i := 0 to 8
      invariant forall k :: 1 <= k <= i ==> rlist[k] == Bit(data, base + k - 1)
    {
      rlist[i + 1] := Bit(data, base + i);
    }
    rlist[0] := 0;
    rlist[9] := 0;
    rlist[10] := 0;
    ghost var rl := Fill(data, base);
    assert forall k :: 1 <= k <= 8 ==> rl[k] == Bit(data, base + k - 1) by {
      forall k | 1 <= k <= 8 ensures rl[k] == Bit(data, base + k - 1) {
        assert rl[(k - 1) + 1] == Bit(data, base + (k - 1));
      }
    }
    assert rlist[..] == rl;
  }

  /** A scan loop of the MOVEM case over the filled `rlist`, appending with `strcat`. */
  method ScanSlots(rlist: array<int>, x: char) returns (s: string)
    requires rlist.Length == 11
    ensures s == Scanned(rlist[..], 1, x)
  {
    s := "";
    for i := 1 to 9
      invariant s + Scanned(rlist[..], i, x) == Scanned(rlist[..], 1, x)
    {
      ghost var rl, t := rlist[..], s;
      if RunStart(rlist[..], i) {
        s := s + (Reg(x, i - 1) + "-");
      }
      ghost var t1 := s;
      if RunEnd(rlist[..], i) {
        s := s + (Reg(x, i - 1) + ",");
      }
      ghost var t2 := s;
      if PairStart(rlist[..], i) {
        s := s + (Reg(x, i - 1) + ",");
      }
      StepParts(rl, i, x, t, t1, t2, s);
      ScanAdvance(rl, i, x, t, s);
    }
  }

  /** The three tests of one iteration append `Step`. */
  lemma StepParts(rl: seq<int>, i: nat, x: char, t: string, t1: string, t2: string, s: string)
    requires |rl| == 11 && 1 <= i <= 8
    requires t1 == t + (if RunStart(rl, i) then Reg(x, i - 1) + "-" else "")
    requires t2 == t1 + (if RunEnd(rl, i) then Reg(x, i - 1) + "," else "")
    requires s == t2 + (if PairStart(rl, i) then Reg(x, i - 1) + "," else "")
    ensures s == t + Step(rl, i, x)
  {
    var a1 := if RunStart(rl, i) then Reg(x, i - 1) + "-" else "";
    var a2 := if RunEnd(rl, i) then Reg(x, i - 1) + "," else "";
    var a3 := if PairStart(rl, i) then Reg(x, i - 1) + "," else "";
    Assoc(t, a1, a2);
    Assoc(t, a1 + a2, a3);
  }

  /** One iteration of the scan loop keeps its invariant. */
  lemma ScanAdvance(rl: seq<int>, i: nat, x: char, t: string, s: string)
    requires |rl| == 11 && 1 <= i <= 8
    requires s == t + Step(rl, i, x) && t + Scanned(rl, i, x) == Scanned(rl, 1, x)
    ensures s + Scanned(rl, i + 1, x) == Scanned(rl, 1, x)
  {
    Assoc(t, Step(rl, i, x), Scanned(rl, i + 1, x));
  }

  /**
    The list text as dis68k.cpp builds it: fill `rlist` from the low byte and
    scan it for the D registers, refill it from the high byte and scan it for
    the A registers.
  */
  method BuildRegisterList(data: nat) returns (s: string)
    ensures s == RegisterListText(data)
  {
    var rlist := new int[11];
    FillSlots(rlist, data, 0);
    var dlist := ScanSlots(rlist, 'D');
    FillFilled(data, 0);
    ScanText(rlist[..], 'D');
    FillSlots(rlist, data, 8);
    var alist := ScanSlots(rlist, 'A');
    FillFilled(data, 8);
    ScanText(rlist[..], 'A');
    s := dlist + alist;
  }
}
