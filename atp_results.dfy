// Reading the ATP simulator's results: the listing filter of
// extrairResultados, the column renaming of lerResultados and the sampling
// of amostrarMedidor. Files are sequences of lines; a data frame is its list
// of column names or its Step column.

module AtpResults {
  import opened Text

  const OutputMarker := "EMTP output variables follow."
  const Suspended := "Suspended simulation"
  const FinalStep := "Final time step"

  // ---------------------------------------------------------------------
  // extrairResultados

  /** What one line does to a pass: the lines it writes, whether it ends the
      pass, and the pass's state after it. */
  datatype Step = Step(written: seq<string>, stop: bool, searching: bool, count: nat)

  /** What one pass over the listing writes, and the index of the first line
      it leaves for the next pass. */
  datatype Scan = Scan(out: seq<string>, next: nat)

  predicate IsHeader(line: string)
  {
    Contains(line, "Step") && Contains(line, "Time")
  }

  /** One line of the first pass: the output marker ends the search; after
      it, a header is written collapsed, 7 further lines go by, then a
      suspension or the final step ends the pass, a "switch" line is passed
      over and any other line is written as a data line. */
  function FirstStep(line: string, searching: bool, n: nat): Step
  {
    if searching && Contains(line, OutputMarker) then Step([], false, false, n)
    else if !searching then
      if IsHeader(line) then Step([Collapse(line)], false, false, n)
      else if n > 6 then
        if Contains(line, Suspended) || Contains(line, FinalStep) then Step([], true, false, n)
        else if Contains(line, "switch") then Step([], false, false, n)
        else Step([DataLine(line)], false, false, n)
      else Step([], false, false, n + 1)
    else Step([], false, true, n)
  }

  /** One line of the second pass: a suspension restarts the count, so the
      next 7 lines go by, and the final step ends the pass. */
  function SecondStep(line: string, n: nat): Step
  {
    if n > 6 then
      if Contains(line, Suspended) then Step([], false, false, 0)
      else if Contains(line, FinalStep) then Step([], true, false, n)
      else if Contains(line, "switch") then Step([], false, false, n)
      else Step([DataLine(line)], false, false, n)
    else Step([], false, false, n + 1)
  }

  /** The first pass from line i. */
  function FirstPass(lines: seq<string>, i: nat, searching: bool, n: nat): (r: Scan)
    requires i <= |lines|
    ensures i <= r.next <= |lines|
    decreases |lines| - i
  {
    if i == |lines| then Scan([], i)
    else
      var step := FirstStep(lines[i], searching, n);
      if step.stop then Scan([], i + 1)
      else
        var r := FirstPass(lines, i + 1, step.searching, step.count);
        Scan(step.written + r.out, r.next)
  }

  /** The second pass from line i. */
  function SecondPass(lines: seq<string>, i: nat, n: nat): (r: Scan)
    requires i <= |lines|
    ensures i <= r.next <= |lines|
    decreases |lines| - i
  {
    if i == |lines| then Scan([], i)
    else
      var step := SecondStep(lines[i], n);
      if step.stop then Scan([], i + 1)
      else
        var r := SecondPass(lines, i + 1, step.count);
        Scan(step.written + r.out, r.next)
  }

  /** The third pass writes the line after the next one, if there is one. */
  function ThirdPass(lines: seq<string>, i: nat): seq<string>
    requires i <= |lines|
  {
    if i + 1 < |lines| then [DataLine(lines[i + 1])] else []
  }

  /** The lines extrairResultados writes for a listing. */
  function Extracted(lines: seq<string>): seq<string>
  {
    var first := FirstPass(lines, 0, true, 0);
    var second := SecondPass(lines, first.next, 0);
    first.out + second.out + ThirdPass(lines, second.next)
  }

  /** extrairResultados: three passes over one shared line iterator. */
  method ExtractResults(lines: seq<string>) returns (out: seq<string>)
    ensures out == Extracted(lines)
  {
    var first, pos := ReadFirstPass(lines);
    var second, pos' := ReadSecondPass(lines, pos);
    var last := ReadThirdPass(lines, pos');
    out := first + second + last;
  }

  /** The first loop of extrairResultados; pos is where the iterator stops. */
  method ReadFirstPass(lines: seq<string>) returns (out: seq<string>, pos: nat)
    ensures Scan(out, pos) == FirstPass(lines, 0, true, 0)
  {
    pos := 0;
    var searching := true;
    var n := 0;
    out := [];
    while pos < |lines|
      invariant pos <= |lines|
      invariant out + FirstPass(lines, pos, searching, n).out == FirstPass(lines, 0, true, 0).out
      invariant FirstPass(lines, pos, searching, n).next == FirstPass(lines, 0, true, 0).next
    {
      var step := FirstStep(lines[pos], searching, n);
      pos := pos + 1;
      if step.stop {
        break;
      }
      Associative(out, step.written, FirstPass(lines, pos, step.searching, step.count).out);
      out := out + step.written;
      searching, n := step.searching, step.count;
    }
  }

  /** The second loop of extrairResultados, from where the first stopped. */
  method ReadSecondPass(lines: seq<string>, start: nat) returns (out: seq<string>, pos: nat)
    requires start <= |lines|
    ensures Scan(out, pos) == SecondPass(lines, start, 0)
  {
    pos := start;
    var n := 0;
    out := [];
    while pos < |lines|
      invariant start <= pos <= |lines|
      invariant out + SecondPass(lines, pos, n).out == SecondPass(lines, start, 0).out
      invariant SecondPass(lines, pos, n).next == SecondPass(lines, start, 0).next
    {
      var step := SecondStep(lines[pos], n);
      pos := pos + 1;
      if step.stop {
        break;
      }
      Associative(out, step.written, SecondPass(lines, pos, step.count).out);
      out := out + step.written;
      n := step.count;
    }
  }

  /** The third loop of extrairResultados: one line is passed over, the next
      one written. */
  method ReadThirdPass(lines: seq<string>, start: nat) returns (out: seq<string>)
    requires start <= |lines|
    ensures out == ThirdPass(lines, start)
  {
    var pos := start;
    var n := 0;
    out := [];
    while pos < |lines|
      invariant pos <= |lines| && n <= 1
      invariant pos == start + n && out == []
    {
      var line := lines[pos];
      pos := pos + 1;
      if n > 0 {
        out := out + [DataLine(line)];
        break;
      } else {
        n := n + 1;
      }
    }
  }

  // ---- properties of the filter

  /** Lines read while still searching for the marker are passed over. */
  lemma {:induction false} SearchSkips(lines: seq<string>, i: nat, k: nat)
    requires i <= k <= |lines|
    requires forall j :: i <= j < k ==> !Contains(lines[j], OutputMarker)
    ensures FirstPass(lines, i, true, 0) == FirstPass(lines, k, true, 0)
    decreases k - i
  {
    if i < k {
      SearchSkips(lines, i + 1, k);
    }
  }

  /** Output starts after the first line holding the marker: what comes
      before it is never written. */
  lemma MarkerStartsOutput(lines: seq<string>, k: nat)
    requires k < |lines| && Contains(lines[k], OutputMarker)
    requires forall j :: 0 <= j < k ==> !Contains(lines[j], OutputMarker)
    ensures FirstPass(lines, 0, true, 0) == FirstPass(lines, k + 1, false, 0)
  {
    SearchSkips(lines, 0, k);
  }

  /** A listing without the output marker yields nothing. */
  lemma NoMarkerNoOutput(lines: seq<string>)
    requires forall j :: 0 <= j < |lines| ==> !Contains(lines[j], OutputMarker)
    ensures Extracted(lines) == []
  {
    SearchSkips(lines, 0, |lines|);
  }

  /** How a line of the first two passes comes to be written: as the
      collapsed header, or as the data line of a line that neither contains
      "switch" nor stops the pass. */
  predicate WrittenFrom(line: string, o: string, headers: bool)
  {
    || (headers && IsHeader(line) && o == Collapse(line))
    || (!Contains(line, "switch") && !Contains(line, Suspended) && !Contains(line, FinalStep) && o == DataLine(line))
  }

  /** Every line the first pass writes comes from a line of the listing, as
      a collapsed header or as a data line. */
  lemma {:induction false} FirstPassWrites(lines: seq<string>, i: nat, searching: bool, n: nat)
    requires i <= |lines|
    ensures forall o :: o in FirstPass(lines, i, searching, n).out ==>
              exists j :: i <= j < |lines| && WrittenFrom(lines[j], o, true)
    decreases |lines| - i
  {
    if i < |lines| {
      var step := FirstStep(lines[i], searching, n);
      if !step.stop {
        FirstPassWrites(lines, i + 1, step.searching, step.count);
        assert forall o :: o in step.written ==> WrittenFrom(lines[i], o, true);
      }
    }
  }

  /** Every line the second pass writes is the data line of a line that
      neither contains "switch" nor stops the pass; no header is written. */
  lemma {:induction false} SecondPassWrites(lines: seq<string>, i: nat, n: nat)
    requires i <= |lines|
    ensures forall o :: o in SecondPass(lines, i, n).out ==>
              exists j :: i <= j < |lines| && WrittenFrom(lines[j], o, false)
    decreases |lines| - i
  {
    if i < |lines| {
      var step := SecondStep(lines[i], n);
      if !step.stop {
        SecondPassWrites(lines, i + 1, step.count);
        assert forall o :: o in step.written ==> WrittenFrom(lines[i], o, false);
      }
    }
  }

  /** While the count is still below 7, the second pass writes nothing. */
  lemma {:induction false} SecondPassCounts(lines: seq<string>, i: nat, n: nat)
    requires i <= |lines| && n <= 7
    ensures SecondPass(lines, i, n)
         == if i + 7 - n <= |lines| then SecondPass(lines, i + 7 - n, 7) else Scan([], |lines|)
    decreases 7 - n
  {
    if n < 7 && i < |lines| {
      SecondPassCounts(lines, i + 1, n + 1);
    }
  }

  /** After a suspension the next 7 lines are passed over, whatever they hold. */
  lemma SuspensionSkipsSeven(lines: seq<string>, i: nat, n: nat)
    requires i < |lines| && n > 6 && Contains(lines[i], Suspended)
    ensures SecondPass(lines, i, n)
         == if i + 8 <= |lines| then SecondPass(lines, i + 8, 7) else Scan([], |lines|)
  {
    SecondPassCounts(lines, i + 1, 0);
  }

  /** The final step ends the second pass once the count is full. */
  lemma FinalStepEnds(lines: seq<string>, i: nat, n: nat)
    requires i < |lines| && n > 6 && Contains(lines[i], FinalStep) && !Contains(lines[i], Suspended)
    ensures SecondPass(lines, i, n) == Scan([], i + 1)
  {
  }

  /** A line that ends the first pass once its count is full: a suspension or
      the final step, unless the line is a header. */
  predicate EndsFirstPass(line: string)
  {
    !IsHeader(line) && (Contains(line, Suspended) || Contains(line, FinalStep))
  }

  /** Past the marker and with the count full, the first pass leaves the
      second one the line after the first line that ends it. */
  lemma {:induction false} FirstPassEnds(lines: seq<string>, i: nat, k: nat, n: nat)
    requires i <= k < |lines| && n > 6
    requires forall j :: i <= j < k ==> !EndsFirstPass(lines[j])
    requires EndsFirstPass(lines[k])
    ensures FirstPass(lines, i, false, n).next == k + 1
    decreases k - i
  {
    if i < k {
      FirstPassEnds(lines, i + 1, k, n);
    }
  }

  /** What a line that neither ends nor restarts a pass with a full count
      writes: the collapsed header (when headers are recognised), nothing
      for a "switch" line, and the data line otherwise. */
  function KeptLine(line: string, headers: bool): seq<string>
  {
    if headers && IsHeader(line) then [Collapse(line)]
    else if Contains(line, "switch") then []
    else [DataLine(line)]
  }

  /** The lines written for lines i up to k, in order. */
  function Kept(lines: seq<string>, i: nat, k: nat, headers: bool): seq<string>
    requires i <= k <= |lines|
    decreases k - i
  {
    if i == k then [] else KeptLine(lines[i], headers) + Kept(lines, i + 1, k, headers)
  }

  /** With the count full, a line that does not end the first pass writes
      its kept lines and the pass goes on. */
  lemma FirstPassStep(lines: seq<string>, i: nat, n: nat)
    requires i < |lines| && n > 6 && !EndsFirstPass(lines[i])
    ensures FirstPass(lines, i, false, n)
         == Scan(KeptLine(lines[i], true) + FirstPass(lines, i + 1, false, n).out, FirstPass(lines, i + 1, false, n).next)
  {
    assert FirstStep(lines[i], false, n) == Step(KeptLine(lines[i], true), false, false, n);
  }

  /** With the count full, a line holding neither a suspension nor the final
      step writes its kept lines and the second pass goes on. */
  lemma SecondPassStep(lines: seq<string>, i: nat, n: nat)
    requires i < |lines| && n > 6 && !Contains(lines[i], Suspended) && !Contains(lines[i], FinalStep)
    ensures SecondPass(lines, i, n)
         == Scan(KeptLine(lines[i], false) + SecondPass(lines, i + 1, n).out, SecondPass(lines, i + 1, n).next)
  {
    assert SecondStep(lines[i], n) == Step(KeptLine(lines[i], false), false, false, n);
  }

  /** With the count full, every header and every line without "switch" up
      to the next line ending the first pass is written, in order. */
  lemma {:induction false} FirstPassKeeps(lines: seq<string>, i: nat, k: nat, n: nat)
    requires i <= k <= |lines| && n > 6
    requires forall j :: i <= j < k ==> !EndsFirstPass(lines[j])
    ensures FirstPass(lines, i, false, n).out == Kept(lines, i, k, true) + FirstPass(lines, k, false, n).out
    ensures FirstPass(lines, i, false, n).next == FirstPass(lines, k, false, n).next
    decreases k - i
  {
    if i < k {
      FirstPassStep(lines, i, n);
      FirstPassKeeps(lines, i + 1, k, n);
      Associative(KeptLine(lines[i], true), Kept(lines, i + 1, k, true), FirstPass(lines, k, false, n).out);
    }
  }

  /** The first pass, once its count is full, writes exactly the kept lines
      before the line that ends it. */
  lemma FirstPassOutput(lines: seq<string>, i: nat, k: nat, n: nat)
    requires i <= k < |lines| && n > 6
    requires forall j :: i <= j < k ==> !EndsFirstPass(lines[j])
    requires EndsFirstPass(lines[k])
    ensures FirstPass(lines, i, false, n) == Scan(Kept(lines, i, k, true), k + 1)
  {
    FirstPassKeeps(lines, i, k, n);
  }

  /** With the count full, every line without "switch" up to the next
      suspension or final step is written by the second pass, in order. */
  lemma {:induction false} SecondPassKeeps(lines: seq<string>, i: nat, k: nat, n: nat)
    requires i <= k <= |lines| && n > 6
    requires forall j :: i <= j < k ==> !Contains(lines[j], Suspended) && !Contains(lines[j], FinalStep)
    ensures SecondPass(lines, i, n).out == Kept(lines, i, k, false) + SecondPass(lines, k, n).out
    ensures SecondPass(lines, i, n).next == SecondPass(lines, k, n).next
    decreases k - i
  {
    if i < k {
      SecondPassStep(lines, i, n);
      SecondPassKeeps(lines, i + 1, k, n);
      Associative(KeptLine(lines[i], false), Kept(lines, i + 1, k, false), SecondPass(lines, k, n).out);
    }
  }

  /** Between two suspensions the second pass writes exactly the kept lines,
      then passes over the 7 lines after the second suspension. */
  lemma SecondPassBetweenSuspensions(lines: seq<string>, i: nat, k: nat, n: nat)
    requires i <= k < |lines| && n > 6
    requires forall j :: i <= j < k ==> !Contains(lines[j], Suspended) && !Contains(lines[j], FinalStep)
    requires Contains(lines[k], Suspended)
    ensures SecondPass(lines, i, n).out
         == Kept(lines, i, k, false) + (if k + 8 <= |lines| then SecondPass(lines, k + 8, 7).out else [])
  {
    SecondPassKeeps(lines, i, k, n);
    SuspensionSkipsSeven(lines, k, n);
  }

  /** Up to the final step the second pass writes exactly the kept lines. */
  lemma SecondPassOutput(lines: seq<string>, i: nat, k: nat, n: nat)
    requires i <= k < |lines| && n > 6
    requires forall j :: i <= j < k ==> !Contains(lines[j], Suspended) && !Contains(lines[j], FinalStep)
    requires Contains(lines[k], FinalStep) && !Contains(lines[k], Suspended)
    ensures SecondPass(lines, i, n) == Scan(Kept(lines, i, k, false), k + 1)
  {
    SecondPassKeeps(lines, i, k, n);
  }

  // ---------------------------------------------------------------------
  // lerResultados

  /** The outcome of renaming the columns of the extracted table. */
  datatype Renaming = Renamed(names: seq<string>) | UnexpectedBus | LengthMismatch

  /** Column names 3 to 5: the voltages of bus XL001. */
  function VoltageLabel(name: string): (code: string)
  {
    if name == "XL001A" then "VA"
    else if name == "XL001B" then "VB"
    else if name == "XL001C" then "VC"
    else ""
  }

  /** Column names 6 to 8: the currents leaving bus XL001. */
  function CurrentLabel(name: string): (code: string)
  {
    if name == "XL001A.1" then "IA"
    else if name == "XL001B.1" then "IB"
    else if name == "XL001C.1" then "IC"
    else ""
  }

  /** The ATP column a label stands for. */
  function BusColumn(code: string): string
  {
    if code == "VA" then "XL001A"
    else if code == "VB" then "XL001B"
    else if code == "VC" then "XL001C"
    else if code == "IA" then "XL001A.1"
    else if code == "IB" then "XL001B.1"
    else if code == "IC" then "XL001C.1"
    else code
  }

  /** The label of column k, or "" where the name is not the expected one. */
  function ColumnLabel(k: nat, name: string): string
  {
    if k < 2 then name else if k < 5 then VoltageLabel(name) else CurrentLabel(name)
  }

  /** A column from the third to the eighth whose name is not expected. */
  predicate Unexpected(names: seq<string>, k: int)
  {
    2 <= k < |names| && k < 8 && ColumnLabel(k, names[k]) == ""
  }

  /** The new names: the first two kept, the next three voltage labels, the
      next three current labels; an unexpected name fails, and otherwise so
      does a table with more than 8 columns, since only 8 names are given. */
  method RenameColumns(names: seq<string>) returns (res: Renaming)
    ensures res.UnexpectedBus? <==> exists k :: Unexpected(names, k)
    ensures res.Renamed? <==> |names| <= 8 && forall k :: 2 <= k < |names| ==> ColumnLabel(k, names[k]) != ""
    ensures res.Renamed? ==>
      (|res.names| == |names| && forall k :: 0 <= k < |names| ==> res.names[k] == ColumnLabel(k, names[k]))
  {
    var cut2 := if |names| < 2 then |names| else 2;
    var cut5 := if |names| < 5 then |names| else 5;
    var cut8 := if |names| < 8 then |names| else 8;
    var renamed := names[..cut2];
    for k := cut2 to cut5
      invariant |renamed| == k
      invariant forall t :: 0 <= t < k ==> renamed[t] == ColumnLabel(t, names[t])
      invariant forall t :: 2 <= t < k ==> !Unexpected(names, t)
    {
      var code := VoltageLabel(names[k]);
      if code == "" {
        assert Unexpected(names, k);
        return UnexpectedBus;
      }
      renamed := renamed + [code];
    }
    for k := cut5 to cut8
      invariant |renamed| == k
      invariant forall t :: 0 <= t < k ==> renamed[t] == ColumnLabel(t, names[t])
      invariant forall t :: 2 <= t < k ==> !Unexpected(names, t)
    {
      var code := CurrentLabel(names[k]);
      if code == "" {
        assert Unexpected(names, k);
        return UnexpectedBus;
      }
      renamed := renamed + [code];
    }
    if |renamed| != |names| {
      assert !Unexpected(names, 8);
      return LengthMismatch;
    }
    forall k | 2 <= k < |names|
      ensures ColumnLabel(k, names[k]) != ""
    {
      assert !Unexpected(names, k);
    }
    return Renamed(renamed);
  }

  /** Every label leads back to the column it renamed. */
  lemma LabelsInvertible(k: nat, name: string)
    requires ColumnLabel(k, name) != ""
    ensures k >= 2 ==> BusColumn(ColumnLabel(k, name)) == name
    ensures k >= 2 ==> ColumnLabel(k, name) in ["VA", "VB", "VC", "IA", "IB", "IC"]
  {
  }

  // ---------------------------------------------------------------------
  // amostrarMedidor

  /** The positions, below n, of the rows whose Step is v. */
  function RowsWithStep(steps: seq<int>, v: int, n: nat): (rows: seq<nat>)
    requires n <= |steps|
    ensures forall k :: 0 <= k < |rows| ==> rows[k] < n && steps[rows[k]] == v
  {
    if n == 0 then []
    else RowsWithStep(steps, v, n - 1) + (if steps[n - 1] == v then [n - 1] else [])
  }

  /** The meter's counter when it reaches position p. */
  function Counter(p: nat, interval: nat): nat
  {
    if p == 0 then 0
    else if Counter(p - 1, interval) == interval then 1
    else Counter(p - 1, interval) + 1
  }

  /** The rows appended for the positions below p at which the counter is full. */
  function Sampled(steps: seq<int>, interval: nat, p: nat): seq<nat>
    requires p <= |steps|
  {
    if p == 0 then []
    else
      Sampled(steps, interval, p - 1)
      + (if Counter(p - 1, interval) == interval then RowsWithStep(steps, steps[p - 1], |steps|) else [])
  }

  /** The rows the meter keeps: those with Step 1, then those with the Step of
      every position at which its counter reaches the interval. */
  method SampleMeter(steps: seq<int>, interval: nat) returns (rows: seq<nat>)
    ensures rows == RowsWithStep(steps, 1, |steps|) + Sampled(steps, interval, |steps|)
  {
    rows := RowsWithStep(steps, 1, |steps|);
    var n := 0;
    for p := 0 to |steps|
      invariant n == Counter(p, interval)
      invariant rows == RowsWithStep(steps, 1, |steps|) + Sampled(steps, interval, p)
    {
      if n == interval {
        n := 1;
        rows := rows + RowsWithStep(steps, steps[p], |steps|);
      } else {
        n := n + 1;
      }
    }
  }

  /** The counter stays within 0..interval and is full exactly at the
      positive multiples of the interval. */
  lemma {:induction false} CounterCycle(p: nat, interval: nat)
    requires interval >= 1
    ensures p > 0 ==> Counter(p, interval) == (p - 1) % interval + 1
    ensures Counter(p, interval) <= interval
    ensures Counter(p, interval) == interval <==> p > 0 && p % interval == 0
  {
    if p > 0 {
      CounterCycle(p - 1, interval);
      if p > 1 {
        ModStep(p - 2, interval);
      }
      ModStep(p - 1, interval);
    }
  }

  /** Stepping one past x moves x % m one further, wrapping at m. */
  lemma ModStep(x: nat, m: nat)
    requires m >= 1
    ensures (x + 1) % m == if x % m == m - 1 then 0 else x % m + 1
  {
    var q, r := x / m, x % m;
    if r == m - 1 {
      assert x + 1 == (q + 1) * m + 0 by { Distribute(q, m); }
      ModUnique(x + 1, m, q + 1, 0);
    } else {
      ModUnique(x + 1, m, q, r + 1);
    }
  }

  lemma Distribute(q: int, m: int)
    ensures (q + 1) * m == q * m + m
  {
  }

  /** The remainder is the r of any x == q * m + r with 0 <= r < m. */
  lemma ModUnique(x: int, m: int, q: int, r: int)
    requires m >= 1 && 0 <= r < m && x == q * m + r
    ensures x % m == r
  {
    var q', r' := x / m, x % m;
    if q' < q {
      MulMono(q' + 1, q, m);
      Distribute(q', m);
    } else if q < q' {
      MulMono(q + 1, q', m);
      Distribute(q, m);
    }
  }

  lemma MulMono(a: int, b: int, m: int)
    requires a <= b && m >= 0
    ensures a * m <= b * m
  {
  }

  /** With distinct Steps, the rows appended are those at positions interval,
      2 * interval, ... below p. */
  lemma {:induction false} SampledPositions(steps: seq<int>, interval: nat, p: nat)
    requires interval >= 1 && p <= |steps|
    requires forall a, b :: 0 <= a < b < |steps| ==> steps[a] != steps[b]
    ensures Sampled(steps, interval, p) == Multiples(interval, p)
  {
    if p > 0 {
      SampledPositions(steps, interval, p - 1);
      CounterCycle(p - 1, interval);
      if Counter(p - 1, interval) == interval {
        OnlyRow(steps, p - 1, |steps|);
      }
    }
  }

  /** The positive multiples of interval below p, in increasing order. */
  function Multiples(interval: nat, p: nat): (r: seq<nat>)
    requires interval >= 1
    ensures forall k :: 0 <= k < |r| ==> r[k] < p && r[k] > 0 && r[k] % interval == 0
  {
    if p == 0 then [] else Multiples(interval, p - 1) + (if p - 1 > 0 && (p - 1) % interval == 0 then [p - 1] else [])
  }

  lemma {:induction false} OnlyRow(steps: seq<int>, q: nat, n: nat)
    requires q < |steps| && n <= |steps|
    requires forall a, b :: 0 <= a < b < |steps| ==> steps[a] != steps[b]
    ensures RowsWithStep(steps, steps[q], n) == if q < n then [q] else []
  {
    if n > 0 {
      OnlyRow(steps, q, n - 1);
    }
  }
}
