// Writing a phase-to-ground fault into an ATP circuit file: the split of a
// 10 km section at the fault (definirSecoes), the phase flags and the line
// pass of replicarFaltaTerra, and the rewriting of the two copies of a line
// section (inserirFaltaFaseTerra). A file is its sequence of lines, each
// with its own terminator; the new file is the sequence of texts written.

module AtpFaults {
  import opened Text

  // ---------------------------------------------------------------------
  // definirSecoes

  /** The length of the first section, in closed form: km itself up to 10,
      otherwise the unit of km counted from 1 to 10. */
  function FirstSection(km: int): (s: int)
    ensures km > 10 ==> 1 <= s <= 10
  {
    if km <= 10 then km else (km - 1) % 10 + 1
  }

  /** definirSecoes: 10 is taken from km while it exceeds 10; the second
      section is what is left of 10 km. */
  method DefineSections(km: int) returns (first: int, second: int)
    ensures first == FirstSection(km)
    ensures first + second == 10
    ensures (km - first) % 10 == 0
    ensures km <= 10 ==> first == km
  {
    first := km;
    while first > 10
      invariant first <= km && (km - first) % 10 == 0
      invariant km > 10 ==> first >= 1
      invariant km <= 10 ==> first == km
      decreases first
    {
      first := first - 10;
    }
    if km > 10 {
      UnitOf(km, first);
    }
    second := 10 - first;
  }

  /** The first of ten consecutive values that leaves the remainder of km. */
  lemma UnitOf(km: int, first: int)
    requires 1 <= first <= 10 && (km - first) % 10 == 0
    ensures (km - 1) % 10 + 1 == first
  {
    var q := (km - first) / 10;
    assert km - first == 10 * q;
    assert km - 1 == 10 * q + (first - 1);
  }

  /** For the kilometres the fault may be placed at, both sections lie in
      0..10 and the first is at least 1. */
  lemma SectionsInRange(km: int)
    requires km >= 1
    ensures 1 <= FirstSection(km) <= 10 && 0 <= 10 - FirstSection(km) <= 9
    ensures (km - FirstSection(km)) % 10 == 0
  {
  }

  // ---------------------------------------------------------------------
  // replicarFaltaTerra: phase flags

  const Phases := "ABC"

  /** falta: entry t tells whether the t-th of "ABC" is among the faulted
      phases, filled through a counter over "ABC". */
  method PhaseFlags(phases: string) returns (flags: seq<bool>)
    ensures |flags| == 3
    ensures forall t :: 0 <= t < 3 ==> (flags[t] <==> Phases[t] in phases)
  {
    var falta := new bool[3];
    var t := 0;
    while t < 3
      invariant 0 <= t <= 3
      invariant forall u :: 0 <= u < t ==> (falta[u] <==> Phases[u] in phases)
    {
      falta[t] := Phases[t] in phases;
      t := t + 1;
    }
    flags := falta[..];
  }

  // ---------------------------------------------------------------------
  // inserirFaltaFaseTerra

  const LibraryName := "lttcc_L10.lib"

  /** The library of a section of the given length. */
  function Library(section: int): string
  {
    "lttcc_L" + IntText(section) + ".lib"
  }

  /** Python's str of an integer. */
  function IntText(n: int): string
  {
    if n < 0 then "-" + Decimal(-n) else Decimal(n)
  }

  /** The digit of a phase: A is 1, B is 2, C is 3. */
  function PhaseDigit(t: nat): char
    requires t < 3
  {
    "123"[t]
  }

  /** The node a phase of bus is renamed to: the fault switch of that phase
      when it is faulted, the internal line node otherwise. */
  function NewNode(t: nat, faulted: bool): (node: string)
    requires t < 3
    ensures |node| == 6
  {
    if faulted then "XSWT0" + [PhaseDigit(t)] else "XLINT" + [Phases[t]]
  }

  /** Phase t of bus renamed throughout s. */
  function RenamePhase(s: string, bus: string, t: nat, faulted: bool): string
    requires t < 3
  {
    ReplaceAll(s, bus + [Phases[t]], NewNode(t, faulted))
  }

  /** One copy of a line: the library of the section, then phases A, B and C
      of bus renamed, in that order. */
  function Copy(line: string, bus: string, section: int, flags: seq<bool>): string
    requires |flags| == 3
  {
    var withLibrary := ReplaceAll(line, LibraryName, Library(section));
    var a := RenamePhase(withLibrary, bus, 0, flags[0]);
    var b := RenamePhase(a, bus, 1, flags[1]);
    RenamePhase(b, bus, 2, flags[2])
  }

  /** The texts f gives for the lines, one after another, as lin += f(l) builds them. */
  function Concat(lines: seq<string>, f: string -> string): string
  {
    if |lines| == 0 then "" else Concat(lines[..|lines| - 1], f) + f(lines[|lines| - 1])
  }

  /** The copies of the lines, one after another. */
  function Copies(lines: seq<string>, bus: string, section: int, flags: seq<bool>): string
    requires |flags| == 3
  {
    Concat(lines, LineCopy(bus, section, flags))
  }

  function LineCopy(bus: string, section: int, flags: seq<bool>): string -> string
    requires |flags| == 3
  {
    line => Copy(line, bus, section, flags)
  }

  /** inserirFaltaFaseTerra: the first copy of the lines renames bus2 and
      takes the first section's library, the second renames bus1 and takes
      the second section's. */
  method InsertGroundFault(lines: seq<string>, bus1: string, bus2: string, section1: int, section2: int,
                           flags: seq<bool>) returns (lin1: string, lin2: string)
    requires |flags| == 3
    ensures lin1 == Copies(lines, bus2, section1, flags)
    ensures lin2 == Copies(lines, bus1, section2, flags)
  {
    lin1, lin2 := "", "";
    for k := 0 to |lines|
      invariant lin1 == Copies(lines[..k], bus2, section1, flags)
      invariant lin2 == Copies(lines[..k], bus1, section2, flags)
    {
      var l := lines[k];
      var linha1 := ReplaceAll(l, LibraryName, Library(section1));
      var linha2 := ReplaceAll(l, LibraryName, Library(section2));
      linha1, linha2 := RenamePhase(linha1, bus2, 0, flags[0]), RenamePhase(linha2, bus1, 0, flags[0]);
      linha1, linha2 := RenamePhase(linha1, bus2, 1, flags[1]), RenamePhase(linha2, bus1, 1, flags[1]);
      linha1, linha2 := RenamePhase(linha1, bus2, 2, flags[2]), RenamePhase(linha2, bus1, 2, flags[2]);
      CopiesStep(lines, k, bus2, section1, flags);
      CopiesStep(lines, k, bus1, section2, flags);
      lin1 := lin1 + linha1;
      lin2 := lin2 + linha2;
    }
    assert lines[..|lines|] == lines;
  }

  /** One more line adds its copy at the end. */
  lemma CopiesStep(lines: seq<string>, k: nat, bus: string, section: int, flags: seq<bool>)
    requires k < |lines| && |flags| == 3
    ensures Copies(lines[..k + 1], bus, section, flags)
         == Copies(lines[..k], bus, section, flags) + Copy(lines[k], bus, section, flags)
  {
    assert lines[..k + 1][..k] == lines[..k];
  }

  // ---- properties of the rewriting

  /** The texts of a concatenation of lines are the concatenated texts. */
  lemma {:induction false} ConcatAppend(a: seq<string>, b: seq<string>, f: string -> string)
    ensures Concat(a + b, f) == Concat(a, f) + Concat(b, f)
    decreases |b|
  {
    if |b| == 0 {
      assert a + b == a;
    } else {
      assert (a + b)[..|a + b| - 1] == a + b[..|b| - 1];
      ConcatAppend(a, b[..|b| - 1], f);
    }
  }

  /** A line without the library name and without any phase of the bus is
      copied unchanged. */
  lemma CopyUntouched(line: string, bus: string, section: int, flags: seq<bool>)
    requires |flags| == 3
    requires !Contains(line, LibraryName)
    requires forall t :: 0 <= t < 3 ==> !Contains(line, bus + [Phases[t]])
    ensures Copy(line, bus, section, flags) == line
  {
    ReplaceAbsent(line, LibraryName, Library(section));
    ReplaceAbsent(line, bus + [Phases[0]], NewNode(0, flags[0]));
    ReplaceAbsent(line, bus + [Phases[1]], NewNode(1, flags[1]));
    ReplaceAbsent(line, bus + [Phases[2]], NewNode(2, flags[2]));
  }

  /** A phase of the bus renamed where it first occurs, when nothing after it
      holds that phase again. */
  lemma RenameOnce(a: string, b: string, bus: string, t: nat, faulted: bool)
    requires t < 3
    requires forall j :: 0 <= j < |a| ==> !OccursAt(a + (bus + [Phases[t]]) + b, bus + [Phases[t]], j)
    requires !Contains(b, bus + [Phases[t]])
    ensures RenamePhase(a + (bus + [Phases[t]]) + b, bus, t, faulted) == a + NewNode(t, faulted) + b
  {
    ReplaceAt(a, bus + [Phases[t]], b, NewNode(t, faulted));
    ReplaceAbsent(b, bus + [Phases[t]], NewNode(t, faulted));
  }

  /** A line whose one occurrence of a bus phase is phase t, and which holds
      no library name, is copied with the node of that phase in its place:
      the fault switch XSWT0 plus the phase digit when the phase is
      faulted, the internal node XLINT plus the phase letter otherwise. The
      other phases are assumed absent before and after the rename. */
  lemma CopyRenames(a: string, b: string, bus: string, t: nat, section: int, flags: seq<bool>)
    requires |flags| == 3 && t < 3
    requires forall j :: 0 <= j < |a| ==> !OccursAt(a + (bus + [Phases[t]]) + b, bus + [Phases[t]], j)
    requires !Contains(b, bus + [Phases[t]])
    requires !Contains(a + (bus + [Phases[t]]) + b, LibraryName)
    requires forall u :: 0 <= u < t ==> !Contains(a + (bus + [Phases[t]]) + b, bus + [Phases[u]])
    requires forall u :: t < u < 3 ==> !Contains(a + NewNode(t, flags[t]) + b, bus + [Phases[u]])
    ensures Copy(a + (bus + [Phases[t]]) + b, bus, section, flags) == a + NewNode(t, flags[t]) + b
  {
    var line := a + (bus + [Phases[t]]) + b;
    var renamed := a + NewNode(t, flags[t]) + b;
    ReplaceAbsent(line, LibraryName, Library(section));
    RenameOnce(a, b, bus, t, flags[t]);
    if t == 0 {
      ReplaceAbsent(renamed, bus + [Phases[1]], NewNode(1, flags[1]));
      ReplaceAbsent(renamed, bus + [Phases[2]], NewNode(2, flags[2]));
    } else if t == 1 {
      ReplaceAbsent(line, bus + [Phases[0]], NewNode(0, flags[0]));
      ReplaceAbsent(renamed, bus + [Phases[2]], NewNode(2, flags[2]));
    } else {
      ReplaceAbsent(line, bus + [Phases[0]], NewNode(0, flags[0]));
      ReplaceAbsent(line, bus + [Phases[1]], NewNode(1, flags[1]));
    }
  }

  // ---- the section line, field by field

  /** A character that separates the fields of a line and that none of the
      names a copy looks for holds, as the comma between the arguments of an
      $INCLUDE line. */
  predicate Separates(sep: char, bus: string)
  {
    sep !in LibraryName && sep !in bus && sep !in Phases
  }

  /** A field that holds neither the library name nor a phase of the bus. */
  predicate Plain(field: string, bus: string)
  {
    && !Contains(field, LibraryName)
    && forall t :: 0 <= t < 3 ==> !Contains(field, bus + [Phases[t]])
  }

  /** The fields a section line is made of: the library name, a phase of
      the bus, or a plain field. */
  predicate KnownField(field: string, bus: string)
  {
    || field == LibraryName
    || field == bus + [Phases[0]] || field == bus + [Phases[1]] || field == bus + [Phases[2]]
    || Plain(field, bus)
  }

  /** What a copy writes for one field: the section's library for the
      library name, the new node of a phase of the bus, and any other field
      as it is. */
  function FieldCopy(field: string, bus: string, section: int, flags: seq<bool>): string
    requires |flags| == 3
  {
    if field == LibraryName then Library(section)
    else if field == bus + [Phases[0]] then NewNode(0, flags[0])
    else if field == bus + [Phases[1]] then NewNode(1, flags[1])
    else if field == bus + [Phases[2]] then NewNode(2, flags[2])
    else field
  }

  function FieldCopies(fields: seq<string>, bus: string, section: int, flags: seq<bool>): (r: seq<string>)
    requires |flags| == 3
    ensures |r| == |fields|
  {
    if |fields| == 0 then [] else [FieldCopy(fields[0], bus, section, flags)] + FieldCopies(fields[1..], bus, section, flags)
  }

  /** A copy works on each side of a separator. */
  lemma CopySplit(x: string, y: string, sep: char, bus: string, section: int, flags: seq<bool>)
    requires |flags| == 3 && Separates(sep, bus)
    ensures Copy(x + [sep] + y, bus, section, flags)
         == Copy(x, bus, section, flags) + [sep] + Copy(y, bus, section, flags)
  {
    assert forall t :: 0 <= t < 3 ==> sep !in bus + [Phases[t]];
    var x0, y0 := ReplaceAll(x, LibraryName, Library(section)), ReplaceAll(y, LibraryName, Library(section));
    ReplaceSplit(x, sep, y, LibraryName, Library(section));
    var x1, y1 := RenamePhase(x0, bus, 0, flags[0]), RenamePhase(y0, bus, 0, flags[0]);
    ReplaceSplit(x0, sep, y0, bus + [Phases[0]], NewNode(0, flags[0]));
    var x2, y2 := RenamePhase(x1, bus, 1, flags[1]), RenamePhase(y1, bus, 1, flags[1]);
    ReplaceSplit(x1, sep, y1, bus + [Phases[1]], NewNode(1, flags[1]));
    ReplaceSplit(x2, sep, y2, bus + [Phases[2]], NewNode(2, flags[2]));
  }

  /** The characters of str of an integer: a minus sign or decimal digits. */
  lemma IntTextChars(n: int)
    ensures forall k :: 0 <= k < |IntText(n)| ==> IntText(n)[k] == '-' || '0' <= IntText(n)[k] <= '9'
  {
    if n < 0 {
      DecimalDigits(-n);
    } else {
      DecimalDigits(n);
    }
  }

  /** No phase letter occurs in the name of a section's library. */
  lemma NoPhaseInLibrary(section: int, t: nat)
    requires t < 3
    ensures Phases[t] !in Library(section)
  {
    IntTextChars(section);
    assert Phases[t] !in IntText(section);
    assert Phases[t] !in "lttcc_L" && Phases[t] !in ".lib";
  }

  /** The library name alone is copied as the section's library. */
  lemma CopyLibraryField(bus: string, section: int, flags: seq<bool>)
    requires |flags| == 3
    ensures Copy(LibraryName, bus, section, flags) == Library(section)
  {
    var lib := Library(section);
    assert ReplaceAll(LibraryName, LibraryName, lib) == lib by {
      ReplaceAt("", LibraryName, "", lib);
      assert "" + LibraryName + "" == LibraryName;
      assert ReplaceAll("", LibraryName, lib) == "";
    }
    forall t | 0 <= t < 3
      ensures RenamePhase(lib, bus, t, flags[t]) == lib
    {
      NoPhaseInLibrary(section, t);
      ContainsFits(lib, bus + [Phases[t]]);
      ReplaceAbsent(lib, bus + [Phases[t]], NewNode(t, flags[t]));
    }
  }

  /** A phase of a five-character bus, alone, is copied as its new node. */
  lemma CopyPhaseField(bus: string, t: nat, section: int, flags: seq<bool>)
    requires |flags| == 3 && t < 3 && |bus| == 5
    ensures Copy(bus + [Phases[t]], bus, section, flags) == NewNode(t, flags[t])
  {
    var field := bus + [Phases[t]];
    var node := NewNode(t, flags[t]);
    ContainsFits(field, LibraryName);
    forall u | 0 <= u < 3 && u != t
      ensures !Contains(field, bus + [Phases[u]]) && !Contains(node, bus + [Phases[u]])
    {
      assert field[5] != (bus + [Phases[u]])[5];
      assert node[5] != (bus + [Phases[u]])[5];
      ContainsFits(field, bus + [Phases[u]]);
      ContainsFits(node, bus + [Phases[u]]);
    }
    assert "" + field + "" == field;
    assert "" + node + "" == node;
    CopyRenames("", "", bus, t, section, flags);
  }

  /** Each kind of field is copied as FieldCopy says. */
  lemma CopyField(field: string, bus: string, section: int, flags: seq<bool>)
    requires |flags| == 3 && |bus| == 5 && KnownField(field, bus)
    ensures Copy(field, bus, section, flags) == FieldCopy(field, bus, section, flags)
  {
    if field == LibraryName {
      CopyLibraryField(bus, section, flags);
    } else if field == bus + [Phases[0]] {
      CopyPhaseField(bus, 0, section, flags);
    } else if field == bus + [Phases[1]] {
      CopyPhaseField(bus, 1, section, flags);
    } else if field == bus + [Phases[2]] {
      CopyPhaseField(bus, 2, section, flags);
    } else {
      CopyUntouched(field, bus, section, flags);
    }
  }

  /** A section line read as fields between separators is copied field by
      field: the library name becomes the section's library, each phase of
      the bus its new node, and every other field is kept. */
  lemma {:induction false} CopySectionLine(fields: seq<string>, sep: char, bus: string, section: int, flags: seq<bool>)
    requires |flags| == 3 && |bus| == 5 && Separates(sep, bus)
    requires forall i :: 0 <= i < |fields| ==> KnownField(fields[i], bus)
    ensures Copy(JoinOn(fields, sep), bus, section, flags) == JoinOn(FieldCopies(fields, bus, section, flags), sep)
    decreases |fields|
  {
    if |fields| == 1 {
      CopyField(fields[0], bus, section, flags);
    } else if |fields| > 1 {
      var rest := FieldCopies(fields[1..], bus, section, flags);
      assert FieldCopies(fields, bus, section, flags)[1..] == rest;
      CopySplit(fields[0], JoinOn(fields[1..], sep), sep, bus, section, flags);
      CopyField(fields[0], bus, section, flags);
      CopySectionLine(fields[1..], sep, bus, section, flags);
    }
  }

  /** A phase of the other bus, of the same length, is a plain field, so a
      copy keeps it. */
  lemma OtherBusPlain(bus: string, other: string, u: nat)
    requires |bus| == |other| == 5 && other != bus && u < 3
    ensures Plain(other + [Phases[u]], bus)
  {
    var field := other + [Phases[u]];
    ContainsFits(field, LibraryName);
    forall t | 0 <= t < 3
      ensures !Contains(field, bus + [Phases[t]])
    {
      assert field[..5] != (bus + [Phases[t]])[..5];
      ContainsFits(field, bus + [Phases[t]]);
    }
  }

  /** Every rename keeps the length, since each new node has six
      characters, as a bus name of five and a phase letter do: only the
      library name changes the length of a line. */
  lemma CopyLength(line: string, bus: string, section: int, flags: seq<bool>)
    requires |flags| == 3 && |bus| == 5
    ensures |Copy(line, bus, section, flags)| == |ReplaceAll(line, LibraryName, Library(section))|
  {
    var withLibrary := ReplaceAll(line, LibraryName, Library(section));
    var a := RenamePhase(withLibrary, bus, 0, flags[0]);
    var b := RenamePhase(a, bus, 1, flags[1]);
    ReplaceLength(withLibrary, bus + [Phases[0]], NewNode(0, flags[0]));
    ReplaceLength(a, bus + [Phases[1]], NewNode(1, flags[1]));
    ReplaceLength(b, bus + [Phases[2]], NewNode(2, flags[2]));
  }

  // ---------------------------------------------------------------------
  // replicarFaltaTerra: the line pass

  /** The line that carries the section between bus1 and bus2. */
  predicate IsSection(line: string, bus1: string, bus2: string)
  {
    Contains(line, "$INCLUDE") && Contains(line, bus1) && Contains(line, bus2)
  }

  /** The section line at i and the line after it, if there is one. */
  function Chunk(lines: seq<string>, i: nat): (chunk: seq<string>)
    requires i < |lines|
    ensures 1 <= |chunk| <= 2 && chunk[0] == lines[i]
    ensures |chunk| == 2 <==> i + 1 < |lines|
  {
    lines[i..if i + 2 <= |lines| then i + 2 else |lines|]
  }

  /** The texts written for lines i.. of the file, where rewrite gives the
      texts that replace a section line and its successor; skip says the
      previous line was a section line, whose successor went with it. */
  function Replicated(lines: seq<string>, i: nat, skip: bool, bus1: string, bus2: string,
                      rewrite: seq<string> -> seq<string>): seq<string>
    requires i <= |lines|
    decreases |lines| - i
  {
    if i == |lines| then []
    else if skip then Replicated(lines, i + 1, false, bus1, bus2, rewrite)
    else if IsSection(lines[i], bus1, bus2) then
      rewrite(Chunk(lines, i)) + Replicated(lines, i + 1, true, bus1, bus2, rewrite)
    else [lines[i]] + Replicated(lines, i + 1, false, bus1, bus2, rewrite)
  }

  /** The rewrite of replicarFaltaTerra: the two copies of inserirFaltaFaseTerra. */
  function FaultCopies(bus1: string, bus2: string, section1: int, section2: int, flags: seq<bool>)
    : (rewrite: seq<string> -> seq<string>)
    requires |flags| == 3
  {
    chunk => [Copies(chunk, bus2, section1, flags), Copies(chunk, bus1, section2, flags)]
  }

  /** The line pass of replicarFaltaTerra: the section line and its
      successor are replaced by their two copies, every other line is
      written as it is. */
  method ReplicateLines(lines: seq<string>, bus1: string, bus2: string, section1: int, section2: int,
                        flags: seq<bool>) returns (written: seq<string>)
    requires |flags| == 3
    ensures written == Replicated(lines, 0, false, bus1, bus2, FaultCopies(bus1, bus2, section1, section2, flags))
  {
    ghost var rewrite := FaultCopies(bus1, bus2, section1, section2, flags);
    var skip := false;
    written := [];
    for n := 0 to |lines|
      invariant written + Replicated(lines, n, skip, bus1, bus2, rewrite)
             == Replicated(lines, 0, false, bus1, bus2, rewrite)
    {
      var line := lines[n];
      if skip {
        skip := false;
      } else if IsSection(line, bus1, bus2) {
        var chunk := Chunk(lines, n);
        var lin1, lin2 := InsertGroundFault(chunk, bus1, bus2, section1, section2, flags);
        assert [lin1, lin2] == rewrite(chunk);
        Associative(written, [lin1, lin2], Replicated(lines, n + 1, true, bus1, bus2, rewrite));
        skip := true;
        written := written + [lin1, lin2];
      } else {
        Associative(written, [line], Replicated(lines, n + 1, false, bus1, bus2, rewrite));
        written := written + [line];
      }
    }
  }

  // ---- properties of the line pass

  /** Lines that are not section lines are written unchanged and in order. */
  lemma {:induction false} CopiedUntil(lines: seq<string>, i: nat, k: nat, bus1: string, bus2: string,
                                       rewrite: seq<string> -> seq<string>)
    requires i <= k <= |lines|
    requires forall j :: i <= j < k ==> !IsSection(lines[j], bus1, bus2)
    ensures Replicated(lines, i, false, bus1, bus2, rewrite)
         == lines[i..k] + Replicated(lines, k, false, bus1, bus2, rewrite)
    decreases k - i
  {
    var rest := Replicated(lines, k, false, bus1, bus2, rewrite);
    if i < k {
      CopiedUntil(lines, i + 1, k, bus1, bus2, rewrite);
      assert lines[i..k] == [lines[i]] + lines[i + 1..k];
    } else {
      assert lines[i..k] + rest == rest;
    }
  }

  /** A file without a section line between the two buses is written as it is. */
  lemma NoSectionUnchanged(lines: seq<string>, bus1: string, bus2: string, rewrite: seq<string> -> seq<string>)
    requires forall j :: 0 <= j < |lines| ==> !IsSection(lines[j], bus1, bus2)
    ensures Replicated(lines, 0, false, bus1, bus2, rewrite) == lines
  {
    CopiedUntil(lines, 0, |lines|, bus1, bus2, rewrite);
    assert lines[0..|lines|] == lines;
  }

  /** The lines ahead of the first section line are written unchanged and in
      order, then the rewrite of the section line and its successor, and the
      line after the section line is passed over. */
  lemma CopiedUpToSection(lines: seq<string>, k: nat, bus1: string, bus2: string,
                          rewrite: seq<string> -> seq<string>)
    requires k < |lines|
    requires forall j :: 0 <= j < k ==> !IsSection(lines[j], bus1, bus2)
    requires IsSection(lines[k], bus1, bus2)
    ensures Replicated(lines, 0, false, bus1, bus2, rewrite)
         == lines[..k] + rewrite(Chunk(lines, k)) + Replicated(lines, k + 1, true, bus1, bus2, rewrite)
  {
    CopiedUntil(lines, 0, k, bus1, bus2, rewrite);
    assert lines[0..k] == lines[..k];
  }

  /** With a rewrite into two texts, as inserirFaltaFaseTerra's, every
      section line takes its successor with it and writes two texts, so the
      new file has as many texts as the old one had lines, or one more when
      the last line is a section line. */
  lemma {:induction false} ReplicatedLength(lines: seq<string>, i: nat, skip: bool, bus1: string, bus2: string,
                                            rewrite: seq<string> -> seq<string>)
    requires i <= |lines|
    requires forall chunk :: |rewrite(chunk)| == 2
    ensures var base := |lines| - i - (if skip && i < |lines| then 1 else 0);
      base <= |Replicated(lines, i, skip, bus1, bus2, rewrite)| <= base + 1
    decreases |lines| - i
  {
    if i < |lines| {
      ReplicatedLength(lines, i + 1, false, bus1, bus2, rewrite);
      ReplicatedLength(lines, i + 1, true, bus1, bus2, rewrite);
    }
  }

  /** The file replicarFaltaTerra writes has as many texts as the old file
      has lines, or one more when its last line is a section line: lin1 and
      lin2 stand for a section line and its successor. */
  lemma FaultFileLength(lines: seq<string>, bus1: string, bus2: string, section1: int, section2: int,
                        flags: seq<bool>)
    requires |flags| == 3
    ensures var written := Replicated(lines, 0, false, bus1, bus2, FaultCopies(bus1, bus2, section1, section2, flags));
      |lines| <= |written| <= |lines| + 1
  {
    ReplicatedLength(lines, 0, false, bus1, bus2, FaultCopies(bus1, bus2, section1, section2, flags));
  }
}
