# Pi-cascade transmission line and ATP glue, in Dafny

This project models two parts of the MonografiaVieiraUBM code base.

The first part is the class `LinhaDeTransmissaoPiCascata`. It represents a
transmission line as N cascaded pi-sections. A source is connected at the
sending end and the receiving end is open. Each section's series impedance is
M parallel RL rungs, so a section has M + 1 states: M rung currents and the
shunt capacitor voltage. The class assembles the state equation X' = A X + B u
as sparse COO matrices, that is value, row and column triplets as in
`scipy.sparse.coo_matrix`:

- the constructor scales the distributed parameters to lumped ones;
- `espacoEstadosUmPi` builds one section's A and B;
- `matrizTridiagonal` tiles a section into a block-tridiagonal matrix;
- `espacoEstadosLinha` couples the N sections and pads B to the full height.

The second part is the deterministic text and sequence logic that drives the
ATP (Alternative Transients Program) simulator, from `funcoesATP.py`:

- `extrairResultados`, the three-pass filter that pulls the output table out
  of an ATP listing;
- the column-renaming rule of `lerResultados`;
- the decimation of `amostrarMedidor`;
- `definirSecoes`, the split of a 10 km section at the fault point;
- the phase flags and the line pass of `replicarFaltaTerra`;
- `inserirFaltaFaseTerra`, which rewrites the bus names of a line section to
  insert a phase-to-ground fault.

Modules:

- `Coo` (coo.dfy) is the COO matrix. Duplicate coordinates add up, as in
  scipy. It also holds the tiling functions `Stack` and `Repeat` and their
  algebra.
- `PiCascade` (picascade.dfy) holds the class `Line` with immutable fields and
  its methods. The methods fill arrays and grow the triplet lists in loops,
  as the source does. They are proved equal to specification functions, and
  the lemmas state what those functions mean: shapes, entry counts, distinct
  coordinates and the exact dense entry at every (i, j).
- `Text` (text.dfy) holds the Python string operations the glue relies on:
  `in`, `str.split()`, `" ".join`, `list.remove`, `re.sub` with a literal
  pattern, and `str` of an integer.
- `AtpResults` (atp_results.dfy) covers `extrairResultados`, `lerResultados`
  and `amostrarMedidor`.
- `AtpFaults` (atp_faults.dfy) covers `definirSecoes`, `replicarFaltaTerra`
  and `inserirFaltaFaseTerra`.

Files are modelled as sequences of lines. A data frame is modelled as its list
of column names, or as its `Step` column. Floating-point values are `real`.

Two literal choices of the code are kept rather than corrected:

- the last diagonal entry of a section is `-C/G`, as line 203 computes it;
- B's entry is `-(-1/L[0]) = 1/L[0]`, as line 245 computes it.

The line's A stores N(3M+1) + 2(N-1) entries: 3M+1 per section
(classeLinhaDeTransmissaoPiCascata.py:215-216) and one per coupling block.

## Model

| member | source | states |
|---|---|---|
| PiCascade.Line.Create | codigosPython/classeLinhaDeTransmissaoPiCascata.py:52-85 | A non-integer section count gives the TypeError case. A count of at most zero gives the first ValueError. R and L of different sizes give the second ValueError. These are checked in that order, and a line is built exactly when none applies. The built line has order (M+1)N, section length length/N, and G, C and every R[i], L[i] equal to the distributed value times length/N. |
| PiCascade.Line.constructor | codigosPython/classeLinhaDeTransmissaoPiCascata.py:62-85 | Sets the order to (M+1)N, the section length to length/N, and the lumped G, C, R and L to the distributed values times the section length. |
| PiCascade.Line.SectionSystem | codigosPython/classeLinhaDeTransmissaoPiCascata.py:168-249 | The three index-filling loops and the value vectors build exactly SectionA and SectionB. |
| PiCascade.Line.Tridiagonal | codigosPython/classeLinhaDeTransmissaoPiCascata.py:88-127 | The three append loops build exactly BlockTridiagonal: Ad unchanged when the order is 1, otherwise the diagonal copies, then the upper ones, then the lower ones, each with its index offsets. |
| PiCascade.Line.StateSpace | codigosPython/classeLinhaDeTransmissaoPiCascata.py:252-274 | Returns LineA and LineB of the line's lumped parameters. A is order-by-order and B is order-by-1. |
| PiCascade.SectionA | codigosPython/classeLinhaDeTransmissaoPiCascata.py:188-243 | A section's A is a valid (M+1)x(M+1) COO matrix with 3M+1 entries. |
| PiCascade.SectionB | codigosPython/classeLinhaDeTransmissaoPiCascata.py:245-247 | A section's B is a valid (M+1)x1 COO matrix with one entry. |
| PiCascade.SectionPattern | codigosPython/classeLinhaDeTransmissaoPiCascata.py:215-237 | The 3M+1 coordinates of a section are pairwise distinct, and each lies on row 0, column 0 or the diagonal. |
| PiCascade.SectionValue | codigosPython/classeLinhaDeTransmissaoPiCascata.py:188-243 | Entry (i, j) of a section's A equals SectionEntry. On the diagonal that is -sum(R)/L[0] at (0,0), -R[i]/L[i] for 1 <= i < M, and -C/G at (M,M). Column 0 holds R[i]/L[i] and 2/C at (M,0). Row 0 holds R[j]/L[0] and -1/L[0] at (0,M). Every other entry is zero. |
| PiCascade.SectionInputValue | codigosPython/classeLinhaDeTransmissaoPiCascata.py:245-247 | A section's B is 1/L[0] at (0,0) and zero everywhere else. |
| PiCascade.BlockTridiagonal | codigosPython/classeLinhaDeTransmissaoPiCascata.py:88-127 | The tiling of well-formed blocks is well formed: as many rows as columns and values. |
| PiCascade.TiledShape | codigosPython/classeLinhaDeTransmissaoPiCascata.py:126-127 | Tiling three valid m1 x m1 blocks gives a valid (order*m1) square matrix: every index lies inside it. |
| PiCascade.TiledSize | codigosPython/classeLinhaDeTransmissaoPiCascata.py:99-123 | The tiling has order*nnz(Ad) + (order-1)*(nnz(As) + nnz(Ai)) entries. |
| PiCascade.TiledValue | codigosPython/classeLinhaDeTransmissaoPiCascata.py:99-123 | At block (bi, bj), offset (li, lj), the tiling reads Ad's entry on the block diagonal, As's on the block just above, Ai's on the block just below, and zero elsewhere. So block k of Ad sits at (k*m1, k*m1), As at ((k-1)*m1, k*m1) and Ai at (k*m1, (k-1)*m1), and values are copied unchanged. |
| PiCascade.TiledDistinct | codigosPython/classeLinhaDeTransmissaoPiCascata.py:88-127 | Blocks with distinct coordinates tile into a matrix with distinct coordinates. |
| PiCascade.TiledMultiplicity | codigosPython/classeLinhaDeTransmissaoPiCascata.py:99-123 | In such a tiling, any one coordinate is stored at most once. |
| PiCascade.LineA | codigosPython/classeLinhaDeTransmissaoPiCascata.py:257-269 | The line's A, the section tiled with its two coupling blocks, is well formed. |
| PiCascade.LineShape | codigosPython/classeLinhaDeTransmissaoPiCascata.py:257-274 | The line's A is valid and N(M+1) square, with N(3M+1) + 2(N-1) entries. B is valid, as tall as A, one column wide, with one entry. |
| PiCascade.LineDistinct | codigosPython/classeLinhaDeTransmissaoPiCascata.py:257-269 | No coordinate of the line's A is stored twice, so the coupling entries never share a coordinate with a section's. |
| PiCascade.LineValue | codigosPython/classeLinhaDeTransmissaoPiCascata.py:257-269 | Entry (i, j) of the line's A is LineEntry. That is the section entry inside each diagonal block, -1/C at (last row, column 0) of each block above the diagonal, 1/L[0] at (row 0, last column) of each block below it, and zero elsewhere. |
| PiCascade.UpperCouplingValue | codigosPython/classeLinhaDeTransmissaoPiCascata.py:260-261 | The upper coupling block is -1/C at (dim-1, 0) and zero elsewhere. |
| PiCascade.LowerCouplingValue | codigosPython/classeLinhaDeTransmissaoPiCascata.py:264-265 | The lower coupling block is 1/L[0] at (0, dim-1) and zero elsewhere. |
| PiCascade.LineInputValue | codigosPython/classeLinhaDeTransmissaoPiCascata.py:271-272 | The line's B is 1/L[0] at row 0 and zero at every other row. |
| AtpFaults.FirstSection | codigosPython/funcoesATP.py:208-217 | For km > 10 the first section lies in 1..10. |
| AtpFaults.DefineSections | codigosPython/funcoesATP.py:205-219 | The loop gives the closed form FirstSection(km). The two sections add up to 10, the first is congruent to km mod 10, and km <= 10 is returned unchanged. |
| AtpFaults.SectionsInRange | codigosPython/funcoesATP.py:208-219 | For km >= 1 the first section lies in 1..10, the second in 0..9, and the first is congruent to km mod 10. |
| AtpFaults.PhaseFlags | codigosPython/funcoesATP.py:344-355 | Flag t is true exactly when the t-th letter of "ABC" occurs in the phases, whatever their order. |
| AtpFaults.NewNode | codigosPython/funcoesATP.py:267-274 | The new node of a phase, XSWT0 plus its digit or XLINT plus its letter, has six characters, as a five-character bus name plus a phase letter does. |
| AtpFaults.InsertGroundFault | codigosPython/funcoesATP.py:256-293 | lin1 is the concatenated copies of the lines with section 1's library and bus2's phases renamed. lin2 is the same with section 2's library and bus1's phases. A faulted phase becomes XSWT0 plus its digit (A 1, B 2, C 3), and an unfaulted one becomes XLINT plus its letter. |
| AtpFaults.ConcatAppend | codigosPython/funcoesATP.py:282-291 | The accumulated text of two runs of lines is the concatenation of their texts. |
| AtpFaults.CopyUntouched | codigosPython/funcoesATP.py:283-288 | A line holding neither the library name nor any phase of the bus is copied unchanged. |
| AtpFaults.RenameOnce | codigosPython/funcoesATP.py:270-274 | A bus phase that occurs once is replaced by the node of that phase at the same position, and the text around it is kept. |
| AtpFaults.CopyRenames | codigosPython/funcoesATP.py:283-288 | A line whose one bus-phase occurrence is phase t is copied with NewNode(t, flags[t]) at that position and everything else kept. |
| AtpFaults.CopySplit | codigosPython/funcoesATP.py:283-288 | Across a separator that is in neither the library name, the bus nor a phase letter, a copy of the joined text is the copies of the two sides joined. |
| AtpFaults.CopyLibraryField | codigosPython/funcoesATP.py:278-284 | The library name alone becomes lttcc_L plus str(section) plus .lib, and no rename touches it. |
| AtpFaults.CopyPhaseField | codigosPython/funcoesATP.py:267-288 | A phase of a five-character bus alone becomes its new node, XSWT0 plus the digit when faulted and XLINT plus the letter otherwise. |
| AtpFaults.CopyField | codigosPython/funcoesATP.py:267-288 | Every known field (the library name, a phase of the bus, or a field with neither) is copied as FieldCopy says. |
| AtpFaults.CopySectionLine | codigosPython/funcoesATP.py:256-293 | A section line of fields between separators is copied field by field. The library name becomes the section's library, each phase of the bus its new node, and every other field is kept. |
| AtpFaults.OtherBusPlain | codigosPython/funcoesATP.py:267-288 | A phase of the other bus, of the same length, holds neither the library name nor a phase of the bus, so a copy keeps it. |
| AtpFaults.CopyLength | codigosPython/funcoesATP.py:283-288 | With a five-character bus, the renames keep a copy's length, so only the library replacement changes it. |
| AtpFaults.Chunk | codigosPython/funcoesATP.py:375 | The slice handed to the rewrite starts with the section line and holds its successor exactly when there is one. |
| AtpFaults.ReplicateLines | codigosPython/funcoesATP.py:364-387 | The skip-flag loop writes exactly Replicated with the rewrite FaultCopies: each section line and its successor become lin1 then lin2, and every other line is written as it is. |
| AtpFaults.CopiedUntil | codigosPython/funcoesATP.py:366-387 | Lines that are not section lines are written unchanged and in order. |
| AtpFaults.NoSectionUnchanged | codigosPython/funcoesATP.py:366-387 | A file with no $INCLUDE line naming both buses is written out unchanged. |
| AtpFaults.CopiedUpToSection | codigosPython/funcoesATP.py:366-387 | The output is the lines before the first section line, then the rewrite of that line and its successor, and the successor itself is skipped. |
| AtpFaults.ReplicatedLength | codigosPython/funcoesATP.py:366-387 | With a two-text rewrite, each section line takes its successor with it and writes two texts. So the output has at least as many texts as there are lines to write and at most one more. |
| AtpFaults.FaultFileLength | codigosPython/funcoesATP.py:364-387 | The new file has as many texts as the old one has lines, or one more: a section line and its successor become lin1 and lin2, and every other line is written once. |
| AtpResults.FirstPass | codigosPython/funcoesATP.py:54-80 | The first pass leaves the shared iterator between its start and the end of the listing. |
| AtpResults.SecondPass | codigosPython/funcoesATP.py:84-105 | The second pass resumes where the first left the iterator and leaves it between there and the end. |
| AtpResults.ExtractResults | codigosPython/funcoesATP.py:44-126 | The output is the first pass's lines, then the second pass's from where the first stopped, then the third pass's line. |
| AtpResults.ReadFirstPass | codigosPython/funcoesATP.py:49-80 | The first loop writes exactly FirstPass's lines and stops the iterator where FirstPass says. |
| AtpResults.ReadSecondPass | codigosPython/funcoesATP.py:82-105 | The second loop, with its counter reset at each suspension, writes exactly SecondPass's lines and stops where it says. |
| AtpResults.ReadThirdPass | codigosPython/funcoesATP.py:107-122 | The third loop passes over one line and writes the next one as a data line, if there is one. |
| AtpResults.SearchSkips | codigosPython/funcoesATP.py:54-56 | Lines read while the marker is still being searched for are passed over. |
| AtpResults.MarkerStartsOutput | codigosPython/funcoesATP.py:54-56 | Everything up to the first line holding "EMTP output variables follow." is ignored, and the pass starts after it with the count at 0. |
| AtpResults.NoMarkerNoOutput | codigosPython/funcoesATP.py:49-56 | A listing without the marker line yields no output at all. |
| AtpResults.FirstPassWrites | codigosPython/funcoesATP.py:58-77 | Every line the first pass writes comes from a line of the listing. It is either a "Step"/"Time" header, whitespace-collapsed, or the data line of a line with no "switch", no suspension and no final step. |
| AtpResults.SecondPassWrites | codigosPython/funcoesATP.py:84-102 | Every line the second pass writes is the data line of a line with no "switch", no suspension and no final step. |
| AtpResults.FirstPassKeeps | codigosPython/funcoesATP.py:58-77 | With the count past 6, every header (collapsed) and every line without "switch" before the next line that ends the pass is written, in order, and the pass then goes on as from that line. |
| AtpResults.FirstPassOutput | codigosPython/funcoesATP.py:58-77 | With the count past 6, the first pass writes exactly the kept lines before the first line that ends it, and the second pass starts right after that line. |
| AtpResults.SecondPassKeeps | codigosPython/funcoesATP.py:84-105 | With the count past 6, every line without "switch" before the next suspension or final step is written as its data line, in order. |
| AtpResults.SecondPassBetweenSuspensions | codigosPython/funcoesATP.py:84-105 | Up to a suspension the second pass writes exactly the kept lines, then writes nothing for that line and the 7 after it and carries on with the count at 7. |
| AtpResults.SecondPassOutput | codigosPython/funcoesATP.py:84-105 | With the count past 6, the second pass writes exactly the kept lines before the final step and stops there. |
| AtpResults.FirstPassEnds | codigosPython/funcoesATP.py:63-65 | Once its count is past 6, the first pass ends at the first non-header line holding "Suspended simulation" or "Final time step", and the second pass starts right after it. |
| AtpResults.SecondPassCounts | codigosPython/funcoesATP.py:85-105 | While the count is below 7, the second pass writes nothing and passes over lines until the count is full. |
| AtpResults.SuspensionSkipsSeven | codigosPython/funcoesATP.py:86-87 | A suspension in the second pass resets the counter, so the next 7 lines are passed over whatever they hold. |
| AtpResults.FinalStepEnds | codigosPython/funcoesATP.py:89-90 | "Final time step" ends the second pass, with nothing written for it. |
| AtpResults.RenameColumns | codigosPython/funcoesATP.py:138-174 | The ValueError case happens exactly when some column 3 to 8 has an unexpected name. The renaming succeeds exactly when there are at most 8 columns and all of columns 3 onward are expected. Then the first two names are kept, XL001A/B/C become VA/VB/VC, and XL001A.1/B.1/C.1 become IA/IB/IC. |
| AtpResults.LabelsInvertible | codigosPython/funcoesATP.py:143-172 | Every new label of columns 3 to 8 is one of VA, VB, VC, IA, IB, IC and leads back to the ATP name it replaced. |
| AtpResults.RowsWithStep | codigosPython/funcoesATP.py:424 | The rows selected by a Step value all hold that Step. |
| AtpResults.SampleMeter | codigosPython/funcoesATP.py:424-437 | The counter loop keeps the Step-1 rows, then appends the rows of every Step at which the counter is full. |
| AtpResults.CounterCycle | codigosPython/funcoesATP.py:426-435 | For an interval of at least 1, the counter at position p > 0 is (p-1) mod interval + 1. It never exceeds the interval, and it is full exactly at the positive multiples of the interval. |
| AtpResults.SampledPositions | codigosPython/funcoesATP.py:428-437 | With distinct Steps, the rows appended after the Step-1 rows are exactly those at 0-based positions interval, 2*interval, and so on. |
| AtpResults.Multiples | codigosPython/funcoesATP.py:428-437 | The sampled positions are positive multiples of the interval, below the number of rows. |
| Text.ContainsAt | codigosPython/funcoesATP.py:55 | Python's substring test holds exactly when the substring occurs at some position. |
| Text.TrimStartDrops | codigosPython/funcoesATP.py:61 | split() first drops a run of leading whitespace and nothing else. |
| Text.TokenPrefix | codigosPython/funcoesATP.py:61 | A word of split() is the prefix up to the first whitespace. |
| Text.WordsAreWords | codigosPython/funcoesATP.py:61 | split() yields non-empty words without whitespace. |
| Text.WordsOfJoin | codigosPython/funcoesATP.py:61 | Splitting a space-joined list of words gives the words back. |
| Text.CollapseIdempotent | codigosPython/funcoesATP.py:61 | Collapsing whitespace twice is collapsing once, and it keeps the words. |
| Text.RemoveFirstCount | codigosPython/funcoesATP.py:72-75 | remove("SPY:") with the ValueError ignored drops exactly one occurrence when there is one, and changes nothing otherwise. |
| Text.DataLineWords | codigosPython/funcoesATP.py:71-77 | A written data line holds exactly the words of its source line, less the first "SPY:". |
| Text.ReplaceAbsent | codigosPython/funcoesATP.py:283-284 | re.sub leaves a text without the pattern unchanged. When the replacement differs from the pattern, only such a text is left unchanged. |
| Text.ReplaceAt | codigosPython/funcoesATP.py:270-274 | re.sub puts the replacement exactly where the first occurrence of the pattern is, keeps the text before it, and goes on replacing in the text after it. |
| Text.ReplaceSplit | codigosPython/funcoesATP.py:270-284 | re.sub with a pattern that does not hold a character works on each side of that character separately. |
| Text.ReplaceLength | codigosPython/funcoesATP.py:270-274 | A replacement as long as the pattern keeps the length. A longer one never shortens the text and a shorter one never lengthens it. |
| Text.ReplaceBySelf | codigosPython/funcoesATP.py:283-284 | Replacing the pattern by itself changes nothing. |
| Text.DecimalDigits | codigosPython/funcoesATP.py:279-280 | str(n) is made of decimal digits with no leading zero. |
| Text.DecimalRoundTrip | codigosPython/funcoesATP.py:279-280 | Reading the digits of str(n) back gives n. |

## Left out

- `resolverSistemaEDO` and `simularLinha` are not modelled. They wrap numerical integration by `scipy.integrate.odeint`, which is floating point and a foreign call.
- `definirBarras` is not modelled. Its result depends on binary floating-point accumulation of 0.10, and exact arithmetic would give different bus names near 80%. Bus names are therefore parameters of the fault functions.
- `mudarResistenciaFalta` and `replicarMudarResistencia` are not modelled. They use a regex whose `.` is a wildcard and do file I/O. Their call site also passes its arguments in the wrong order.
- `criarBase`, `faltaFaseTerra10`, `simular`, `extrairTodos`, `lerTodosArquivos`, `lerTodosArquivosFourier` and `replicar99` are not modelled. They are file, subprocess, pandas and FFT glue. This covers the `km % 10 == 0` branch of `replicarFaltaTerra`, which hands over to `faltaFaseTerra10`.
- File handling is not modelled. Opening files, the `'x'` mode that fails when the output exists, flushing and the Windows paths are out. A file is its sequence of lines and the written file is the sequence of texts written. Lines keep their own terminators, and the `"\n"` that `extrairResultados` appends to each written line is left out.
- `pandas.read_csv` is not modelled. `lerResultados` is modelled from the column names on, and `amostrarMedidor` from the Step column on. Rows are identified by their 0-based position.
- AtpResults.SampleMeter takes the interval as a natural number. The `round(1/periodoDados/taxaAmostragem)` that computes it is floating point.
- AtpResults.SampledPositions assumes the Steps are distinct. With repeated Steps, `dados.loc[dados['Step'] == valor]` selects several rows, which SampleMeter still models exactly.
- PiCascade.Line.SectionSystem and PiCascade.Line.StateSpace require at least one rung and non-zero G, C and L[i], which the code assumes silently. With M = 0, line 188 indexes `L[0]` of an empty array, and a zero value divides by zero.
- PiCascade.Line.StateSpace calls the tiling as a static method. Line 269 calls `self.matrizTridiagonal(Ad=..., ...)` on a function declared without `self`, so Python would bind the instance to `Ad` and also receive `Ad` as a keyword. The model follows the evident intent.
- PiCascade.SectionA and PiCascade.LineValue use exact real arithmetic where numpy uses binary floating point.
- PiCascade.Line.Create checks a real section count for being whole, as `float(n).is_integer()` does. NaN and infinity, which make that call fail differently, are not modelled.
- Text.ReplaceAll treats the pattern `lttcc_L10.lib` as literal. In `re.sub` its `.` is a wildcard, so a line holding, for example, `lttcc_L10xlib` would also be rewritten there. Bus names hold no special characters, so their replacement is literal in both.
- AtpResults.FirstPassWrites states that header lines are written even when they contain "switch", since the header test comes first, as in the code. The third pass writes its line without any "switch" or stop test, as the code does.
- AtpFaults.CopySectionLine covers a section line made of fields between one separator character, with five-character bus names. The code does not fix the layout of its $INCLUDE line. Text shaped otherwise, such as a library path that ends in the library name, is covered only by Copy's own definition, ReplaceAt and ReplaceAbsent.
