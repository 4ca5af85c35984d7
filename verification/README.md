# Verified model of the M68K assembler and IDE runtime

This project models the stateful core of the repository in Dafny and proves what it promises:

* **The assembler back end.** Parsed statements, symbols and operands; the loader's two passes; the
  four layout passes and the emission pass; the bit-level instruction encoder, proved against a decoder
  written from sections 2.2 and 8 of the M68000 Family Programmer's Reference Manual; the compression of
  the output map into image segments; and the way from an instruction to image bytes and back.
* **The panel layout.** The document, every reducer, the presets, normalisation of stored documents,
  saved views and the drag model, with one inductive invariant over all runs and, for every reducer, what
  it changes and what it leaves alone.
* **The runtime command port.** The promise chain with its results and tails, session epochs and
  deduplication keys as a transition system over all interleavings.
* **The refresh paths.** Terminal row patches compiled to control sequences and interpreted by a terminal
  (sections 8.3.21 and 8.3.117 of ECMA-48), the deferred publisher of dirty rows, and both together from
  frame buffer to screen; pixel patches written into the graphics surface.
* **The frame loop and the register cache.** Slicing a run into frames, and reading registers only when
  their version has moved.

Code that changes state is modelled by methods and classes proved against functions; the properties are
lemmas about those functions; those named `…Means` and `…Effect` say what an operation does without
referring to how it is computed. Words are `bv16`, operand values `bv32`, addresses unbounded with the cuts
to 32 bits written out, sizes and widths `real`. Lemmas carry `{:induction false}` so that each proof is
the one written down.

## What the model found

Where the code does not do what it is for, the model keeps the code and a lemma says exactly when it does.

* `EOR Dn,Dm` is encoded as `CMP`, and operations from a data register to an address register as other
  instructions, such as ADDX or EXG (`EncoderRoundTrip.AluRoundTripsExactly`,
  `EncoderRoundTrip.ExclusiveOrBecomesCompare`, `EncoderRoundTrip.AddressTargetBecomesStranger`).
* Word branches to far targets are truncated (`EncoderRoundTrip.BranchRoundTripsExactly`), `DBRA` is given
  condition 0, which never branches (`EncoderRoundTrip.LoopConditionExactly`), and TRAPcc operands have
  their widths exchanged (`EncoderRoundTrip.TrapOperandExactly`).
* The expansion of a memory-to-memory `CMP` subtracts the destination from the source: Z is right, all flags
  together only for equal operands, and N and V by conditions of their own
  (`CompareSequence.ExpansionAgreesWithCompareExactly`). Operands at a distance from A7 are read four bytes too
  low (`CompareSequence.StackOperandIsReadLow`), operands whose steps of A7 do not cancel out can lose D7
  (`CompareSequence.StackOperandsKeepD7Exactly`), and a word comparison with an address register ignores its
  high half (`CompareSequence.AddressCompareExactly`).
* Characters outside the basic multilingual plane make layout and emission lengths differ
  (`Assembler.EmissionAgreesExactly`), and labels are right only at a fixed point of the layout, which
  four passes need not reach (`Assembler.LabelsMatchExactly`, `Loader.LateLabelIsWrong`).
* The loader's passes part when an operand that decides an address names a later label
  (`Loader.PassesAgreeExactly`, `Loader.LateCountParts`), and a blank data item takes room in the assembler
  alone (`LoaderEffects.DataLengthsAgreeExactly`).
* After restoring a document from outside, a generated panel identifier can collide
  (`PanelReducers.AddKeepsCoreExactly`, `PanelRuns.LateSequenceCollides`), and a stored order can list a
  view twice (`PanelRuns.StepKeepsViewsExactly`); negative column widths break the sum of 100
  (`PanelReducers.CommittedWidthsMakeHundredExactly`).
* A device identifier containing a bar lets two configurations share a deduplication key; colons do no harm
  (`DeviceSignature.KeyIdentifiesExactly`, `DeviceSignature.BarsConfuse`). A single-board configuration leaves
  the key standing (`CommandKeys.SubmitKeepsKeyExactly`), and an interrupt configuration still waiting when
  interrupts are cancelled turns them back on (`CommandKeys.TurningOffIsFinalExactly`).
* Publishing a terminal frame at once drops the rows that were pending and not flagged again
  (`TerminalSurface.ImmediateKeepsRowsExactly`, `TerminalSurface.ImmediateCanLoseARow`).
* A saved layout without panels comes back as the classic preset (`PanelRestoring.NoPanelsAreNotRestored`), and
  one with a panel or column below a tenth comes back rescaled (`PanelRestoring.SaveThenRestoreExactly`).
* A stored layout can repeat a column identifier, and then the drag model misjudges drops
  (`PanelDrag.NoOpExactly`, `PanelDrag.RepeatedColumnsMislead`).
* A graphics patch wider than the space right of it spills into the next row
  (`GraphicsSurface.PatchIsShownExactly`).
* A suppressed sync that is the first after a change makes the next ones stale
  (`RegisterCache.SyncShowsExactly`, `RegisterCache.SuppressedSyncGoesStale`).

## Model

| member | source | states |
|---|---|---|
| Operands.EaRoundTrip | packages/interpreter/src/assembler/sourceEncoder.ts:56-104 | an encoded effective address decodes to its operand, leaving what follows, exactly when the operand is representable |
| Movem.BuildMask | packages/interpreter/src/assembler/sourceEncoder.ts:679-684 | the loop over the registers sets their mask bits |
| Movem.MaskRoundTrip | packages/interpreter/src/assembler/sourceEncoder.ts:679-684 | the mask of any register list reads back as exactly the listed registers |
| Movem.SameRegistersSameMask | packages/interpreter/src/assembler/sourceEncoder.ts:679-684 | order and repetition in the list do not matter |
| Movem.PredecrementMaskIsReversed | packages/interpreter/src/assembler/sourceEncoder.ts:679-683 | the predecrement mask is the 16-bit reversal of the other |
| Movem.ExpandRange | packages/interpreter/src/instructionDecoder.ts:632-635 | the range loop lists the registers from the first to the last, in either direction |
| Movem.ParseRegisterList | packages/interpreter/src/instructionDecoder.ts:616-651 | segments expand in order to their registers |
| Movem.RangeDirectionIsImmaterial | packages/interpreter/src/instructionDecoder.ts:632-635 | a descending range gives the mask of the ascending one |
| EncoderRoundTrip.RoundTrip | packages/interpreter/src/assembler/sourceEncoder.ts:412-484 | every legal instruction of the modelled groups decodes to its canonical form and uses exactly its words |
| EncoderRoundTrip.StreamRoundTrip | packages/interpreter/src/assembler/sourceEncoder.ts:168-173 | the code of any list of legal instructions disassembles to that list, with nothing left over |
| EncoderRoundTrip.AluRoundTripsExactly | packages/interpreter/src/assembler/sourceEncoder.ts:530-575 | the register and memory forms of OR, SUB, CMP, EOR, AND and ADD keep their meaning exactly for the listed operand pairs |
| EncoderRoundTrip.ExclusiveOrBecomesCompare | packages/interpreter/src/assembler/sourceEncoder.ts:565-574 | EOR between data registers reads back as CMP |
| EncoderRoundTrip.AddressTargetBecomesStranger | packages/interpreter/src/assembler/sourceEncoder.ts:565-574 | an operation from a data to an address register is the word of ADDX, SUBX, CMPM, ABCD, SBCD, EXG, PACK or UNPK |
| EncoderRoundTrip.BranchRoundTripsExactly | packages/interpreter/src/assembler/sourceEncoder.ts:412-419 | a branch reaches its target exactly when the displacement fits its size |
| EncoderRoundTrip.LoopConditionExactly | packages/interpreter/src/assembler/sourceEncoder.ts:421-428 | DBcc is given its condition for every suffix but RA |
| EncoderRoundTrip.TrapOperandExactly | packages/interpreter/src/assembler/sourceEncoder.ts:52-54 | TRAPcc is encoded as the manual has it exactly when it has no operand |
| EncoderRoundTrip.MemoryCompareIsFourInstructions | packages/interpreter/src/assembler/sourceEncoder.ts:551-564 | the code of a memory CMP is a save of D7, a MOVE, a CMP and a restore of D7 |
| CompareSequence.ExpansionCompares | packages/interpreter/src/assembler/sourceEncoder.ts:551-564 | running the four instructions restores D7 and A7, writes only below the stack, and sets the flags of first minus second |
| CompareSequence.ExpansionAgreesWithCompareExactly | packages/interpreter/src/assembler/sourceEncoder.ts:551-564 | the flags are those of CMP exactly for equal operands; Z always is, C exactly for equal ones, N exactly for equal ones and ones that differ in the sign bit alone, V exactly for all but the latter |
| CompareSequence.RestoresWhatIsThere | packages/interpreter/src/assembler/sourceEncoder.ts:551-564 | for any operands of any size, the D7 restored is what the saved memory holds where the operands' steps have left A7 |
| CompareSequence.StackOperandsKeepD7Exactly | packages/interpreter/src/assembler/sourceEncoder.ts:551-564 | D7 is kept in every state of the machine exactly if the operands' steps of A7 cancel out: neither steps it, or one pushes and the other pops |
| CompareSequence.ExpansionComparesWhatItReads | packages/interpreter/src/assembler/sourceEncoder.ts:551-564 | for any operands, the flags are those of what is read while D7 is saved and loaded |
| CompareSequence.StackOperandIsReadLow | packages/interpreter/src/assembler/sourceEncoder.ts:551-564 | a first operand at a distance from A7 is read four bytes too low |
| CompareSequence.SecondStackOperandIsReadLow | packages/interpreter/src/assembler/sourceEncoder.ts:551-564 | so is a second one, whatever the first has made of A7 |
| CompareSequence.StackTopIsD7 | packages/interpreter/src/assembler/sourceEncoder.ts:551-564 | a long `(A7)` in first place is read as D7 itself |
| CompareSequence.StackPointerIsReadLow | packages/interpreter/src/assembler/sourceEncoder.ts:551-564 | A7 itself is four too low as a first operand |
| CompareSequence.AddressCompareExactly | packages/interpreter/src/assembler/sourceEncoder.ts:551-564 | for a word comparison with an address register, Z is that of CMPA exactly if the low words differ or the register is the extension of its low word |
| MachineCode.WordsToBytes | packages/interpreter/src/assembler/sourceEncoder.ts:43-50 | the buffer holds the words' bytes, high byte first |
| MachineCode.WordsAreReadBack | packages/interpreter/src/assembler/sourceEncoder.ts:43-50 | words written as bytes into an image are read from it as the same words |
| MachineCode.AssembledCodeDecodes | packages/interpreter/src/assembler/sourceAssembler.ts:231-235 | in an image assembled without going back, the words at an instruction's address decode to that instruction |
| CodeLayout.LengthIsShape | packages/interpreter/src/assembler/sourceEncoder.ts:52-104 | whether an instruction can be encoded, and in how many words, does not depend on addresses, displacements or values, except whether a plain displacement is zero |
| CodeLayout.DisplacementDecidesLength | packages/interpreter/src/assembler/sourceEncoder.ts:66-92 | operands that differ in their displacement alone take as many words exactly if both are zero or neither is, or there is an index or step |
| CodeLayout.InstructionIsLabelBlind | packages/interpreter/src/assembler/sourceAssembler.ts:189-199 | an encoded instruction whose operand shapes do not depend on labels has a label-independent layout |
| CodeLayout.BranchIsLabelBlind | packages/interpreter/src/assembler/sourceEncoder.ts:412-419 | a branch takes as many words whatever its label's address is |
| CodeLayout.BranchesLeadToLabels | packages/interpreter/src/assembler/sourceEncoder.ts:412-419 | in a stable program a branch to a label, decoded from the image, leads to where the label's bytes begin |
| ProgramImage.IsMonotonic | packages/interpreter/src/assembler/sourceAssembler.ts:248-256 | the scan of the keys finds out whether they ascend |
| ProgramImage.BuildRanges | packages/interpreter/src/assembler/sourceAssembler.ts:260-270 | the ranges are separated and cover exactly the addresses |
| ProgramImage.BuildSegments | packages/interpreter/src/assembler/sourceAssembler.ts:247-277 | the segments are the canonical ones of the output map, on the sorted and on the unsorted path |
| ProgramImage.CanonicalIsUnique | packages/interpreter/src/assembler/sourceAssembler.ts:247-277 | a set of bytes has one canonical segment list, so the order of writing does not matter |
| ProgramImage.HasOverlap | packages/interpreter/src/assembler/programImage.ts:81-86 | looking at neighbours finds an overlap if any two segments overlap |
| ProgramImage.CreateSegmentedProgramImage | packages/interpreter/src/assembler/programImage.ts:67-97 | accepts segments exactly when they are disjoint once sorted |
| ProgramImage.CanonicalSegmentsAreAccepted | packages/interpreter/src/assembler/programImage.ts:67-97 | the assembler's segments are never rejected, reordered or cut |
| Assembler.LengthsAgreeExactly | packages/interpreter/src/assembler/sourceAssembler.ts:59-132 | a statement's layout length is its code length exactly when its strings have no surrogate pair |
| Assembler.EmissionAgreesExactly | packages/interpreter/src/assembler/sourceAssembler.ts:160-245 | emission follows the layout statement by statement exactly when no string has a surrogate pair |
| Assembler.LabelsMatchExactly | packages/interpreter/src/assembler/sourceAssembler.ts:200-202 | every label is where its bytes begin if and only if one more pass changes no symbol |
| Assembler.GrowingLabel | packages/interpreter/src/assembler/sourceAssembler.ts:160-203 | a program whose label moves in every pass, and is never where its bytes begin |
| Assembler.StableFourthPass | packages/interpreter/src/assembler/sourceAssembler.ts:158-245 | if the fourth pass changes no symbol and reports no error, emission succeeds, follows it, and the labels are right |
| Assembler.StableProgramIsEmitted | packages/interpreter/src/assembler/sourceAssembler.ts:158-245 | a stable program that only goes forwards is emitted, and every statement's code is in the image where the labels say |
| Assembler.BlindProgramSettlesAtOnce | packages/interpreter/src/assembler/sourceAssembler.ts:160-203 | a program whose layout does not depend on labels is settled by the first pass, whatever the loader guessed |
| Assembler.BlindPasses | packages/interpreter/src/assembler/sourceAssembler.ts:160-203 | for such a program all passes after the first give the same symbols |
| Assembler.DirectiveIsLabelBlind | packages/interpreter/src/assembler/sourceAssembler.ts:59-81 | a directive whose address or count names no label has a label-independent layout |
| Assembler.EmittedCodeStays | packages/interpreter/src/assembler/sourceAssembler.ts:209-245 | when no ORG goes back, every statement's code is in the final output at its address |
| AssemblerPasses.WriteScalar | packages/interpreter/src/assembler/sourceAssembler.ts:83-94 | writes the big-endian bytes of a value |
| AssemblerPasses.WriteCharacters | packages/interpreter/src/assembler/sourceAssembler.ts:123-126 | writes one scalar per character of a quoted value |
| AssemblerPasses.EmitDirective | packages/interpreter/src/assembler/sourceAssembler.ts:96-132 | writes exactly the directive's code and moves the cursor past it |
| AssemblerPasses.LayoutPass | packages/interpreter/src/assembler/sourceAssembler.ts:161-199 | finds every statement's start and whether all instructions can be encoded |
| AssemblerPasses.UpdateLabels | packages/interpreter/src/assembler/sourceAssembler.ts:200-202 | sets every label to its statement's start |
| AssemblerPasses.EmitProgram | packages/interpreter/src/assembler/sourceAssembler.ts:209-245 | the emission loop computes the emission function, or its first error |
| AssemblerPasses.Assemble | packages/interpreter/src/assembler/sourceAssembler.ts:144-287 | diagnoses exactly the programs with load errors or code that cannot be encoded in the fourth pass; otherwise the image holds the emitted bytes in canonical segments |
| AssemblerPasses.EntryPointMeans | packages/interpreter/src/assembler/sourceAssembler.ts:278-282 | the image is entered at the label END names, and otherwise at the lowest of the origin and the addresses ORGs reach |
| DataImage.ScalarReadsBack | packages/interpreter/src/assembler/sourceAssembler.ts:83-94 | the bytes of a value, read high byte first, are the value cut to its size |
| DataImage.OperandMeans | packages/interpreter/src/assembler/sourceAssembler.ts:40-54 | the value of an operand: a number, a symbol, or the first unit of a quoted text |
| DataImage.CharactersAreUnits | packages/interpreter/src/assembler/sourceAssembler.ts:123-126 | without surrogate pairs every code unit of a quoted text is written |
| DataImage.PairsLoseTheirSecondHalf | packages/interpreter/src/assembler/sourceAssembler.ts:123-126 | of a surrogate pair only the first half is written |
| DataImage.DataAreCells | packages/interpreter/src/assembler/sourceAssembler.ts:118-131 | the bytes of a DC, read in elements of its size, are its values and characters one after the other |
| DataImage.CodeIsCells | packages/interpreter/src/assembler/sourceAssembler.ts:96-132 | so are those of a DCB, with its fill as often as it counts, and of a DS, with zeros |
| DataImage.DataIsReadBack | packages/interpreter/src/assembler/sourceAssembler.ts:96-245 | in the final output every element of a DC, repetition of a DCB and unit of a DS is read back from its address, high byte first, as its value cut to the element size |
| EmissionTrace.PlaceMeans | packages/interpreter/src/assembler/sourceAssembler.ts:216-229 | where a statement is placed: at an even address unless it is byte data, ORG at its operand |
| EmissionTrace.SourceMapIsExact | packages/interpreter/src/assembler/sourceAssembler.ts:236-243 | the source map has exactly the statements with code, in order and once each, where and as long as they lie |
| EmissionTrace.LoadAddressIsLowest | packages/interpreter/src/assembler/sourceAssembler.ts:211-222 | the load address is the lowest of the origin and the addresses ORGs reach |
| Loader.CollectForwardSymbolAddresses | packages/interpreter/src/programLoader.ts:257-321 | the forward pass computes the forward table up to the first END |
| Loader.RegisterAll | packages/interpreter/src/programLoader.ts:120-126 | registers labels in order and stops at the first that is taken |
| Loader.LoadProgramSource | packages/interpreter/src/programLoader.ts:45-255 | the main pass computes the load against the forward table |
| Loader.PassesAgreeExactly | packages/interpreter/src/programLoader.ts:63-321 | for a load without errors the passes have the same address, waiting labels and names line by line if and only if every EQU operand is known by then, every ORG operand is known or happens to be the address reached, and every count is known and below 2^32 or unknown and zero in the end |
| Loader.ForwardReferencesAreFinal | packages/interpreter/src/programLoader.ts:47-52 | at any line a symbol reads its final value cut to 32 bits; the tables agree exactly where the forward value fits |
| Loader.LateCountParts | packages/interpreter/src/programLoader.ts:311-315 | a count that names a later label makes the passes differ without an error |
| Loader.LateLabelIsWrong | packages/interpreter/src/assembler/sourceAssembler.ts:158-203 | the assembler, given those lines, still moves the label in its fourth pass |
| Loader.LoadedProgramIsValid | packages/interpreter/src/programLoader.ts:120-132 | a load without exception gives the assembler distinct labels of existing statements |
| LoaderEffects.ResolveMeans | packages/interpreter/src/programLoader.ts:643-680 | what an operand of a data directive stands for, and when it stands for nothing |
| LoaderEffects.DataLengthsAgreeExactly | packages/interpreter/src/programLoader.ts:294-303 | the loader and the assembler give data the same length exactly if no item is blank |
| LoaderEffects.RegisterMeans | packages/interpreter/src/programLoader.ts:437-451 | registering succeeds exactly for new and different names, and then each of them has the value and labels the next statement |
| LoaderEffects.AdvanceMeans | packages/interpreter/src/programLoader.ts:457-548 | a directive moves the address by its elements and reports exactly what it needs and does not know |
| LoaderEffects.LineIsRead | packages/interpreter/src/programLoader.ts:63-237 | a line is read without error exactly under a condition on its labels and operands; then its labels have the address in front of it, the address is past it, and it is the last statement |
| LoaderEffects.FinishMeans | packages/interpreter/src/programLoader.ts:136-146 | END is kept as the last statement and names the entry label |
| Records.DistinctByCount | packages/ide/src/store/panelLayoutValidation.ts:620-620 | a list is free of repetitions exactly when nothing is counted twice |
| PanelTypes.CoreHasNoErrors | packages/ide/src/store/panelLayoutValidation.ts:607-650 | the invariant leaves the repository's own check nothing to report |
| PanelTypes.DevicesAreDistinct | packages/ide/src/store/panelLayoutTypes.ts:264-291 | collected devices have distinct identifiers in any document, so the last check cannot fail |
| PanelInvariant.NormalizedIsSized | packages/ide/src/store/panelLayoutSlice.ts:27-40 | renormalised sizes are the column's, positive, and make up 100 |
| PanelInvariant.ProportionsAreKept | packages/ide/src/store/panelLayoutSlice.ts:32-39 | panels that had sizes keep their proportion |
| PanelInvariant.SizedIsNormalized | packages/ide/src/store/panelLayoutSlice.ts:27-40 | a column with proper sizes is left as it is |
| PanelInvariant.RemovePlacementUnplaces | packages/ide/src/store/panelLayoutSlice.ts:42-49 | removes one panel from wherever it is and nothing else, keeping all sizes proper |
| PanelInvariant.PlaceInColumnPlaces | packages/ide/src/store/panelLayoutSlice.ts:102-107 | inserting the missing panel makes the placement complete again |
| PanelReducers.ReplacementIsExact | packages/ide/src/store/panelLayoutSlice.ts:51-64 | a replacement owner is a terminal, and there is one whenever a terminal exists |
| PanelReducers.ReplacementIsVisible | packages/ide/src/store/panelLayoutSlice.ts:51-64 | it is a visible one whenever a placed terminal is visible |
| PanelReducers.AddKeepsCoreExactly | packages/ide/src/store/panelLayoutSlice.ts:66-112 | creating a panel keeps the invariant exactly when nothing is created or the identifier is new |
| PanelReducers.AddKeepsFresh | packages/ide/src/store/panelLayoutSlice.ts:72-82 | identifiers made later stay new |
| PanelReducers.DuplicateKeepsCoreExactly | packages/ide/src/store/panelLayoutSlice.ts:137-157 | duplicating keeps the invariant exactly when nothing is created or the identifier is new |
| PanelReducers.RevealKeepsCoreExactly | packages/ide/src/store/panelLayoutSlice.ts:269-279 | revealing keeps it exactly when a panel of the kind is there, nothing is created or the identifier is new |
| PanelReducers.HardwareKeepsCore | packages/ide/src/store/panelLayoutSlice.ts:158-189 | rebinding all panels of a device keeps it |
| PanelReducers.CloseKeepsCore | packages/ide/src/store/panelLayoutSlice.ts:231-240 | closing keeps it, with a new owner if needed |
| PanelReducers.ToggleKeepsCore | packages/ide/src/store/panelLayoutSlice.ts:241-248 | minimising keeps it |
| PanelReducers.FocusKeepsCore | packages/ide/src/store/panelLayoutSlice.ts:249-260 | focusing keeps it |
| PanelReducers.ColumnCountKeepsCore | packages/ide/src/store/panelLayoutSlice.ts:280-303 | adding columns, and merging those that go into the last that stays, keeps it |
| PanelReducers.MoveKeepsCore | packages/ide/src/store/panelLayoutSlice.ts:338-355 | moving keeps it and makes no new names |
| PanelReducers.FloatKeepsCore | packages/ide/src/store/panelLayoutSlice.ts:356-364 | floating keeps it |
| PanelReducers.CommittedWidthsMakeHundredExactly | packages/ide/src/store/panelLayoutSlice.ts:304-315 | committed widths make up 100 exactly when none is negative |
| PanelEffects.CloseEffect | packages/ide/src/store/panelLayoutSlice.ts:231-240 | exactly the closed panel leaves the table, its column and the floating list; its focus goes, its ownership is handed on, and nothing else changes |
| PanelEffects.ReplacementTakesOver | packages/ide/src/store/panelLayoutSlice.ts:51-64 | the new owner is the focused panel if it is a visible terminal, else the topmost floating one, else the first docked one, else the first terminal |
| PanelEffects.ToggleEffect | packages/ide/src/store/panelLayoutSlice.ts:241-248 | one flag is flipped, and a panel now hidden hands its ownership on |
| PanelEffects.FocusEffect | packages/ide/src/store/panelLayoutSlice.ts:249-260 | focuses and expands the panel, puts it on top if it floats, and does not count as an edit |
| PanelEffects.OwnerChoiceEffect | packages/ide/src/store/panelLayoutSlice.ts:261-268 | a terminal becomes owner, focused and expanded; anything else is refused |
| PanelEffects.RevealEffect | packages/ide/src/store/panelLayoutSlice.ts:269-279 | the first panel of the kind is focused and expanded, or else one is created |
| PanelEffects.AddEffect | packages/ide/src/store/panelLayoutSlice.ts:66-112 | while there is room, exactly one panel is added: with the next identifier and its usual title and settings, floating or at its position in the column named or else in the rightmost of those with the fewest expanded panels, focused, and owner if it is the first terminal |
| PanelEffects.ExpandedCounts | packages/ide/src/store/panelLayoutSlice.ts:97-98 | the panels counted are those that are not minimised |
| PanelEffects.DuplicateEffect | packages/ide/src/store/panelLayoutSlice.ts:137-157 | a copy is created like a new panel and takes the title, and the settings unless they bind a device |
| PanelEffects.RemovingLoses | packages/ide/src/store/panelLayoutSlice.ts:42-49 | every column loses the panel and keeps the others in order and proportion; a column without it is not touched |
| PanelEffects.PlacingGains | packages/ide/src/store/panelLayoutSlice.ts:102-107 | one column has the panel at the position asked for, cut to its length; the others are not touched |
| PanelColumnEffects.ColumnCountEffect | packages/ide/src/store/panelLayoutSlice.ts:280-303 | columns are appended empty or merged into the last that stays, in from one to four equal widths; all docked panels keep their order |
| PanelColumnEffects.WidthsEffect | packages/ide/src/store/panelLayoutSlice.ts:304-315 | widths are taken over in proportion if as many as columns are given and one is positive; nothing else changes |
| PanelColumnEffects.SizesEffect | packages/ide/src/store/panelLayoutSlice.ts:316-337 | a column of two panels or more takes over positive sizes in proportion; nothing else changes |
| PanelColumnEffects.MoveEffect | packages/ide/src/store/panelLayoutSlice.ts:338-355 | the panel leaves its place for the position asked for in the first column of the identifier, without rectangle and focused |
| PanelColumnEffects.FloatEffect | packages/ide/src/store/panelLayoutSlice.ts:356-364 | the panel leaves its place for the top of the floating ones, in the clamped or the usual rectangle, and is focused |
| PanelColumnEffects.MoveFloatingEffect | packages/ide/src/store/panelLayoutSlice.ts:365-375 | a floating panel gets its clamped rectangle, comes to the top and is focused |
| PanelColumnEffects.HardwareEffect | packages/ide/src/store/panelLayoutSlice.ts:158-189 | exactly the panels bound to the same device take the settings |
| PanelColumnEffects.BitLabelEffect | packages/ide/src/store/panelLayoutSlice.ts:190-203 | one label is set, trimmed and cut to 32 characters, and the others are kept |
| PanelPresets.BuildPreset | packages/ide/src/panels/panelPresets.ts:19-78 | the nested loops build the preset's document, or fail with the device allocator |
| PanelPresets.PresetSatisfiesInvariant | packages/ide/src/panels/panelPresets.ts:19-78 | a well-formed definition builds a document with the invariant |
| PanelPresets.PresetsSatisfyInvariant | packages/ide/src/panels/panelPresets.ts:80-172 | all seven presets satisfy the invariant |
| PanelPresetEffects.PresetMeans | packages/ide/src/panels/panelPresets.ts:19-78 | a preset has the panels of its entries in the places, sizes and widths its definition gives or in equal ones; the first is focused and the first terminal is the owner |
| PanelPresetEffects.PresetIsNumbered | packages/ide/src/panels/panelPresets.ts:30-45 | without numbers of their own, panels are numbered from one in their order |
| PanelNormalization.NormalizedIsCore | packages/ide/src/store/panelLayoutValidation.ts:450-566 | whatever was stored, the normalised document satisfies the core invariant and the repository's check finds no error |
| PanelNormalEffects.DocumentIsRead | packages/ide/src/store/panelLayoutValidation.ts:450-566 | of any stored document, what comes back: panels, places, rectangles, sizes and widths, focus, owner, name and sequences, as far as they are usable |
| PanelNormalEffects.PlacingMeans | packages/ide/src/store/panelLayoutValidation.ts:481-545 | a panel is where the layout first mentions it, columns before the floating list, in the order of first mention; others go to the end of the first column; raised sizes and widths keep their proportions |
| PanelNormalEffects.InstancesAreRead | packages/ide/src/store/panelLayoutValidation.ts:456-479 | every entry of a known kind is read with its title, flag, settings and rectangle |
| PanelNormalEffects.ReadingFailsExactly | packages/ide/src/store/panelLayoutValidation.ts:456-479 | reading fails exactly if there are no settings for an entry it comes to |
| PanelRestoring.SaveThenRestoreExactly | packages/ide/src/store/panelLayoutSlice.ts:403-426 | saving a view and restoring it keeps placement, order, rectangles, focus, owner and sequences exactly when the layout has panels and its sequence numbers are in their range; and sizes and widths too exactly when those are besides at least a tenth and the widths make up 100 |
| PanelRestoring.RunRestoresExactly | packages/ide/src/store/panelLayoutSlice.ts:403-426 | in runs from a preset the sequence numbers always are in their range |
| PanelRestoring.EmptyBecomesClassic | packages/ide/src/store/panelLayoutValidation.ts:529-529 | a layout without panels comes back as the classic preset |
| PanelRestoring.NoPanelsAreNotRestored | packages/ide/src/store/panelLayoutSlice.ts:403-426 | such a layout satisfies the invariant and has proper widths, and is not kept |
| PanelRestoring.RescaledTwiceIsSameExactly | packages/ide/src/store/panelLayoutValidation.ts:481-545 | normalising twice scales back to the same sizes and widths exactly when the first time changed none |
| PanelRestoring.SizesShrink | packages/ide/src/store/panelLayoutValidation.ts:38-46 | raising small sizes raises no other, and lowers all others if one was too small |
| PanelNormalization.RestoredIsInv | packages/ide/src/store/panelLayoutSlice.ts:420-426 | restoring a layout saved in a run gives the full invariant again |
| PanelNormalizer.ReadInstances | packages/ide/src/store/panelLayoutValidation.ts:456-479 | reads the first 32 instances of a known kind |
| PanelNormalizer.TakeUnseen | packages/ide/src/store/panelLayoutValidation.ts:487-492 | takes known identifiers once each and marks them as seen |
| PanelNormalizer.PlacePanels | packages/ide/src/store/panelLayoutValidation.ts:481-534 | columns, floating list, orphans, sizes, widths and rectangles as the specification has them |
| PanelNormalizer.NormalizePanelLayoutDocument | packages/ide/src/store/panelLayoutValidation.ts:450-566 | the whole normalisation |
| PanelRuns.StepKeepsCoreExactly | packages/ide/src/store/panelLayoutSlice.ts:126-442 | an action keeps the core invariant of the layout and of all saved views if and only if it gives no new panel an identifier in use |
| PanelRuns.StepKeepsInv | packages/ide/src/store/panelLayoutSlice.ts:126-442 | without imported documents every action keeps the full invariant |
| PanelRuns.RunKeepsInvariant | packages/ide/src/store/panelLayoutSlice.ts:126-442 | from a preset every sequence of actions without imports can be carried out to its end, and every state it reaches satisfies the invariant and passes the repository's check |
| PanelRuns.RunKeepsCoreExactly | packages/ide/src/store/panelLayoutSlice.ts:126-442 | with imported documents, exactly the runs in which no new panel takes an identifier in use keep the core invariant all along |
| PanelRuns.RunKeepsCore | packages/ide/src/store/panelLayoutSlice.ts:126-442 | such runs go to their end, and the repository's check finds nothing there |
| PanelRuns.RunKeepsOwner | packages/ide/src/store/panelLayoutSlice.ts:51-64 | in every reachable state the owner is set exactly when a terminal exists, and is one |
| PanelRuns.StepKeepsViewsExactly | packages/ide/src/store/panelLayoutSlice.ts:403-440 | every action keeps saved views listed once each and at most twenty, except reading a stored state whose order repeats a view |
| PanelRuns.LateSequenceCollides | packages/ide/src/store/panelLayoutValidation.ts:557-560 | a stored layout whose next identifier is taken, and the broken placement that the next panel causes |
| PanelState.HydratedIsCore | packages/ide/src/store/panelLayoutValidation.ts:568-605 | whatever was stored, the layout and all views read from it satisfy the core invariant |
| PanelState.HydrationListsOnceExactly | packages/ide/src/store/panelLayoutValidation.ts:585-592 | views read from storage are listed once each exactly if the stored order repeats none of them |
| PanelViews.HydratingMeans | packages/ide/src/store/panelLayoutValidation.ts:568-605 | the layout, up to twenty views, their order and the source come back, or nothing does |
| PanelViews.ViewsAreReadBack | packages/ide/src/store/panelLayoutValidation.ts:572-584 | of the first entries exactly those that name no preset become views, with their names cut and their documents normalised |
| PanelViews.SavingMeans | packages/ide/src/store/panelLayoutSlice.ts:403-419 | a normalised copy is entered under its shortened name exactly if the name is not blank and there is room; the layout stays |
| PanelViews.RenamingMeans | packages/ide/src/store/panelLayoutSlice.ts:427-434 | one name changes, unless the new one is blank |
| PanelViews.RestoringLaterIsTheSame | packages/ide/src/store/panelLayoutSlice.ts:403-440 | whatever is done after saving a view, short of saving over, deleting or replacing it, restoring it gives what restoring it at once would have given |
| PanelStore.ReadViews | packages/ide/src/store/panelLayoutValidation.ts:572-584 | the loop reads the first twenty named views |
| PanelStore.ReadOrder | packages/ide/src/store/panelLayoutValidation.ts:585-592 | keeps the stored order of the views there are, and appends the others |
| PanelStore.PanelLayoutStore.HydratePanelLayout | packages/ide/src/store/panelLayoutSlice.ts:130-132 | the whole new state |
| PanelStore.PanelLayoutStore.RemovePlacement | packages/ide/src/store/panelLayoutSlice.ts:42-49 | the loop over the columns computes the removal |
| PanelStore.PanelLayoutStore.AddInstance | packages/ide/src/store/panelLayoutSlice.ts:66-112 | registers, places and focuses a new panel, or changes nothing |
| PanelStore.PanelLayoutStore.CreatePanel | packages/ide/src/store/panelLayoutSlice.ts:133-136 | the whole new state |
| PanelStore.PanelLayoutStore.DuplicatePanel | packages/ide/src/store/panelLayoutSlice.ts:137-157 | the whole new state |
| PanelStore.PanelLayoutStore.CommitHardwareConfiguration | packages/ide/src/store/panelLayoutSlice.ts:158-189 | the whole new state |
| PanelStore.PanelLayoutStore.ClosePanel | packages/ide/src/store/panelLayoutSlice.ts:231-240 | the whole new state |
| PanelStore.PanelLayoutStore.SetColumnCount | packages/ide/src/store/panelLayoutSlice.ts:280-303 | the whole new state |
| PanelStore.PanelLayoutStore.CommitColumnWidths | packages/ide/src/store/panelLayoutSlice.ts:304-315 | the whole new state |
| PanelStore.PanelLayoutStore.MovePanel | packages/ide/src/store/panelLayoutSlice.ts:338-355 | the whole new state |
| PanelStore.PanelLayoutStore.FloatPanel | packages/ide/src/store/panelLayoutSlice.ts:356-364 | the whole new state |
| PanelStore.PanelLayoutStore.SaveView | packages/ide/src/store/panelLayoutSlice.ts:403-419 | the whole new state |
| PanelStore.PanelLayoutStore.RestoreView | packages/ide/src/store/panelLayoutSlice.ts:420-426 | the whole new state |
| PanelStore.CollectDevices | packages/ide/src/store/panelLayoutTypes.ts:264-291 | the loop with its seen set collects the first device of each identifier |
| PanelDrag.EveryPanelHasSource | packages/ide/src/panels/panelDragModel.ts:187-200 | every panel of a layout has a drag source |
| PanelDrag.NoOpExactly | packages/ide/src/panels/panelDragModel.ts:202-213 | a drop leaves all orders unchanged if and only if it is reported as a no-op and the column its source names is found where the panel is |
| PanelDrag.DistinctColumnsAreFound | packages/ide/src/panels/panelDragModel.ts:187-200 | if no two columns share an identifier every panel is found so |
| PanelDrag.RepeatedColumnsMislead | packages/ide/src/panels/panelDragModel.ts:202-213 | a layout with a repeated column identifier where a drop that moves a panel is reported as a no-op |
| PanelDrag.DropLandsBetweenExactly | packages/ide/src/panels/panelDragModel.ts:161-205 | any other drop puts the panel directly between the target's neighbours if and only if the panel is found, comes from another identifier, or the target is not behind its position |
| PanelDrag.DropKeepsOthers | packages/ide/src/store/panelLayoutSlice.ts:338-355 | a drop keeps the order of all other panels everywhere |
| PanelDrag.EveryPlaceIsOffered | packages/ide/src/panels/panelDragModel.ts:161-205 | for every position of every column there is a dock target that puts a found panel there |
| RuntimeSession.RuntimeSessionStore.Replace | packages/ide/src/runtime/runtimeSessionStore.ts:47-53 | publishes another session under the next epoch, the same one not at all |
| RuntimeSession.RuntimeSessionStore.Clear | packages/ide/src/runtime/runtimeSessionStore.ts:54-63 | clears only the expected session |
| RuntimeSession.EpochsIdentifySnapshots | packages/ide/src/runtime/runtimeSessionStore.ts:34-42 | epochs never shrink, and equal epochs mean the same snapshot |
| CommandPort.StepKeepsOrder | packages/ide/src/runtime/runtimeCommandPort.ts:64-82 | in every step each command waits for its predecessor's tail, results are pending until their commands settle, and no tail is ever rejected |
| CommandPort.NothingIsPassedOn | packages/ide/src/runtime/runtimeCommandPort.ts:77-80 | no rejection ever reaches a waiting command |
| CommandPort.OneAtATime | packages/ide/src/runtime/runtimeCommandPort.ts:64-82 | while an operation runs, all submitted before it have settled and all after it wait |
| CommandPort.StartsInOrder | packages/ide/src/runtime/runtimeCommandPort.ts:64-82 | when a command starts, all submitted before it are over and none after it has begun |
| CommandPort.NothingBlocks | packages/ide/src/runtime/runtimeCommandPort.ts:77-80 | every waiting command can get its turn, whichever of those before it fail |
| CommandPort.SubmitMeans | packages/ide/src/runtime/runtimeCommandPort.ts:64-82 | a submitted command is one more job, as given, for the present snapshot, waiting for the tail |
| CommandPort.StartMeans | packages/ide/src/runtime/runtimeCommandPort.ts:66-76 | in every reachable state a command whose turn it is runs exactly if its snapshot is the present one and has a session; it is stale exactly if that has moved, and unavailable exactly if not and there is no session |
| CommandPort.FinishMeans | packages/ide/src/runtime/runtimeCommandPort.ts:66-81 | a running operation is rejected exactly if it fails |
| CommandPort.EveryCommandRuns | packages/ide/src/runtime/runtimeCommandPort.ts:64-82 | every waiting command of the present session comes to run, whichever of those before it fail |
| CommandPort.RunsAgainstItsSession | packages/ide/src/runtime/runtimeCommandPort.ts:65-74 | an operation starts only against the session and epoch captured when it was submitted |
| CommandPort.EpochFencesSession | packages/ide/src/runtime/runtimeCommandPort.ts:68-70 | a command is stale exactly if the epoch has moved |
| CommandPort.RuntimeCommandPort.Enqueue | packages/ide/src/runtime/runtimeCommandPort.ts:64-82 | chains a command to the tail and makes a new tail |
| CommandPort.RuntimeCommandPort.RunHandler | packages/ide/src/runtime/runtimeCommandPort.ts:66-76 | refuses stale and missing sessions, and starts otherwise |
| CommandPort.RuntimeCommandPort.RunTailHandler | packages/ide/src/runtime/runtimeCommandPort.ts:77-80 | fulfils the tail whatever the result |
| CommandPort.RuntimeCommandPort.ConfigureHardwareDevices | packages/ide/src/runtime/runtimeCommandPort.ts:246-274 | skips or submits, with the whole new state |
| CommandPort.RuntimeCommandPort.CleanUpAfter | packages/ide/src/runtime/runtimeCommandPort.ts:275-288 | forgets the key of a configuration that was not applied |
| CommandKeys.SubmitKeepsKeyExactly | packages/ide/src/runtime/runtimeCommandPort.ts:246-264 | submitting keeps a key honest exactly when it is not a single-board configuration under a set device key |
| CommandKeys.RunKeepsKey | packages/ide/src/runtime/runtimeCommandPort.ts:246-289 | in every run a set device or interrupt key names the latest deciding command, which is queued, running, applied, or failed and not yet cleaned up |
| CommandKeys.SkippedIsLatest | packages/ide/src/runtime/runtimeCommandPort.ts:259-262 | a skipped configuration is the latest one, of the current session |
| CommandKeys.SkippedExactly | packages/ide/src/runtime/runtimeCommandPort.ts:259-262 | a configuration is skipped exactly if its key is the remembered one |
| CommandKeys.KeyChangesExactly | packages/ide/src/runtime/runtimeCommandPort.ts:246-289 | a key is set by submitting its configuration, forgotten exactly when that fails or another decides, and otherwise kept |
| CommandKeys.ComesBackExactly | packages/ide/src/runtime/runtimeCommandPort.ts:336-375 | interrupts that are off can come on without a new configuration exactly if one with levels waits that was submitted to the present session, and that has no controller |
| CommandKeys.TurningOffIsFinalExactly | packages/ide/src/runtime/runtimeCommandPort.ts:369-375 | cancelling or resetting is final exactly if no such configuration is waiting |
| CommandKeys.CancelledInterruptsComeBack | packages/ide/src/runtime/runtimeCommandPort.ts:348-375 | a run in which a waiting configuration turns cancelled interrupts back on |
| Text.DecimalIsInjective | packages/ide/src/runtime/runtimeCommandPort.ts:250-259 | different numbers have different numerals |
| Text.JoinedIsInjective | packages/ide/src/runtime/runtimeCommandPort.ts:250-258 | texts without the separator can be told from their joined text |
| DeviceSignature.KeyIdentifiesConfiguration | packages/ide/src/runtime/runtimeCommandPort.ts:250-259 | keys are equal exactly for the same epoch and the same devices, for identifiers without bars |
| DeviceSignature.DeviceIsRead | packages/ide/src/runtime/runtimeCommandPort.ts:252-257 | a device is read back from its text, whatever its identifier holds |
| DeviceSignature.SignatureIdentifiesDevices | packages/ide/src/runtime/runtimeCommandPort.ts:250-258 | for identifiers without bars signatures are equal exactly for the same devices |
| DeviceSignature.KeyIdentifiesExactly | packages/ide/src/runtime/runtimeCommandPort.ts:250-259 | among all configurations a key identifies exactly those of at most one device whose identifier has no bar behind a device text |
| DeviceSignature.BarsConfuse | packages/ide/src/runtime/runtimeCommandPort.ts:250-259 | one device whose identifier has such a bar passes for two |
| Ansi.BuildStyleCodes | packages/ide/src/runtime/terminalAnsiPatch.ts:15-38 | pushes the codes of a cell's flags and colours |
| Ansi.BuildRow | packages/ide/src/runtime/terminalAnsiPatch.ts:63-78 | the loop over the columns, with run compression, builds the row's text |
| Ansi.BuildTerminalAnsiRowPatch | packages/ide/src/runtime/terminalAnsiPatch.ts:48-82 | the loop over the dirty rows builds the patch and skips rows that do not exist |
| AnsiMeaning.ControlIsPerformed | packages/ide/src/runtime/terminalAnsiPatch.ts:9-13 | a terminal reads a control sequence back as its numbers and carries it out |
| AnsiMeaning.CodesSelectStyle | packages/ide/src/runtime/terminalAnsiPatch.ts:15-38 | the codes select the cell's style, whatever was selected before |
| AnsiMeaning.StoredStyleIsShownExactly | packages/ide/src/runtime/terminalSurfaceStore.ts:74-90 | a cell stored with its colours and flags is shown in its style exactly if no colour is taken for the default |
| AnsiMeaning.SameKeySameStyle | packages/ide/src/runtime/terminalAnsiPatch.ts:40-46 | style keys are equal exactly for equal colours and flags |
| AnsiMeaning.PatchShowsDirtyRows | packages/ide/src/runtime/terminalAnsiPatch.ts:48-82 | on any screen of the frame's size exactly the existing dirty rows become the frame's, and no other row changes |
| AnsiMeaning.PatchIsFullRedrawExactly | packages/ide/src/runtime/terminalAnsiPatch.ts:84-89 | a patch gives the cells of a full redraw exactly when the other rows already show the frame |
| TerminalSurface.FrameBuffer.CollectDirtyRows | packages/ide/src/runtime/terminalSurfaceStore.ts:100-110 | lists the flagged rows |
| TerminalSurface.MergedIsUnion | packages/ide/src/runtime/terminalSurfaceStore.ts:194-198 | merging gives the union of both lists, in order and each row once |
| TerminalSurface.TerminalSurfaceStore.Publish | packages/ide/src/runtime/terminalSurfaceStore.ts:177-221 | the whole new state of store and dirty flags, deferred or at once |
| TerminalSurface.TerminalSurfaceStore.DeliverFrame | packages/ide/src/runtime/terminalSurfaceStore.ts:202-208 | the animation frame delivers what is pending |
| TerminalSurface.DeferringKeepsRows | packages/ide/src/runtime/terminalSurfaceStore.ts:189-211 | deferring never loses a row |
| TerminalSurface.ImmediateKeepsRowsExactly | packages/ide/src/runtime/terminalSurfaceStore.ts:213-220 | publishing at once loses no row, whatever the screen shows, exactly when nothing is published or every row pending or in an unconsumed snapshot is flagged |
| TerminalSurface.DeliveryKeepsRowsExactly | packages/ide/src/runtime/terminalSurfaceStore.ts:202-208 | delivering loses no row, whatever the screen shows, exactly when every row of the snapshot it replaces is consumed, pending or flagged |
| TerminalSurface.OrderlyExactly | packages/ide/src/runtime/terminalSurfaceStore.ts:177-221 | the orderly actions are exactly those that lose no row, whatever the screen shows |
| TerminalSurface.RunLosesNoRow | packages/ide/src/runtime/terminalSurfaceStore.ts:177-221 | over any orderly run every differing row is flagged, pending, or in a snapshot not yet consumed |
| TerminalSurface.RunKeepsRequest | packages/ide/src/runtime/terminalSurfaceStore.ts:201-208 | in every run, while a snapshot is pending an animation frame is requested |
| TerminalSurface.WritingMarks | packages/interpreter/src/devices/terminalBuffer.ts:184-226 | writing changes one row of the frame buffer and flags it |
| TerminalSurface.PublishingReports | packages/ide/src/runtime/terminalSurfaceStore.ts:177-211 | publishing takes over all flagged rows, and only those, and clears the flags |
| TerminalSurface.DeliveringShows | packages/ide/src/runtime/terminalSurfaceStore.ts:202-208 | the animation frame makes the pending snapshot current |
| TerminalSurface.RunReachesScreen | packages/ide/src/runtime/terminalSurfaceStore.ts:177-221 | from every state of an orderly run, publishing, delivering and consuming what waits makes the screen the frame buffer |
| TerminalSurface.QuietScreenIsCurrent | packages/ide/src/runtime/terminalSurfaceStore.ts:177-221 | when nothing waits the screen is the frame buffer |
| TerminalSurface.ImmediateCanLoseARow | packages/ide/src/runtime/terminalSurfaceStore.ts:213-220 | publishing at once over a pending frame loses its rows for good |
| TerminalRefresh.PatchConsumes | packages/ide/src/runtime/terminalAnsiPatch.ts:48-82 | sending the compiled patch of a snapshot is what the store's model means by consuming it |
| TerminalRefresh.QuietTerminalShowsFrame | packages/ide/src/runtime/terminalSurfaceStore.ts:177-221 | once nothing is dirty or waiting the terminal shows the frame buffer cell by cell |
| TerminalRefresh.LastPatchCompletesTheScreen | packages/ide/src/runtime/terminalSurfaceStore.ts:177-221 | at the end of any orderly run the last patch completes the screen, although only dirty rows were ever sent |
| GraphicsSurface.GraphicsSurfaceStore.Publish | packages/ide/src/runtime/graphicsSurfaceStore.ts:25-54 | the whole new state; a patch reaching past the buffer fails after the rows that fitted |
| GraphicsSurface.FittingPatchIsShown | packages/ide/src/runtime/graphicsSurfaceStore.ts:35-44 | after a patch within the surface, its rectangle shows it and every other pixel is as before |
| GraphicsSurface.CanvasIsKeptExactly | packages/ide/src/runtime/graphicsSurfaceStore.ts:25-34 | the old pixels are kept exactly if size and geometry stay the same, and the surface is blank otherwise |
| GraphicsSurface.PatchIsShownExactly | packages/ide/src/runtime/graphicsSurfaceStore.ts:35-44 | all patches with a rectangle are shown so exactly when the rectangle lies within the surface |
| FrameLoop.BudgetGrowsWithSpeed | packages/ide/src/runtime/executionLoop.ts:65-70 | a faster setting never has a smaller budget |
| FrameLoop.BudgetIsWhatFits | packages/ide/src/runtime/executionLoop.ts:65-70 | the budget is the number of whole instructions in the scaled one, and at least one |
| FrameLoop.RunEmulationFrame | packages/ide/src/runtime/executionLoop.ts:72-199 | steps as often as it reports and within its budget, stops exactly where the run must end, and makes progress otherwise |
| FrameLoop.RunAsyncEmulationFrame | packages/ide/src/runtime/executionLoop.ts:201-313 | the asynchronous loop gives the same guarantees for the machine without debug stops, whatever the answers to its steps report |
| FrameLoop.RunLocalUntilDebugStop | packages/ide/src/runtime/runtimeCommandPort.ts:453-463 | steps until the first state in which the run must end |
| FrameLoop.FrameMeans | packages/ide/src/runtime/executionLoop.ts:72-199 | no frame steps past a debug stop, an exception, a halt or waiting, and one that does not continue ends for the reason it reports |
| FrameLoop.EndIsUnique | packages/ide/src/runtime/executionLoop.ts:95-170 | a run has one end and one reason |
| FrameLoop.SlicingIsTransparent | packages/ide/src/runtime/executionLoop.ts:72-199 | any two ways of cutting a run into frames execute the same instructions and end in the same state for the same reason |
| FrameLoop.FramesMakeProgress | packages/ide/src/runtime/executionLoop.ts:72-199 | continuing frames execute at least one instruction each and never pass the end |
| RegisterCache.RawRegistersEqual | packages/ide/src/runtime/syncRuntimeFrame.ts:77-89 | the comparison loop decides equality |
| RegisterCache.ConditionCodesAreRead | packages/ide/src/runtime/runtimeFramePayload.ts:19-27 | the flags are X, N, Z, V and C from bit 4 down to bit 0 of the condition codes |
| RegisterCache.RuntimeFrameSync.SyncRuntimeFrameToIde | packages/ide/src/runtime/syncRuntimeFrame.ts:327-434 | the whole new cache and what is shown |
| RegisterCache.SyncShowsExactly | packages/ide/src/runtime/syncRuntimeFrame.ts:338-434 | a sync shows the registers and flags of every run with the same events exactly if the first sync since the last change or replacement was not suppressed, or no versions are reported |
| RegisterCache.EverySyncShows | packages/ide/src/runtime/syncRuntimeFrame.ts:327-434 | in runs without suppression every sync shows the runtime's registers and flags |
| RegisterCache.SuppressedSyncGoesStale | packages/ide/src/runtime/syncRuntimeFrame.ts:338-340 | a suppressed sync hides a change from the next one |

## Left out

- Text parsing: comments, line structure, operand syntax and number formats; the model starts from parsed
  lines, operand tokens and values. Lookups of names that JavaScript objects inherit are part of it.
- The encoder's other instructions (shifts, bit operations, decimal arithmetic, status and control registers,
  MOVEP, MULx and DIVx, jumps, full-format indexed addressing): each is one more opcode word of the same shape.
- Assembler.LabelsMatchExactly: for programs with no surrogate pairs whose instructions all encode.
- Assembler.EmittedCodeStays: for programs in which no ORG goes back and addresses stay below 2^32, because later
  statements may otherwise overwrite earlier ones.
- EncoderRoundTrip.RoundTrip: does not model the status-register forms of the immediate group. It is for
  representable displacements, with `0(An)` read back as `(An)`, because the shorter form is what the encoder
  chooses, and for the conditions that Scc, DBcc and TRAPcc have (not RA and SR).
- CodeLayout.BranchesLeadToLabels: for programs that go only forwards, because later statements may otherwise
  overwrite the branch.
- CompareSequence.ExpansionCompares: for operands that keep off A7 and the four bytes below the stack, and a
  second operand not indexed by D7. What is compared otherwise is CompareSequence.ExpansionComparesWhatItReads,
  and where operands on the stack are read, CompareSequence.StackOperandIsReadLow.
- CompareSequence.ExpansionAgreesWithCompareExactly: for the same operands; word comparisons with an address
  register have a result of their own, and byte ones do not exist.
- Loader.LoadProgramSource: does not model the loader's memory image and code labels. The image is written by
  the same scalar writer as the assembler's output; only the address it advances is modelled.
- `createProgramImage`, `findProgramSource` and the byte-level helpers of `encoder.ts`.
- PanelNormalization.NormalizedIsCore: the migrations from versions 1 to 6 are not modelled; it holds for any
  document they produce, and a document of version 7 is not migrated.
- The settings normaliser, the device allocator and the device validator are function parameters.
- Timestamps and generated identifiers of saved views, and unknown `preset:` identifiers of a stored source view.
- Empty panel identifiers, which the source treats as no identifier, and fractional positions.
- PanelRestoring.SaveThenRestoreExactly: titles, names and settings are cut or normalised and not compared.
- RegisterCache.RuntimeFrameSync.SyncRuntimeFrameToIde: does not model the memory, terminal and execution parts of
  a frame and register overrides, which do not touch the register cache's versions.
- Listeners, the values that promises carry, the runtime controller's own behaviour and the local interrupt
  timer's ticks; the effect of a started operation other than a local interrupt configuration.
- Frame buffers of a changed size, several frame buffers in one surface store, and the version test of the
  component that consumes snapshots.
- The terminal's character set is a parameter; patches are proved for printable characters, since a control
  character would act instead of filling a cell.
- The sound surface.
- GraphicsSurface.PatchIsShownExactly: for patches with at least one pixel; pixel arrays have the patch's size.
- React components, drag sensors, persistence, audio, themes, telemetry, and the CPU core.
