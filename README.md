# ScoreRenderer layout core in Dafny

This project models the layout arithmetic of `ScoreRenderer.js`. That code places the
elements of a score before anything is drawn. Positions are in staff spaces. A vertical
position (`renderY`) that is an integer is a staff line, and a half-integer is a space.
A smaller `renderY` is a higher pitch.

What is modelled:

- **The chord formatter.** It runs these steps in order on one chord:
  - stem direction;
  - stem length;
  - notehead columns (the greedy resolution of seconds);
  - dot slots (with the collision-stepping loop);
  - accidental columns (the consideration-set passes with `splice`);
  - articulation placement;
  - ledger lines for a single note.

  A rest gets its dots only. The chord is a `class` whose fields the steps update in
  place (`Notation.Chord`). Each loop of the source is a method that is proved against a
  specification function or a stated layout property. `_isSecond`,
  `_isBottomOfUnplacedSecond`, `_isOnSpace` and `_contains` are the predicates
  `ChordAccidentals.IsSecond`, `ChordAccidentals.IsBottomOfUnplacedSecond`,
  `ChordDots.IsOnSpace` and `ChordDots.Contains`.
- **The measure formatter.** The cursor layout in `positionChords`, the `minimumDuration`
  fold, the clamp in `calculateK` and the width floor of 4.
- **`VoiceFormatter.positionMeasures`.** Measures are placed at prefix sums of their
  widths, starting one space in.
- **`ScoreFormatter.positionParts`.** Parts are stacked 12 spaces apart.

Numbers are Dafny `real`s, which are exact. The `-Infinity` starting values of `lastY` and
of the running maximum are `Option.None`. `sortNotesByPitch` lives in another file, so
`Notation.Chord.SortNotesByPitch` is known by its contract only: the notes become a
reordering of themselves, in pitch order. The order of notes of equal pitch is left open.

The model keeps the following behaviour of the code as written:

- **Close articulation distance.** A close mark is 1.5 away only when the reference note
  is on one of the lines −1, 0 or 1. The code tests `|y| == 1 || y == 0`, so a note on
  one of the spaces ±0.5 gets a distance of 1.
- **Dots of line notes.** The code places a line note's dot half a space up without
  checking the dots already placed (`ChordDots.WrittenDotSlot`). Dots only ever sit on
  spaces, so the branch that would move it half a space down never runs, and two dots
  can share a slot. The dot methods and the chord formatter follow this rule. The
  findings table at the end pairs it with a corrected rule, `ChordDots.DotSlot`, under
  which no two dots share a slot.
- **Pass direction.** Every accidental pass starts a new column, whether or not the pass
  before it placed anything. After the first pass (top down), every later pass runs
  bottom up: every note left in the consideration set still has a null `accidentalX`, so
  the `directionOfPass = 1` branch is never taken.
- **Forward passes skip a candidate.** A forward pass moves on by one after each
  `splice`, so the candidate that shifts into the freed slot is skipped in that pass.
- **The articulation's reference note.** The code picks it by the formatter's own
  `stemDirection` field, which is never set, so it is always the last (lowest) note
  (`ChordArticulation.WrittenReferenceNote`). `PositionArticulation` and the chord
  formatter follow this rule. The findings table at the end pairs it with a corrected
  rule, `ChordArticulation.ReferenceNote`, the note nearest the mark's side.

## Model

| member | source | states |
|---|---|---|
| Notation.Chord.SortNotesByPitch | ScoreRenderer.js:270 | the notes become a reordering of themselves, in pitch order: ascending renderY for highest-first, descending otherwise; no other field of the chord changes |
| Notation.SumYPermutation | ScoreRenderer.js:120-130 | reordering the notes does not change the sum of their renderY, so the stem direction does not depend on the note order |
| Notation.YsPermutation | ScoreRenderer.js:270 | a reordering of the notes holds the same multiset of vertical positions |
| Notation.AscendingUnique | ScoreRenderer.js:270 | two ascending sequences holding the same positions are equal, so a pitch sort fixes the positions' order |
| Notation.SameOrderYs | ScoreRenderer.js:270 | two sorts in the same pitch order of the same positions give the same positions in the same order, whatever happens to ties |
| Notation.ResortKeepsYs | ScoreRenderer.js:354 | sorting notes already in that pitch order leaves every position where it was |
| Notation.OrderedYs | ScoreRenderer.js:216 | the positions of notes sorted lowest first are those of the highest-first sort reversed |
| ChordStem.CalculateStemDirection | ScoreRenderer.js:120-130 | the stem direction is 1 or −1, and it is 1 exactly when the sum of the notes' renderY is ≥ 0, a sum of 0 included; nothing else changes |
| ChordStem.StemEnd | ScoreRenderer.js:137-146 | the stem end is 0 when the last note lies more than 3.5 past the middle; otherwise it is 3.5 past a lone note or 2.5 past the last of several; it is always at least 2.5 from the last note, and on the stem side of the middle line (or within 1 of it) |
| ChordStem.CalculateStemLength | ScoreRenderer.js:133-151 | without a stem-table entry, nothing changes; otherwise the notes are sorted from the stem's closed end, the stem starts at the first note and ends at StemEnd of the last, and every note lies between the stem start and the last note |
| ChordNoteheads.ScanSeconds | ScoreRenderer.js:178-197 | the scan moves exactly the notes the greedy rule `Moved` picks to `otherX` and leaves every other note as it was |
| ChordNoteheads.MovedFrom | ScoreRenderer.js:181-197 | the scan's flags from a primary index on: one per remaining note, and the primary note itself never moves |
| ChordNoteheads.Moved | ScoreRenderer.js:181-197 | one flag per sorted note, and the first note never moves |
| ChordNoteheads.MoveToColumn | ScoreRenderer.js:167-170 | every notehead is put in the given column and nothing else about it changes |
| ChordNoteheads.PositionNoteheads | ScoreRenderer.js:158-199 | the width is 1 and topLeftX is defaultX (−1 for an up stem, 0 otherwise); the notes are the old notes, moved to defaultX and sorted from the stem's closed end; each note is at defaultX unless moved, and a moved note is at the other column; notes already in that order keep their positions |
| ChordNoteheads.ScanKeepsChord | ScoreRenderer.js:174-197 | after the sort and the scan the notes are still in pitch order, the same notes up to their column, and each is at defaultX unless moved |
| ChordNoteheads.MovedFromShape | ScoreRenderer.js:181-197 | a note the scan moves forms a second with the note before it, and that note stays |
| ChordNoteheads.MovedFromSplitsSeconds | ScoreRenderer.js:181-197 | of two adjacent sorted notes half a space apart, at least one moves |
| ChordNoteheads.MovedNotesFormSeconds | ScoreRenderer.js:181-197 | the first sorted note never moves; no two consecutive notes both move; a moved note is half a space from its predecessor |
| ChordNoteheads.MovedRecurrence | ScoreRenderer.js:181-197 | the scan as one rule: the first note stays, and a later note moves exactly when it is half a space from the note before it and that note stayed |
| ChordNoteheads.SecondsAreSplit | ScoreRenderer.js:181-197 | every second among adjacent sorted notes has one of its notes moved |
| ChordNoteheads.NoSecondsNoMoves | ScoreRenderer.js:181-197 | with no adjacent pair half a space apart, every note stays at defaultX |
| ChordNoteheads.OneSecondOneMove | ScoreRenderer.js:181-197 | with exactly one second among adjacent notes, exactly its upper-in-scan note moves |
| ChordDots.IsOnSpace | ScoreRenderer.js:264-266 | a position is on a space exactly when it is not a whole number; a whole number is a line |
| ChordDots.Contains | ScoreRenderer.js:259-261 | true exactly when some index holds the item |
| ChordDots.FreeSlot | ScoreRenderer.js:222-225 | the stepping loop's result is not taken, lies at or beyond the start in the step direction, and is a whole number of steps from it |
| ChordDots.FreeSlotFirst | ScoreRenderer.js:222-225 | every slot a whole number of steps from the start and before the result is taken: the result is the first free slot |
| ChordDots.AheadShrinks | ScoreRenderer.js:223-225 | each step never increases the number of taken slots still ahead, and a step off a taken slot decreases it, so the loop ends |
| ChordDots.StepPastTaken | ScoreRenderer.js:222-225 | the stepping loop, from a start and a whole space at a time against the stem direction's sign, ends at FreeSlot of the slots taken |
| ChordDots.DotStart | ScoreRenderer.js:218-234 | corrected rule (findings table): the dot's starting slot is on a space: the note's own slot on a space, half a space above on a line |
| ChordDots.DotSlot | ScoreRenderer.js:218-235 | corrected rule (findings table): the slot one note's dot takes is on a space and not held by any earlier dot |
| ChordDots.DotSlots | ScoreRenderer.js:217-237 | corrected rule (findings table): one dot slot per note, each computed from the slots of the notes before it |
| ChordDots.WrittenDotSlot | ScoreRenderer.js:218-234 | the slot positionDots gives one note is on a space; for a note on a space it is not taken, lies a whole number of spaces at or beyond the note the way the stem points, and is the note's own slot when that is free; for a note on a line, with every earlier dot on a space, it is half a space above the note |
| ChordDots.WrittenDotSkipsOnlyTaken | ScoreRenderer.js:219-228 | for a note on a space, every space the stepping loop passes over before the dot's slot is held by an earlier dot: the slot is the first free one |
| ChordDots.WrittenDotSlots | ScoreRenderer.js:217-237 | one slot per note, as positionDots computes them in order, and every one on a space |
| ChordDots.NextDotSlot | ScoreRenderer.js:219-235 | the slot chosen for one note, with its stepping loop for a taken space, is WrittenDotSlot for the slots already taken |
| ChordDots.DotGlyphs | ScoreRenderer.js:238-241 | one dot glyph per slot, with the dot count and the negated slot |
| ChordDots.DotPositions | ScoreRenderer.js:215-237 | the loop's `dotYs` are exactly the slots WrittenDotSlots gives for the sorted notes |
| ChordDots.AddDots | ScoreRenderer.js:238-241 | the glyph loop appends exactly the glyphs DotGlyphs gives for the slots, in order, after the dots already there |
| ChordDots.PositionDots | ScoreRenderer.js:204-254 | without dots, nothing changes; for a chord, the dot group is right of the note group, the notes are sorted (highest first for an up stem) and one glyph per note is appended at its WrittenDotSlots slot; for a rest, one glyph at the rest's renderY + 0.5; the other fields do not change |
| ChordDots.WholeStepsKeepSpace | ScoreRenderer.js:264-266 | stepping a whole number of spaces keeps a position on a space or on a line |
| ChordDots.DotSlotsPrefix | ScoreRenderer.js:217-237 | corrected rule (findings table): the slots of the first i notes do not depend on the later notes |
| ChordDots.DotSlotAt | ScoreRenderer.js:217-237 | corrected rule (findings table): note i's slot is computed from exactly the slots before it |
| ChordDots.DotSlotsOnSpaces | ScoreRenderer.js:218-235 | corrected rule (findings table): every dot lands on a space |
| ChordDots.DotSlotsDistinct | ScoreRenderer.js:217-237 | corrected rule (findings table): no two dots of a chord share a slot |
| ChordDots.DotIsNearestFree | ScoreRenderer.js:219-234 | corrected rule (findings table): each dot is on a space, not held by an earlier dot, a whole number of spaces from its start in the stem's direction, and at its start when that is free |
| ChordDots.DotSkipsOnlyTaken | ScoreRenderer.js:222-225 | corrected rule (findings table): every slot passed over between a note's start and its dot is held by an earlier dot: the dot is at the nearest free space |
| ChordDots.SecondDotsSeparate | ScoreRenderer.js:218-235 | corrected rule (findings table): the second at 0.5 and 1.0 with an up stem gets its dots at 0.5 and −0.5 |
| ChordDots.WrittenDotSlotsPrefix | ScoreRenderer.js:217-237 | as written, the slots of the first i notes do not depend on the later notes |
| ChordDots.LineDotAbove | ScoreRenderer.js:229-234 | as written, a note on a line always gets its dot at y − 0.5, whatever the earlier dots: the +0.5 branch is never taken |
| ChordDots.SecondDotsShareSlot | ScoreRenderer.js:229-234 | as written, the second at 0.5 and 1.0 with an up stem gets both dots in slot 0.5 |
| ChordAccidentals.IsSecond | ScoreRenderer.js:347-349 | two notes form a second exactly when their renderY differ by half a space, either way round |
| ChordAccidentals.IsBottomOfUnplacedSecond | ScoreRenderer.js:337-345 | false when there is no upper note or the upper note is already placed; otherwise true exactly when the two notes form a second |
| ChordAccidentals.LeftmostX | ScoreRenderer.js:271-282 | the running minimum is ≤ 0 and ≤ every notehead's renderX, and is 0 or one of them |
| ChordAccidentals.Unplaced | ScoreRenderer.js:275-277 | a note with an accidental has its accidentalX cleared; nothing else changes |
| ChordAccidentals.AccidentalIndicesFacts | ScoreRenderer.js:274-278 | the indices the first loop collects are increasing, exactly those of the notes with an accidental, and as many as there are accidentals |
| ChordAccidentals.Collect | ScoreRenderer.js:274-283 | the consideration set holds, in order, exactly the notes with an accidental; their accidentalX is cleared; startingX is the leftmost notehead (or 0) minus 0.1 |
| ChordAccidentals.Pass | ScoreRenderer.js:300-315 | one pass places at least one candidate and keeps the layout invariants: placed notes carry −col − renderX + startingX, accidentals in one column are ≥ 3 apart, and a lower note of a second comes after its upper note |
| ChordAccidentals.Visit | ScoreRenderer.js:302-314 | one step of a pass at candidate i keeps the pass invariant (columns, spacing, candidates, deferral of lower seconds) and never grows the candidate set |
| ChordAccidentals.PlaceKeepsSpacing | ScoreRenderer.js:301-313 | placing a note that is ≥ 3 from the last one placed in the pass keeps every column's accidentals ≥ 3 apart |
| ChordAccidentals.PlaceKeepsDeferred | ScoreRenderer.js:302-303 | a note that is not the bottom of an unplaced second has its upper neighbour, if a second above it, already placed in an earlier column |
| ChordAccidentals.UpperNeighbourCandidate | ScoreRenderer.js:303 | while a candidate's upper neighbour with an accidental is unplaced, it is the candidate just before it in the set, so `considerationSet[i-1]` is the right partner |
| ChordAccidentals.PlaceAccidentals | ScoreRenderer.js:269-331 | the passes end; every note with an accidental gets accidentalX = −col − renderX + startingX for a whole column col between 1 and the number of accidentals; two accidentals in one column are ≥ 3 apart; of two neighbouring accidentals a second apart, the lower one's column is further left; other notes and all positions are unchanged |
| ChordAccidentals.PositionAccidentals | ScoreRenderer.js:269-334 | the notes end sorted highest first, the same as before up to their accidentalX, and laid out as PlaceAccidentals promises; the other fields do not change |
| ChordAccidentals.CountPermutation | ScoreRenderer.js:274-278 | the number of accidentals does not depend on the note order |
| ChordAccidentals.LeftmostXPermutation | ScoreRenderer.js:279-282 | the leftmost notehead does not depend on the note order |
| ChordAccidentals.ColumnsThroughReorder | ScoreRenderer.js:354 | re-sorting notes highest first keeps their accidental columns filled and apart |
| ChordArticulation.ArticulationDistance | ScoreRenderer.js:359-374 | the distance is positive; a close mark is 1.5 away exactly when the note is on line −1, 0 or 1, else 1; a far mark on a note within 1.5 of the middle lands at 3·d, else it is 1 away |
| ChordArticulation.MarkY | ScoreRenderer.js:376 | the mark lies strictly on the stem-direction side of its reference note, and a far mark near the middle lands at 3·d |
| ChordArticulation.ReferenceNote | ScoreRenderer.js:355-356 | corrected rule (findings table): the reference note is the chord's first or last note, and in notes sorted highest first it lies furthest towards the mark's side |
| ChordArticulation.WrittenReferenceNote | ScoreRenderer.js:355-356 | as written, the reference note is the lowest note, whatever the stem direction |
| ChordArticulation.PositionArticulation | ScoreRenderer.js:352-383 | without an articulation, nothing changes; otherwise the notes are sorted highest first and the mark gets the stem direction, renderX −0.5 (up stem) or 0.5, and renderY MarkY from WrittenReferenceNote, the last (lowest) note; the other fields do not change |
| ChordArticulation.MarkBeyondNote | ScoreRenderer.js:376 | the mark lies strictly on the stem-direction side of its reference note, and a far mark near the middle lands at 3·d |
| ChordArticulation.MarkClearsChord | ScoreRenderer.js:352-383 | corrected rule (findings table): measured from ReferenceNote, the mark lies strictly beyond every note of the chord on the stem-direction side |
| ChordArticulation.DownStemMarkInsideChord | ScoreRenderer.js:355-356 | as written, for the down-stem chord at −3 and 1, a staccato lands at −0.5, between the chord's notes |
| ChordLedgerLines.LedgerLines | ScoreRenderer.js:395-403 | no lines when \|y\| < 3; otherwise floor(\|y\|) − 2 lines |
| ChordLedgerLines.LedgerLineOffsets | ScoreRenderer.js:396-403 | the loop's lines are exactly LedgerLines(y, d) |
| ChordLedgerLines.CalculateLedgerLines | ScoreRenderer.js:386-404 | the notes are sorted highest first; a chord of several notes keeps its ledger lines; a single note gets LedgerLines of its position; the other fields do not change |
| ChordLedgerLines.LedgerLinesExactly | ScoreRenderer.js:396-402 | a line m is drawn exactly when m·d ≥ 3 and m·d ≤ \|y\| |
| ChordLedgerLines.LoneNoteLinesOnItsSide | ScoreRenderer.js:396-402 | with the stem direction a lone note gets, every ledger line is on the note's side of the staff |
| ChordFormatter.Format | ScoreRenderer.js:95-113 | a rest gets its dot only and nothing else changes; a chord ends with its notes highest first, the same as before up to horizontal placement (a note without an accidental keeps its accidental position), every note in column −1 or 0 with its accidental placed in filled, apart columns, and the noteheads (position and column) exactly those positionNoteheads lays out from the stem's closed end, with the notes it moves to the other column (HeadsLaidOut); the stem direction from the sum; the stem spanning the chord from its closed end (StemSpans); the dot group right of the notes with the glyphs of WrittenDotSlots in the dot order; the mark placed from WrittenReferenceNote; the ledger lines of a lone note, and unchanged ones for several |
| ChordFormatter.FormatChord | ScoreRenderer.js:98-104 | the seven note-group steps in order, with the whole chord's contract as in Format |
| ChordFormatter.ChordLayout | ScoreRenderer.js:98-104 | the stem set from the ends of the closed-end order spans the chord from its closed end once the notes are highest first, and the notehead columns set in closed-end order travel with their notes through the later sorts (HeadsLaidOut) |
| ChordFormatter.SecondUpStemColumns | ScoreRenderer.js:158-199 | for an up-stem second at 0.5 and 1 laid out as HeadsLaidOut says, the lower note stays left of the stem (−1) and the upper one is moved right of it (0) |
| ChordFormatter.KeepsOtherAccidentalPositions | ScoreRenderer.js:274-279 | when formatting keeps the notes up to horizontal placement, a note left without an accidental carries the accidental position of an input note at the same pitch without one |
| ChordFormatter.PlaceNoteheads | ScoreRenderer.js:98-100 | the first three steps: stem direction from the sum, width 1 and topLeftX defaultX, the notes sorted from the stem's closed end and unchanged up to horizontal placement, the stem from the first note to StemEnd of the last, and each note in defaultX unless Moved |
| ChordFormatter.PlaceStem | ScoreRenderer.js:98-99 | the stem direction from the sum; without a stem, the notes and stem unchanged; with one, the notes sorted from the closed end, the stem from the first note to StemEnd of the last |
| ChordFormatter.NoteheadsLayout | ScoreRenderer.js:98-100 | after the notehead step the notes are the same up to column, and the stem still runs from the first note to past the last |
| ChordFormatter.PlaceMarks | ScoreRenderer.js:101-104 | the last four steps: the notes sorted highest first, the same as before up to the accidental positions of notes with accidentals (each keeps its notehead column), settled in filled, apart columns, the glyphs of WrittenDotSlots in the dot order and dotsX, the mark placed from WrittenReferenceNote, the ledger lines of a lone note and unchanged ones for several |
| ChordFormatter.PlaceDotsAndAccidentals | ScoreRenderer.js:101-102 | dots then accidentals: the notes the same as before up to the accidental positions of notes with accidentals (each keeps its notehead column), every note settled in filled, apart columns, the glyphs of WrittenDotSlots in the dot order and dotsX |
| ChordFormatter.DotsAccidentalsLayout | ScoreRenderer.js:101-102 | the positions the dot loop saw are the final highest-first positions, reversed for a down stem, and the notes keep everything but the accidental positions of notes with accidentals |
| ChordFormatter.PlaceArticulationAndLedgerLines | ScoreRenderer.js:103-104 | articulation then ledger lines on notes sorted highest first: the same notes, only reordered among equal positions, so positions, notehead columns and accidental columns are kept, the mark placed from WrittenReferenceNote, the ledger lines of a lone note |
| ChordFormatter.ArticulationLedgerLayout | ScoreRenderer.js:103-104 | the two re-sorts only reorder the notes, keeping their positions, accidental columns and the mark's reference note |
| ChordFormatter.ReorderKeepsLayout | ScoreRenderer.js:354 | re-sorting settled notes highest first keeps their positions, settlement and accidental columns |
| ChordFormatter.DotOrder | ScoreRenderer.js:216 | the order the dot loop visits the positions: the same positions, highest first for an up stem, reversed otherwise |
| ChordFormatter.StemSpans | ScoreRenderer.js:133-151 | the stem of notes sorted highest first starts at the note at its closed end and ends at StemEnd past the note at its open end; then every note lies between the stem's start and end, at least 2.5 short of the end |
| MeasureFormatter.LargestDuration | ScoreRenderer.js:471-483 | None (−∞) exactly when no child has a duration; otherwise the largest duration among the children that have one |
| MeasureFormatter.MinimumDuration | ScoreRenderer.js:471-483 | the loop computes LargestDuration: None exactly when no child has a duration, otherwise the largest one |
| MeasureFormatter.ShortestNote | ScoreRenderer.js:463-465 | max(minimumDuration, 8): at least 8, at least the minimum duration, and one of the two |
| MeasureFormatter.PlacedAt | ScoreRenderer.js:436 | the child is moved to the cursor and nothing else about it changes |
| MeasureFormatter.PositionChords | ScoreRenderer.js:428-454 | child i is placed at the cursor CursorAt(i), with the measure's ShortestNote as the note value every durational child is spaced with; nothing else about a child changes; the result is the final cursor |
| MeasureFormatter.PlaceChildren | ScoreRenderer.js:433-452 | the loop places every child at CursorAt(i) and ends at the cursor past the last |
| MeasureFormatter.Advance | ScoreRenderer.js:437-450 | a durational child is followed by the ideal space for its duration and the measure's ShortestNote, the same for every child; after any other child the next child's left edge is exactly one padding past its right edge, and after the last child the cursor is one padding past its right edge |
| MeasureFormatter.CursorAt | ScoreRenderer.js:433-452 | the cursor stands one space in before the first child; each later position is the one before plus that child's Advance |
| MeasureFormatter.CursorNotBeforeStart | ScoreRenderer.js:433-452 | while no advance is negative, the cursor never stands left of where it started |
| MeasureFormatter.Format | ScoreRenderer.js:420-425 | each child is placed at CursorAt(i) with nothing else about it changed, the first at 1; the width is the final cursor, but at least 4 |
| MeasureFormatter.GapAfterNonDurational | ScoreRenderer.js:441-449 | after a child without a duration, the next child's left edge is exactly one padding past this child's right edge |
| MeasureFormatter.PositionsIncrease | ScoreRenderer.js:432-452 | when every advance is positive, the children are placed strictly left to right |
| VoiceFormatter.PositionMeasures | ScoreRenderer.js:500-509 | measure i is at 1 + the sum of the earlier widths, nothing else changes, and the result is 1 + the sum of all widths |
| VoiceFormatter.Format | ScoreRenderer.js:493-498 | the measures are placed as PositionMeasures says, and the voice width is 1 + the sum of all widths |
| VoiceFormatter.SumWidths | ScoreRenderer.js:502-507 | the total width of the measures: 0 for none, and not negative when no width is |
| VoiceFormatter.MeasuresAbut | ScoreRenderer.js:505-506 | each measure starts where the one before it ends |
| VoiceFormatter.MeasuresWithinVoice | ScoreRenderer.js:500-509 | with no negative widths, every measure ends within the voice's width |
| ScoreFormatter.PositionParts | ScoreRenderer.js:546-554 | part i is at renderY 12·i and nothing else changes |

## Left out

- `ScoreRenderer.render`, `_drawGrid`, `_scaleContextSizeOnly` and the `LineContext`
  scale setup are canvas drawing and sizing.
- `PartFormatter.formatName` uses `ctx.measureText`, a text-metrics call.
  `PartFormatter.format` only recomputes metrics.
- `console.log` calls.
- `calculateCurrentMetrics` lives in another file, and so does the tree walk behind
  `ScoreRenderer.format` (a dispatch shell). The note group's box is therefore a fixed
  input of the chord (`groupBox`), as the tree had it before formatting. The chord's own
  call at ScoreRenderer.js:109, once all steps have run, rebuilds the chord's box, so
  the `width` 1 and `topLeftX` defaultX that `ChordFormatter.Format` ensures are the
  state just before that call.
- `sortNotesByPitch` is known by its contract only.
- `hasArticulation`, `isClose`, `setDirection`, `Renderer.Dot`, `dotGroup.add`,
  `getDurationWithDots` and the `stems` table live in other files. They are modelled by:
  - the `Option` articulation and its `isClose` field;
  - the mark's `direction` field;
  - the `Dot` value appended to `dots`;
  - the `durationWithDots` field;
  - the `hasStem` flag.
- `spaceAfterDuration` and the numeric value of `k` use `Math.log` on floating point.
  `MeasureFormatter.PositionChords` takes the space after a duration as a function
  parameter `spaceAfter(duration, shortest)`. It applies that function to each durational
  child with the measure's `ShortestNote(MinimumDuration)`, the clamped note value that
  `k` is computed from.
- The multi-note branch of `calculateLedgerLines` reads two notes, one of them out of
  bounds, and does nothing with them. It is modelled as leaving the ledger lines
  unchanged.
- Commented-out code is not modelled: the variable-width accidental column, and the unused
  `hasSecond` flag.
- Chords with a note group but no notes are excluded by `ChordFormatter.Format`'s
  precondition. The code throws on them when it reads the first note.

## Findings

| source | as written | input that shows it | evidently intended | confidence | as-written member | corrected member |
|---|---|---|---|---|---|---|
| ScoreRenderer.js:355-356 | the reference note is chosen by the formatter's own `stemDirection`, which is never set, so it is always the last (lowest) note | a down-stem chord at −3 and 1 with a staccato: the mark is placed from the note at 1 and lands at −0.5, between the notes | the note nearest the mark's side: the lowest for an up stem, the highest for a down one, so the mark clears the chord | not executed | ChordArticulation.WrittenReferenceNote, ChordArticulation.DownStemMarkInsideChord | ChordArticulation.ReferenceNote, ChordArticulation.MarkClearsChord |
| ScoreRenderer.js:229-234 | a note on a line takes the space above it without checking the dots already placed (the `+0.5` branch can never fire, since no dot sits on a line) | an up-stem second at 0.5 and 1.0: both dots go to 0.5 | a line note steps from the space above it past taken slots, as a space note does, so no two dots share a slot | not executed | ChordDots.WrittenDotSlots, ChordDots.SecondDotsShareSlot | ChordDots.DotSlots, ChordDots.DotSlotsDistinct, ChordDots.SecondDotsSeparate |
