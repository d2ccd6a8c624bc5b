# Four C programs, modelled and proved in Dafny

This project models the parts of a repository of C programs where the work is done in place, on pointers and buffers, and
proves what those parts are for. `dafny verify dfyconfig.toml` checks all of it.

- **The roster sort** (`hw2/src/sort.c`): `Quicksort`, `Comparators`, `Roster`. The quicksort's second recursive call can get
  the very range it was called with; it ends because partition has then rotated that range, and a rotated range does not stall
  twice. Around it a list is copied to a table, sorted and threaded again, on one of two link fields.
- **The grade statistics** (`hw2/src/stats.c`, `normal.c`, `report.c`): `GradeDb`, `Frequencies`, `FreqList`, `Quantiles`,
  `Interpolation`, `Moments`, `Linking`, `Accumulate`, `Grades`, `Pipeline`, `Normalize`. One pass over a course with links
  ends in records that describe exactly the counted grades of the class and of each section; percentiles from the table are
  true ranks; one-pass moments are two-pass moments.
- **The text of a course** (`hw2/src/read.c`, `write.c`): `Numbers`, `Database`, `Tokens`, `Reader` say what is printed and
  what is read; `TokenStream`, `CourseReader` and `CourseWriter` are the program's functions, proved against them. `FileFormat`
  gives each line as its format string prints it, `LineText` what the reader makes of text that the writer never prints;
  `TokenText`, `Survival`, `AssignmentText`, `RosterText`, `Yields` and `RoundTrip` prove when reading undoes printing.
- **The allocator** (`hw3/src/sfmm.c`): `SegregatedLists` and `FreeListRuns` are the rings of free blocks, `HeapTiles`,
  `HeapBlocks`, `HeapGrowth` the boundary tags, `HeapPayloads` says which words of other blocks a call writes to, `HeapOutcomes`
  what a whole call leaves behind, and `Heap` has the operations from coalescing to `sf_malloc` and `sf_free`.
- **Buffered input, packets and numerals** (`hw5/src/csapp.c`, `protocol.c`): `Descriptors` lets `read` and `write` be cut
  short, interrupted or fail by any finite schedule; `Rio`, `RioCalls`, `Protocol` and `PacketStream` show that no client sees
  the schedule. `Ltoa` is `sio_ltoa` with its reversal in place.

Where a property fails in the code it is kept failing here, with the exact condition under which it holds and a concrete
input for which it does not:

- The comment at `hw2/src/normal.c:141-146` promises, for a score that is not tallied, the percentile of the greatest tallied
  score below it. QUANTILE returns that exactly when no tallied score is higher and all tallied ones are equal
  (`UntalliedPercentile`); between 1 and 2 it returns 50 where the comment promises 0 (`BetweenBuckets`). For a tallied score it
  always does what the comment says (`TalliedPercentile`). Another property, 100 times the share of lower scores, holds exactly
  when some tallied score is at least as high (`QuantileExact`); above the only score 1 the code returns 0 (`AboveTheTop`).
- `interpolatequantile` leads back from every bucket's percentile but that of the next-to-last bucket (`QuantileInverse`,
  `NextToLastMissed`).
- `do_sums` compares a section's later grades with the class record again: a section's range is that of its grades exactly when
  they are all equal (`SectionRangeExactly`, `SectionRange`); grades 1 and 2 give the maximum 1 (`SectionRangeStuck`).
- LINEAR normalization reaches the target deviation exactly when the sample deviation is at least EPSILON or the target is 0
  (`LinearDeviationExactly`); of two equal scores the deviation cannot become 1 (`EqualScoresStay`).
- `writeassignment` prints LINEAR, which the reader does not know, and a USENORM score falls through to USELIKEAVG: a course comes
  back exactly when it is well written and lossless (`RoundTripExactly`); `LinearNotKept` and `UseNormNotKept` are two that do not.
  The same theorem is proved for a writer that prints GENLINEAR instead (`known`): then LINEAR policies come back as well.
- `delete_freeblock_from_freelist` is right exactly for a block that is alone on its list (`DeleteFreeblock`); on a ring of two,
  deleting either block leaves wrong links (`PairDamaged`).
- `split_block` calls `allocate_block` while the old size still stands, and so misinforms an allocated block that follows the
  remainder: the prev_allocated bits stay truthful exactly without a split, at the end of the heap, or before a free block
  (`ServedPrev`, `SplitMisleads`). Freeing the block again does not repair them (`MallocThenFree`, `StillMisled`).
- `allocate_block` and `sf_free` write prev_allocated into the last word of the block that follows, also when that block is
  allocated. Every word of every allocated block is kept exactly if the block that follows is the epilogue, is free, or has that
  bit already; the bytes that were asked for are kept exactly if that is so or the last word holds none of them
  (`ServedPayloads`, `FreedPayloads`). A request for 88 bytes before an allocated block of 32 changes a byte asked for
  (`FitTouchesPayload`), and so does freeing the first of two blocks of 32 (`FreeTouchesPayload`).
- `sf_free` does not clear the allocated bit of the footer it makes of a payload word, and the checks on the next block read that
  bit: an allocated block passes them exactly if its request fits and the footer of a free block before it says free
  (`AllocatedBlockPasses`); `FreedNeighbourStops` is a block that the release of its neighbour makes fail.

## Model

| member | source | states |
|---|---|---|
| Quicksort.PartitionResult | hw2/src/sort.c:101-128 | partition stops below high, separates the range around the pivot, and returns low exactly when the pivot is the strict minimum, having rotated the range left by one |
| Quicksort.PartingEnds | hw2/src/sort.c:112-126 | from any point of the loop, alternating ties included, the loop's invariant holds at its end |
| Quicksort.Partition | hw2/src/sort.c:101-128 | the in-place loop leaves the table and returns the place that PartitionResult is about |
| Quicksort.RotationUnstalls | hw2/src/sort.c:88-99 | a range whose middle was the strict minimum does not have it in the middle after one rotation |
| Quicksort.Progress | hw2/src/sort.c:88-99 | the second recursive call gets a shorter range or one that no longer stalls |
| Quicksort.Join | hw2/src/sort.c:88-99 | two sorted parts separated by a pivot make a sorted whole |
| Quicksort.SortTable | hw2/src/sort.c:88-99 | for every table and total preorder it ends, and leaves the range ordered, rearranged, and everything outside it untouched |
| Comparators.CompareNameIsPreorder | hw2/src/sort.c:130-137 | comparename is a total preorder |
| Comparators.CompareIdIsPreorder | hw2/src/sort.c:139-144 | compareid is a total preorder |
| Comparators.CompareScoreIsPreorder | hw2/src/sort.c:146-152 | comparescore is a total preorder |
| Comparators.SameNameExactly | hw2/src/sort.c:130-137 | comparename is 0 exactly for equal surname and name |
| Comparators.CompareNameOrder | hw2/src/sort.c:130-137 | comparename is negative exactly when the surname comes first in dictionary order, or the surnames are equal and the name does |
| Comparators.CompareIdOrder | hw2/src/sort.c:139-144 | compareid is negative exactly when the id comes first in dictionary order |
| Comparators.CompareScoreOrder | hw2/src/sort.c:146-152 | comparescore is negative exactly for the higher composite score |
| Comparators.RosterByName | hw2/src/sort.c:37-45 | a roster is sorted by comparename exactly when surnames never decrease, and names never among equal surnames |
| Comparators.RosterById | hw2/src/sort.c:37-45 | by compareid exactly when ids never decrease |
| Comparators.RosterByScore | hw2/src/sort.c:37-45 | by comparescore exactly when composite scores never increase |
| Roster.FillTable | hw2/src/sort.c:56-70 | the table holds exactly the nodes of the list |
| Roster.Relink | hw2/src/sort.c:72-81 | the table's entries become a NULL-terminated list in table order, the other link untouched |
| Roster.SortRoster | hw2/src/sort.c:47-82 | the result is a NULL-terminated list of exactly the input nodes, ordered by the comparator; the other link of every node is what it was |
| Roster.SortRosters | hw2/src/sort.c:37-45 | the course roster and every section roster end up sorted, each on its own link |
| Roster.CheckForDups | hw2/src/sort.c:154-163 | the warnings are those of the adjacent equal names |
| Roster.WarningsPerPair | hw2/src/sort.c:154-163 | on a roster grouped by name each surname and name is warned about once per occurrence after the first |
| Roster.DuplicatesFound | hw2/src/sort.c:154-163 | after sorting by name the warnings number students minus distinct names, so no duplicate is missed |
| FreqList.CountScore | hw2/src/stats.c:170-212 | counting a score in the linked table gives the list of the table with that score counted, with at most one new node |
| Frequencies.TableAgrees | hw2/src/stats.c:170-212 | the table of any scores is strictly increasing and its counts are how often each score was tallied |
| FreqList.FillQuantiles | hw2/src/stats.c:228-233 | the loop over one linked table fills in the running counts |
| Quantiles.RanksTrue | hw2/src/stats.c:219-243 | numless and numlesseq are the true ranks of a score among the scores tallied |
| Quantiles.QuantileExact | hw2/src/normal.c:120-155 | QUANTILE gives 100 times the share of lower scores exactly when some tallied score is at least s, and 0 otherwise |
| Quantiles.AboveTheTop | hw2/src/normal.c:148-155 | a score above the only one tallied gets 0 |
| Quantiles.TalliedPercentile | hw2/src/normal.c:141-153 | for a tallied score QUANTILE returns that score's percentile, as the comment promises |
| Quantiles.UntalliedPercentile | hw2/src/normal.c:141-155 | for any other score it returns the percentile of the greatest tallied score below, as the comment promises, if and only if no tallied score is higher and all are equal |
| Quantiles.BetweenBuckets | hw2/src/normal.c:141-155 | between the tallied scores 1 and 2 it returns 50 where the comment promises 0 |
| Quantiles.QuantileStrict | hw2/src/normal.c:120-153 | on tallied scores QUANTILE is strictly monotone and in [0, 100) |
| Quantiles.LastIsHighest | hw2/src/stats.c:170-212 | the first and last bucket hold the lowest and highest score tallied |
| FreqList.FindPercentile | hw2/src/normal.c:148-155 | the walk over the linked table finds that percentile |
| Interpolation.QuantileCurve | hw2/src/report.c:83-114 | for every table and q >= 0 the result is between the lowest and highest score and does not decrease in q |
| Interpolation.QuantileInverse | hw2/src/report.c:83-114 | a bucket's own percentile leads back to its score exactly if the bucket is not the next-to-last |
| Interpolation.NextToLastMissed | hw2/src/report.c:94-105 | of two scores the percentile of the lower leads to the higher |
| Interpolation.QuantileLine | hw2/src/report.c:94-112 | from one bucket's percentile up to the next one's the result is on the straight line between their scores |
| Interpolation.QuantileTop | hw2/src/report.c:94-105 | from the percentile of the next-to-last score on, and for a single score everywhere, it is the highest score |
| Interpolation.TenthOfFour | hw2/src/report.c:83-114 | the first summary quantile of 10, 20, 30 and 40 is 14 |
| FreqList.WalkQuantile | hw2/src/report.c:83-114 | the walk over the linked table interpolates so, gives 0 for an empty one, and never divides by zero |
| FreqList.SummaryScores | hw2/src/report.c:131-136 | the quantiles for 10, 25, 50, 75 and 90 percent, and the first and last of them as the range they are printed against |
| FreqList.SummaryInRange | hw2/src/report.c:131-148 | the printed ratio is in [0, 1] whenever it is printed |
| Pipeline.BuildStats | hw2/src/stats.c:30-80 | new and empty records mirror the assignments and sections of the course |
| Linking.LinkAssignment | hw2/src/stats.c:107-128 | one pass threads all rosters and links the scores of one assignment, leaving the others' links |
| Linking.DoLinks | hw2/src/stats.c:93-129 | with an assignment, the course roster is the section rosters in order although it is cut and threaded once per assignment; every score points at its own assignment's and section's records |
| Accumulate.CountIn | hw2/src/stats.c:153-155 | counting a grade in the linked table of one record leaves the tables of all other records what they were |
| Accumulate.DoFreqs | hw2/src/stats.c:141-162 | every record gets the tally and, as a linked list that shares no bucket with another, the table of exactly the grades linked to it |
| Accumulate.AddGrade | hw2/src/stats.c:266-285 | one grade extends the class record's sums and range, and the section record's sums |
| Accumulate.DoSums | hw2/src/stats.c:255-288 | every record gets the sums of exactly the grades linked to it |
| Accumulate.AccumulatedSums | hw2/src/stats.c:266-285 | valid, sum and sumsq are those of the grades; the range is true in a class record, and the first grade in a section record |
| Accumulate.SectionRangeStuck | hw2/src/stats.c:275-279 | a section with grades 1 and 2 is recorded with maximum 1 |
| Accumulate.SectionRangeExactly | hw2/src/stats.c:266-285 | a section record has the range of its grades if and only if they are all equal |
| Pipeline.FillRecord | hw2/src/stats.c:228-240 | filling the linked table of one record leaves the tables of all other records what they were |
| Pipeline.DoQuantiles | hw2/src/stats.c:219-243 | every linked table of every record is filled, each once, and none disturbs another |
| Pipeline.DoMoments | hw2/src/stats.c:295-333 | every record gets mean and deviation of its own sums |
| Pipeline.FinishedMoments | hw2/src/stats.c:295-342 | a finished record has the mean of its grades, and the root of their two-pass sample variance as deviation, 0 for fewer than two |
| Pipeline.Statistics | hw2/src/stats.c:16-28 | after the six passes each class record describes exactly the counted grades of the course and each section record exactly those of its section, with its table in linked form |
| Grades.ClassGrades | hw2/src/stats.c:93-129 | the class's grades for an assignment are its sections' grades one after another |
| Grades.GradesCounted | hw2/src/stats.c:144-157 | every grade occurs among those of an assignment as often as there are counted scores of it with that grade |
| Grades.ClassAddsUp | hw2/src/stats.c:141-212 | bucket counts, ranks, tallies, sums and sums of squares of the class's grades are the sums over its sections' grades |
| Grades.RangeIsTable | hw2/src/stats.c:255-288 | the range do_sums finds is the first and last bucket of the table do_freqs builds |
| Pipeline.ClassIsSections | hw2/src/stats.c:16-28 | in the finished records of every assignment the class has valid equal to tallied, and its tally, sum, sum of squares, bucket counts and ranks are the sums over its section records |
| Pipeline.ClassRange | hw2/src/stats.c:16-28 | the range in a finished class record is the first and last bucket of its table |
| Pipeline.SectionRange | hw2/src/stats.c:16-28 | the range in a finished section record is that of its grades if and only if they are all equal, while its table has the true range |
| Moments.OnePassIsTwoPass | hw2/src/stats.c:335-342 | the radicand from sum and sumsq is the two-pass sample variance |
| Moments.RadicandSign | hw2/src/stats.c:335-342 | it is never negative, and zero exactly when all scores are equal |
| Moments.LinearMean | hw2/src/normal.c:96-112 | LINEAR normalization of the tallied scores has exactly the target mean |
| Moments.LinearDeviation | hw2/src/normal.c:167-171 | and the target deviation, when the sample deviation is at least EPSILON |
| Moments.LinearDeviationExactly | hw2/src/normal.c:167-171 | the target deviation is reached if and only if the sample deviation is at least EPSILON or the target is 0 |
| Moments.EqualScoresStay | hw2/src/normal.c:167-171 | two equal scores do not get the target deviation 1 |
| Normalize.Normal | hw2/src/normal.c:83-156 | the score by the policy; a deviation or maximum that is too small is replaced, which changes no later result |
| Normalize.NormalQuantile | hw2/src/normal.c:120-155 | on finished records, the class's for BYCLASS and the section's for BYSECTION, QUANTILE is the share of lower counted grades, exactly up to the highest, and 0 without grades |
| Normalize.NormalLinear | hw2/src/normal.c:96-112 | on finished records LINEAR gives the group's grades the target mean |
| Normalize.NormalLinearDeviation | hw2/src/normal.c:96-112 | and the target deviation if and only if the group's own is at least EPSILON or the target is 0, for every function that gives square roots |
| Normalize.NormalLine | hw2/src/normal.c:96-112 | LINEAR takes the group's mean to the target mean and stretches distances by the quotient of the deviations, 0.000002 standing for one below 0.000001 |
| Normalize.NormalScale | hw2/src/normal.c:112-119 | RAW changes nothing; SCALE takes 0 to 0 and the declared maximum to the new scale and keeps ratios |
| Numbers.ScanFormat | hw2/src/read.c:277-290 | scanning a printed number gives it back, for every number of millionths of either sign; blanks in front are skipped |
| Numbers.ScanText | hw2/src/read.c:277-290 | a number with any number of decimals, with blanks and a sign in front and text behind it, is scanned to the millionths below it |
| Numbers.ScanNothing | hw2/src/read.c:277-290 | nothing is scanned exactly if no digit follows the blanks, the sign and the point |
| Numbers.FormatShape | hw2/src/write.c:88-114 | a number is printed as sign, whole part without superfluous zeros, point and six decimals that make up its value |
| LineText.BlanksSkipped | hw2/src/read.c:443-457 | blanks, tabs, form feeds, commas and colons are skipped as far as they go |
| LineText.WordEnds | hw2/src/read.c:505-519 | a token is as long as there is neither one of these nor a newline |
| LineText.LineStops | hw2/src/read.c:526-542 | the rest of a line goes up to its newline |
| LineText.GapsSkipped | hw2/src/read.c:459-483 | any number of comments and empty lines is skipped, with the blanks behind an empty line |
| LineText.UnfinishedComment | hw2/src/read.c:464-471 | a comment that the file ends in stops the program |
| LineText.UnfinishedLine | hw2/src/read.c:526-595 | so does a line that the file ends in, when its rest or its end is read |
| LineText.UnreadToken | hw2/src/read.c:505-542 | a token that nobody took is dropped with an error |
| LineText.KeywordMissed | hw2/src/read.c:550-578 | a token that is not the keyword stays, with an error if it was required |
| LineText.LineLeftover | hw2/src/read.c:580-595 | a leftover token counts one error and the rest of the line is skipped |
| TokenStream.Input.GobbleWhitespace | hw2/src/read.c:451-457 | skips exactly the blanks ahead when there is no token |
| TokenStream.Input.GobbleBlankLines | hw2/src/read.c:459-483 | skips blank lines and comment lines; stops the program in an unfinished comment |
| TokenStream.Input.NextChar | hw2/src/read.c:490-498 | the next character of the token, its NUL included, or else of the file |
| TokenStream.Input.AdvanceToken | hw2/src/read.c:505-519 | the buffer holds the longest word ahead; an unread token counts an error |
| TokenStream.Input.AdvanceEol | hw2/src/read.c:526-542 | the buffer holds the rest of the line; stops the program when the line does not end |
| TokenStream.Input.ExpectToken | hw2/src/read.c:550-559 | removes the keyword or counts an error |
| TokenStream.Input.CheckToken | hw2/src/read.c:568-578 | true and the token removed exactly if the next token is the keyword |
| TokenStream.Input.ExpectNewline | hw2/src/read.c:580-595 | on to the next line, with an error when something was left on this one |
| CourseReader.ReadWord | hw2/src/read.c:362-373 | the next token as an id, a surname or a type |
| CourseReader.ReadName | hw2/src/read.c:375-387 | the rest of the line |
| CourseReader.ReadPerson | hw2/src/read.c:73-91 | a professor or an assistant if the keyword is there |
| CourseReader.ReadNorm | hw2/src/read.c:305-360 | the words of a NORMALIZE line in any order; RAW by class and an error when there is none |
| CourseReader.ReadOptions | hw2/src/read.c:106-117 | the optional lines of an assignment in any order |
| LineText.NormWordsText | hw2/src/read.c:305-360 | of any words of a NORMALIZE line in any order, RAW, STDLINEAR, GENLINEAR with its mean and deviation, QUANTILE, SCALE with its scale, the last policy and the last group count |
| LineText.OptionsText | hw2/src/read.c:106-117 | any optional lines in any order and number each set the part of the assignment that is theirs |
| LineText.BadOption | hw2/src/read.c:277-303 | a weight or maximum that is not a number counts two errors and leaves no weight, or the maximum from before |
| LineText.EmptyNormalize | hw2/src/read.c:305-360 | a NORMALIZE line without any of its words makes the assignment RAW by class, with an error |
| CourseReader.ReadAssignments | hw2/src/read.c:93-120 | all assignments ahead |
| CourseReader.ReadGrade | hw2/src/read.c:196-275 | a grade or a substitution, with the range checks of the assignment's policy |
| LineText.PlainGradeRead | hw2/src/read.c:196-275 | a number alone is a valid grade |
| LineText.CodedNumberRead | hw2/src/read.c:196-275 | USERAW and USENORM take a number and the rest of the line as code; under USENORM an error is counted exactly outside 0 to 100 for QUANTILE and 0 to the scale for SCALE |
| LineText.CodeRead | hw2/src/read.c:196-275 | USELIKEAVG and USECLASSAVG take the rest of the line as code |
| LineText.NoNumber | hw2/src/read.c:196-303 | where a number is required, any other token stays and counts one error |
| LineText.NothingThere | hw2/src/read.c:196-373 | so does the end of the line |
| CourseReader.FindAssignment | hw2/src/read.c:177-182 | the first assignment of that name |
| CourseReader.ReadScores | hw2/src/read.c:162-194 | all scores ahead; an undeclared assignment stops the program |
| LineText.UndeclaredStops | hw2/src/read.c:171-186 | a score for an undeclared assignment stops the program |
| CourseReader.ReadStudents | hw2/src/read.c:146-160 | all students ahead |
| CourseReader.ReadSections | hw2/src/read.c:122-144 | all sections ahead |
| CourseReader.ReadCourse | hw2/src/read.c:60-71 | the whole course |
| CourseReader.ReadFile | hw2/src/read.c:36-58 | the course in a file and the number of errors, as the functions of Reader give them |
| LineText.NothingLeft | hw2/src/read.c:36-58 | reading a file without errors takes all of it |
| CourseWriter.WriteScore | hw2/src/write.c:29-65 | appends the text of a score, fall-through included |
| CourseWriter.WriteStudent | hw2/src/write.c:67-75 | appends the text of a student and all scores |
| CourseWriter.WriteSection | hw2/src/write.c:77-86 | appends the text of a section and its roster |
| CourseWriter.WriteAssignment | hw2/src/write.c:88-114 | appends the text of an assignment |
| CourseWriter.WriteCourse | hw2/src/write.c:116-128 | appends exactly the text of the course |
| FileFormat.CourseLines | hw2/src/write.c:116-128 | the course line, then professor, assignments and sections |
| FileFormat.PersonLine | hw2/src/write.c:13-27 | the line of a professor or an assistant, surname first |
| FileFormat.AssignmentLines | hw2/src/write.c:88-114 | the assignment line, then weight, policy and maximum |
| FileFormat.NormalizeLine | hw2/src/write.c:93-108 | the NORMALIZE line of each policy; none for RAW |
| FileFormat.SectionLines | hw2/src/write.c:77-86 | the section line, then assistant, students and the other sections |
| FileFormat.StudentLine | hw2/src/write.c:67-75 | the student line: id, surname, name |
| FileFormat.ScoreStart | hw2/src/write.c:29-38 | a score line begins with the assignment's name |
| FileFormat.GradeFields | hw2/src/write.c:34-64 | and goes on with the number, or the keyword, number and code of a substitution |
| FileFormat.NormGrade | hw2/src/write.c:39-57 | or, for USENORM, with the number of the policy and then USELIKEAVG |
| AssignmentText.AssignmentsText | hw2/src/write.c:88-114 | reading the printed assignments gives them back but for LINEAR policies and the group of RAW ones |
| RosterText.PersonText | hw2/src/write.c:13-27 | reading a printed person gives the person back |
| RosterText.GradeText | hw2/src/write.c:34-64 | reading a printed grade gives it back but for USENORM |
| RosterText.ScoresText | hw2/src/write.c:29-65 | reading the printed scores gives them back, each for the first assignment of its name |
| RosterText.StudentsText | hw2/src/write.c:67-75 | reading the printed students gives them back with their scores as read |
| RoundTrip.SectionsText | hw2/src/write.c:77-86 | reading the printed sections gives them back with their students as read |
| RoundTrip.ReadBack | hw2/src/write.c:116-128 | for every course of words and lines: exactly what reading its text yields, and how many errors it counts |
| Survival.LosslessKept | hw2/src/write.c:29-114 | that is the course itself without errors exactly when it is lossless: no LINEAR policy, no group without a policy, no USENORM grade, no shadowed assignment |
| Survival.DistinctNames | hw2/src/read.c:177-182 | with distinct assignment names no score is taken for another assignment's |
| Yields.ReadFileYields | hw2/src/read.c:36-58 | from any text at all, an error-free read yields a course of words and lines whose scores are for the first assignment of their name |
| RoundTrip.RoundTripExactly | hw2/src/write.c:116-128 | reading the text of a course gives back that course without errors if and only if its strings are words and lines and it is lossless; with GENLINEAR printed for LINEAR, LINEAR policies are lossless too |
| RoundTrip.ReadWriteRead | hw2/src/read.c:36-58 | a course read without errors from any text survives being written and read again if and only if it has no LINEAR policy, no group without a policy and no USENORM grade |
| RoundTrip.LinearNotKept | hw2/src/write.c:97-100 | one LINEAR assignment keeps a course from coming back |
| RoundTrip.UseNormNotKept | hw2/src/write.c:39-57 | one USENORM grade keeps a course from coming back |
| SegregatedLists.FreeLists.SearchFreelist | hw3/src/sfmm.c:450-462 | the first list node of at least that size |
| SegregatedLists.FreeLists.SearchFreeblock | hw3/src/sfmm.c:464-476 | the first block of the first such list that has one, NULL if none has |
| SegregatedLists.FreeLists.CircularInsert | hw3/src/sfmm.c:393-407 | the block becomes the first of its ring; every ring stays circular and doubly linked |
| SegregatedLists.FreeLists.InsertBlock | hw3/src/sfmm.c:366-391 | the block becomes the first of the list of its size, made in order if there was none |
| SegregatedLists.FreeLists.Unlink | hw3/src/sfmm.c:411-429 | takes the block out of its ring, wherever it is in it |
| SegregatedLists.FreeLists.DeleteFreeblock | hw3/src/sfmm.c:307-320 | takes the block out of its ring if and only if it is the only one on it |
| SegregatedLists.PairNotAlone | hw3/src/sfmm.c:311-315 | two blocks of one size do not meet that condition |
| SegregatedLists.PairDamaged | hw3/src/sfmm.c:307-320 | deleting either block of a ring of two: the links do not form the ring of the other one |
| SegregatedLists.InsertLinks | hw3/src/sfmm.c:393-407 | a ring stays linked both ways when a block is put behind its sentinel |
| SegregatedLists.RemoveLinks | hw3/src/sfmm.c:411-422 | a ring stays linked both ways when the block at any position is taken out |
| SegregatedLists.NotAlone | hw3/src/sfmm.c:311-315 | what is left of a longer ring is not the ring without the block |
| FreeListRuns.RunMirrors | hw3/src/sfmm.c:366-422 | after any run the sizes of the lists strictly increase and each list is a stack of the free blocks of its size |
| FreeListRuns.SearchBestFit | hw3/src/sfmm.c:464-476 | after any run the block found is the most recent of the smallest size that fits; NULL exactly when none fits |
| FreeListRuns.Perform | hw3/src/sfmm.c:366-422 | performing a run on the rings themselves ends in the lists that RunMirrors is about, all well linked |
| HeapTiles.TilesDisjoint | hw3/src/sfmm.c:478-489 | blocks do not overlap |
| HeapTiles.TilePlaced | hw3/src/sfmm.c:322-333 | every block lies between prologue and epilogue with its payload aligned to 16 |
| HeapTiles.MergeSound | hw3/src/sfmm.c:182-203 | merging neighbouring free blocks keeps the heap tiled with truthful headers and footers and the lists exactly the free blocks |
| HeapTiles.CoalesceKeeps | hw3/src/sfmm.c:141-305 | coalescing leaves every allocated block what it was and the prev_allocated bits of headers truthful |
| HeapTiles.MergePrev | hw3/src/sfmm.c:141-305 | the prev_allocated bits after a merge are truthful exactly if those that are left were |
| Heap.Arena.MergeUp | hw3/src/sfmm.c:168-206 | the freed block and the free one before it become one block on the list of its size |
| Heap.Arena.MergeDown | hw3/src/sfmm.c:208-254 | the freed block and the free one after it become one |
| Heap.Arena.MergeBoth | hw3/src/sfmm.c:256-300 | all three become one |
| Heap.Arena.CoalesceBlocks | hw3/src/sfmm.c:141-305 | one block covers exactly the freed block and its free neighbours, with equal sizes in header and footer; the lists hold exactly the free blocks, each under its own size |
| HeapBlocks.AllocSound | hw3/src/sfmm.c:409-448 | allocating a whole block makes exactly that block allocated and keeps tags, lists and prev_allocated bits right |
| HeapBlocks.SplitSound | hw3/src/sfmm.c:342-357 | before it is coalesced the remainder is the one free block on no list, and its header is truthful |
| HeapBlocks.BlockSizeLeast | hw3/src/sfmm.c:478-489 | the block size is the least multiple of 16 that is at least 32 and holds the request and a header |
| Heap.TotalBlockSize | hw3/src/sfmm.c:478-489 | the loop computes that size |
| Heap.AlignCut | hw3/src/sfmm.c:328-333 | the alignment loop stops at 8 modulo 16, and does not move for a block at such an address |
| Heap.Arena.AllocateBlock | hw3/src/sfmm.c:409-448 | the block leaves its list and its tags say so |
| Heap.Arena.SplitBlock | hw3/src/sfmm.c:322-364 | the first part is allocated, the remainder coalesced and on its list; a splinter is not split off |
| Heap.Arena.ProcessRequest | hw3/src/sfmm.c:119-139 | the payload follows the header of the block, and the heap stays sound |
| HeapBlocks.ServedAllocates | hw3/src/sfmm.c:119-139 | serving a request allocates one block, where none was, of the size asked for or 16 more; every other allocated block keeps its place, size and request |
| HeapBlocks.ServedPrev | hw3/src/sfmm.c:355-357 | afterwards the prev_allocated bits are truthful if and only if the block was not split, was the last, or was followed by a free one |
| Heap.SplitMisleads | hw3/src/sfmm.c:355-357 | a block of 96 bytes before an allocated one, split for 32, misleads the allocated one |
| HeapOutcomes.ServedCoalesced | hw3/src/sfmm.c:119-139 | serving a request leaves no two free blocks next to each other |
| HeapOutcomes.ServedLeaves | hw3/src/sfmm.c:119-139 | the free blocks afterwards are those before, but for the one that served the request and the remainder of exactly what it did not need; none ends where the served block starts |
| HeapOutcomes.ServedHeader | hw3/src/sfmm.c:119-139 | the served block's header still tells the truth about the block before it |
| HeapOutcomes.RestHeader | hw3/src/sfmm.c:342-353 | header and footer of the remainder agree on its size, that it is free, and that the block before it is not |
| HeapPayloads.AllocPayloads | hw3/src/sfmm.c:440-447 | allocate_block keeps every word of the other allocated blocks if and only if the next block is the epilogue, is free, or has prev_allocated set in its last word; it keeps the bytes asked for if and only if that is so or the last word holds none of them |
| HeapPayloads.CoalescePayloads | hw3/src/sfmm.c:141-305 | coalescing writes to no word of an allocated block |
| HeapPayloads.ServedPayloads | hw3/src/sfmm.c:119-139 | the same two conditions, exactly, for serving a request with or without a split |
| HeapPayloads.FitTouchesPayload | hw3/src/sfmm.c:440-447 | in a sound and coalesced heap a request for 88 bytes changes a byte asked for in the next block |
| HeapPayloads.PagePayloads | hw3/src/sfmm.c:72-99 | growing by a page writes to no word of an allocated block |
| HeapGrowth.GrowSound | hw3/src/sfmm.c:72-97 | with a truthful end the heap grows by one free block between the old end and a new epilogue |
| HeapGrowth.PageTail | hw3/src/sfmm.c:72-99 | after a page the last block is free and 4096 bytes longer than the free tail was, the epilogue is at the new end, and the end is truthful again |
| HeapGrowth.PageLonely | hw3/src/sfmm.c:99 | the merged tail is alone on its list if the tail was when and as it grows |
| Heap.Arena.Grow | hw3/src/sfmm.c:70-112 | one round of the loop: a page merged with a free tail, or nothing when there is none |
| Heap.Arena.GrowAndServe | hw3/src/sfmm.c:58-114 | the loop takes exactly the pages the request needs beyond the free tail and serves it if and only if there are that many |
| Heap.Arena.constructor | hw3/src/sfmm.c:491-531 | the heap starts sound as one free block between allocated prologue and epilogue, with all that growing asks for |
| Heap.Arena.Malloc | hw3/src/sfmm.c:35-117 | the best fit or the grown tail serves the request with an aligned block that is large enough and overlaps nothing; ENOMEM exactly when the pages do not suffice; the other allocated blocks keep place, size and request, and the free ones are as before but for the remainder; a fit keeps every word of them, or every byte asked for, if and only if the next block is spared, and the prev_allocated bits truthful if and only if there is no split or nothing follows; growing keeps all of that |
| Heap.FitReady | hw3/src/sfmm.c:50-57 | the block found by the search is a free block of the heap that can serve the request |
| Heap.NoFit | hw3/src/sfmm.c:50-58 | when nothing is found, the free tail is too small |
| Heap.Arena.Free | hw3/src/sfmm.c:581-623 | a pointer that fails the checks changes nothing; otherwise exactly that block is no longer allocated, is merged with its free neighbours and fails the checks from now on; a coalesced heap stays coalesced; every word of the other allocated blocks, or every byte asked for, is kept if and only if the next block is spared; the prev_allocated bits are truthful if and only if those of all blocks but the next were |
| HeapOutcomes.FreeCoalesced | hw3/src/sfmm.c:581-623 | freeing a block and coalescing it leaves no two free neighbours where there were none |
| HeapPayloads.FreedPayloads | hw3/src/sfmm.c:603-616 | sf_free keeps every word of the blocks that stay allocated if and only if the next block is the epilogue, is free, or has prev_allocated clear in its last word; the bytes asked for if and only if that is so or the last word holds none of them |
| HeapPayloads.FreeTouchesPayload | hw3/src/sfmm.c:603-612 | freeing the first of two allocated blocks changes a byte asked for in the second |
| HeapOutcomes.FreedPrev | hw3/src/sfmm.c:603-616 | afterwards the prev_allocated bits are truthful if and only if those of all blocks but the next one were |
| HeapBlocks.AllocatedBlockPasses | hw3/src/sfmm.c:625-676 | an allocated block passes the checks exactly if its request fits and a free block before it has a footer that says so |
| HeapBlocks.Rejected | hw3/src/sfmm.c:625-676 | wherever a pointer leads, each of the documented reasons makes the checks fail |
| HeapOutcomes.FreedFails | hw3/src/sfmm.c:587-616 | a block that has been freed fails the checks, coalesced or not |
| HeapBlocks.FreedNeighbourStops | hw3/src/sfmm.c:589-595 | of two allocated blocks both pass the checks; once the first is freed the second fails them, though it is allocated |
| HeapOutcomes.Freeable | hw3/src/sfmm.c:625-676 | what a call has just served passes every check of sf_free and can be coalesced, if its remainder is alone on its list |
| HeapOutcomes.CoalescedUnique | hw3/src/sfmm.c:141-305 | in two coalesced heaps of one size with the same allocated blocks all blocks are the same |
| Heap.Arena.MallocThenFree | hw3/src/sfmm.c:35-623 | sf_malloc and then sf_free of its result: served exactly when a block fits or the pages suffice; afterwards the heap is sound and coalesced and the same blocks are allocated, without growth the free blocks are the same too, and the prev_allocated bits are truthful unless a block was split before another one |
| Heap.StillMisled | hw3/src/sfmm.c:355-357 | serving 8 bytes of a block of 96 and freeing them leaves the header after it saying that the block before is allocated |
| Rio.ReadN | hw5/src/csapp.c:749-768 | the next n bytes, or all there are, whatever the schedule without failures; -1 only on a failure |
| Rio.WriteN | hw5/src/csapp.c:775-792 | all n bytes, whatever the schedule without failures |
| Rio.RioBuffer.constructor | hw5/src/csapp.c:837-842 | nothing is buffered yet |
| Rio.RioBuffer.Read | hw5/src/csapp.c:805-830 | some of what is unread, in order, nothing only at the end; a failure loses no byte |
| Rio.RioBuffer.ReadNB | hw5/src/csapp.c:849-864 | the next n bytes of the stream, or all there are |
| Rio.RioBuffer.ReadLineB | hw5/src/csapp.c:871-893 | the line, cut off at maxlen - 1 bytes, with a NUL after it, and its length, a maxlen of 0 counting as 1; at the end of the stream 0, and nothing written if there is room for a byte |
| RioCalls.PiecesConsecutive | hw5/src/csapp.c:805-893 | the pieces that any calls take and what is left make up the stream: nothing lost, repeated or out of order |
| RioCalls.LineEnds | hw5/src/csapp.c:871-893 | a line ends at the first newline, at the limit or at the end of the stream, whichever is first |
| RioCalls.Perform | hw5/src/csapp.c:805-893 | any interleaving of both calls returns those pieces, whatever the schedule of short reads and interruptions |
| Protocol.SwapHeader | hw5/src/protocol.c:12-14 | size, seconds and nanoseconds get their most significant byte first, in place, the rest stays |
| Protocol.SwappedIsNetworkForm | hw5/src/protocol.c:12-14 | that is the one header whose big-endian numbers are the little-endian ones of the packet |
| Protocol.SwappedTwice | hw5/src/protocol.c:56-58 | changing the byte order twice changes nothing |
| Protocol.SendPacket | hw5/src/protocol.c:7-42 | a header whose big-endian numbers are those of the packet, and the payload of a data packet, are appended to the stream; the packet is left in network order |
| Protocol.ReceivePacket | hw5/src/protocol.c:44-88 | header in host order, with the values of the big-endian numbers on the stream, payload and rest of the stream, a cut-off header or payload included; -1 with errno 5 exactly at its end |
| PacketStream.ReceiveWire | hw5/src/protocol.c:7-88 | receiving undoes sending, whatever the receiver's packet held and whatever follows |
| PacketStream.SendAll | hw5/src/protocol.c:7-42 | a sequence of packets is sent as their wire forms one after another |
| PacketStream.ReceiveAll | hw5/src/protocol.c:44-88 | from those bytes come the same packets in order, then the end of the stream |
| PacketStream.Transmit | hw5/src/protocol.c:7-88 | the two together, for any schedules without failures on either side |
| Ltoa.ToBaseValue | hw5/src/csapp.c:238-255 | the numeral reads as the value and has no superfluous zero, in every base from 2 to 36 |
| Ltoa.DigitsInOrder | hw5/src/csapp.c:246-254 | the digits are 0 to 9 and then a to z |
| Ltoa.LowFirstReversed | hw5/src/csapp.c:246-254 | the digits as produced, reversed, are the numeral |
| Ltoa.LongShort | hw5/src/csapp.c:276-282 | a long has at most 63 digits in any base |
| Ltoa.Reverse | hw5/src/csapp.c:226-235 | the string is reversed in place, its NUL and what follows untouched |
| Ltoa.SioLtoa | hw5/src/csapp.c:238-255 | for every long but the least: a string of at most 64 characters in a buffer of 128 that parses back to it |

## Left out

- Floating point: grades, moments and percentiles are reals and numbers in text are whole millionths; rounding, infinities and NaN are not modelled, and sqrt is a parameter.
- Pipeline.BuildStats: class and section records are one class; the lists of records, assignments, sections and scores are sequences.
- Linking.DoLinks: a score's section is the one its student is in, and the keys of a student do not change while lists are threaded.
- normalize, studentavg and composites (hw2/src/normal.c:25-77, hw2/src/normal.c:191-262): loops that store the results of normal in the students, and weighted sums of those; they change neither records nor tables.
- Report layout, warnings and message text, line numbers, reading from a second file, the length of the token buffer.
- CourseReader.ReadSections: a FILE line stops the reader; in the program it goes on with the sections of the file named there, which is input from elsewhere.
- CourseReader.ReadFile: a FILE line yields nothing, as in ReadSections. The characters are those a C string can hold and a char comparison does not take for the end of the file, that is, not NUL and not byte 255; numbers with exponents, hexadecimal numbers, inf and nan are not scanned as such.
- Numbers.ScanFormat: decimals beyond the sixth are dropped in scanning, where the program rounds to a float.
- Survival.LosslessKept: warnings about strange or excessive scores, which change nothing, are not counted.
- Heap.Arena.CoalesceBlocks: the caller provides that each free neighbour is the only block on its list; delete_freeblock_from_freelist is wrong otherwise.
- Heap.Arena.Malloc: the caller provides a heap without neighbouring free blocks, and keeps it; when the heap has to grow, the caller provides a truthful end, which an allocated last block does not guarantee, and that no other free block has a size the growing tail takes; no invariant over whole runs of malloc and free is claimed, because the code keeps none.
- Heap.Arena.Free: the caller provides truthful tags beside the block; what the program itself stores in payloads is not modelled, and a payload word is known by the fields that a tag has.
- sf_realloc compares the request with the block size without the header (hw3/src/sfmm.c:699) and is not modelled.
- SegregatedLists.FreeLists.InsertBlock: the links of blocks are kept apart from their tags, so a write to one does not reach the other; the nodes of the list of lists are a sequence, and sf_add_free_list, whose source is not in the repository, puts a node in front of the one it is given.
- HeapBlocks.ServedAllocates: the widths of the tag fields (28 and 32 bits) and of size_t are not modelled; words never written read as zero.
- Descriptors: a schedule is finite, and a call that moves nothing although it could is an interruption or a failure; errno is part of the outcome.
- Rio.RioBuffer.ReadLineB: maxlen is below 2^31.
- Protocol.SendPacket: the host is little-endian, and a payload is below 2^31 bytes, since the code keeps its size in an int.
- Ltoa.SioLtoa: the least long, whose negation overflows.
- The transactions, client registry and server of hw5, the spooler of hw4, hw0 and hw1.
