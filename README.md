# Configuration reader and Monte Carlo rotor search, modelled in Dafny

This project models two parts of a nucleic-acid conformer search program.

**The configuration reader** (`src/FileParser.cpp`).
- The `FileParser` constructor registers three categories of typed fields: BACKBONE PARAMETERS, BASE PARAMETERS and RUNTIME PARAMETERS.
- `readFile` walks the lines of the input file. From each line it drops the comment and the surrounding white space.
- A line with `=` is lower-cased and handed to the current category's `parseLine`.
- Any other kept line is upper-cased and selects a category as the current one.
- At the end, `readFile` validates every category.

**The admission and ledger logic of the Monte Carlo rotor search** (`src/SearchTypes/MonteCarloRotorSearch.cpp`).
- Each trial drives every rotor of the monomer to a random angle and measures the head-to-tail closure distance.
- When that distance is strictly below the maximum, the trial generates a conformer.
- A conformer that passes the energy filter is written out and ranked into the ledger of admitted records.
- Ranking rewrites the RMSD of every record and the CSV file.

Modules:
- `Wrappers` holds `Option`, `Result` and `Outcome`.
- `ConfigText` does line normalisation, ASCII case mapping and the split at the first `=`.
- `ConfigCategory` holds the fields of one category and the class `Category`, with `parseLine` and `validate`.
- `FileParsing` holds the registry, `readFile` as a function, and the class `FileParser`.
- `Conformers` holds the record, the energy filter, the ranking insertion, the RMSD refresh, the CSV rows and the structure file names.
- `RotorSearch` holds the rotor sampling, the trial log and the class `MonteCarloRotorSearch`, with `print` and `run`.

Each imperative operation is a method of a class over the source's own state:
- a category's field lists;
- the parser's categories;
- the search's ledger, CSV file and written file names.

Each such method is proved against a pure function of the old state. Examples:
- `FileParser.ReadFile` is proved to agree with `Read`, which folds `Step` over the lines and then applies `ValidateAll`.
- `Category.Validate` is proved to agree with `MissingRequired`.
- `MonteCarloRotorSearch.Run` is proved to agree with a ghost log of trials. That log records each trial's posed buffer, its final distance and its admission decision.

Some of what the search consults is outside this model and is given to it as parameters (`Oracles`):
- rotor geometry;
- the closure distance;
- the random engine, as a stream of draws;
- `exp`;
- conformer generation;
- RMSD.

Every `exit(1)` of the source is an error result.

## Model

The specification functions have no rows of their own; the lemmas and methods in their rows state what they do:
- `ConfigText.Normalize` is characterised by `NormalizeSkipsBlank` and `NormalizeTrims`.
- `ConfigText.SplitAtEquals` is characterised by `SplitRoundTrip` and `JoinThenSplit`.
- `ConfigCategory.ParsedLine` is characterised by `ParsedLineFails` and `ParsedLineFrame`.
- `FileParsing.Step` is characterised by `BlankLineSkipped`, `HeaderSelectsCategory`, `FieldNeedsCategory`, `FieldGoesToCurrent` and `StepKeepsNames`.
- `FileParsing.ReadLines` and `FileParsing.Read` are the specifications `FileParser.ParseLines` and `FileParser.ReadFile` are proved against.
- `FileParsing.ValidateAll` is characterised by `ValidateAllFails`.
- `RotorSearch.MeasureDistance` is characterised by `MeasureReadsOnlyEnds` and `UnsignedOffsetInBounds`.
- `Conformers.FileName` is characterised by `FileNameInjective`.

| member | source | states |
|---|---|---|
| ConfigText.FindFirst | src/FileParser.cpp:71 | the result is the position of the first `#` (or the length when there is none); no earlier character is `#` |
| ConfigText.FirstNonBlank | src/FileParser.cpp:79 | the result is the position of the first character that is not space, tab or newline; every earlier character is white space |
| ConfigText.TextEnd | src/FileParser.cpp:83 | everything from the result on is white space, and the character before it is not; an all-blank text gives 0, as `npos + 1` wraps to 0 |
| ConfigText.NormalizeSkipsBlank | src/FileParser.cpp:71-80 | a line is skipped exactly when the text before its first `#` is white space only (this includes a line starting with `#`) |
| ConfigText.NormalizeTrims | src/FileParser.cpp:76-85 | the kept text is non-empty, holds no `#`, and starts and ends with a non-blank character; it is the text before the first `#` with only white space cut off at both ends |
| ConfigText.UpperCharMatches | src/FileParser.cpp:97 | two characters upper-case alike exactly when they are equal, or are the lower-case and upper-case form of one ASCII letter (32 code points apart) |
| ConfigText.UpperMatchesIgnoringCase | src/FileParser.cpp:97-98 | two texts upper-case to the same text exactly when they have the same length and, position by position, equal characters or the two case forms of one ASCII letter |
| ConfigText.LowerKeepsSeparators | src/FileParser.cpp:87-89 | lower-casing a line keeps whether it has an `=`, and where the first one is |
| ConfigText.SplitRoundTrip | src/FileParser.cpp:117-118 | for a line with `=`, `field + "=" + value` gives the line back, and `field` holds no `=` |
| ConfigText.JoinThenSplit | src/FileParser.cpp:117-118 | joining a field without `=` to any value and splitting again gives back both parts |
| ConfigCategory.FindField | src/FileParser.cpp:136-171 | the result is the first field whose name matches the key (or the list's length when there is none); no earlier field matches |
| ConfigCategory.ParsedLineFails | src/FileParser.cpp:120-133 | parseLine fails exactly when the value is white space only or the field name is not registered; a blank value is reported as an empty field, before the registry is consulted |
| ConfigCategory.ParsedLineFrame | src/FileParser.cpp:134-172 | a successful parseLine sets only the first field of that name in the list of its registered type to the value; the category name, the registry, every other list and every other field are unchanged |
| ConfigCategory.Category.ParseLine | src/FileParser.cpp:116-173 | the category's new state is the one `ParsedLine` gives; a failure leaves the category unchanged |
| ConfigCategory.Category.RegisterField | src/FileParser.cpp:28 | registering adds the lower-cased name to the registry with its type and appends one unset field to that type's list |
| ConfigCategory.Category.RegisterFields | src/FileParser.cpp:14-16 | a registration loop leaves the state `RegisteredAll` gives for its names and flags |
| ConfigCategory.ReportMissing | src/FileParser.cpp:243-248 | one list's loop reports the required fields that are not set, each once and in list order |
| ConfigCategory.MissingRequiredSound | src/FileParser.cpp:239-299 | a name is reported exactly when some field of that name is required and not set; something is reported exactly when such a field exists |
| ConfigCategory.Category.Validate | src/FileParser.cpp:235-300 | validate visits all six lists without stopping early, reports every required field that is not set, and fails exactly when some field is required and not set |
| FileParsing.FindCategory | src/FileParser.cpp:98-99 | a found position holds a category with exactly that name; not found means no category has that name |
| FileParsing.StepKeepsNames | src/FileParser.cpp:87-105 | handling one line never adds, removes or renames a category, and the current category stays a valid one |
| FileParsing.BlankLineSkipped | src/FileParser.cpp:71-80 | a line that is blank before its first `#` leaves the reader exactly as it was |
| FileParsing.HeaderSelectsCategory | src/FileParser.cpp:96-105 | given upper-case category names, a header succeeds exactly when some category's name equals it up to letter case; that category becomes current and no category changes |
| FileParsing.KeysUpper | src/FileParser.cpp:12 | the three category keys contain no lower-case letter, so upper-casing leaves them unchanged |
| FileParsing.RegistryNamesUpper | src/FileParser.cpp:11-60 | every category the constructor registers has an upper-case name |
| FileParsing.RegistryNamesKept | src/FileParser.cpp:87-105 | the registry carries the three key names in key order, and every successful line keeps the categories named that way |
| FileParsing.HeaderMatchesRegistry | src/FileParser.cpp:96-105 | against the registered categories, a header succeeds exactly when it equals BACKBONE PARAMETERS, BASE PARAMETERS or RUNTIME PARAMETERS up to letter case, and the category it selects is the one it matches |
| FileParsing.FieldNeedsCategory | src/FileParser.cpp:90-95 | a `field=value` line before any header fails, reporting the line number and the line |
| FileParsing.FieldGoesToCurrent | src/FileParser.cpp:87-89 | with a current category, a `field=value` line is lower-cased whole and parsed by that category alone; it succeeds exactly when that parse succeeds, and other categories and the current choice are unchanged |
| FileParsing.ValidateAllFails | src/FileParser.cpp:107-109 | the final validation fails exactly when some category misses a required field; it reports the first such category in registry order (the assumed key order of the category map) with every field it misses |
| FileParsing.FileParser.ValidateCategories | src/FileParser.cpp:107-109 | the validation loop over the categories gives the outcome `ValidateAll` gives for their states |
| FileParsing.RegisteredAllLists | src/FileParser.cpp:15-16 | registering names of one type appends one unset field per name, with its flag, to that type's list and leaves the other lists alone |
| FileParsing.RuntimeFlags | src/FileParser.cpp:25-38 | Search_Size is required; Dihedral_Step_Size, Search_Step_Size and Chain_Length are optional; Force_Field_Type and Force_Field_Parameter_File are optional and Algorithm is required; Base_to_Backbone_Bond_Length is the seventh number field and is optional |
| FileParsing.RegistryNames | src/FileParser.cpp:11-60 | the registry holds three categories named BACKBONE PARAMETERS, BASE PARAMETERS and RUNTIME PARAMETERS, in that order |
| FileParsing.KeysDistinct | src/FileParser.cpp:11-60 | the three category names are pairwise different |
| FileParsing.RegistryInKeyOrder | src/FileParser.cpp:11-60 | the registry lists the names in lexicographic order, which is the iteration order of the category map under the map assumption in "## Left out" |
| FileParsing.FileParser.constructor | src/FileParser.cpp:11-60 | the parser's categories are exactly the registered defaults, with pairwise different names |
| FileParsing.FileParser.ReadFile | src/FileParser.cpp:62-114 | readFile succeeds exactly when `Read` does, fails with the same error, and leaves the categories `Read` computes; a file that cannot be opened is an error |
| FileParsing.FileParser.ParseLines | src/FileParser.cpp:69-106 | the line loop stops at the first failing line with its error; otherwise the categories are those the fold of `Step` over the lines gives |
| FileParsing.FileParser.ReadLine | src/FileParser.cpp:70-105 | one line changes the categories and the current category as `Step` says, and fails with `Step`'s error |
| Conformers.IsPassingEFilter | src/SearchTypes/MonteCarloRotorSearch.cpp:132-140 | the filter passes exactly when every configured ceiling is at least the matching energy among total, angle, bond, VDW and total torsion |
| Conformers.FilterBoundaries | src/SearchTypes/MonteCarloRotorSearch.cpp:132-140 | an empty filter passes everything; energies equal to their ceilings pass; one exceeded ceiling rejects |
| Conformers.InsertSorted | src/SearchTypes/MonteCarloRotorSearch.cpp:172-178 | the ledger after the push and the sort is sorted by the record order and is the old ledger with the new record inserted once, as a multiset too |
| Conformers.CsvOf | src/SearchTypes/MonteCarloRotorSearch.cpp:174-187 | the CSV is the fixed header and one row per ledger record, in ledger order, carrying its index and RMSD |
| Conformers.RefreshRmsd | src/SearchTypes/MonteCarloRotorSearch.cpp:180-187 | every record's RMSD is recomputed against the first record's monomer coordinates; the records are otherwise unchanged; the rows written are `CsvOf` of the refreshed ledger |
| Conformers.DecimalDigits | src/SearchTypes/MonteCarloRotorSearch.cpp:158 | an index prints as at least one digit, and as exactly one digit when it is below 10 |
| Conformers.DecimalDigitsInjective | src/SearchTypes/MonteCarloRotorSearch.cpp:158 | different indices print as different decimal texts |
| Conformers.FileNameInjective | src/SearchTypes/MonteCarloRotorSearch.cpp:158 | two records get the same structure file name exactly when their indices are equal |
| RotorSearch.SetToAngle | src/SearchTypes/MonteCarloRotorSearch.cpp:75 | setting a rotor's angle keeps the number of coordinates |
| RotorSearch.MeasureReadsOnlyEnds | src/SearchTypes/MonteCarloRotorSearch.cpp:122-125 | the distance depends on the head atom's and the tail atom's coordinate triples and on nothing else of the buffer |
| RotorSearch.UnsignedOffsetInBounds | src/SearchTypes/MonteCarloRotorSearch.cpp:123 | in 32-bit unsigned arithmetic atom 0 wraps to offset 2^32 - 3; while `3 * (atom - 1)` fits 32 bits, the reads are in bounds exactly when the atom's triple fits the buffer; beyond that the offset is the product less 2^32 or 2 * 2^32, so atom 0x5555_5557 reads at offset 2 |
| RotorSearch.SampleRotor | src/SearchTypes/MonteCarloRotorSearch.cpp:71-82 | the accept loop ends after one proposal: the rotor takes the first angle drawn, the distance is measured on the new buffer, and exactly one draw is consumed |
| RotorSearch.SampleTrial | src/SearchTypes/MonteCarloRotorSearch.cpp:67-84 | a trial poses every rotor once in order with consecutive draws; its distance is the last rotor's measurement, or +infinity with no rotor |
| RotorSearch.LogsSnoc | src/SearchTypes/MonteCarloRotorSearch.cpp:66-84 | proof helper for run's loop invariant: a trial sampled from where the previous ones left the buffer and the random engine extends the sampling and decision logs |
| RotorSearch.AdmittedOrdered | src/SearchTypes/MonteCarloRotorSearch.cpp:86-98 | admitted records come from distinct trials in increasing trial order; each has a distance strictly below the maximum and is within every energy ceiling |
| RotorSearch.AdmittedFilesDistinct | src/SearchTypes/MonteCarloRotorSearch.cpp:86-98 | no structure file name is written twice in a run |
| RotorSearch.NoRotorsAdmitNothing | src/SearchTypes/MonteCarloRotorSearch.cpp:68-87 | with no rotor every trial ends at +infinity, and no trial admits a record |
| RotorSearch.AccountedSnoc | src/SearchTypes/MonteCarloRotorSearch.cpp:66-100 | after one more trial the ledger and the written files hold what they held before plus that trial's admission |
| RotorSearch.RunSoFarSnoc | src/SearchTypes/MonteCarloRotorSearch.cpp:66-100 | the loop invariant of run (buffer, random position, logs, accounting) survives one more trial |
| RotorSearch.OneRunLedger | src/SearchTypes/MonteCarloRotorSearch.cpp:66-100 | a ledger holding exactly one run's admitted records has pairwise distinct indices below the number of trials and distances below the maximum |
| RotorSearch.RunSummary | src/SearchTypes/MonteCarloRotorSearch.cpp:66-100 | from an empty ledger, the ledger after a run holds distinct trial indices below the trial count, each below the maximum distance; from an empty file list, no file name repeats; with no rotor nothing is admitted |
| RotorSearch.ConfsOfInsert | src/SearchTypes/MonteCarloRotorSearch.cpp:172 | proof helper for print: inserting an entry inserts its record into the ledger's records at the same place and adds it once to their multiset |
| RotorSearch.SortedByData | src/SearchTypes/MonteCarloRotorSearch.cpp:178-183 | rewriting RMSD values keeps the ledger sorted |
| RotorSearch.MonteCarloRotorSearch.constructor | src/SearchTypes/MonteCarloRotorSearch.cpp:12-31 | a new search has an empty ledger, no CSV file and no written files |
| RotorSearch.MonteCarloRotorSearch.Print | src/SearchTypes/MonteCarloRotorSearch.cpp:142-189 | print fails exactly when the record has no chain coordinates, and then changes nothing; otherwise it writes `conformer_<index>.pdb` and inserts the record, chain buffer released, once into the sorted ledger; the RMSD values and the CSV are refreshed |
| RotorSearch.MonteCarloRotorSearch.AdmitTrial | src/SearchTypes/MonteCarloRotorSearch.cpp:86-100 | a conformer is generated exactly when the distance is strictly below the maximum, and it carries the trial's index, distance and buffer; it is printed exactly when within the ceilings; a trial that admits nothing leaves the ledger and the written files unchanged |
| RotorSearch.MonteCarloRotorSearch.RunTrial | src/SearchTypes/MonteCarloRotorSearch.cpp:66-100 | one iteration of the trial loop keeps run's loop invariant with the new trial appended to the log |
| RotorSearch.MonteCarloRotorSearch.Run | src/SearchTypes/MonteCarloRotorSearch.cpp:33-120 | `searchSize` trials are run and logged; the ledger gains exactly the records the trials admitted, and the written files gain their names in trial order; from an empty ledger the records have distinct indices below the trial count and distances below the maximum; from an empty file list no file is written twice; with no rotor the ledger and the written files are unchanged |

## Left out

- File and console I/O are left out: opening and reading the configuration file (its lines are the parameter `contents`, None when it cannot be opened), the PDB and CSV files (modelled as the written file names and the CSV rows), the progress output (`src/SearchTypes/MonteCarloRotorSearch.cpp:101-113`) and `Category::printCategory` (`src/FileParser.cpp:175-233`).
- The formatting of numbers in the CSV rows is not modelled; a row holds the values themselves.
- Process termination: every `exit(1)` is an error result that the caller returns at once.
- The rotor geometry (`SetToAngle`), the step rotation and translation, `sqrt`, `exp`, `Chain::generateConformerData` and `calcRMSD` are opaque functions in `Oracles`. Floating-point behaviour, including NaN, is not modelled; distances, energies and RMSD values are reals.
- The random engine is a stream of draws indexed by position. Seeding it from `random_device` is not modelled.
- The set-up at the start of `run` and the search constructor's remaining set-up are not modelled: building the base unit, the chain, the rotor list and the fixed atoms, and lower-casing the strand names. `Run` receives the number of rotors, the head and tail atoms and the initial buffer as parameters.
- Memory management (`new`, `delete`, `memcpy`) is not modelled. The chain buffer is represented only by `chainCoordsPresent`, and the monomer copy by the record's `monomer` field.
- Widths of `size_t` and `double` are not modelled, except for `3 * (head - 1)` in 32-bit unsigned arithmetic, which `UnsignedOffsetInBounds` states.
- RotorSearch.UnsignedOffsetInBounds: the reads are characterised as "in bounds exactly when the triple fits" only while `3 * (atom - 1)` fits 32 bits. Beyond that the lemma gives the wrapped offset, which may fall inside the buffer at an unrelated atom. `MeasureDistance` requires `Measurable`, so the model itself never reads there.
- Text is ASCII. Dafny's `string` is a sequence of Unicode characters, while `std::string` holds bytes. `::toupper` and `::tolower` are modelled in the C locale on ASCII letters only; the source's behaviour on negative `char` values, which is undefined, is not modelled.
- The headers that declare `Category::empty`, `findNameInFields`, the `register*Field` members and `Field::parse` are not part of this model. The model assumes:
  - `register*Field` is required by default;
  - the name-to-type registry is keyed by the lower-cased name, since field lines are lower-cased before the lookup;
  - `findNameInFields` compares lower-cased names;
  - `stringToCategoryMap` and `registerCategory` (FileParser.h) are a `std::map` keyed by the category name, so readFile validates the categories in lexicographic key order. With an unordered map the order would be unspecified, and when several categories miss fields the category reported could differ;
  - `Field::parse` stores the value text and marks the field set. The conversion of that text into a number or a list, and the errors of that conversion, are not modelled.
- The current category pointer is uninitialised until the first header. The model gives it a defined "no current category" state. `c->empty()` is modelled as that state, so a `field=value` line before any header is the "field before category" error.
- The record order `operator<` is declared in a header that is not part of this model. It is a parameter, required to be a strict order, over the record without its RMSD. The model therefore assumes that the ranking ignores the RMSD, which `std::sort` sees as left by the previous refresh. The program's documentation ranks records by total energy.
- Conformers.InsertSorted: `std::sort` is not stable, so it may reorder records of equal rank, old ones included. The model keeps the old records in their order and places the new record after every record it does not rank before. When the new record ties with the first record, the source may make either one the RMSD reference; the model keeps the old one.
- Conformers.IsPassingEFilter: requires at most five ceilings. With more, the source reads past its five energies.
- RotorSearch.MonteCarloRotorSearch.Run: requires the head and tail atoms to lie inside the buffer (`Measurable`). The source does not check this; `UnsignedOffsetInBounds` states what happens otherwise.
- The Metropolis test of the rotor loop is modelled (`MetropolisWeight`), but it never decides anything. `best_dist` is reset to +infinity for every rotor, so the first proposal always improves on it. `SampleRotor` proves that the loop ends after one proposal.
- If no record is ever admitted, the source writes no CSV file at all, since only `print` writes it. The model follows the code: `csv` stays None while the ledger is empty.
