# Mol2 substructure rebuilder

A Dafny model of `5_mol2_substruct_numpy.py` from AmberGO. The script rebuilds the
`@<TRIPOS>SUBSTRUCTURE` section of a Tripos Mol2 file. The model takes the file as its list of
lines, each keeping its own line terminator, and runs the script's four stages on it:

1. **Header locator.** It scans for the `@<TRIPOS>MOLECULE` line, reads the atom count from the
   first token of the line two below it, and stops at the first `@<TRIPOS>ATOM` line. As in the
   script, a line's position is found with `lines.index`, so it is the first line with equal text.
2. **Residue renumberer.** It drops the last line. Then it walks the atom lines, keeping
   `old_res_num` and the counter `n`. It replaces token 6 (the residue id) of each atom line with
   `str(n)` and writes the line back as `'  '.join(tokens + ['\n'])`.
3. **Counts-line rewrite.** Line `mol_hln + 2` becomes its first two tokens, `str(n)` and the
   fixed tail `'     0     0 \n'`.
4. **Substructure synthesizer.** For each residue `1..nres`, it takes the first atom row that
   carries that id and formats columns 6, 7 and 0. The id is right-justified in 7 columns and the
   atom id in 13, followed by the trailer `'****               0 ****  ****'`. Each record is
   appended to the lines.

The project has three modules:

- `Text` (`text.dfy`) models the Python string operations the script uses: `str.split()`,
  `str.join`, `int()`, `str()`, `in` and `'{0:>w}'.format`.
- `Residues` (`residues.dfy`) is the theory of the renumbering counter on the sequence of
  original residue ids.
- `Mol2Substruct` (`mol2_substruct.dfy`) holds the stages as methods and the whole script as
  `RebuildSubstructure`.

Where the script stops with a Python exception, the model returns an `Err`, in the script's
order:
- `MissingAtomMarker` and `MissingCountLine` stand for the `NameError`s.
- `BadCountLine`, `BadAtomLine` and `BadInfoLine` stand for the `IndexError`s and `ValueError`s
  of the header, atom and counts lines.
- `NoAtoms` and `RaggedAtomRows` stand for the numpy array failures.
- `ResidueNotFound` stands for the `IndexError` of the record loop when the first residue id
  is 0.

`RebuildSubstructure` succeeds exactly on the files the script runs through (`Accepted`). It
then returns the lines the script writes (`Rebuilt`): the input without its last line, with
renumbered atom lines and the new counts line, followed by one record per residue in ascending
order.

## Model

| member | source | states |
|---|---|---|
| Mol2Substruct.RebuildSubstructure | 5_mol2_substruct_numpy.py:76-135 | a header error is passed on unchanged; the result is `Ok` exactly when the file is `Accepted`, and then the output is `Rebuilt` (the rewritten lines followed by the records of residues `1..n`); with a first residue id of 0 the script fails looking for residue `n + 1` |
| Mol2Substruct.LocateHeader | 5_mol2_substruct_numpy.py:76-83 | the loop with its `break` computes the header scan; on success `atm_hln` is the first line containing the atom marker, no earlier line contains it, and `mol_hln` is a molecule-marker line no later than it |
| Mol2Substruct.FirstIndexOfIsFirst | 5_mol2_substruct_numpy.py:78 | `lines.index(line)` finds the first occurrence: no earlier line is equal |
| Mol2Substruct.FirstIndexOfAt | 5_mol2_substruct_numpy.py:78-82 | line `i` is found at or before `i`, and exactly at `i` when no earlier line repeats it |
| Mol2Substruct.ScanHeaderFindsMarkers | 5_mol2_substruct_numpy.py:76-83 | the scan stops at the first atom-marker line, `mol_hln` names a molecule-marker line no later than it, and a file without an atom marker fails |
| Mol2Substruct.ScanHeaderIgnoresLaterLines | 5_mol2_substruct_numpy.py:81-83 | two files that agree up to an atom-marker line have the same header or the same error: no line after it is examined |
| Mol2Substruct.ScanHeaderSingleMolecule | 5_mol2_substruct_numpy.py:77-82 | with one molecule marker at `m` before the first atom marker at `a`, and a count line at `m + 2` not repeated earlier, the header is `(m, int(first token of line m + 2), a)` |
| Mol2Substruct.DropLast | 5_mol2_substruct_numpy.py:89 | `lines[:-1]` has one line fewer (none for an empty list) and keeps every other line in place |
| Mol2Substruct.RenumberResidues | 5_mol2_substruct_numpy.py:92-104 | the loop fails exactly when one of the declared atom lines is missing or has no integer token 6, and then at the first such line; otherwise `n` is the run count of the original ids, the rows are the renumbered rows and the lines are the renumbered lines |
| Mol2Substruct.ReadAtomLine | 5_mol2_substruct_numpy.py:96-103 | one loop pass succeeds exactly on a line with an integer token 6; it steps `n` exactly when that id differs from `old_res_num` and builds the row with the new counter in place of token 6 |
| Mol2Substruct.RenumberStep | 5_mol2_substruct_numpy.py:95-104 | one more well-formed atom line takes the loop's state after `k` iterations to its state after `k + 1` |
| Mol2Substruct.OrigIdsAt | 5_mol2_substruct_numpy.py:96-97 | entry `k` of the original ids is `int(token 6)` of atom line `k` |
| Mol2Substruct.RenumberedLine | 5_mol2_substruct_numpy.py:101-104 | a rewritten atom line splits back into the original tokens with only token 6 replaced, and its token 6 reads back as the new id |
| Mol2Substruct.NewRowsAt | 5_mol2_substruct_numpy.py:101-103 | row `k` of `split_atm_lines` is atom line `k`'s tokens with its new id at position 6, then `'\n'` |
| Mol2Substruct.RowFacts | 5_mol2_substruct_numpy.py:101-103 | row `k` has one more entry than its line has tokens, its id is the `k`-th new id, its column 0 is the atom id and its column 7 is token 7, or `'\n'` when the line has only 7 tokens |
| Mol2Substruct.RenumberedLinesAt | 5_mol2_substruct_numpy.py:95-104 | line `j` of the renumbered lines is the joined row where `j` is one of the atom lines and the original line everywhere else |
| Mol2Substruct.RenumberedIds | 5_mol2_substruct_numpy.py:95-104 | no line outside the atom range changes; each atom line splits into its original tokens with only token 6 replaced by its new id; reading the ids back gives exactly the new ids |
| Mol2Substruct.RenumberedReadBack | 5_mol2_substruct_numpy.py:96-104 | the renumbered atom lines are well formed and their ids read back as the new id sequence |
| Mol2Substruct.RenumberTwice | 5_mol2_substruct_numpy.py:92-104 | a second renumbering pass over the output reads back the same residue ids: renumbering is idempotent on the file |
| Residues.RunCountIsRuns | 5_mol2_substruct_numpy.py:92-100 | the final `n` is the number of maximal runs of equal original ids, less one when the first id is 0 |
| Residues.NewIdSteps | 5_mol2_substruct_numpy.py:92-101 | the first atom gets 1, or 0 when its original id is 0; each next atom keeps the previous new id exactly when its original id repeats and otherwise gets the next one; the last atom carries `n` |
| Residues.NewIdFirst | 5_mol2_substruct_numpy.py:92-101 | the first new id is 1 unless the first original id is 0, when it stays 0 |
| Residues.NewIdsMonotone | 5_mol2_substruct_numpy.py:98-101 | new ids never decrease along the atoms and grow by at most one per atom |
| Residues.SameNewIdIff | 5_mol2_substruct_numpy.py:98-101 | two atoms share a new id exactly when the original ids are equal at every step between them |
| Residues.NewIdBounds | 5_mol2_substruct_numpy.py:98-101 | every new id lies between the first new id and `n` |
| Residues.NewIdsCover | 5_mol2_substruct_numpy.py:98-101 | every value between the first new id and `n` is some atom's new id |
| Residues.NewIdRange | 5_mol2_substruct_numpy.py:98-101 | the set of new ids is exactly the interval from the first new id to `n` |
| Residues.RunCountSnoc | 5_mol2_substruct_numpy.py:98-100 | one more atom steps the counter exactly when its id differs from `old_res_num`, which then becomes that id |
| Residues.NewIdsSnoc | 5_mol2_substruct_numpy.py:98-101 | one more atom keeps the earlier new ids and adds the updated counter |
| Residues.FirstOfIdStartsRun | 5_mol2_substruct_numpy.py:98-101 | the first atom with a given new id is the first atom or starts a new run, and the atom before it carries the previous id |
| Residues.NewIdsSequential | 5_mol2_substruct_numpy.py:92-101 | the new ids are themselves sequential: they start at 0 or 1 and step by 0 or 1 |
| Residues.SequentialFixed | 5_mol2_substruct_numpy.py:92-101 | ids that are already sequential are left unchanged by renumbering |
| Residues.RenumberIdempotent | 5_mol2_substruct_numpy.py:92-101 | renumbering the new ids again gives the same ids |
| Mol2Substruct.CountsLineTokens | 5_mol2_substruct_numpy.py:106-109 | the rewritten counts line splits into its old tokens 0 and 1, `str(n)` and two zeros, its third token reads back as `n`, and it ends with `'     0     0 \n'` |
| Mol2Substruct.SplitCountsTail | 5_mol2_substruct_numpy.py:109 | the fixed tail of the counts line holds the two zero counts |
| Mol2Substruct.InfoLineKept | 5_mol2_substruct_numpy.py:95-107 | renumbering does not change how many tokens any line has, so the counts line is read the same way |
| Mol2Substruct.RewrittenLines | 5_mol2_substruct_numpy.py:89-109 | after the drop, renumbering and counts-line rewrite the file has as many lines as after the drop |
| Mol2Substruct.WriteSubstructure | 5_mol2_substruct_numpy.py:106-135 | after renumbering, the rest of the script succeeds exactly on an accepted file and then writes the rebuilt lines; with a first residue id of 0 it fails looking for residue `n + 1` |
| Mol2Substruct.LoadableAfterRenumbering | 5_mol2_substruct_numpy.py:106-113 | the checks the script makes after renumbering (a counts line with two tokens, at least one row, rectangular rows) hold exactly when the original file is loadable |
| Mol2Substruct.RectangularRows | 5_mol2_substruct_numpy.py:112 | the rows form an array exactly when all atom lines have as many tokens as the first |
| Mol2Substruct.AppendSubstructure | 5_mol2_substruct_numpy.py:111-135 | on a loadable file the record stage succeeds exactly when the first residue id is not 0, and then appends the records of residues `1..n` after the rewritten lines |
| Mol2Substruct.DistinctRenumberedIds | 5_mol2_substruct_numpy.py:116 | `np.unique` of the id column finds `n - first + 1` values, where the first new id is 0 or 1 |
| Mol2Substruct.SelectOutcome | 5_mol2_substruct_numpy.py:116-121 | every residue `1..n` is found; `nres == n` when the first original id is not 0; otherwise `nres == n + 1` and `str(n + 1)` is not found |
| Mol2Substruct.FirstWithResId | 5_mol2_substruct_numpy.py:121 | `np.where(col == s)[0][0]` names a row whose id column is `s` |
| Mol2Substruct.FirstWithResIdIsFirst | 5_mol2_substruct_numpy.py:121 | no earlier row carries `s`, and no row at all when nothing is found |
| Mol2Substruct.FirstRowOfResidue | 5_mol2_substruct_numpy.py:116-124 | the lookup for `str(v)` succeeds exactly when `v` is one of the new ids, and then finds the first atom of residue `v`, which starts a run of equal original ids |
| Mol2Substruct.SelectRecordAtoms | 5_mol2_substruct_numpy.py:116-121 | the loop succeeds exactly when every id `1..nres` is found, and then picks the first row of each in order; otherwise it fails at the first missing id |
| Mol2Substruct.PickedRecords | 5_mol2_substruct_numpy.py:123-135 | formatting the picked rows and appending them gives one record per residue `1..n`, in order, after the existing lines |
| Mol2Substruct.AppendRecords | 5_mol2_substruct_numpy.py:134-135 | the append loop leaves the lines followed by the records, in order |
| Mol2Substruct.RecordTokens | 5_mol2_substruct_numpy.py:118-135 | a record splits back into the residue id, the residue name, the atom id and the four trailer fields |
| Mol2Substruct.RecordColumns | 5_mol2_substruct_numpy.py:128-135 | the residue id is right-justified in the first 7 columns followed by a blank, and the record ends with the trailer and a newline |
| Mol2Substruct.SplitTrailer | 5_mol2_substruct_numpy.py:118 | the trailer holds the fields `****`, `0`, `****` and `****` |
| Text.PadLeft | 5_mol2_substruct_numpy.py:130-131 | `'{0:>w}'.format(s)` has length `max(len(s), w)`, ends with `s` and is blank before it: it never truncates |
| Text.SplitJoin | 5_mol2_substruct_numpy.py:96-104 | splitting a line written as `'  '.join(tokens + ['\n'])` gives back the tokens |
| Text.SplitWords | 5_mol2_substruct_numpy.py:96 | every token of `str.split()` is non-empty and holds no whitespace |
| Text.ParseNatToString | 5_mol2_substruct_numpy.py:97-101 | `int(str(n)) == n` |
| Text.NatToStringInjective | 5_mol2_substruct_numpy.py:121 | two counters print alike exactly when they are equal |
| Text.NumeralsSize | 5_mol2_substruct_numpy.py:116 | the integers `a..b` print as `b - a + 1` distinct strings |

## Left out

- Command-line parsing, reading and writing the files, timing and progress messages
  (`5_mol2_substruct_numpy.py:39-73`, `:137-147`) are I/O. The model takes the list of input lines
  and returns the list of output lines; `''.join` of that list into the output file is not modelled.
- `int()` is modelled on ASCII digits with an optional sign. Python also accepts underscores
  between digits and non-ASCII decimal digits; `Text.ParseInt` rejects those tokens.
- numpy is modelled by what the script reads from it. `np.unique` becomes the size of the set of
  id strings. `np.where(...)[0][0]` becomes the first matching row. The column picks and `hstack`
  become the three fields of the record.
- A ragged atom array fails in numpy: either `asarray` raises, or the column pick on the object
  array raises, depending on the numpy version. Both are modelled as the single error
  `RaggedAtomRows`.
- The model does not distinguish which Python exception is raised; each failure point is its own
  `Error` value.
