# dash-bio-utils parsers in Dafny

This project models three small parsers from `dash_bio_utils` and proves their contracts:

- **`create_data`** (mmCIF parser).
  - It reads the ATOM/HETATM records of a structure file.
  - It assigns dense residue indices.
  - It pairs the atoms with the bonds of an external bond-topology resolver, giving one `{atoms, bonds}` graph.
- **`create_mol3d_style`** (Molecule3dViewer styles). It gives one style per atom. The colour comes from the atom name, residue, residue type or chain, looked up in a colour scheme with the default `#ABABAB`.
- **`get_highlights`** and the selection-string part of **`get_data`** (NGL parser). These decode `pdb_id[.chain[:range]][@highlights]` into the structure id, chain, residue range, and the atoms and residues to highlight.

The source changes state step by step. Its loops append to lists, keep running counters, fill a map and reassign variables. The model follows that: each loop is a Dafny `method` with a `while` loop. Each method is proved against a specification function (`ScanLines`, `AtomsOf`, `BondsOf`, `ClassColors`, `Highlighted`, `AtomEntries`/`ResidueEntries`), and the lemmas prove what the source promises about those functions. Every exception the source can raise on a modelled path is a `Result` error:

- an `IndexError` on a short record, on an empty atom list, or on a bond end without an `[index]` (`atom1[0]`, `atom2[0]`);
- a `ValueError` from `int()`, `float()` or an unpacking `split`;
- a `KeyError` on an atom dict;
- an `AttributeError` on a scheme that has no `.get`.

The error is raised at the point where the source would raise it, and it reports the first failing item.

Files:

- `results.dfy`: the `Option` and `Result` types.
- `text.dfy`: the Python `str` operations the parsers use. These are `isspace`, `strip`, `split()`, `split(c)`, `c.join`, substring `in`, `replace(c, "")`, `int()` and `str()` on integers. They carry their round-trip lemmas.
- `mmcif_parser.dfy`, `mol3d_styles.dfy`, `ngl_parser.dfy`: one module per source file.

Three notes on `create_data`:

- The first end of a resolver bond gives `atom2Index` and the second end gives `atom1Index`, as in the source.
- Residue numbering does not restart at a chain change (`ResidueIndexIgnoresChain`).
- `serial` is the position of the atom in the output, not the file's serial number.

## Model

| member | source | states |
|---|---|---|
| Text.IsSpace | dash_bio_utils/mmcif_parser.py:35 | the reference definition of `str.isspace`: the character set `strip()` and `split()` use |
| Text.Strip | dash_bio_utils/mmcif_parser.py:35 | `strip()` is empty exactly for a blank line; otherwise it neither starts nor ends with whitespace, and it is never longer |
| Text.StripBounds | dash_bio_utils/mmcif_parser.py:35 | gives the bounds of what `strip()` keeps: a slice of the line with only whitespace before and after it |
| Text.StripInfix | dash_bio_utils/mmcif_parser.py:35 | `strip()` keeps a slice of the line and drops only whitespace at its two ends; with `Strip`'s end conditions this fixes the result |
| Text.StripIdempotent | dash_bio_utils/mmcif_parser.py:35 | stripping an already stripped line changes nothing |
| Text.Words | dash_bio_utils/mmcif_parser.py:70 | `split()` yields non-empty tokens without whitespace |
| Text.WordsBlank | dash_bio_utils/mmcif_parser.py:70 | a blank string has no tokens |
| Text.WordsCons | dash_bio_utils/mmcif_parser.py:70 | after any run of whitespace, the first token is the maximal non-whitespace run that follows; with `WordsBlank` this fixes `split()` on column-aligned lines with runs of spaces and tabs |
| Text.WordsOfNonBlank | dash_bio_utils/mmcif_parser.py:70-71 | a non-blank line has a first token, so `line[0]` cannot fail |
| Text.WordsUnwords | dash_bio_utils/mmcif_parser.py:70 | `split()` recovers any list of whitespace-free tokens joined by spaces |
| Text.Contains | dash_bio_utils/mmcif_parser.py:71 | the reference definition of `sub in s`: `sub` is a prefix of `s` or of one of its suffixes; `ContainsIff` states its meaning |
| Text.ContainsIff | dash_bio_utils/mmcif_parser.py:71 | `in` on strings holds exactly when the substring occurs at some index |
| Text.NatToDigitsValue | dash_bio_utils/mmcif_parser.py:103 | `str(n)` gives digits whose value is `n`, with no leading zero |
| Text.ParseDecimal | dash_bio_utils/mmcif_parser.py:72 | the reference definition of `int()` on a stripped string: an optional sign and at least one ASCII digit; `IntToStringParse` and `ParseIntToString` state its meaning |
| Text.IntToString | dash_bio_utils/mmcif_parser.py:103 | the reference definition of `str(n)`: a `-` for negative `n`, then the digits of its magnitude; `NatToDigitsValue` and `IntToStringParse` state its meaning |
| Text.ParseInt | dash_bio_utils/mmcif_parser.py:72 | the reference definition of `int(s)`: surrounding whitespace stripped, then an optional sign and at least one ASCII digit; `ParseIntToString` and `IntToStringParse` state its meaning |
| Text.ParseIntToString | dash_bio_utils/mmcif_parser.py:72 | `int(str(n)) == n` for every integer |
| Text.NatToDigitsOfValue | dash_bio_utils/mmcif_parser.py:103 | `str()` of the value of a digit string without a leading zero is that string |
| Text.IntToStringParse | dash_bio_utils/mmcif_parser.py:72 | `str(int(s)) == s` for every string `str()` can produce: digits without a leading zero, with a `-` in front unless they are `0` |
| Text.SplitOn | dash_bio_utils/ngl_parser.py:18 | `split(c)` yields at least one piece and no piece contains `c` |
| Text.SplitOnCount | dash_bio_utils/ngl_parser.py:18 | there is one more piece than occurrences of the separator, so unpacking into two names needs exactly one |
| Text.Join | dash_bio_utils/ngl_parser.py:25 | the reference definition of `c.join(parts)`: the parts with one `c` between neighbours; `JoinSplitOn` and `SplitOnJoin` state its meaning |
| Text.JoinSplitOn | dash_bio_utils/ngl_parser.py:18 | joining the pieces with the separator gives back the string |
| Text.SplitOnJoin | dash_bio_utils/ngl_parser.py:25 | splitting a join of separator-free pieces gives back the pieces |
| Text.RemoveChar | dash_bio_utils/ngl_parser.py:21 | `replace(c, "")` leaves no `c` in the result |
| Text.RemoveCharLength | dash_bio_utils/ngl_parser.py:21 | the result is shorter by exactly the number of occurrences of `c` |
| Text.RemoveCharOthers | dash_bio_utils/ngl_parser.py:21 | every character other than the removed one keeps its number of occurrences |
| Text.RemoveCharAppend | dash_bio_utils/ngl_parser.py:21 | removal works piece by piece, so the characters that remain keep their order |
| Text.RemoveCharAbsent | dash_bio_utils/ngl_parser.py:21 | removing a character that is not there changes nothing |
| MmcifParser.NonBlankLines | dash_bio_utils/mmcif_parser.py:35 | every kept line is non-empty and stripped |
| MmcifParser.NonBlankLinesKeeps | dash_bio_utils/mmcif_parser.py:35 | every non-blank line is kept, stripped |
| MmcifParser.NonBlankLinesNoBlank | dash_bio_utils/mmcif_parser.py:35 | without blank lines, only stripping happens: same count, same order |
| MmcifParser.ParseFields | dash_bio_utils/mmcif_parser.py:72-88 | the reference definition of the record statements: each field read in the source's order, with the error of the first statement that would raise; `ParseFieldsContract` states its meaning |
| MmcifParser.ParseRecord | dash_bio_utils/mmcif_parser.py:70-88 | the reference definition of one qualifying line's record: its `split()` tokens through `ParseFields` |
| MmcifParser.ParseFieldsContract | dash_bio_utils/mmcif_parser.py:72-88 | a qualifying line parses exactly when it has 17 tokens, integers at 1 and 16 and floats at 10-12; the fields are the tokens at their positions; too few tokens is an error, never a skip |
| MmcifParser.TokensAreStripped | dash_bio_utils/mmcif_parser.py:73-88 | the `.strip()` on each token is the identity |
| MmcifParser.AtomLines | dash_bio_utils/mmcif_parser.py:69-71 | the selected lines are lines of the file whose first token carries the marker |
| MmcifParser.AtomLinesComplete | dash_bio_utils/mmcif_parser.py:69-71 | every line whose first token carries the marker is selected |
| MmcifParser.IsAtomLine | dash_bio_utils/mmcif_parser.py:70-71 | the reference definition of the line filter: the first `split()` token contains `ATOM` or `HETATM`; `AtomLineMarker` states it for stripped lines |
| MmcifParser.AtomLineMarker | dash_bio_utils/mmcif_parser.py:71 | a line qualifies exactly when its first token contains "ATOM" or "HETATM" |
| MmcifParser.ScanLines | dash_bio_utils/mmcif_parser.py:69-89 | the reference definition of the scan: the records of the qualifying lines in order, or the first malformed line's error; `ScanLinesOk`, `ScanLinesRecords` and `ScanLinesFirstError` state its meaning |
| MmcifParser.RejectedLineFails | dash_bio_utils/mmcif_parser.py:72-88 | a qualifying line that does not parse makes the whole scan fail: it is never skipped |
| MmcifParser.ScanLinesOk | dash_bio_utils/mmcif_parser.py:69-89 | the scan succeeds exactly when every qualifying line parses |
| MmcifParser.ScanLinesRecords | dash_bio_utils/mmcif_parser.py:69-89 | a successful scan yields one record per qualifying line, in file order, each the parse of its line |
| MmcifParser.ScanLinesFirstError | dash_bio_utils/mmcif_parser.py:72-88 | a failed scan reports the first qualifying line that does not parse, with the reason |
| MmcifParser.ScanLinesErrorSticks | dash_bio_utils/mmcif_parser.py:69-89 | once a prefix of the lines fails, the whole scan fails with that error |
| MmcifParser.FirstSeenChains | dash_bio_utils/mmcif_parser.py:76-79 | the reference definition of `var_nchains`: each record's chain appended when not yet present; `FirstSeenChainsDistinct` states its meaning |
| MmcifParser.FirstSeenChainsDistinct | dash_bio_utils/mmcif_parser.py:76-79 | `var_nchains` holds each chain id of the records exactly once |
| MmcifParser.ScanRecords | dash_bio_utils/mmcif_parser.py:69-89 | the scan loop returns the records of the qualifying lines and the first-seen chains, or the first line's error |
| MmcifParser.AtomOf | dash_bio_utils/mmcif_parser.py:97-105 | the reference definition of one atom dict: the copied fields, the residue label `res_name + str(res_id)`, and serial `i` |
| MmcifParser.ResidueStep | dash_bio_utils/mmcif_parser.py:94-96 | the reference definition of one step of `resct`: 1 where `res_id` differs from the preceding record's, else 0 |
| MmcifParser.ResidueChanges | dash_bio_utils/mmcif_parser.py:93-96 | the reference definition of the `tmp_res`/`resct` counter in closed form: the residue-number changes among the first records; `ResidueChangesBetween` states its meaning |
| MmcifParser.AtomsOf | dash_bio_utils/mmcif_parser.py:91-105 | the reference definition of the atom list: one `AtomOf` per record, with residue index 1 plus the residue-number changes so far; `ResidueIndexSteps` and `ResidueIndexCounts` state its meaning |
| MmcifParser.ResidueIndexSteps | dash_bio_utils/mmcif_parser.py:91-96 | the first atom has residue index 1, and each later index is the previous one plus 1 exactly when the residue number differs from the preceding record's |
| MmcifParser.ResidueChangesBetween | dash_bio_utils/mmcif_parser.py:93-96 | between two records the residue number changes at most once per step, and the count never falls |
| MmcifParser.ResidueIndexCounts | dash_bio_utils/mmcif_parser.py:91-101 | the residue indices never decrease along the atoms, and the index at position i is between 1 and i + 1 |
| MmcifParser.ResidueIndexIgnoresChain | dash_bio_utils/mmcif_parser.py:93-96 | a chain change with an equal residue number keeps the residue index |
| MmcifParser.BuildAtoms | dash_bio_utils/mmcif_parser.py:91-105 | fails exactly when there are no records; otherwise gives one atom per record, in order. Each atom has serial `i`, its name, chain, position and element copied, the residue label `res_name + str(res_id)`, and residue index 1 plus the residue-number changes up to it |
| MmcifParser.DigitRun | dash_bio_utils/mmcif_parser.py:110-111 | the run is the longest all-digit prefix |
| MmcifParser.BracketedAt | dash_bio_utils/mmcif_parser.py:110-111 | the reference definition of one `\[(\d+)\]` match starting at an index: `[`, at least one ASCII digit, `]` |
| MmcifParser.FirstBracketedFrom | dash_bio_utils/mmcif_parser.py:110-113 | the reference definition of the first match at or after an index; `FirstBracketedNone` and `FirstBracketedLeftmost` state its meaning |
| MmcifParser.BondEndIndex | dash_bio_utils/mmcif_parser.py:110-114 | the reference definition of `int(re.findall(r"\[(\d+)\]", s)[0])`, absent where `[0]` fails; `BondEndIndexOf` states its meaning |
| MmcifParser.FirstBracketedNone | dash_bio_utils/mmcif_parser.py:110-113 | no index is extracted exactly when no `[digits]` group occurs, the case where `[0]` fails |
| MmcifParser.FirstBracketedLeftmost | dash_bio_utils/mmcif_parser.py:110-113 | an extracted index is the number of the leftmost `[digits]` group |
| MmcifParser.BondEndIndexOf | dash_bio_utils/mmcif_parser.py:110-113 | an end reading `prefix[n]suffix` with no `[` in the prefix gives `n` |
| MmcifParser.BondFrom | dash_bio_utils/mmcif_parser.py:110-115 | the reference definition of one bond dict: the first end's index as `atom2_index`, the second end's as `atom1_index` |
| MmcifParser.BondsOf | dash_bio_utils/mmcif_parser.py:108-115 | the reference definition of the bond list: one `BondFrom` per resolver bond, in order |
| MmcifParser.BuildBonds | dash_bio_utils/mmcif_parser.py:108-115 | one bond per resolver bond in order, first end to `atom2Index` and second to `atom1Index`; fails exactly when some end has no group, naming the first such end, and returns no partial list |
| MmcifParser.CreateData | dash_bio_utils/mmcif_parser.py:35-115 | a scan error is returned first, then the empty-input failure, then the error of the first bond with an end that has no `[index]`; on success the atoms are built from the qualifying lines and their count is that of the qualifying lines, and the bonds are built from the resolver bonds |
| Mol3dStyles.Lookup | dash_bio_utils/mol3dviewer_styles_creator.py:49 | the reference definition of `m.get(key, '#ABABAB')` |
| Mol3dStyles.KeyFor | dash_bio_utils/mol3dviewer_styles_creator.py:55-60 | the reference definition of the atom key each colouring reads: `name` for atom, `residue_name` for residue and residue type, `chain` for chain |
| Mol3dStyles.DefaultScheme | dash_bio_utils/mol3dviewer_styles_creator.py:38-43 | the reference definition of the default table for each colouring |
| Mol3dStyles.SchemeInUse | dash_bio_utils/mol3dviewer_styles_creator.py:37-43 | the reference definition of the scheme after `None` is replaced by the default table; a non-dict scheme has no `.get` |
| Mol3dStyles.Paint | dash_bio_utils/mol3dviewer_styles_creator.py:48-49 | the reference definition of painting one class: its members set to one colour; `PaintAt` states its meaning |
| Mol3dStyles.ClassColors | dash_bio_utils/mol3dviewer_styles_creator.py:45-50 | the reference definition of the residue-type map: the classes painted in order; `ClassColorsDomain` and `ClassColorsLastWins` state its meaning |
| Mol3dStyles.ColorMap | dash_bio_utils/mol3dviewer_styles_creator.py:37-50 | the reference definition of the map the atoms are coloured from: the scheme in use, or for `residue_type` the class map built from it |
| Mol3dStyles.PaintAt | dash_bio_utils/mol3dviewer_styles_creator.py:48-49 | painting a class sets its members to the colour and leaves other entries alone |
| Mol3dStyles.ClassColorsDomain | dash_bio_utils/mol3dviewer_styles_creator.py:45-50 | the residue-type map covers exactly the amino acids listed in some class |
| Mol3dStyles.ClassColorsLastWins | dash_bio_utils/mol3dviewer_styles_creator.py:47-49 | an amino acid takes the scheme's colour, or `#ABABAB`, for the last class that lists it |
| Mol3dStyles.PaintStep | dash_bio_utils/mol3dviewer_styles_creator.py:48-49 | painting one more member is one map update |
| Mol3dStyles.PaintClass | dash_bio_utils/mol3dviewer_styles_creator.py:48-49 | the inner loop paints every member of a class; a scheme without `.get` fails exactly when the class has a member |
| Mol3dStyles.ResidueTypeColors | dash_bio_utils/mol3dviewer_styles_creator.py:45-50 | the nested loop yields the class colour map; it fails exactly when there is no `.get` and some class has a member |
| Mol3dStyles.StyleAtoms | dash_bio_utils/mol3dviewer_styles_creator.py:52-65 | one style per atom, in order, with the given visualization type and the map's colour or `#ABABAB` for the atom's key; it fails with no `.get` when there is an atom, and otherwise at the first atom without the key |
| Mol3dStyles.CreateMol3dStyle | dash_bio_utils/mol3dviewer_styles_creator.py:3-65 | takes the source's defaults (`stick`, `atom`, no scheme). It succeeds exactly when the arguments are valid, the scheme is not a truthy non-dict, a `.get` is available whenever a lookup happens, and every atom has the key. So the default call succeeds whenever the atoms have a `name`. Errors come in check order: visualization type, colour element, truthy non-dict scheme. Past those checks, a failure is the missing `.get` exactly when there is no map to colour from, and otherwise the first atom without the key. On success there is one style per atom, in order, with the argument's visualization type and the scheme colour or `#ABABAB` |
| NglParser.AtomEntries | dash_bio_utils/ngl_parser.py:19-21 | the reference definition of `atoms_list`: the entries holding the indicator, in order, with the indicator removed |
| NglParser.ResidueEntries | dash_bio_utils/ngl_parser.py:19-23 | the reference definition of `residues_list`: the entries without the indicator, in order |
| NglParser.EntriesPrefix | dash_bio_utils/ngl_parser.py:19-23 | the lists from a prefix of the entries are prefixes of the final lists, so order is kept |
| NglParser.EntriesLength | dash_bio_utils/ngl_parser.py:19-23 | the two lists together are as long as the entries |
| NglParser.HighlightsPartition | dash_bio_utils/ngl_parser.py:19-23 | each entry lands in exactly one list, at the position given by the earlier entries of its kind; an atom entry is stored with the indicator removed, a residue entry unchanged |
| NglParser.EntriesClean | dash_bio_utils/ngl_parser.py:20-23 | no stored entry holds the indicator or a comma |
| NglParser.Highlighted | dash_bio_utils/ngl_parser.py:14-25 | the reference definition of `get_highlights`: the text before the one separator and the comma-joins of `AtomEntries` and `ResidueEntries`; `HighlightsPartition` and `HighlightsRecoverable` state its meaning |
| NglParser.HighlightsRecoverable | dash_bio_utils/ngl_parser.py:25 | each returned value splits back on commas into its list, and is empty when its list is empty |
| NglParser.GetHighlights | dash_bio_utils/ngl_parser.py:14-25 | succeeds exactly when the separator occurs once; the prefix is the text before it; the values are the comma-joins of the atom and residue lists |
| NglParser.WithHighlights | dash_bio_utils/ngl_parser.py:46-54 | the reference definition of the reassignments after `get_highlights`: the text before `@` becomes the range (or the chain, with the range left "ALL"), and the highlights are taken over |
| NglParser.ParseSelection | dash_bio_utils/ngl_parser.py:30-54 | without '.' everything is "ALL" with no highlights. With '.', the id splits into exactly two parts. A chain part with ':' splits into chain and range, and only the range gives highlights. Without ':', the chain part gives the highlights and the range stays "ALL". The returned id is the text before the '.' |

## Left out

- The bond-topology resolver (parmed) and the temporary file copy (`mmcif_parser.py` lines 24-30) are foreign calls and filesystem work. Their output is an input to `CreateData`: the string forms of each bond's two ends.
- Reading the file (lines 33-35) is I/O. The file arrives as its lines.
- `json.dumps` (line 116) is serialisation. The result is the `Graph` datatype.
- Python's `float()` is not modelled. It is the parameter `toFloat` (`None` where it raises).
- `ParseFields` does not model the `.strip()` on each token because it is the identity on `split()` tokens (`TokensAreStripped`).
- The counter `ct` is not modelled: it is bumped but never read.
- The regular expression `\[(\d+)\]` is modelled only as "the leftmost `[`, digits, `]`", with ASCII digits only. Python's `\d` also matches other Unicode decimal digits.
- `Text.ParseDecimal`, `Text.ParseInt`: `int()` is modelled for ASCII decimal digits with an optional sign and surrounding whitespace. Underscore separators and non-ASCII digits are left out.
- `Text.IsSpace` lists the characters Python's `str.isspace` accepts. Anything beyond that list is not modelled.
- Atom indices taken from bonds are not range-checked against the atom list; neither does the source check them.
- The colour tables `ATOM_COLORS`, `RESIDUE_COLORS`, `RESIDUE_TYPE_COLORS`, `CHAIN_COLORS` and `AMINO_ACID_CLASSES` are not defined in the styles file. They are the parameter `ColorTables`, with the classes in their dict iteration order.
- The `isinstance(atoms, list)` check (styles lines 29-30) cannot fail: atoms are a sequence of dicts from string to string. Atom values of other types are not modelled.
- A `color_scheme` that is neither `None` nor a dict is modelled only by its truthiness (`NotAMapping`), and as an object without a `.get` method. A falsy mapping-like object that does have `.get` (an empty `collections.UserDict`, `types.MappingProxyType({})`) is not a separate case. It acts like an empty dict and is modelled as `Mapping(map[])`.
- `NglParser.GetHighlights`: the separator and the atom indicator are single characters. The only call site passes `'@'` and `'a'`. Multi-character separators are not modelled.
- The file lookup in `get_data` (`ngl_parser.py` lines 56-78) is I/O: glob, gzip, file reading and assembling the result dict.
