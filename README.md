# PicMeta in Dafny

PicMeta reads embedded image metadata (EXIF tags) from a batch of files and
keeps only the tags whose names contain one of the caller's label substrings.
This project models its `PicMeta` class:

- `contains_substring(string, substrings)`, the tag-name filter. It is a pure
  function here, `PicMeta.ContainsSubstring`, returning `Result<bool>`. Its
  cases are tried in the source's order: an empty name never matches, an
  empty filter list matches, an empty filter string is an error, and
  otherwise some filter must occur in the name. The two loops of the source
  are the recursive functions `NoEmptyFilter` and `AnyOccurs`. Python's `in`
  on strings is `Strings.Occurs`, which is proved to decide
  `Strings.IsSubstring` (a contiguous, case-sensitive substring).
- `get_metadata(files, labels)`, the extraction. It is the method
  `PicMeta.GetMetadata`, built from three loops:
  - the label check (`CheckLabels`);
  - the loop over files, which updates the local results map with each
    file's record;
  - the loop over the tags found for a file, which copies each tag into a
    fresh record (`BuildRecord`).

  The method is proved equal to the specification function `Metadata`.
  Lemmas then state what that result is: the error cases and their order,
  the key set, each file's record, and a record as a union of single-label
  records.

A `PicMeta` object holds only the parser passed to its constructor and never
changes it. So the model has no class. The parser is a parameter
`parse: F -> Option<map<string, V>>`: for a file, it either fails (`None`) or
gives a map from tag name to value. `dir(image)` is that map's key set and
`image[label]` is lookup in it. `file.name` is a parameter `name: F -> string`.
Python's `str.strip()` is `Strings.Strip`, which removes the characters that
`str.isspace()` accepts, one end character at a time.

Every failure is one `Err` outcome. It carries the check that fired:
`EmptyFilter`, `BlankLabel`, `NoFiles` or `SourceFailed`. This shows the
order of the checks: labels first, then the file list, then the files in
order.

`GetMetadata`'s result is a function of its inputs (its `ensures` fixes it
completely). So two calls with the same files, labels and parser return the
same result.

The module `PicMetaExamples` restates the unit tests of `get_metadata` and
`contains_substring` in `PicMeta_test.py` as lemmas (listed under
"## Model"). It uses a mock parser that knows three files and fails on a
fourth. The tests that pass a non-list (PicMeta_test.py:73-75) cannot be
written with Dafny's types.

## Model

| member | source | states |
|---|---|---|
| Strings.IsWhitespace | PicMeta.py:61 | the set of characters `strip()` removes, exactly those `str.isspace()` accepts; none is a letter, digit or underscore, and none lies above U+3000 |
| Strings.Strip | PicMeta.py:61 | `strip()` leaves an empty string exactly when the label is all whitespace; otherwise the result neither starts nor ends with whitespace |
| Strings.StripIsSlice | PicMeta.py:61 | what `strip()` returns is a slice `s[lo..hi]` of the label, and everything outside that slice is whitespace |
| Strings.Occurs | PicMeta.py:52 | the scan for `substring in string` returns true exactly when the filter occurs contiguously, case-sensitively, somewhere in the name |
| PicMeta.NoEmptyFilter | PicMeta.py:48-49 | the assertion loop passes exactly when no filter is the empty string |
| PicMeta.AnyOccurs | PicMeta.py:51-54 | the early-return loop is true exactly when some filter occurs in the name (logical OR across filters) |
| PicMeta.ContainsSubstring | PicMeta.py:34-54 | an empty name gives false whatever the filters; else an empty filter list gives true; else any empty filter is an error even if another filter would match; else true exactly when some filter occurs in the name |
| PicMeta.MatchIsUnionOfSingleFilters | PicMeta.py:51-54 | with non-empty filters the call cannot fail, and a name matches the list exactly when it matches one filter given alone |
| PicMeta.ValidLabelsNeverRejected | PicMeta.py:48-61 | labels that pass get_metadata's strip check are non-empty, so contains_substring never raises its empty-filter assertion when called from get_metadata |
| PicMeta.RecordContents | PicMeta.py:68-71 | a file's record holds exactly the tags with a non-empty name that (when labels are given) contain some label, each with the parser's own value |
| PicMeta.RecordWithoutLabels | PicMeta.py:45-46 | with no labels a file's record is all of its tags except one whose name is empty |
| PicMeta.RecordIsUnionOfSingleLabels | PicMeta.py:69 | with labels, a tag is in a file's record exactly when it is in the record one of the labels selects on its own |
| PicMeta.Record | PicMeta.py:68-71 | the record for one file: a sub-map of the parser's tags, with the parser's values, that never holds the empty tag name. It is meant for labels that passed the label check. A failing contains_substring counts as "not selected" here, where Python would raise; no call from get_metadata reaches that case (ValidLabelsNeverRejected) |
| PicMeta.Collect | PicMeta.py:65-72 | the per-file loop over the remaining files: it keeps every name already in the result, and its only error is a parser failure |
| PicMeta.Metadata | PicMeta.py:59-73 | what get_metadata returns: success only with valid labels and a non-empty file list, and never the empty-filter error |
| PicMeta.BuildRecord | PicMeta.py:68-71 | collecting the accepted tag names and copying each one's value into a fresh record yields exactly the file's record |
| PicMeta.CheckLabels | PicMeta.py:60-61 | the label loop succeeds exactly when no label is empty or whitespace-only |
| PicMeta.GetMetadata | PicMeta.py:59-73 | the method returns exactly `Metadata`: labels checked first, then the file list, then each file parsed in order, its record stored under its name |
| PicMeta.CollectFails | PicMeta.py:66-67 | the per-file loop fails, with a parser error and no partial result, exactly when some remaining file cannot be parsed |
| PicMeta.CollectKeys | PicMeta.py:65-72 | the per-file loop's result has as keys the names already present plus the name of every remaining file |
| PicMeta.CollectRecords | PicMeta.py:65-72 | in the per-file loop's result each name holds the record of the last file with that name, and names of no remaining file keep their entry |
| PicMeta.MetadataFails | PicMeta.py:60-67 | get_metadata fails with the label error exactly when some label is all whitespace; otherwise with the file-list error when there are no files; otherwise exactly when some file cannot be parsed; never with the empty-filter error |
| PicMeta.ChecksPrecedeParsing | PicMeta.py:60-63 | a blank label or an empty file list fails the call whatever the parser would do with the files |
| PicMeta.MetadataKeys | PicMeta.py:65-73 | a successful result's key set is exactly the set of the files' names |
| PicMeta.MetadataRecords | PicMeta.py:66-72 | in a successful result, each name maps to the record of the last file with that name, built from that file's own tags alone |
| PicMetaExamples.EmptyNameEmptyFilters | PicMeta_test.py:76 | the empty name with no filters does not match |
| PicMetaExamples.NoFiltersMatchAll | PicMeta_test.py:77 | a non-empty name with no filters matches |
| PicMetaExamples.EmptyNameNeverMatches | PicMeta_test.py:78 | the empty name does not match `['dog']` |
| PicMetaExamples.EmptyFilterRejected | PicMeta_test.py:79-81 | `['']`, `['dog', '']` and `['fox', '']` are errors |
| PicMetaExamples.AbsentWordDoesNotMatch | PicMeta_test.py:82 | `['dog']` does not match "the quick brown fox" |
| PicMetaExamples.EachWordMatches | PicMeta_test.py:83-86 | each word of "the quick brown fox" matches |
| PicMetaExamples.AnyFilterMatches | PicMeta_test.py:87-88 | a list matches when one of its filters does |
| PicMetaExamples.MatchIsCaseSensitive | PicMeta_test.py:89 | `['Fox']` does not match "...fox" |
| PicMetaExamples.NoFilesRejected | PicMeta_test.py:102 | an empty file list is an error |
| PicMetaExamples.MissingFileFails | PicMeta_test.py:105 | a file the parser cannot read fails the call |
| PicMetaExamples.EmptyLabelRejected | PicMeta_test.py:106 | an empty label is an error, even for files that would parse (the same case recurs at lines 133, 160 and 188-189) |
| PicMetaExamples.FirstFileAllTags | PicMeta_test.py:109-111 | no labels give the file's whole tag map |
| PicMetaExamples.FirstFileShared | PicMeta_test.py:113-115 | `['shared']` keeps only `shared` |
| PicMetaExamples.FirstFileAbc | PicMeta_test.py:117-119 | `['abc']` keeps only `abc_only` |
| PicMetaExamples.FirstFileAbcOrSh | PicMeta_test.py:125-127 | `['abc', 'sh']` keeps both tags |
| PicMetaExamples.FirstFileNothing | PicMeta_test.py:129-131 | a label found nowhere gives an empty record |
| PicMetaExamples.FirstFileAbcOnly | PicMeta_test.py:121-123 | `['abc_only']` keeps only `abc_only` |
| PicMetaExamples.SecondFileAllTags | PicMeta_test.py:136-138 | no labels give def.jpg's whole tag map |
| PicMetaExamples.SecondFileShared | PicMeta_test.py:140-142 | `['shared']` keeps only def.jpg's `shared` |
| PicMetaExamples.SecondFileDef | PicMeta_test.py:144-146 | `['def']` keeps only `def_only` |
| PicMetaExamples.SecondFileDefOnly | PicMeta_test.py:148-150 | `['def_only']` keeps only `def_only` |
| PicMetaExamples.SecondFileDefOrSh | PicMeta_test.py:152-154 | `['def', 'sh']` keeps both of def.jpg's tags |
| PicMetaExamples.SecondFileNothing | PicMeta_test.py:156-158 | a label found nowhere gives def.jpg an empty record |
| PicMetaExamples.BothFilesAllTags | PicMeta_test.py:163-166 | no labels give each file its whole tag map |
| PicMetaExamples.BothFilesShared | PicMeta_test.py:168-170 | `['shared']` gives each file its own `shared` value |
| PicMetaExamples.BothFilesDefOnly | PicMeta_test.py:176-178 | `['def_only']` gives abc.jpg an empty record |
| PicMetaExamples.BothFilesNothing | PicMeta_test.py:184-186 | a label found nowhere gives both files an empty record |
| PicMetaExamples.BothFilesDef | PicMeta_test.py:172-174 | a label found in one file's tags gives the other file an empty record |
| PicMetaExamples.BothFilesDefOrSh | PicMeta_test.py:180-182 | each file's record is selected from its own tags |

## Left out

- The command-line entry point (PicMeta.py:76-85): argument parsing, opening the files and printing the result are I/O.
- `labels=None`: when no `--label` option is given, the entry point passes `None`, and the label loop at PicMeta.py:60 would raise on it. Labels are a sequence here, and `None` is not modelled.
- The `exif` library and the parsing of EXIF bytes: this is a foreign library. It is replaced by the parser parameter `parse`.
- Python's `dir()` reflection: it is the key set of the parser's map. The order in which tags or files are visited does not change the result except through name collisions between files, which are modelled (the last file wins).
- The `isinstance(substrings, list)` assertion (PicMeta.py:44): the Dafny types already guarantee it.
- The difference between `AssertionError` and `TypeError`: every failure is one `Err` outcome, labelled by the check that fired. The parser's own exception is reduced to `SourceFailed`.
- The whitespace set of `strip()` is the one `str.isspace()` accepts (ASCII 9-13 and 28-31, space, U+0085, U+00A0, U+1680, U+2000-U+200A, U+2028, U+2029, U+202F, U+205F, U+3000), written out. It does not follow later changes to the Unicode database.
- Python's `-O` switch: every rejection in the core is an `assert` (PicMeta.py:44, :49, :61, :63), and `-O` removes them. Then `contains_substring(s, [''])` returns true for a non-empty `s`, and `get_metadata([], labels)` returns `{}`. The model always performs the checks.
- The mock classes of the unit tests (PicMeta_test.py:28-64) appear only as the example parser `MockParse` and the record `MockFile`.
