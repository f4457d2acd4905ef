# A model of the CWL descriptor generator

`cwlgenerator.py` writes Common Workflow Language descriptors for the EMBL-EBI
bioinformatics web-service tools. It asks the service for each tool's
parameters, resolves each parameter's default values, and writes each
eligible parameter as one optional input of the descriptor. The model covers
four parts:

- **Text normaliser** (`escape`, in `Normalize.dfy`). Line breaks and tabs
  become spaces, the ends are stripped, and the words are re-joined by
  single spaces. Whitespace is Python 3's `str.isspace` set.
- **Default-value resolver** (the bucket logic of `details_of`, in
  `Defaults.dfy`).
  - Input: the decoded detail tree of one parameter.
  - Output: four lists of defaults (protein, nucleotide, vector, generic).
  - `ResolveDefaults` is the source's nested loops, as a method with loop
    invariants. It is proved equal to `DefaultValues`, a specification
    defined entry by entry.
- **Field synthesiser** (`get_cwl_inputs`, in `Descriptor.dfy`). It produces
  the text block of one input and the position after it. A missing `name`
  or `description` detail raises `KeyError`, modelled as a `Failure`
  result.
- **Filter and position assigner** (the parameter loop of `main`, in
  `Positions.dfy`).
  - Parameters whose name contains `sequence` are skipped.
  - Every other parameter is synthesised at the next position, after a base
    of 8, or 9 for the eleven two-sequence tools.
  - The first `KeyError` ends the loop.

`Strings.dfy` holds the Python string operations the core relies on:
`isspace`, `sep.join`, the `in` substring test and `%i`. It also holds
`split('\n')` and a reader of decimal numerals; the generator does not use
these, and the model only uses them to read a written block back.
`Wrappers.dfy` holds `Option` and `Result`.

Two behaviours of the code are kept as written:

- A `property` member holding a single `{key, value}` pair (not a list) adds
  nothing to the context lists, because the code tests `type(prop) is list`
  (`SinglePropertiesAddNoContexts`).
- The label and documentation of a field are written as the detail texts
  are, without normalisation. An element without text prints as `None`.

## Model

| member | source | states |
|---|---|---|
| Normalize.Escape | cwlgenerator.py:21-23 | the result is normalised text: no CR, LF or tab, no whitespace other than single inner spaces, no space at either end |
| Normalize.Replace | cwlgenerator.py:22 | `str.replace` of a non-empty pattern, left to right: a replacement no longer than the pattern does not lengthen the text, and a one-character pattern absent from the replacement is gone from the result |
| Normalize.LStrip | cwlgenerator.py:23 | the result is a suffix of the input, only whitespace was removed, and it does not start with whitespace |
| Normalize.RStrip | cwlgenerator.py:23 | the result is a prefix of the input, only whitespace was removed, and it does not end with whitespace |
| Normalize.Strip | cwlgenerator.py:23 | the result is empty exactly when the input is all whitespace, and otherwise neither starts nor ends with whitespace |
| Normalize.Words | cwlgenerator.py:23 | `split()` yields non-empty words free of whitespace, the first of them starting with the first character of the text when that is not whitespace |
| Normalize.EscapeNoBreaks | cwlgenerator.py:21-23 | no carriage return, line feed or tab is left in the result |
| Normalize.EscapeIsJoinedWords | cwlgenerator.py:21-23 | the replace/strip/split/join chain equals joining the whitespace-separated words of the input with single spaces |
| Normalize.EscapeIdempotent | cwlgenerator.py:21-23 | normalising twice gives the same text as normalising once |
| Normalize.EscapeEmpty | cwlgenerator.py:21-23 | the result is empty exactly when the input is all whitespace |
| Normalize.EscapeFixedPoint | cwlgenerator.py:21-23 | a text is left unchanged exactly when it is already normalised |
| Normalize.WordsOfJoin | cwlgenerator.py:22-23 | splitting the space-joined non-empty words gives those words back |
| Normalize.JoinNormalized | cwlgenerator.py:22-23 | joining non-empty words by single spaces yields normalised text |
| Normalize.WordsEmpty | cwlgenerator.py:23 | `split()` yields no words exactly when the text is all whitespace |
| Normalize.WordsReplace | cwlgenerator.py:22-23 | replacing a whitespace pattern by a space does not change the words |
| Normalize.WordsLStrip | cwlgenerator.py:23 | stripping leading whitespace does not change the words |
| Normalize.WordsRStrip | cwlgenerator.py:23 | stripping trailing whitespace does not change the words |
| Normalize.NormalizedIsFixed | cwlgenerator.py:21-23 | re-joining the words of normalised text gives that text |
| Normalize.EscapeExample | cwlgenerator.py:21-23 | "a\r\nb\tc  d" is normalised to "a b c d" |
| Defaults.Buckets.Add | cwlgenerator.py:64 | appending to one context list extends that list by the value and leaves the other three unchanged |
| Defaults.ContextIndex | cwlgenerator.py:62 | every context has its place in the fixed visiting order protein, nucleotide, vector |
| Defaults.AddPropertyContexts | cwlgenerator.py:59-64 | a `defaultValueContexts` property appends the value to the list of each context it names as a substring, and changes nothing else |
| Defaults.AddEntryContexts | cwlgenerator.py:53-64 | one entry appends to each context list exactly what its property list contributes, in property order, and leaves the generic list alone |
| Defaults.DefaultValues | cwlgenerator.py:43-69 | the specification of the four lists: none for `stype` or a tree without `values/value`, otherwise the context lists and generic list built entry by entry |
| Defaults.ResolveDefaults | cwlgenerator.py:43-69 | the four lists equal the entry-by-entry specification; `stype` and a tree without `values/value` yield four empty lists |
| Defaults.EntriesDefaultsAppend | cwlgenerator.py:50-69 | the lists of two runs of entries are the lists of the first followed by those of the second (append-only, in order) |
| Defaults.GenericIndices | cwlgenerator.py:67-68 | lists, in increasing order, exactly the entries flagged `defaultValue == "true"` that carry a value |
| Defaults.GenericBucketSelects | cwlgenerator.py:66-69 | the generic list holds the value of each flagged entry once per occurrence, in input order |
| Defaults.PropertiesContextMembers | cwlgenerator.py:58-64 | a value is in one entry's contribution to a context exactly when it is that entry's value and some property marks the context |
| Defaults.ContextBucketMembers | cwlgenerator.py:50-64 | a value is in a context list exactly when some entry with that value has a property list naming that context |
| Defaults.SinglePropertiesAddNoContexts | cwlgenerator.py:56-57 | entries whose `property` is a single pair, not a list, add nothing to any context list |
| Defaults.ContextsEntryDefaults | cwlgenerator.py:50-69 | of two entries, a flagged one whose `property` list holds a `context` property and a `defaultValueContexts` property, and an unflagged one without properties, the first goes to the generic list and to each context whose name its text contains, and the second adds nothing |
| Defaults.ProteinNucleotideExample | cwlgenerator.py:50-69 | in those two entries, with the text "proteinnucleotide" the flagged value goes to the protein, nucleotide and generic lists and not to the vector list |
| Descriptor.Show | cwlgenerator.py:89 | `'%s'` of a detail text: the text itself, or `None` for an element without text |
| Descriptor.CwlInput | cwlgenerator.py:74-92 | succeeds exactly when `name` and `description` are both details; otherwise fails with `KeyError("name")`, or else `KeyError("description")`; returns the position plus one |
| Descriptor.DefaultKeyIffDefault | cwlgenerator.py:81-91 | the block has a `default:` line whenever the comma-joined generic list is non-empty, and only then unless the name itself makes its first line look like one |
| Descriptor.CwlInputReadBack | cwlgenerator.py:74-92 | split into lines, the block gives back the name line, the `type: string?` line, the label, the documentation, the `inputBinding:` line, the `--name` binding, the position and the `default` line it was written from; it has a `default` key when the joined default is non-empty, and exactly then unless the name itself makes its first line look like one |
| Descriptor.CwlInputPosition | cwlgenerator.py:76-88 | the number written after `position:` reads back as the returned position |
| Positions.BasePosition | cwlgenerator.py:160-162 | the base is 9 exactly for the eleven two-sequence tools (the list at cwlgenerator.py lines 119-121) and 8 otherwise |
| Positions.IsOptional | cwlgenerator.py:164 | a parameter is kept exactly when its name does not contain `sequence` |
| Positions.OptionalInputs | cwlgenerator.py:160-166 | on success, the k-th block is the synthesis of the k-th parameter without "sequence" in its name, at base + k + 1; on failure, the error is that of the first such parameter that fails, and all earlier ones succeed |
| Positions.OptionalMembers | cwlgenerator.py:163-164 | a parameter becomes an optional input exactly when it is a parameter and its name does not contain "sequence" |
| Positions.OptionalPrefix | cwlgenerator.py:163-166 | the optional inputs of a list are those of any prefix followed by those of the rest (input order kept) |
| Positions.TwoSequenceExample | cwlgenerator.py:160-166 | for a two-sequence tool with parameters asequence, database, matrix and format, the optional inputs are the last three; with both details present each is synthesised, at positions 10, 11 and 12 |
| Positions.SamePositions | cwlgenerator.py:163-166 | inputs whose details include `name` and `description` are each synthesised, at the position after the one passed in |
| Strings.IsSpace | cwlgenerator.py:23 | the whitespace set of Python 3's `str.isspace`, which `strip()` and `split()` use |
| Strings.Join | cwlgenerator.py:22 | `sep.join(parts)` is empty for no parts and otherwise starts with the first part |
| Strings.IsSubstring | cwlgenerator.py:164 | the `in` test on strings: the empty pattern is in every text, and a pattern found is no longer than the text |
| Strings.IntToString | cwlgenerator.py:88 | `%i` writes a minus sign exactly for a negative number, followed by a decimal numeral |
| Strings.SubstringAt | cwlgenerator.py:164 | Python's `in` on strings holds exactly when the pattern occurs at some offset |
| Strings.SplitUnlines | cwlgenerator.py:81-91 | newline-free lines, each written followed by a line feed, split back into the same lines plus an empty tail |
| Strings.IntRoundTrip | cwlgenerator.py:88 | `%i` writes a well-formed decimal numeral that reads back as the number |

## Left out

- Fetching over HTTP (`restRequest`, `tool_from`, `parameters_of`) is not modelled. The parameter mapping and each detail tree are inputs of the model.
- Parsing the XML with ElementTree and xmltodict is not modelled. The model starts from the decoded tree, with every consulted member as an `Option`.
- Some decoded shapes are not represented. For each, the original does the following:
  - An empty `<key/>` or `<defaultValue/>` decodes to `None`, which compares unequal to the expected text, so nothing is appended. The model treats the member as absent, with the same result.
  - A lone empty `<property/>` decodes to `None`, which is not a list, so it is skipped. The model treats it as absent, with the same result.
  - An empty inner `<value/>` of an entry decodes to `None`, and `'value' in value` still holds. So `None` is appended to the context lists the entry names, and to the generic list when the entry is flagged. The model has no such value and appends nothing. A `None` in the generic list would make the `",".join` of `get_cwl_inputs` raise `TypeError`.
  - An empty `<value/>` inside a `defaultValueContexts` property makes the test at line 63 raise `TypeError`. The model skips the property.
  - An empty `<property/>` among several decodes to `None` inside the list, and the test `'key' in pro` at line 59 raises `TypeError`. The model has no such list item; its `Property` without key and value is skipped.
  - An empty entry `<value/>` among several decodes to `None` inside the list, and the test `'properties' in value` at line 53 raises `TypeError`. The model has no such entry; its `ValueEntry` without members is skipped.
  - An empty `<values/>` or `<properties/>` makes the test at line 48 or line 54 raise `TypeError`.
  - A text-only entry is a string, so the `in` tests at lines 53 and 67 become substring tests. It is skipped, unless its text contains `properties`, or contains both `defaultValue` and `value`; then indexing it raises `TypeError`.
  - A `values/value` member holding one entry is a mapping, not a list, so the loop visits its keys. The key `properties` makes line 54 raise `TypeError`, and the other keys are skipped, so the entry's default is lost. The model's entries are always a list.
- `details_of` builds a dictionary of detail texts, and then overwrites a detail tag that happens to be `default_values`. The model keeps the details and the default lists as two separate fields of `Parameter`, so that overwrite is not captured.
- The `"\n".join` of the blocks and the Jinja template rendering (`generate_client`) are not modelled, and neither is writing the file (`write_client`).
- Reading `clients.ini`, the command-line arguments, the choice of client language and the console messages of `main` are not modelled.
- Descriptor.CwlInputReadBack: the read-back needs a name, label, documentation and joined default free of line feeds. Text with an embedded line feed would split into more lines than the block has fields.
