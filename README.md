# Definition-file reader, modelled in Dafny

This project models the definition-file reader in `codegen/xml_def_reader.go`.
The reader takes a flat text file of record definitions and produces a forest
of linked entities, which a code generator later consumes.

A definition file is a sequence of lines:

- A header line has the shape `CMTCODE:<code> <ignored> PATH:<path> ParentCMTCODE:<parent>`.
  It opens a new entity.
- A body line has the shape `tag desc path req sign type`. It adds a field to
  the entity opened last.
- Blank lines and lines starting with `#` are skipped.

The reader works in two stages:

1. `readPlainXmlDef` turns the lines into an ordered list of entities. It then
   checks that no entity repeats a tag.
2. `buildXmlDefTree` makes one pass over that list:
   - it rejects a repeated code;
   - it puts every entity whose parent is `NULL` into the root map;
   - for every other entity, it links each body of the parent whose path equals
     the child's header path to the child (`IsEmbeddedSet`, `EmbeddedSet`).

`ReadXmlDef` chains the two stages and rejects a file that yields no entity.

## Modules

- `DefTypes` (def_types.dfy): the header, body and entity records, and the
  reader's errors.
- `Text` (text.dfy): the string operations the reader relies on.
  - Go's `strings.TrimSpace`, with the exact `unicode.IsSpace` set.
  - The removal of every U+FEFF.
  - The split of a line into tokens, the maximal runs of the characters that
    RE2's `\S` matches. RE2's `\s` is `[\t\n\f\r ]`.
- `LineParser` (line_parser.dfy): `readFileToStrings` (without the file I/O),
  `isComment`, `isHeader`, `isBody`, `newDefBody`, `newDefHeader` and
  `newDefEntity`.
- `PlainReader` (plain_reader.dfy): `readPlainXmlDef` and `validEntity`.
- `TreeBuilder` (tree_builder.dfy): `buildXmlDefTree`.
- `XmlDefReader` (xml_def_reader.dfy): `ReadXmlDef`.

## How the model is built

Each loop of the Go code is a `method` with the same loop. Each method is
proved equal to a specification function: `ReadFileToStrings` to `Preprocess`,
`ScanLines` to `Scan`, `ValidEntity` to `TagError`, `BuildXmlDefTree` to
`BuildTree`, and so on. Lemmas then state what those functions compute without
referring to the loop:

- Grouping is stated as a round trip. Writing the entities back as a stream of
  header and body items gives exactly the items of the kept lines.
- Reading is stated as a round trip too. Writing a list of entities as
  definition lines and reading them back gives that list, and the five-line
  file of a message with a group is read end to end
  (`XmlDefReader.MessageWithGroupFile`).
- Linking is stated through `LastChild`. A body ends up linked to the last
  child of its entity whose header path equals the body's path.

Go shares `*DefEntity` and `*DefBody` pointers between the flat list, the two
maps and the links. The model replaces them with indices:

- The entities live in one sequence.
- `EmbeddedSet` is `Some(k)` for the k-th entity of that sequence.
- The root map sends a code to an index.
- `BuildXmlDefTree` copies the entities into an array and rewrites the
  parent's bodies in its cells in place, as the Go loop rewrites the shared
  bodies.

The two regular expressions are modelled on tokens:

- `bodyReg` matches iff the line has at least six tokens. Its groups are the
  first six tokens; any further tokens are ignored.
- `headerReg` is not anchored. The model takes the leftmost match, which
  starts in token k, where k is the first token at which all three of these
  hold together:
  - token k contains `CMTCODE:` with at least one character after its first
    occurrence;
  - token k+2 starts with `PATH:` followed by at least one character;
  - token k+3 starts with `ParentCMTCODE:` followed by at least one character.

  A token that contains `CMTCODE:` but whose tokens two and three further on
  do not fit does not stop the search (`LineParser.FirstHeaderIndex`).
  `NewDefHeaderAtFirstToken` gives the usual case, a match starting at the
  first token.
- Tokens may be separated by any non-empty runs of `\s` and the line may
  start or end with such runs (`Text.TokensOfSpaced`).

The Go code can dereference nil in two places. The model turns both into
explicit errors:

- A body line before any header dereferences a nil `entity` (`codegen/xml_def_reader.go:83`).
  The model reports `BodyBeforeHeader`. This happens only after the body line
  has parsed, because Go calls `newDefBody` first.
- A parent code that has not been seen yet (`codegen/xml_def_reader.go:121-122`)
  leaves `rootEntity` nil, and the loop over its `Bodies` dereferences it. This
  covers a forward reference and a parent that does not exist. The model
  reports `UnknownParent`.

Two behaviours of the code are easy to misread:

- A missing parent is not skipped. Ranging over the `Bodies` of the nil
  `rootEntity` dereferences nil (`codegen/xml_def_reader.go:121-122`), so the
  model treats a missing parent as an error.
- A body line may have more than six tokens. `bodyReg` is not anchored, so a
  longer line still matches and the tokens after the sixth are ignored
  (`codegen/xml_def_reader.go:39`).

An entity goes into `allCmtCodes` before its parent is looked up. So an entity
whose parent code is its own code is a child of itself and not a root, and a
body of it whose path is its header path is linked to the last child with
that path at or after it (`TreeBuilder.SelfParentLinksItself`). Two cases
differ from a plain self-link:

- Code `NULL` with parent `NULL` is a root. The `NULL` test at
  `codegen/xml_def_reader.go:118` comes before the lookup, so nothing is linked.
- A later child with the same path overwrites the self-link
  (`codegen/xml_def_reader.go:124-125`). The body then links to that child.

Links never point backward. The only cycles they form are the self-links of
such entities (`XmlDefReader.ReadXmlDefLinks`).

## Model

| member | source | states |
|---|---|---|
| Text.TrimSpace | codegen/xml_def_reader.go:197 | The trimmed line has no `unicode.IsSpace` character at either end and is no longer than the line |
| Text.TrimSpaceCutsSpace | codegen/xml_def_reader.go:197 | The trimmed line is a slice of the line, and everything cut off on either side is `unicode.IsSpace` |
| Text.TrimSpaceFixesTrimmed | codegen/xml_def_reader.go:197 | Trimming leaves an already trimmed line alone and is idempotent |
| Text.RemoveAll | codegen/xml_def_reader.go:194 | No U+FEFF is left in the line, the line does not grow, and a line without U+FEFF is unchanged |
| Text.RemoveAllKeepsOthers | codegen/xml_def_reader.go:194 | A character occurs in the result iff it occurs in the line and is not U+FEFF |
| Text.RemoveAllOne | codegen/xml_def_reader.go:194 | A single character is dropped iff it is U+FEFF |
| Text.RemoveAllConcat | codegen/xml_def_reader.go:194 | Removal distributes over concatenation, so with `RemoveAllOne` every character other than U+FEFF stays, with its count and in its order |
| Text.Tokens | codegen/xml_def_reader.go:38-39 | Every piece of the split is a non-empty run of characters outside RE2's `\s` |
| Text.TokensEmptyIffBlank | codegen/xml_def_reader.go:38-39 | A line has no token iff it consists of `\s` characters only |
| Text.TokensOfSpaced | codegen/xml_def_reader.go:38-39 | For any tokens, any non-empty runs of `\s` between them and any runs of `\s` before and after them, the split recovers exactly those tokens |
| Text.TokensOfJoin | codegen/xml_def_reader.go:38-39 | Tokens joined by single blanks split back into exactly those tokens |
| LineParser.ReadFileToStrings | codegen/xml_def_reader.go:189-199 | The line count is kept; every U+FEFF is removed from the first line and only the first; every line is trimmed |
| LineParser.IsComment | codegen/xml_def_reader.go:134-136 | A line is a comment iff its first character is `#` |
| LineParser.IsHeader | codegen/xml_def_reader.go:138-140 | A header line is non-empty, starts with `C`, and is neither a comment nor blank, so the loop's skip test never drops it |
| LineParser.IsBody | codegen/xml_def_reader.go:142-144 | A line is a body iff it is not a header, and every comment line counts as a body |
| LineParser.NewDefBody | codegen/xml_def_reader.go:146-159 | Parsing succeeds iff the line has at least six tokens, otherwise it is `InvalidBody` of the line; the text fields are tokens and the body starts unlinked |
| LineParser.NewDefBodyOfSpaced | codegen/xml_def_reader.go:146-159 | With any runs of `\s` between and around the tokens, parsing succeeds iff there are at least six tokens; the fields are tokens 1, 2, 3 and 6, `Required` iff token 4 is `M`, `Sign` iff token 5 is `y`, and further tokens are ignored |
| LineParser.NewDefBodyOfFormat | codegen/xml_def_reader.go:146-159 | Reading back a written body yields the same body |
| LineParser.FirstHeaderIndex | codegen/xml_def_reader.go:38 | The match starts at the first token, from the given one on, at which all three header conditions hold; no earlier token qualifies, and none at all when there is no result |
| LineParser.NewDefHeader | codegen/xml_def_reader.go:161-171 | Parsing fails with `InvalidHeader` of the line iff no token window matches the header pattern; otherwise code, path and parent are non-empty tokens |
| LineParser.NewDefHeaderAtFirstToken | codegen/xml_def_reader.go:161-171 | When tokens 1, 3 and 4 carry `CMTCODE:`, `PATH:` and `ParentCMTCODE:` with something after them, the header holds their rests, and token 2 is discarded |
| LineParser.NewDefHeaderOfFormat | codegen/xml_def_reader.go:161-171 | Reading back a written header yields the same header, whatever its second token is |
| LineParser.NewDefHeaderOfSpaced | codegen/xml_def_reader.go:161-171 | The same holds for a header line followed by any further tokens, with any runs of `\s` between and around the tokens |
| LineParser.CleanFormatHeader | codegen/xml_def_reader.go:189-199 | A written header line without trailing space passes `readFileToStrings` unchanged; on the first line it must also be free of U+FEFF |
| LineParser.CleanFormatBody | codegen/xml_def_reader.go:189-199 | A written body line without space at its ends passes `readFileToStrings` unchanged; on the first line it must also be free of U+FEFF |
| LineParser.NewDefEntity | codegen/xml_def_reader.go:173-177 | A new entity has the given header and no bodies |
| PlainReader.ScanLines | codegen/xml_def_reader.go:63-85 | The line loop computes `Scan`, the fold of one skip, open or append step per line |
| PlainReader.ScanGroupsLines | codegen/xml_def_reader.go:63-85 | The loop succeeds iff every kept line parses and the first kept line is a header; then the entities, written back, are the items of the kept lines in order, so each body lands in the entity of the nearest preceding header in input order |
| PlainReader.FlattenInjective | codegen/xml_def_reader.go:63-85 | The written-back item stream determines the entities, so the grouping above is the only one |
| PlainReader.ScanStopsAtFirstError | codegen/xml_def_reader.go:71-82 | The loop returns the error of the first failing line, whatever follows it |
| PlainReader.ScanErrorIsLineError | codegen/xml_def_reader.go:71-83 | The loop fails only with `InvalidHeader`, `InvalidBody` or `BodyBeforeHeader` |
| PlainReader.ScanKeepsUnlinked | codegen/xml_def_reader.go:79-83 | No body the loop builds is linked to an embedded set |
| PlainReader.StepOfFormatHeader | codegen/xml_def_reader.go:69-77 | A written header line opens a new entity with that header |
| PlainReader.StepOfFormatBody | codegen/xml_def_reader.go:78-84 | A written body line whose tag does not start with a space, `#` or `CMTCODE:` is appended to the current entity |
| PlainReader.FileLinesClean | codegen/xml_def_reader.go:189-199 | Written definition lines pass `readFileToStrings` unchanged |
| PlainReader.ScanBodyLines | codegen/xml_def_reader.go:78-84 | Written body lines are appended, in order, to the bodies of the current entity |
| PlainReader.ScanFileLines | codegen/xml_def_reader.go:63-85 | The lines of written entities append exactly those entities, in order, to the list |
| PlainReader.ReadPlainOfFileLines | codegen/xml_def_reader.go:55-95 | Round trip: a written, non-empty list of entities reads back successfully iff no entity repeats a tag, and then as exactly that list |
| PlainReader.FirstRepeat | codegen/xml_def_reader.go:97-107 | There is no repeated tag iff the tags are pairwise distinct; otherwise the result is the first body whose tag an earlier body has |
| PlainReader.ValidEntity | codegen/xml_def_reader.go:97-107 | `validEntity` succeeds iff the entity's tags are pairwise distinct; otherwise it reports the first repeated tag with the entity's code |
| PlainReader.TagErrorMeaning | codegen/xml_def_reader.go:97-107 | The reported error is absent iff the tags are pairwise distinct, and otherwise names a tag that an earlier body of the same entity already has, with the entity's code |
| PlainReader.ValidEntities | codegen/xml_def_reader.go:87-92 | The validation loop computes `ValidateAll` |
| PlainReader.ValidateAll | codegen/xml_def_reader.go:87-92 | Validation succeeds iff every entity's tags are pairwise distinct |
| PlainReader.ValidateAllReportsFirst | codegen/xml_def_reader.go:87-92 | The reported error is that of the first entity with a repeated tag |
| PlainReader.ValidateAllIsTagError | codegen/xml_def_reader.go:97-107 | Validation fails only with `DuplicatedTag` |
| PlainReader.ReadPlainXmlDef | codegen/xml_def_reader.go:55-95 | `readPlainXmlDef` computes `ReadPlain`: preprocess, reject an empty file, fold the lines, validate the entities |
| PlainReader.ReadPlainSucceeds | codegen/xml_def_reader.go:55-95 | Reading succeeds iff the file has lines, the loop succeeds and no entity repeats a tag |
| PlainReader.ReadPlainErrors | codegen/xml_def_reader.go:60-61 | `EmptyFile` is reported iff there are no lines, and a repeated tag is reported only after every line has been read without error |
| PlainReader.ReadPlainOk | codegen/xml_def_reader.go:55-95 | On success the entities are the grouping of the kept lines, tags are distinct in each entity and no body is linked yet |
| TreeBuilder.BuildXmlDefTree | codegen/xml_def_reader.go:109-132 | The pass, with its in-place linking loop, computes `BuildTree` |
| TreeBuilder.LastChild | codegen/xml_def_reader.go:120-127 | The link a body ends up with is the last entity so far that is a child of its entity with the body's path, or none when there is no such child |
| TreeBuilder.StepFits | codegen/xml_def_reader.go:112-129 | One good iteration keeps the code map, the root map and the links in step with the entities processed so far |
| TreeBuilder.StepLinksFit | codegen/xml_def_reader.go:120-127 | Linking a child changes only its parent's bodies with the child's path; every other body and entity is unchanged, and a later child overwrites an earlier link |
| TreeBuilder.BuildTreeSucceeds | codegen/xml_def_reader.go:112-129 | The pass succeeds iff codes are pairwise distinct and every non-root parent code belongs to an entity at or before its child |
| TreeBuilder.BuildTreeFails | codegen/xml_def_reader.go:113-122 | The pass fails on the first bad entity, with `DuplicatedCode` before `UnknownParent` |
| TreeBuilder.BuildTreeResult | codegen/xml_def_reader.go:109-132 | On success the root map holds exactly the codes of `NULL`-parent entities, each mapped to its entity; headers and body counts are kept and each body carries its `LastChild` link |
| TreeBuilder.RootKeys | codegen/xml_def_reader.go:118-119 | With distinct codes, an entity's code is a root key iff its parent is `NULL`, and the key maps to that entity |
| TreeBuilder.SelfParentLinksItself | codegen/xml_def_reader.go:116-126 | An entity whose non-`NULL` parent code is its own code is not a root. A body with its header path links to the last same-path child at or after it. That child is the entity itself iff no later entity is such a child |
| TreeBuilder.ForwardParentFails | codegen/xml_def_reader.go:121-122 | Example: a two-entity list whose child comes before its parent fails with `UnknownParent` on the child. In general the pass fails on the first bad entity (`BuildTreeFails`) |
| TreeBuilder.MessageWithGroup | codegen/xml_def_reader.go:109-132 | A message with a group child: the field whose path is the group's header path is linked to the group, the other field is not, and only the message is a root |
| XmlDefReader.ReadXmlDef | codegen/xml_def_reader.go:42-53 | `ReadXmlDef` computes `ReadXmlDefSpec`: the plain read, `EmptyEntity` when there is no entity, then the tree build |
| XmlDefReader.ReadXmlDefSucceeds | codegen/xml_def_reader.go:42-53 | A read succeeds iff the plain read yields at least one entity with distinct codes and seen parents; no lines give `EmptyFile` and no entities give `EmptyEntity` |
| XmlDefReader.OnlySkippedLinesIsEmptyEntity | codegen/xml_def_reader.go:48-49 | A file of blank and comment lines is rejected with `EmptyEntity` |
| XmlDefReader.ReadXmlDefOk | codegen/xml_def_reader.go:42-53 | On success the entities group the kept lines; tags and codes are distinct; the root map and the links are as `BuildTreeResult` states |
| XmlDefReader.ReadXmlDefRoots | codegen/xml_def_reader.go:118-119 | On success a non-root entity is never a root key, and a root entity is the value of its own code |
| XmlDefReader.ReadXmlDefOfFileLines | codegen/xml_def_reader.go:42-53 | Reading a written, non-empty list of entities without repeated tags is building the tree of exactly that list |
| XmlDefReader.MessageWithGroupFile | codegen/xml_def_reader.go:42-132 | The five-line file of message `MSG1` and group `GRP1` reads as one root `MSG1` whose field `F2` is linked to `GRP1`, while `F1` and `G1` stay unlinked |
| XmlDefReader.ReadXmlDefLinks | codegen/xml_def_reader.go:120-127 | On success a body is embedded iff it has a link, which goes to the last child of its entity with the body's path, and every other field is as read; links never point backward, and a link points at its own entity only for a self-parent, so the only cycles are those self-links |

## Left out

- File I/O in `readFileToStrings` (`os.Open`, `bufio.Scanner`, `Close`) is not modelled. The model starts from the lines the scanner yields. It does not model the scanner's removal of a trailing `\r` or its failure on a line longer than its buffer.
- Go strings are byte strings. Here a line is a sequence of Unicode code points, and invalid UTF-8 is not modelled.
- The RE2 engine is not modelled. `bodyReg` and `headerReg` are replaced by the token matchers described above.
- The exact error messages of `fmt.Sprintf` are not modelled, including the misspelling in the duplicate-tag message. Errors are variants that carry the offending line, tag or code.
- Pointer identity is not modelled. Links and map values are indices into the entity sequence. `ReadXmlDef` returns the root map together with that sequence, where Go returns only the map of pointers.
- The two nil dereferences are reported as `BodyBeforeHeader` and `UnknownParent` errors instead of crashing the program.
- `validEntity`'s `map[string]int` is a `map<string, int>` in which every stored value is 1. Go's zero value for a missing key is modelled by the membership test.
- `main.go` is not part of this model. It is command-line glue with no reader logic.
- PlainReader.ReadPlainOfFileLines: is stated for fields without U+FEFF. This is broader than needed: only the first line loses its U+FEFF on reading, so only the first header's fields would fail to read back. Later lines keep U+FEFF, but their fields are still excluded.
