# TXF parser model

This is a Dafny model of the TXF reader. TXF is a line-oriented text format for geographic objects. A file holds:

- a header with a magic word (`.SXF` or `.SIT`) and a version;
- passport lines (`P<digits> value`);
- `.DAT` with the declared number of objects;
- the objects themselves;
- `.END`.

An object comes in one of two forms:

- An ordinary object: `.OBJ <code> <word>`, one or more field lines (`.KEY <n>` or `.<Name> value`), a count line and that many coordinate lines, then a `.SEM <n>` block of semantic lines.
- A title object: `.OBJ <code> TIT`, with a `>` title line in place of the semantics block.

Each count written in the file is checked against what follows it.

The model has four layers.

1. **Lines** (`TxfText`, `TxfLexer`, `TxfLines`):
   - every line rule of the grammar as a function on one line;
   - each rule is stated against the spelling of the lines it accepts (blanks, keywords and tokens written as a concatenation), in both directions: a line so spelled gives those tokens, and every line the rule accepts is so spelled;
   - the tokens it keeps come from the same lexical primitives: `Word`, keyword literals, `White()` and `restOfLine`;
   - the string operations the parse actions use: `rstrip` and `int` on text.
2. **Records** (`TxfRecords`):
   - every rule below the block level looks at one line only;
   - so a line is read once into a `Record` of what each line rule yields on it.
3. **Blocks** (`TxfBlocks`):
   - greedy repetition of one kind of line;
   - the dictionaries the actions build (the last duplicate wins, values right-stripped);
   - the coordinate and semantics blocks with their count checks;
   - the fields and key that both object actions share;
   - the title and ordinary object forms, the ordered choice between them, and the run of objects.
4. **Document** (`TxfDocument`):
   - the top-level grammar and action: header, passport dictionary, `.DAT` count against the objects found, and `.END`.

The object records live in two modules:

- `TxfObjects`:
  - `TxfObject` and `TxfFile` are the records of `txf_object_t` and `txf_file_t`;
  - `ResolveKey` and `NewTxfObject` give the constructor's key rule as values.
- `TxfInstances`: the constructor as it runs on mutable objects.
  - The fields dictionary is a `FieldDict` owned by the caller.
  - The constructor may insert `.KEY` into it in place.
  - The new `TxfObjectCell` keeps that same dictionary.

Before the grammar reads the text, pyparsing expands every tab to the next multiple of 8 columns. The column starts again after each line break, so each line expands on its own (`TxfDocument.ExpandLines`). A tab in a title or a value therefore reaches the object as spaces.

A parse ends in one of three ways:

- `Ok(file)`;
- `Err(Syntax)`, when the lines do not have the document's shape (pyparsing's `ParseException`);
- `Err(Failed(f))`, when a parse action or the constructor raised (a count mismatch, a missing `.KEY`, or `.KEY` text that `int` rejects). Such a failure aborts the whole parse, even inside the first alternative of an ordered choice.

`TxfScenarios` works through whole documents:

- a document with an ordinary object, parsed for every one-digit declared count `d` (0 to 9);
- a title object, parsed for every title text;
- concrete files;
- the corner cases of keys and titles.

The source is Python 2 (implicit relative imports, `u''` strings). So `int` on text accepts whitespace around the number, an optional sign, and whitespace between the sign and the digits; `isspace` follows Unicode 5.2.

Some facts about the code that a reader of the format might not expect:

- The number after `.OBJ` is the classification code `cls_code`, and the word after it is the localization `loc_code` (`txf_parse/parse.py:71`).
- The title header is `.OBJ <code>` followed by the literal `TIT` (`txf_parse/parse.py:86`).
- A `>` line with nothing after it gives an empty title (`TxfScenarios.EmptyTitle`), so a title object may have neither a title nor semantics.
  - `WellFormed` states what the code does guarantee: a title object has no semantics, and an ordinary object has an empty title and at least one semantic code.
- The `.KEY` field keeps its text, while the key is `int` of that text. So `.KEY 05` has text `05` and key 5 (`TxfScenarios.LeadingZeroKey`).
- The semantic count is checked against the size of the code-to-text dictionary, not against the number of lines (`txf_parse/parse.py:56-57`). When a code repeats, a count equal to the number of lines fails (`TxfBlocks.SemCountIsLineCount`).
- The object constructor inserts `.KEY` into the dictionary it is given when that dictionary lacks one (`txf_parse/__init__.py:22-23`, `TxfInstances.TxfObjectCell.Create`). The parser itself always passes a dictionary that already holds `.KEY`.

## Model

| member | source | states |
|---|---|---|
| TxfText.RStrip | txf_parse/parse.py:56 | the result is a prefix of the input, everything cut off is whitespace, and the result does not end in whitespace |
| TxfText.RStripIdempotent | txf_parse/parse.py:97 | right-stripping a stripped text changes nothing |
| TxfText.ParseIntOfDigits | txf_parse/parse.py:73 | `int` on a digit string, unsigned or with a `+` or `-` sign, is that string's decimal value with the sign applied |
| TxfText.SpacedSign | txf_parse/parse.py:73 | `int` reads a sign, whitespace and digits as the signed value of the digits |
| TxfText.ParseIntTrims | txf_parse/parse.py:73 | `int` ignores whitespace around the number: only the text from the first to the last non-whitespace character is read |
| TxfText.LStrip | txf_parse/parse.py:73 | the result is a suffix of the input, everything cut off is whitespace, and the result does not start with whitespace |
| TxfText.NatToDigits | txf_parse/parse.py:73 | the decimal spelling of a number is a non-empty digit string without a leading zero |
| TxfText.ParseIntRejects | txf_parse/parse.py:73 | `int` rejects any text with a character that is not a digit, a sign or whitespace |
| TxfText.NatOfDigits | txf_parse/parse.py:73 | a digit string without a leading zero is the decimal spelling of its own value |
| TxfText.DigitsOfNat | txf_parse/parse.py:37 | reading back the decimal spelling of a number gives the number |
| TxfText.LeadingZero | txf_parse/parse.py:73 | a leading zero does not change a digit string's value |
| TxfLexer.SkipBlanks | txf_parse/parse.py:20-23 | the position after the blanks that precede a token, and the first non-blank character there |
| TxfLexer.RunEnd | txf_parse/parse.py:20-21 | the end of the longest run of characters of one class |
| TxfLexer.Word | txf_parse/parse.py:28 | no match exactly when the first non-blank character is not an initial character; otherwise the token is that character followed by the maximal run of body characters |
| TxfLexer.WordOf | txf_parse/parse.py:20-21 | no match exactly when the first non-blank character is not of the class; otherwise the token is the maximal run of the class there |
| TxfLexer.Keyword | txf_parse/parse.py:26 | the keyword matches after the leading blanks only when it is followed by a blank or the end of the line; on no match, one of those conditions fails |
| TxfLexer.Marker | txf_parse/parse.py:87 | the marker matches exactly when it is the first non-blank character |
| TxfLexer.White | txf_parse/parse.py:23 | matches exactly when a blank is at the position, and consumes the whole run of blanks |
| TxfLexer.RestOfLine | txf_parse/parse.py:22 | everything after the position, blanks included |
| TxfLines.KeywordWord | txf_parse/parse.py:105 | a keyword followed by a word of one class (the shape of `.DAT`, `.KEY`, `.SEM` and the header): on every line spelled as blanks, the keyword, at least one blank, a non-empty word of the class and then text that cannot continue the word, the result is that word |
| TxfLines.KeywordWordSpelling | txf_parse/parse.py:105 | conversely, every line `KeywordWord` accepts is spelled that way with the word it yields; with `KeywordWord`'s own contract, it declines exactly the lines not so spelled |
| TxfLines.HeaderLine | txf_parse/parse.py:103 | the magic is `.SXF` or `.SIT` and the version a non-empty run of digits, dots and dashes; on every line spelled as blanks, one of the two magic words, at least one blank, a version and text that cannot continue it, the result is that magic and that version |
| TxfLines.HeaderLineSpelling | txf_parse/parse.py:103 | every line `HeaderLine` accepts is spelled as a header with the magic and version it yields |
| TxfLines.SitIsNotSxf | txf_parse/parse.py:103 | the two alternatives of `oneOf('.SXF .SIT')` never both match a line, so their order does not matter |
| TxfLines.DatLine | txf_parse/parse.py:105 | on every line spelled as blanks, `.DAT`, at least one blank, a digit run and text that is not a digit, the declared count is that digit run |
| TxfLines.DatLineSpelling | txf_parse/parse.py:105 | every line `DatLine` accepts is spelled so, with the digits it yields |
| TxfLines.KeyLine | txf_parse/parse.py:27 | on every line spelled as blanks, `.KEY`, at least one blank, a digit run and text that is not a digit, the key is that digit run |
| TxfLines.KeyLineSpelling | txf_parse/parse.py:27 | every line `KeyLine` accepts is spelled so, with the digits it yields |
| TxfLines.SemHeader | txf_parse/parse.py:47 | on every line spelled as blanks, `.SEM`, at least one blank, a digit run and text that is not a digit, the declared semantic count is that digit run |
| TxfLines.SemHeaderSpelling | txf_parse/parse.py:47 | every line `SemHeader` accepts is spelled so, with the digits it yields |
| TxfLines.EndLineSpelling | txf_parse/parse.py:106 | a line is an `.END` line exactly when it is blanks, `.END`, and then nothing or a blank and anything |
| TxfLines.ObjHeader | txf_parse/parse.py:26 | on every line spelled as blanks, `.OBJ`, at least one blank, a digit run `c`, blanks, a letter word `l` and text that is not a letter, the result is `(c, l)` |
| TxfLines.ObjHeaderSpelling | txf_parse/parse.py:26 | every line `ObjHeader` accepts is spelled so, with the code and word it yields |
| TxfLines.TitHeader | txf_parse/parse.py:86 | on every line spelled as blanks, `.OBJ`, at least one blank, a digit run `c`, blanks, and `TIT` as a whole word, the result is `c` |
| TxfLines.TitHeaderSpelling | txf_parse/parse.py:86 | every line `TitHeader` accepts is spelled so, with the code it yields |
| TxfLines.NamedValue | txf_parse/parse.py:28 | `Word(init, body) + White() + restOfLine`: on every line spelled as blanks, a name, at least one blank and a value not starting with a blank, the result is that name and that value, the rest of the line |
| TxfLines.NamedValueSpelling | txf_parse/parse.py:28 | every line `NamedValue` accepts is spelled so, with the name and value it yields |
| TxfLines.PassportLine | txf_parse/parse.py:104 | the tag is `P` and digits; on every line spelled as blanks, such a tag, at least one blank and a value, the result is that tag and value |
| TxfLines.PassportLineSpelling | txf_parse/parse.py:104 | every line `PassportLine` accepts is spelled so, with the tag and value it yields |
| TxfLines.FieldLine | txf_parse/parse.py:28 | the name is `.` and letters; on every line spelled as blanks, such a name, at least one blank and a value, the result is that name and value |
| TxfLines.FieldLineSpelling | txf_parse/parse.py:28 | every line `FieldLine` accepts is spelled so, with the name and value it yields |
| TxfLines.SemLine | txf_parse/parse.py:48 | on every line spelled as blanks, a digit code, at least one blank and a value, the result is that code and value |
| TxfLines.SemLineSpelling | txf_parse/parse.py:48 | every line `SemLine` accepts is spelled so, with the code and value it yields |
| TxfLines.CountLine | txf_parse/parse.py:33 | on every line spelled as blanks, a digit run and text that is not a digit, the coordinate count is that digit run |
| TxfLines.CountLineSpelling | txf_parse/parse.py:33 | every line `CountLine` accepts is spelled so, with the digits it yields |
| TxfLines.CoordLine | txf_parse/parse.py:29 | on every line spelled as blanks, a number `x` of digits, dots and dashes, at least one blank, a number `y` and text that cannot continue it, the result is `(x, y)` |
| TxfLines.CoordLineSpelling | txf_parse/parse.py:29 | every line `CoordLine` accepts is spelled so, with the two numbers it yields |
| TxfLines.TitleLine | txf_parse/parse.py:87 | the title is a suffix of the line right after a `>`; on every line spelled as blanks, `>` and a text, the result is that text |
| TxfLines.TitleLineSpelling | txf_parse/parse.py:87 | every line `TitleLine` accepts is blanks, `>` and the title it yields: only blanks come before the `>` |
| TxfLines.FieldEntry | txf_parse/parse.py:67 | the `.KEY <number>` form is tried first and gives the name `.KEY`; otherwise the entry is the field line |
| TxfLines.KeyLineIsFieldLine | txf_parse/parse.py:27-28 | every `.KEY <number>` line is also a field line named `.KEY` whose value starts with that number, so the order of the two forms matters |
| TxfLines.TitHeaderIsObjHeader | txf_parse/parse.py:86 | every title header is also an ordinary header whose localization is `TIT` |
| TxfLines.TitleLineIsNotSemHeader | txf_parse/parse.py:87 | a title line never opens a semantics block |
| TxfRecords.Recognize | txf_parse/parse.py:91-93 | the record of a line is coherent: a title header also reads as an ordinary header with `TIT`, and a title line is not a semantics header |
| TxfRecords.Records | txf_parse/parse.py:111-113 | one coherent record per line, in order, each the line's own reading |
| TxfObjects.ResolveKey | txf_parse/__init__.py:20-25 | both directions of when the key resolves; the key read from `.KEY` when none is given; `.KEY` added only when absent, with every other field unchanged |
| TxfObjects.NewTxfObject | txf_parse/__init__.py:14-28 | the object stores its arguments; it fails exactly when no key is given and `.KEY` is missing; an existing `.KEY` is kept unchanged, and a missing one is inserted with the given key; the key is the given one, or else the `.KEY` entry |
| TxfObjects.ResolveKeyIdempotent | txf_parse/__init__.py:20-23 | constructing again from the resolved key and fields changes nothing |
| TxfInstances.TxfObjectCell.Create | txf_parse/__init__.py:14-28 | it fails exactly when no key is given and `.KEY` is missing, and then leaves the dictionary alone; otherwise the new object shares the caller's dictionary, which now holds the resolved fields, and its value is `NewTxfObject`'s |
| TxfInstances.TxfObjectCell.Store | txf_parse/__init__.py:18-28 | every attribute is stored as passed |
| TxfBlocks.Repeat | txf_parse/parse.py:33 | greedy repetition: the pairs of the longest run of one kind of line, in file order, and the first position that is not such a line |
| TxfBlocks.DictOf | txf_parse/parse.py:56 | the dictionary's keys are exactly the keys of the pairs, and it has no more entries than pairs |
| TxfBlocks.LastWins | txf_parse/parse.py:56 | the value under a key is the right-stripped value of that key's last pair |
| TxfBlocks.DictSize | txf_parse/parse.py:57 | the dictionary has one entry per pair exactly when no key repeats |
| TxfBlocks.DistinctSnoc | txf_parse/parse.py:56 | the keys of a list are distinct exactly when the keys before the last are distinct and the last key is new |
| TxfBlocks.ParseCoords | txf_parse/parse.py:35-44 | a match has the declared number of coordinate lines, in file order; a mismatch of the count is a failure carrying both numbers; no match exactly when there is no count line or no coordinate line |
| TxfBlocks.ParseSems | txf_parse/parse.py:53-62 | on a match, the code-to-text dictionary has the declared size; otherwise a failure carries the declared count and the dictionary's size; no match exactly when there is no header or no semantic line |
| TxfBlocks.SemCountIsLineCount | txf_parse/parse.py:57 | in a matched semantics block, the declared count equals the number of lines exactly when no code repeats |
| TxfBlocks.TextFields | txf_parse/parse.py:81-82 | the object's fields are the parsed fields, every value as text |
| TxfBlocks.ObjStart | txf_parse/parse.py:69-75 | the fields dictionary and the key `int` reads from its `.KEY` text; a lookup failure exactly when `.KEY` is absent, and a conversion failure when its text is not an integer |
| TxfBlocks.BuildObject | txf_parse/parse.py:77-83 | the object action never declines; it fails exactly when the shared part fails; otherwise the object holds the codes, coordinates, title, semantics, text fields and `int` key |
| TxfBlocks.KeyTextSpellsKey | txf_parse/parse.py:73 | a parsed object's `.KEY` text without a leading zero is exactly the decimal spelling of its key |
| TxfBlocks.ParseTitObj | txf_parse/parse.py:91-100 | no match exactly when the header, the field lines, the coordinate block or the `>` line is missing; a matched title object has localization `TIT`, its fields, validated coordinates, the right-stripped title and no semantics, and is well formed; a failure is exactly the coordinate block's failure, or else, with the `>` line present, the key's failure |
| TxfBlocks.TitleTail | txf_parse/parse.py:94-100 | the `>` line closes the object, whose title is the line's text right-stripped, with the given code, coordinates and fields and no semantics; no match exactly when there is no `>` line; a failure is exactly the key's failure (a missing `.KEY` or text `int` rejects) |
| TxfBlocks.ParseOrdObj | txf_parse/parse.py:67-83 | no match exactly when the header, the field lines, the coordinate block or the semantics block is missing; a matched ordinary object has the header's codes, its fields, validated coordinates and semantics, and an empty title, and is well formed; a failure is exactly the coordinate block's failure, or else the semantics block's, or else the key's |
| TxfBlocks.ParseObjAt | txf_parse/parse.py:113 | the title form is tried first; its match or failure is the outcome; an object with semantics comes from the ordinary form |
| TxfBlocks.AlternativeOrderIrrelevant | txf_parse/parse.py:113 | the two forms never both match, and trying the ordinary form first gives the same outcome everywhere |
| TxfBlocks.ObjectRun | txf_parse/parse.py:113 | the objects that follow one another from a position are all well formed, and an empty run ends where it starts; a failure inside one ends the run and is a failure of that object |
| TxfBlocks.ObjectRunStep | txf_parse/parse.py:113 | one step of `OneOrMore`: no object at the position ends the run there, an object's failure is the run's failure, and a matched object is followed by the run from where it ends |
| TxfBlocks.RunAfter | txf_parse/parse.py:113 | a matched object heads the run from its position, followed by the run from where it ends |
| TxfBlocks.RunStops | txf_parse/parse.py:113 | an object whose action fails aborts the run from its position with that same failure |
| TxfBlocks.Cons | txf_parse/parse.py:113 | one more object in front of a run; an aborted run stays aborted |
| TxfBlocks.ObjectRunIsMaximal | txf_parse/parse.py:113 | no object starts where the run ends |
| TxfBlocks.ObjectRunSteps | txf_parse/parse.py:113 | a run's objects are those matched one after another from its start, each where the one before ended, in file order, and no object starts where it ends; an aborted run stopped at a position where an object's action failed with that failure |
| TxfBlocks.ChainIsRun | txf_parse/parse.py:113 | conversely, objects matched one after another up to a position where no object starts are the run |
| TxfBlocks.StopsAtIsRun | txf_parse/parse.py:113 | conversely, objects matched one after another up to a position where an object's action fails make the run abort with that failure |
| TxfDocument.NonBlank | txf_parse/parse.py:111-113 | only lines that are not blank remain, each one of the input's lines, and the input itself when none is blank |
| TxfDocument.NonBlankAppend | txf_parse/parse.py:111-113 | skipping blank lines works line by line: the kept lines of two inputs in a row are those of each, in order |
| TxfDocument.NonBlankOne | txf_parse/parse.py:111-113 | one line is dropped exactly when it is blank; with `NonBlankAppend` this fixes the result for every input |
| TxfText.ExpandFrom | txf_parse/parse.py:130 | pyparsing's `expandtabs` from a column: the result has no tab, is no shorter, and is the text itself when it has none |
| TxfText.ExpandAppend | txf_parse/parse.py:130 | expansion goes piece by piece, the second piece starting at the column the first one reaches |
| TxfText.TabStop | txf_parse/parse.py:130 | on one line, the text up to and including a tab expands to a multiple of 8 characters |
| TxfText.ExpandLinesApart | txf_parse/parse.py:130 | a line break resets the column, so a text expands as each of its lines does on its own |
| TxfDocument.ExpandLines | txf_parse/parse.py:130 | one line per line, each the tab-free expansion of its own line, and the input itself when it has no tab |
| TxfText.ParseIntSpelling | txf_parse/parse.py:73 | `int` on text gives `v` exactly when the text is whitespace, an optional sign and whitespace, a digit run and whitespace, and `v` is the digits' value with the sign applied |
| TxfDocument.ParseTxf | txf_parse/parse.py:6-130 | the parse of a document's lines, after tab expansion and passing over blank lines: an accepted file has magic `.SXF` or `.SIT` and one or more well-formed objects, and a count mismatch reports two different numbers |
| TxfDocument.ParseRecords | txf_parse/parse.py:111-127 | an accepted file has magic `.SXF` or `.SIT` and one or more well-formed objects; a count mismatch reports two different numbers |
| TxfDocument.ParseRecordsOk | txf_parse/parse.py:115-126 | the header gives magic and version, the passport is the dictionary of the passport lines, `.DAT` declares the number of objects, and the objects are followed by `.END` |
| TxfDocument.ParseRecordsMismatch | txf_parse/parse.py:120-125 | an object count mismatch happens only in a file of the right shape, and reports the declared and the found numbers |
| TxfDocument.ShapedOutcome | txf_parse/parse.py:122-126 | in a file of the right shape, equal counts are accepted and different counts fail with both numbers |
| TxfDocument.Assemble | txf_parse/parse.py:115-127 | the file holds the objects in file order, closed by `.END`, exactly when their number is the declared one; a run that does not end at `.END` is a syntax error; an aborted run is the document's failure, unchanged; otherwise the failure carries both numbers |
| TxfDocument.RunAborts | txf_parse/parse.py:111-113 | after the header and `.DAT`, an object run that aborts makes the whole document fail with that run's failure |
| TxfDocument.ParseRecordsFailed | txf_parse/parse.py:111-113 | conversely, every failure other than the object count is the failure of an object's action, reached after the header, `.DAT` and the objects before it |
| TxfDocument.ParseRecordsOkIff | txf_parse/parse.py:111-126 | a file is accepted exactly when it has the document's shape and the declared count equals the number of objects |
| TxfDocument.EmptyPassport | txf_parse/parse.py:112 | with no passport line after the header, the passport is empty |
| TxfScenarios.SampleRecordsOf | txf_parse/parse.py:26-48 | every line of the ordinary sample reads as the record of its kind, field entries included |
| TxfScenarios.SampleParses | txf_parse/parse.py:111-127 | the ordinary sample with declared count `d` gives its one object when `d` is 1, and an object count mismatch of `d` against 1 otherwise |
| TxfScenarios.SampleTextParses | txf_parse/parse.py:77-83 | the concrete ordinary sample gives magic `.SXF`, version `1.0`, an empty passport and its one object |
| TxfScenarios.MisdeclaredFails | txf_parse/parse.py:122-125 | the sample declaring two objects fails with declared 2 and found 1 |
| TxfScenarios.MiscountedFails | txf_parse/parse.py:35-44 | an object declaring 3 coordinates with two coordinate lines makes the whole document fail with that count mismatch, declared 3 and found 2 |
| TxfScenarios.TabTitleParses | txf_parse/parse.py:130 | a tab right after `>` becomes seven spaces, which the title keeps |
| TxfScenarios.TitleParses | txf_parse/parse.py:91-100 | a file with one title object gives that object, with localization `TIT`, its tab-expanded, right-stripped title and no semantics, for any title text |
| TxfScenarios.TitleSampleParses | txf_parse/parse.py:97 | the concrete title sample's title loses its trailing blanks |
| TxfScenarios.LeadingZeroKey | txf_parse/parse.py:73 | `.KEY 05` keeps the text `05`, and its key is 5, spelled `5` |
| TxfScenarios.EmptyTitle | txf_parse/parse.py:87 | a `>` line with nothing after it, or only blanks, gives an empty title |

## Left out

- Opening and decoding the file (`txf_parse/parse.py:130`), and the encoding parameter: the model starts from the decoded lines.
- Line splitting. The model takes the lines as given. It drops the lines that hold only blanks, as pyparsing's whitespace skipping passes over them.
- Whitespace across line breaks. pyparsing's whitespace skipping and `White()` also pass over line breaks. So the source accepts `.DAT` with its number on the next line (`txf_parse/parse.py:105`), and a field line `.NAME` with nothing after it takes the next line as its value (`txf_parse/parse.py:28`). In the model every line rule reads one line, so it rejects both.
- Text after `.END`: `parseFile` does not require the end of the input, so the model does not look at later lines.
- Literal prefix matching. A keyword literal, `TIT` included, is matched as a whole token, followed by a blank or the end of the line. pyparsing's `Literal` matches a prefix, so the source also reads `.OBJ 1 TITLE` as a title header. The `>` marker is matched as one character, however the title continues.
- ParseTxf: its own ensures state only what every accepted file and every count mismatch share. Which file and which failure a document gives is stated by `ParseRecordsOk`, `ParseRecordsOkIff`, `ParseRecordsMismatch`, `RunAborts` and `ParseRecordsFailed` about `ParseRecords`, which `ParseTxf` applies to the expanded non-blank lines.
- ParseRecords: the same holds; the failure of an aborted object run is named by `RunAborts` and `ParseRecordsFailed`, not by its own ensures.
- Exception types, messages and source locations. The count checks raise `ParseFatalException`, which `txf_parse/parse.py` never imports, so at run time each raises a `NameError` instead. Either way the parse is aborted, which is what `Failed` models.
- The `objects` module that `txf_parse/parse.py:4` imports is not part of this model. Its classes are taken to be those of `txf_parse/__init__.py`.
- Mutable default arguments and class attributes of `txf_object_t` and `txf_file_t`. Every call in the model passes its collections explicitly.
- `txf_file_t` (`txf_parse/__init__.py:37-42`) is kept as the value `TxfFile`, since nothing updates a file after construction.
- `txf_object_t` is modelled both as a value (`NewTxfObject`) and as a mutable class (`TxfInstances`). The parser uses the value, because it always passes a dictionary with `.KEY` and nothing aliases it afterwards.
- Coordinates and versions are kept as raw tokens. Nothing in the parser converts them.
- `int` on non-ASCII digits: the model reads only ASCII digits, which are all the grammar's `nums` allows. A `.KEY` field line with other digits, which Python 2 would accept, is rejected.
