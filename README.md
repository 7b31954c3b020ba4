# capi, modelled in Dafny

capi is a small HTTP front end to `cbsd`, the FreeBSD jail and bhyve manager.
Its logic all sits in `main.go`. This project models the parts of it that
compute something and proves properties of them:

- **The listing parser.** The text `cbsd bls` prints becomes `Bhyves` records.
  The parser is written twice in `main.go`, once in HandleBhyveList and once
  in HandleInitBhyveList. Here it is stated once, in module `Listing`.
- **The record cache.** The global `bhyves` is a class, `Inventory.Inventory`,
  with a `seq<Bhyves>` field:
  - the start-up load appends to it;
  - the live listing builds its own list and leaves the cache alone;
  - the cached listing only reads it.
- **The create-command builder.** A `BCreate` descriptor becomes the `cbsd
  bcreate` command line (module `Create`). The builder loop of
  HandleBhyveCreate is a method over a static table of the 54 Go field names,
  in declaration order. That table stands in for the reflection.
- **The create tokenizer and the lifecycle argument vectors** (module
  `Dispatch`). These are what reaches `exec.Command`: the create line
  re-split by `strings.Fields`, and the fixed vectors of bstart, bstop and
  bremove.
- **Go library behaviour the code depends on** (module `GoText`):
  - `strings.Split`, `strings.Fields`, `strings.TrimSuffix`;
  - `len` of a string in UTF-8 bytes;
  - `strconv.Atoi` on a 64-bit platform, including the order in which
    ParseUint reports errors: leading digits worth more than 2^64-1 give
    the int64 bound of the sign even when other text follows them.

Three facts of `main.go` shape the model:

- A line is dropped when `len(line) <= 2` (main.go:147), that is, when it is
  at most two bytes long.
- The start-up load appends the parsed records to `bhyves` (main.go:189).
- HandleBhyveList collects its records in the local `imas` and never writes
  `bhyves` (main.go:144, 158).

A retained line with fewer than seven fields is an index out of range in Go.
`Listing.ParseLine` gives `None` for such a line. The parse of the listing
stops there, with `complete == false`:

- the live listing then answers `Aborted`;
- the start-up load keeps the records it had already appended.

## Model

| member | source | states |
|---|---|---|
| GoText.Split | main.go:143 | strings.Split on one character yields at least one piece, and no piece holds the separator |
| GoText.JoinSplit | main.go:143 | joining the pieces of a split with the separator gives the text back |
| GoText.SplitJoin | main.go:151 | splitting the join of separator-free pieces gives exactly those pieces, so Split and Join are inverses |
| GoText.Fields | main.go:290 | every token strings.Fields yields is non-empty and free of unicode.IsSpace characters |
| GoText.FieldsSpaced | main.go:290 | Fields of words, each followed by one space, gives back exactly those words in order |
| GoText.SpacedAppend | main.go:326-344 | writing two runs of space-terminated words one after the other is writing their concatenation |
| GoText.TrimSuffix | main.go:289 | the result is the text with the suffix removed exactly when the text ends with it, and the text unchanged otherwise |
| GoText.Utf8Len | main.go:147 | len counts UTF-8 bytes: between one and four per character, and exactly one per ASCII character |
| GoText.Atoi | main.go:152-154 | the value Atoi assigns when its error is dropped always lies in the int64 range |
| GoText.DigitRun | main.go:152-154 | the run of digits ParseUint reads before its first non-digit is maximal |
| GoText.AtoiDigitsThen | main.go:152-154 | digits followed by text that does not go on with a digit read as 0, unless the digits alone pass 2^64-1, in which case they read as MaxInt64; with nothing after them they read as their value held to int64 |
| GoText.AtoiSignDigitsThen | main.go:152-154 | the same after a '+' or '-': the signed value held to int64, 0 for trailing text, or the bound of the sign when the digits pass 2^64-1 |
| GoText.AtoiOverflowFirst | main.go:152-154 | leading digits worth more than 2^64-1, as in "99999999999999999999x", give MaxInt64 (MinInt64 after '-') whatever text follows them, since the range error comes before the syntax error |
| GoText.AtoiDecimal | main.go:152-154 | Atoi reads back a decimal numeral, unsigned, with '+' or with '-', and clamps values past the int64 range to the nearest bound |
| GoText.AtoiNoLeadingDigit | main.go:152-154 | text whose first character after an optional sign is not a digit, such as "", "-", "n/a", "x1" or "-v2", is read as 0, whatever digits come later |
| GoText.DigitsValueDecimal | main.go:152-154 | the digits Itoa writes have the value they were written from |
| GoText.Decimal | main.go:152-154 | the numeral of a natural number is a non-empty run of decimal digits |
| Listing.Collapse | main.go:149-150 | replacing [\s\p{Zs}]{2,} by " " leaves no two class characters adjacent, keeps empty text empty, and keeps whether the first character is one of the class |
| Listing.PadRun | main.go:149 | the run of class characters at the front of a line is maximal |
| Listing.CollapseIdentity | main.go:149-150 | text with no two adjacent class characters is left unchanged, so a lone tab or a trailing "\r" stays inside its field |
| Listing.CollapseIdempotent | main.go:149-150 | collapsing twice is the same as collapsing once |
| Listing.CollapseKeepsVisible | main.go:149-150 | collapsing rewrites only padding: the characters outside the class survive, in order |
| Listing.CollapseColumns | main.go:149-151 | columns separated by one space or by runs of two or more class characters collapse to the columns joined by single spaces |
| Listing.ParseColumns | main.go:151-157 | a padded row gives fields 0, 4, 5 and 6 verbatim and fields 1 to 3 through Atoi; fields past the seventh are ignored; fewer than seven fields give None, the index panic |
| Listing.LeadingPadEmptyName | main.go:149-151 | a line starting with two or more class characters that parses gives an empty name |
| Listing.SampleLineRecord | main.go:149-157 | a concrete row parses to its record with any column padding |
| Listing.ParseLine | main.go:149-157 | a line gives None, the index panic, exactly when its collapsed text splits into fewer than seven fields; otherwise the four text fields hold no space and the three numbers lie in the int64 range |
| Listing.Retained | main.go:147 | `len(line) > 2` counts bytes: a line of three or more characters is always kept, a kept line is never empty, and for ASCII lines kept means longer than two characters |
| Listing.Kept | main.go:146-147 | every line the parser looks at is longer than two bytes and is a line of the input |
| Listing.KeptAppend | main.go:146-147 | line filtering keeps input order: filtering a concatenation concatenates the filtered parts |
| Listing.KeptHasRetained | main.go:146-147 | every input line longer than two bytes is looked at |
| Listing.ParseLines | main.go:146-160 | the loop over the lines never yields more records than kept lines, and it completes exactly when it yields one record per kept line |
| Listing.ParseLinesRecords | main.go:146-158 | the parse yields one record per kept line, in order, each the record of its line, up to the first kept line with fewer than seven fields; it is complete exactly when all kept lines were read |
| Listing.ParseLinesComplete | main.go:146-158 | the parse completes if and only if every kept line has at least seven fields |
| Listing.ParseLinesNext | main.go:177-189 | one more line, while the parse is complete, is skipped when short, appends its record, or stops the parse |
| Listing.ParseLinesStopped | main.go:151-157 | after the panic line, later lines contribute nothing |
| Listing.ShortLinesSkipped | main.go:146-147 | the lines "" and "x" yield nothing; only the full row yields a record |
| Listing.SampleListing | main.go:143-160 | a one-row listing ending in "\n" yields exactly that row's record, and the empty last piece after the newline adds nothing |
| Inventory.LiveReply | main.go:139-162 | the handler writes nothing exactly when the command failed; a listed reply holds exactly the records the parse of the output yields, in order, one per kept line; an aborted one comes from output whose parse fell short of its kept lines |
| Inventory.Inventory.constructor | main.go:92 | the cache starts as the empty slice |
| Inventory.Inventory.InitBhyveList | main.go:165-192 | if the command fails, bhyves is unchanged; otherwise bhyves is its old value followed by the records of the listing, in order, and the load reports whether a panic line cut it short |
| Inventory.Inventory.BhyveList | main.go:133-163 | the reply is the parse of the live listing, computed into a local list, and bhyves is not in the method's frame |
| Inventory.Inventory.CacheBhyveList | main.go:194-196 | the cached listing returns bhyves as it is |
| Inventory.Boot | main.go:119-121 | after start-up the cache holds exactly what a live listing of the same output returns, or nothing when the command failed |
| Create.FieldNamesLength | main.go:25-80 | the field table has one name per BCreate field, 54 in all |
| Create.Values | main.go:328-335 | there is one value per field, in declaration order |
| Create.ForceName | main.go:316 | the name field becomes the path id, and every other field keeps the body's value |
| Create.Key | main.go:341 | the key is the Go field name lowered character by character: same length, no upper-case letter left, each character either kept or an upper-case letter moved to its lower-case form |
| Create.KeysOfGoNames | main.go:341 | keys are lower-cased Go field names, not JSON tags: JName gives jname, RelativePath gives relativepath, IP4Addr gives ip4addr |
| Create.Entries | main.go:337-339 | no argument ever has an empty value |
| Create.EntriesOne | main.go:337-344 | a field gives its key=value argument when its value is non-empty and nothing otherwise |
| Create.EntriesAppend | main.go:328 | fields are written in declaration order: the arguments of two runs of fields are those of each, one after the other |
| Create.EntriesHasField | main.go:337-344 | every non-empty field has its argument, keyed by its lower-cased Go name |
| Create.EntriesFromField | main.go:337-344 | every argument comes from a non-empty field with that key and value |
| Create.EntriesAllEmpty | main.go:337-339 | fields that are all empty give no arguments |
| Create.Chunk | main.go:343 | one argument is written as `key=value ` with a single trailing space: two characters besides the key and the value |
| Create.ChunkSplits | main.go:341-343 | the first '=' of a chunk ends the key, so the key and the value, whatever it holds, can be read back from the chunk |
| Create.Render | main.go:337-344 | the written arguments take at least two characters each, and a non-empty run ends in a space |
| Create.CreateCommand | main.go:326-344 | the command line starts with the prologue `env NOCOLOR=1 /usr/local/bin/cbsd bcreate inter=0 ` and ends in a space |
| Create.RenderAppend | main.go:343-344 | the text of two runs of arguments is the text of each, one after the other |
| Create.RenderStep | main.go:337-344 | one iteration of the field loop appends `key=value ` for a non-empty field and nothing for an empty one |
| Create.WriteFields | main.go:328-345 | the builder loop leaves the prefix followed by one `key=value ` chunk per non-empty field, in order |
| Create.BuildCreateCommand | main.go:314-347 | the command line is the prologue `env NOCOLOR=1 /usr/local/bin/cbsd bcreate inter=0 ` followed by the chunks of the descriptor with its name forced to the id |
| Create.LeadingEntry | main.go:328-344 | a non-empty first field gives the first argument, ahead of all the others |
| Create.NameComesFirst | main.go:316 | whatever the body held, a non-empty id makes `jname=<id> ` the first chunk after the prologue |
| Create.EmptyBodyValues | main.go:314-315 | every field of the all-empty body is empty |
| Create.EmptyBodyCommand | main.go:316-345 | an all-empty body with a non-empty id yields exactly the prologue followed by `jname=<id> ` |
| Create.EmptyBodyEntries | main.go:316-345 | an all-empty body with a non-empty id yields exactly one argument, jname=<id> |
| Dispatch.LifecycleCommand | main.go:209-210 | bstart (and likewise bstop and bremove at main.go:242-243 and 276-277) runs env with the arguments `NOCOLOR=0`, `cbsd`, the verb and `inter=0`, and the id, unsplit, as the rest of the last argument after `jname=` |
| Dispatch.ParseLifecycle | main.go:208-210 | an argument vector that reads back as a lifecycle operation has five arguments, the last being `jname=` followed by the id |
| Dispatch.LifecycleRoundTrip | main.go:208-210 | bstart, bstop and bremove build `env NOCOLOR=0 cbsd <verb> inter=0 jname=<id>`, whatever the id holds, including spaces: the verb and the id read back from it |
| Dispatch.ParseLifecycleExact | main.go:241-243 | a vector that reads back as an operation on an id is exactly the one built for them |
| Dispatch.LifecycleInjective | main.go:275-277 | different operations or ids never give the same argument vector |
| Dispatch.CreateInvocation | main.go:289-291 | the command run is the first word of the line, with one trailing newline dropped, and the other words are its arguments; every word is free of white space; a line with no word is the index panic |
| Dispatch.Tokens | main.go:343 | there is one `key=value` token per argument |
| Dispatch.RenderSpaced | main.go:343-344 | the text the builder writes is the `key=value` tokens, each followed by one space |
| Dispatch.TokensWords | main.go:343 | when no value holds white space, every `key=value` token is one word |
| Dispatch.CommandSpaced | main.go:326-344 | the command line is the prologue words and the tokens, each followed by one space |
| Dispatch.PrologueAllWords | main.go:326 | the five prologue words are free of white space |
| Dispatch.InvocationOfWords | main.go:289-291 | a line of space-terminated words runs its first word with the others as arguments |
| Dispatch.InvocationOf | main.go:289-291 | splitting the built command line runs env with the four fixed arguments and the tokens |
| Dispatch.CreateRoundTrip | main.go:289-291 | when no field value holds white space, re-splitting the built line gives env and exactly the intended arguments: the four fixed ones, then one key=value per non-empty field, in field order |
| Dispatch.CreateArgv | main.go:326-344 | the intended vector starts with the four fixed arguments and has one more per non-empty field |
| Dispatch.CreateArgvHasField | main.go:337-344 | each non-empty field is one argument of the intended vector, whatever its value holds |
| Dispatch.IdArgument | main.go:316 | with an all-empty body, the intended vector ends in the single argument jname=<id> |
| Dispatch.SpacedIdLine | main.go:289-291 | the id `a b` reaches cbsd as `jname=a` and a stray `b` |
| Dispatch.SpacedIdSplits | main.go:289-291 | the vector actually run for id `a b` differs from the intended one |
| Dispatch.NameLineSplits | main.go:289-291 | a line `<words> jname=a b ` splits into the words, `jname=a` and `b` |

## Left out

- HTTP routing, the request and response objects, and the 400 reply to a missing create body (main.go:123-130, 309-312) are transport. The path id and the decoded descriptor are inputs.
- JSON decoding and encoding (main.go:162, 195, 202, 235, 270, 315, 317) is library serialization. The decoded BCreate is an input, and the replies are the values the model returns.
- Process execution (`exec.Command`, `Output`, `Run`, the stdio wiring) is external. A listing's outcome is an input, failure or stdout text. For start, stop, remove and create the model gives the program and argument vector handed to exec.
- Goroutines and the mutex are concurrency, not modelled. The mutex guards only the exec call, never `bhyves`.
- Option parsing (`init`, getopt, `usage`) and all logging are left out.
- The reflection over BCreate is replaced by a static table of its 54 Go field names, in declaration order. `%s` of a string field is the string itself.
- Invalid UTF-8 in the command output is not modelled. Text is a sequence of Unicode scalar values, and `len` is their UTF-8 byte count.
- Create.Key: `strings.ToLower` is modelled on ASCII letters and digits only, the only characters Go field names of BCreate use.
- Inventory.Inventory.InitBhyveList: after a panic line, Go ends the whole process at start-up. The model stops the load and reports `completed == false`, with the records appended so far.
- Inventory.Inventory.BhyveList: a panic inside the handler aborts that request only. The model returns `Aborted` instead of any partial JSON.

## Findings

| source | as written | input that shows it | evidently intended | confidence | as-written member | corrected member |
|---|---|---|---|---|---|---|
| main.go:289-291 | The create command is built as one string and split again on white space. A field value holding a space therefore becomes several arguments. | path id `a b` with an empty body: cbsd receives `jname=a` and a stray `b` | each non-empty field reaches cbsd as one `key=value` argument, as the lifecycle commands do with the id | medium; not executed | Dispatch.SpacedIdSplits | Dispatch.CreateArgv |
