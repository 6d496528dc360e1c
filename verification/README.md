# queryfy: a verified model

queryfy validates, transforms and queries dynamic data: values made of null, booleans, numbers, strings,
lists and string-keyed maps. This project models its core in Dafny and proves what each part is for.
`dafny verify dfyconfig.toml` checks everything.

The model takes the form of the code. Loops over mutable state are methods of classes with the fields of
the original structs (`FastJSONParser`, `Buffer`, `Limiter`, `Lexer`, `Parser`, `Cache`,
`ValidationContext`, `Builder`); each is proved against a specification function. What the library
promises is then proved about the specification.

**The superjsonic parser.** `Words` proves the 64-bit tricks exact. `Atoms` packs keys into integers and
back. `JsonGrammar` is the grammar of RFC 8259 as concrete syntax trees, with the code's laxer strings and
with those of section 7. `JsonScan` is one specification of scanning; `JsonParser` holds the parser with
its selectable scanners, all proved to meet it; `JsonMeaning` proves that it accepts exactly the grammar;
`JsonLossless` proves that the tokens spell the input, and `JsonRunsOff` says when it reads past it. Two facts of the code shape these results: parsing
stops after the first value, and after a comma the object loop reads a byte without a bound check, which
is a failure outcome of its own here (`RanOff`). `StressScanner` and `PacketBuffer` model the string loop
and the packed buffer of the stress variant.

**Queries.** `QueryLexer` and `QueryParser` model the lexer and the two-token parser; `QueryRoundTrip`
proves that parsing undoes printing, with any whitespace between tokens; `QueryGrammar` says which texts are
queries for which paths, and `QueryAutomaton` what is wrong with the others. `QueryExecutor` runs paths and
`QueryWildcards` says what they find in the data. `QueryCache` is the shared cache as a state machine
of any number of threads.

**Schemas.** `Schemas` holds the schema tree and the specification of validation: what is appended to a
context. `ValidationContext` and `SchemaValidation` are the imperative code. `SchemaMeaning` says which
values are accepted without mentioning errors or paths, and `SchemaReports` which errors are reported about
the others. `SchemaRelocation` proves that errors only depend
on the path by having it in front. `SchemaTransform`, `SchemaTransformLaws` and
`SchemaTransformMeaning` treat ValidateAndTransform; `SchemaCompile`, `SchemaCompiledRun`,
`SchemaCompileCorrect` and `SchemaCompiledReports` the compiler, by both of its routes; `SchemaPositions` the
walk, and `SchemaWalk` its agreement with validation and query; `SchemaEquality`, `SchemaDecoding`,
`SchemaEqualSound` and `SchemaEqualKinds` canonical strings and Equal; `SchemaDiff` the structural difference. `JsonSchema`,
`JsonSchemaConverter` and `JsonRoundTrip` are JSON Schema import and export; `JsonSchemaMeaning` says what a
document means, and `JsonSchemaProblems` and `JsonSchemaReports` what an import reports about it.

**The rate limiter.** `RateLimiter` proves sliding-window safety over whole runs.

Regular expressions, custom validators, transformers, number parsing and the printing of values are
function-valued parameters about which nothing is assumed (`Schemas.Env`, `JsonSchema.Codec`,
`SchemaEquality.Printer`), except where a result names what it needs. Numbers are exact. Where the source
ranges over a map the order is unspecified, and the model takes the keys in ascending order.

## Where the code and its documentation or intent part

- Atoms lose what follows a NUL byte in a key, and the empty key has the atom of every key that is too
  long; `JsonLossless.Lossless` and `JsonLossless.FastCompareExact` give the exact conditions.
- An empty query fails in ExecuteCached but returns the data in Execute (`QueryCache.CacheIsTransparent`).
- A compiled schema can differ from its original: kinds of numbers the compiler does not know, numeric
  strings in loose mode, a divisor of zero, validators of numbers (they get the raw value, and not its
  float64), required names without a field, and null into a Transform. Each has its own exact condition in
  `SchemaCompileCorrect`.
- Joining printed paths loses empty segments (`ErrorPaths.JoinPrinted` has the exact condition).
- Equal does not see uniqueItems, Positive or Negative, nor commas inside enum values, nor the flags of And,
  Or and Not; `SchemaEqualSound` and `SchemaEqualKinds` say for each on which values this matters.
- A format registered under the empty name does not survive export (`JsonRoundTrip.RoundTripExact`).
- `storeUnknownOnSchema` says that title and description are always stored; the code skips them, and so
  does the model.

## Model

| member | source | states |
|---|---|---|
| Words.RealHasByteExact | superjsonic/prototype/superjsonic_multi/superjsonic_multi.go:271-277 | The eight-byte test finds `b` exactly when one of the eight bytes is `b`, for every word. |
| Words.RealIsWhitespaceExact | superjsonic/prototype/superjsonic_multi/superjsonic_multi.go:279-290 | The whitespace mask is nonzero exactly when some byte is a space, tab, newline or carriage return. |
| Words.PlainHasByte | superjsonic/prototype/superjsonic_multi/superjsonic_multi.go:295-303 | The loop over shifted bytes answers the same question, so it agrees with the word trick. |
| Words.PlainIsWhitespace | superjsonic/prototype/superjsonic_multi/superjsonic_multi.go:305-314 | The loop's mask is nonzero exactly when some byte is whitespace. |
| Words.LoadBytes | superjsonic/prototype/superjsonic_multi/superjsonic_multi.go:754-777 | A little-endian load of eight bytes holds each of them at its own place. |
| Atoms.MakeAtom64 | superjsonic/prototype/superjsonic_multi/superjsonic_multi.go:124-133 | Packs a key of up to eight bytes, each byte in its place and zeros above; longer keys give 0. |
| Atoms.MakeAtom128 | superjsonic/prototype/superjsonic_multi/superjsonic_multi.go:135-154 | Packs up to sixteen bytes into two words in the same way. |
| Atoms.Atom64String | superjsonic/prototype/superjsonic_multi/superjsonic_multi.go:161-171 | Gives back the bytes of the word up to the first zero byte. |
| Atoms.Atom128String | superjsonic/prototype/superjsonic_multi/superjsonic_multi.go:173-192 | Gives back the bytes of both words up to the first zero byte. |
| Atoms.Atom64RoundTrip | superjsonic/prototype/superjsonic_multi/superjsonic_multi.go:124-171 | String undoes makeAtom64 up to the first NUL: a key of at most eight bytes comes back whole exactly when it holds none. |
| Atoms.Atom128RoundTrip | superjsonic/prototype/superjsonic_multi/superjsonic_multi.go:135-192 | The same for keys of at most sixteen bytes. |
| Atoms.Atom64Injective | superjsonic/prototype/superjsonic_multi/superjsonic_multi.go:124-133 | Two short keys have one atom exactly when they are equal after padding with zeros, hence never if NUL-free and different. |
| Atoms.Atom128Injective | superjsonic/prototype/superjsonic_multi/superjsonic_multi.go:135-154 | The same for the 128-bit atoms. |
| JsonGrammar.RfcStringIsRelaxed | superjsonic/prototype/superjsonic_multi/superjsonic_multi.go:693-715 | Every string body of section 7 of RFC 8259 is one the scanner accepts. |
| JsonGrammar.RfcTreeIsRelaxed | superjsonic/prototype/superjsonic_multi/superjsonic_multi.go:490-607 | Every text of the grammar of RFC 8259 is one of the grammar with the code's laxer strings. |
| JsonMeaning.AcceptsGrammar | superjsonic/prototype/superjsonic_multi/superjsonic_multi.go:458-607 | Main result: an input is accepted exactly when it starts with whitespace and a value of the grammar, and then the end and the events are those of that value. |
| JsonMeaning.AcceptsRfcText | superjsonic/prototype/superjsonic_multi/superjsonic_multi.go:458-474 | Every complete RFC 8259 text is accepted and consumed to the end of its value; trailing bytes are not looked at. |
| JsonMeaning.ValueSound | superjsonic/prototype/superjsonic_multi/superjsonic_multi.go:490-607 | Whatever is accepted at any position is the rendering of a tree, with the tree's events. |
| JsonMeaning.ValueComplete | superjsonic/prototype/superjsonic_multi/superjsonic_multi.go:490-607 | The rendering of any tree is accepted wherever it stands, if the next byte does not continue it. |
| JsonMeaning.NumberSound | superjsonic/prototype/superjsonic_multi/superjsonic_multi.go:836-885 | An accepted number is a number of section 6 of RFC 8259, taken as far as it goes. |
| JsonMeaning.NumberComplete | superjsonic/prototype/superjsonic_multi/superjsonic_multi.go:836-885 | Every number of the grammar is accepted whole when the next byte does not continue it. |
| JsonMeaning.StringEndComplete | superjsonic/prototype/superjsonic_multi/superjsonic_multi.go:693-715 | A string body followed by a quote is scanned to that quote, escapes skipped in pairs. |
| JsonParser.FastJSONParser.constructor | superjsonic/prototype/superjsonic_multi/superjsonic_multi.go:387-436 | A new parser is empty and in value context, whichever scanners it holds. |
| JsonParser.FastJSONParser.SkipWhitespaceBasic | superjsonic/prototype/superjsonic_multi/superjsonic_multi.go:779-783 | Stops at the first byte that is not whitespace. |
| JsonParser.FastJSONParser.SkipWhitespaceSimd | superjsonic/prototype/superjsonic_multi/superjsonic_multi.go:754-777 | The eight-byte skipper stops at the same byte. |
| JsonParser.FastJSONParser.ParseStringBasic | superjsonic/prototype/superjsonic_multi/superjsonic_multi.go:693-715 | Byte by byte to the closing quote; fails exactly when there is none. |
| JsonParser.FastJSONParser.ParseStringSimd | superjsonic/prototype/superjsonic_multi/superjsonic_multi.go:645-691 | The eight-byte scanner ends at the same byte with the same token. |
| JsonParser.FastJSONParser.ParseStringSimd16 | superjsonic/prototype/superjsonic_multi/superjsonic_multi.go:610-643 | So does the sixteen-byte scanner with its eight-byte and byte tails. |
| JsonParser.FastJSONParser.FinishString | superjsonic/prototype/superjsonic_multi/superjsonic_multi.go:717-726 | A string becomes a key token exactly in key context. |
| JsonParser.FastJSONParser.ProcessKeyAtom | superjsonic/prototype/superjsonic_multi/superjsonic_multi.go:729-745 | A key is packed into 8 or 16 bytes when it fits, and stays a string token otherwise. |
| JsonParser.FastJSONParser.ProcessKeyString | superjsonic/prototype/superjsonic_multi/superjsonic_multi.go:747-751 | Without atoms every key is a string token. |
| JsonParser.FastJSONParser.ParseLiteralBasic | superjsonic/prototype/superjsonic_multi/superjsonic_multi.go:810-834 | Matches true, false or null and nothing else. |
| JsonParser.FastJSONParser.ParseLiteralFast | superjsonic/prototype/superjsonic_multi/superjsonic_multi.go:786-808 | The 32-bit comparison matches the same literals, with the fifth byte of false checked. |
| JsonParser.FastJSONParser.ParseNumber | superjsonic/prototype/superjsonic_multi/superjsonic_multi.go:836-885 | Takes exactly the number the scanner specification finds, or fails where it does. |
| JsonParser.FastJSONParser.PushContext | superjsonic/prototype/superjsonic_multi/superjsonic_multi.go:476-479 | The current context goes on the stack and the new one takes its place. |
| JsonParser.FastJSONParser.PopContext | superjsonic/prototype/superjsonic_multi/superjsonic_multi.go:481-488 | Restores the context under the top of the stack, if there is one. |
| JsonParser.FastJSONParser.ParseValue | superjsonic/prototype/superjsonic_multi/superjsonic_multi.go:490-510 | Result, end and tokens are those of the specification; context stack and current context are as before. |
| JsonParser.FastJSONParser.ParseObject | superjsonic/prototype/superjsonic_multi/superjsonic_multi.go:512-567 | The same for objects: reading past the end after a comma is a failure of its own, and the context is restored. |
| JsonParser.FastJSONParser.ParseArray | superjsonic/prototype/superjsonic_multi/superjsonic_multi.go:569-607 | The same for arrays. |
| JsonParser.FastJSONParser.Parse | superjsonic/prototype/superjsonic_multi/superjsonic_multi.go:458-474 | For every input and every choice of scanners, the outcome, end and tokens are those of one specification. |
| JsonParser.FastJSONParser.GetTokenValue | superjsonic/prototype/superjsonic_multi/superjsonic_multi.go:992-1003 | The text of a token: decoded from an atom, or the slice of the input. |
| JsonParser.FastJSONParser.CompareTokenFast | superjsonic/prototype/superjsonic_multi/superjsonic_multi.go:1017-1067 | Compares by atom for packed keys, by bytes otherwise. |
| JsonLossless.ParseBothWays | superjsonic/prototype/superjsonic_multi/superjsonic_multi.go:387-436 | Main result: any two parsers agree on acceptance, end and tokens, up to the encoding of keys. |
| JsonLossless.ParseConfigured | superjsonic/prototype/superjsonic_multi/superjsonic_multi.go:387-436 | Parsers of any two configurations agree; whether SIMD is on, eight or sixteen bytes wide, changes no token, and atoms change only the encoding of member names. |
| JsonLossless.EventsCoverInput | superjsonic/prototype/superjsonic_multi/superjsonic_multi.go:458-607 | The events of an accepted input cover it, less the whitespace between tokens, in order and without gaps. |
| JsonLossless.Lossless | superjsonic/prototype/superjsonic_multi/superjsonic_multi.go:887-1003 | Main result, for inputs under 2^32 bytes: the joined token texts spell the consumed input without inter-token whitespace, exactly when no packed key holds a NUL. |
| JsonLossless.TokenTypes | superjsonic/prototype/superjsonic_multi/superjsonic_multi.go:490-607 | Every token of an accepted input has the type that its first byte calls for, and only member names become packed keys. |
| JsonRunsOff.RunsOffExactly | superjsonic/prototype/superjsonic_multi/superjsonic_multi.go:540-550 | Main result: the parser reads past its input exactly when the input is whitespace and a value that is cut off, but for whitespace, after a comma of an object. |
| JsonLossless.FastCompareMeaning | superjsonic/prototype/superjsonic_multi/superjsonic_multi.go:1017-1067 | The fast comparison of any packed key matches exactly the targets that are the key up to trailing NULs; a target too long to pack counts as empty. |
| JsonLossless.FastCompareExact | superjsonic/prototype/superjsonic_multi/superjsonic_multi.go:1017-1067 | For every packed key and target: it agrees with comparing texts exactly under a condition on the NULs of the two. |
| JsonLossless.FastCompareNulFree | superjsonic/prototype/superjsonic_multi/superjsonic_multi.go:1017-1067 | For keys without NUL that leaves two differing cases: the empty key with a long target, and a target that is the key with NULs after it. |
| StressScanner.ScanString | superjsonic/prototype/superjsonic_stress/superjsonic_stresstest.go:224-255 | The string loop ends on every input, after the closing quote if there is one. |
| PacketBuffer.Buffer.Write | superjsonic/prototype/superjsonic_stress/superjsonic_stresstest.go:34-59 | Appends the data to the contents across word and packet boundaries; all bits past the end stay zero. |
| PacketBuffer.Buffer.ReadView | superjsonic/prototype/superjsonic_stress/superjsonic_stresstest.go:76-84 | Reading within the length gives exactly that slice of what was written. |
| PacketBuffer.WriteAll | superjsonic/prototype/superjsonic_stress/superjsonic_stresstest.go:34-59 | After any sequence of writes the buffer holds their concatenation and its length. |
| PacketBuffer.PutByteHolds | superjsonic/prototype/superjsonic_stress/superjsonic_stresstest.go:34-59 | Storing the next byte into its word keeps every earlier byte and the zero bits after it. |
| PacketBuffer.GrowHolds | superjsonic/prototype/superjsonic_stress/superjsonic_stresstest.go:34-59 | A fresh packet changes nothing that is held. |
| RateLimiter.Limiter.Allow | examples/database-validation/main.go:594-616 | Grants exactly when fewer than `limit` grants lie in the window now; at most `limit` grants lie in any window of any key. |
| RateLimiter.Limiter.Cleanup | examples/database-validation/main.go:618-639 | Keeps all that future decisions depend on, and drops keys without requests in the window. |
| RateLimiter.Limiter.Run | examples/database-validation/main.go:594-639 | Any interleaving of calls under a nondecreasing clock keeps every window of every key within the limit. |
| RateLimiter.GrantKeepsSafe | examples/database-validation/main.go:609-615 | A grant made when the current window has room breaks no window, past or future. |
| RateLimiter.FilterTracks | examples/database-validation/main.go:601-607 | Filtering as time passes loses nothing a later window can see. |
| RateLimiter.WindowIs | examples/database-validation/main.go:594-616 | What is stored counts exactly the grants of the current window. |
| QueryLexer.Lexer.Next | query/lexer.go:66-101 | The next token and position of the lexer's specification. |
| QueryLexer.Lexer.Peek | query/lexer.go:104-109 | The next token, with the position restored. |
| QueryParser.Parser.Advance | query/parser.go:128-131 | The two-token window moves on by one token. |
| QueryParser.Parser.ParsePrimaryNode | query/parser.go:72-125 | A name and its brackets, left to right; errors where the token list has them. |
| QueryParser.Parser.ParseExpressionNode | query/parser.go:48-69 | Dotted primaries, nested to the left. |
| QueryParser.Parser.Parse | query/parser.go:28-45 | Parses the whole token list, and rejects what is left over. |
| QueryParser.SimplifyNode | query/parser.go:141-165 | The segments of the tree from left to right. |
| QueryParser.PathFromQuery | query/parser.go:169-180 | Parsing followed by flattening. |
| QueryRoundTrip.FormatPath | query/executor.go:213-235 | The printed form of a path. |
| QueryRoundTrip.DecimalRoundTrip | query/parser.go:100-104 | Printing a number in decimal and reading it gives it back. |
| QueryRoundTrip.LexSpelled | query/lexer.go:66-150 | Any spelling of a token list, with whitespace anywhere between tokens, is read as that list. |
| QueryRoundTrip.SpelledPathParses | query/parser.go:28-180 | A printable path parses from any such spelling of its tokens. |
| QueryRoundTrip.PrintedPathParses | query/executor.go:213-235 | Main result: PathFromQuery(formatPath(path)) is the path, for every path that starts with an identifier and mixes identifiers, int indices and wildcards. |
| QueryGrammar.ParsesIsSpells | query/parser.go:28-180 | Main result: a query parses to a path exactly when it spells it, names dotted and indices or stars in brackets, with any whitespace between tokens and any leading zeros; neither lexer nor parser occurs in the statement. |
| QueryGrammar.ParsedPathIsPrintable | query/parser.go:169-180 | So every parsed path is printable, and printing and parsing it gives it back. |
| QueryAutomaton.ParserIsAutomaton | query/parser.go:28-125 | Main result: path or error, the recursive parser gives what a finite automaton of five states gives on the tokens. |
| QueryAutomaton.ErrorIsFirstMisfit | query/parser.go:28-125 | The error of a malformed query is about the first token that does not fit what stands before it, and names what was expected there. |
| QueryAutomaton.BlankIsEmpty | query/parser.go:29-32 | A query is called empty exactly when it holds nothing but whitespace. |
| QueryExecutor.ContainsWildcard | query/executor.go:121-128 | True exactly when a segment is a wildcard. |
| QueryExecutor.ExecutePath | query/executor.go:25-61 | The loop computes the recursive meaning of the path. |
| QueryExecutor.ExecuteWildcard | query/executor.go:64-118 | Collects the results of the elements, those of inner wildcards spliced in. |
| QueryWildcards.WildcardMeaning | query/executor.go:25-118 | Main result: a query with wildcards succeeds exactly when every instantiation leads somewhere in the data, and lists where they lead in lexicographic index order, list-valued leaves nested. |
| QueryWildcards.PlainMeaning | query/executor.go:25-61 | Main result: without wildcards a query gives a value exactly when the path leads to it, along keys of maps and places of lists, null values included. |
| QueryWildcards.RunExpands | query/executor.go:25-118 | Success is equivalent to every instance being good, at every prefix. |
| QueryCache.Cache.Get | query/query.go:40-45 | A correct cache gives out nothing but the parse of the key asked for; a miss means the key is not held. |
| QueryCache.Cache.Set | query/query.go:48-58 | Stores the entry, in an emptied map when more than 1000 are held; storing a parse under its key keeps a correct cache correct and within 1001 entries. |
| QueryCache.Cache.ExecuteCached | query/query.go:62-79 | On a nonempty query, agrees with Execute. |
| QueryCache.QueryMeaning | query/executor.go:9-22 | End to end: executing a text that spells a path without wildcards gives exactly the value that path leads to. |
| QueryCache.MalformedFails | query/executor.go:9-22 | A nonempty text that spells no path fails. |
| QueryCache.StoredIsCorrect | query/query.go:48-58 | Storing a parse under its query keeps every entry correct and the size bounded. |
| QueryCache.ActIsSafe | query/query.go:40-87 | Every step of every thread keeps the invariant. |
| QueryCache.EveryRunIsSafe | query/query.go:40-87 | Main result: so does every interleaving of get, parse, set and clear steps. |
| QueryCache.CacheIsTransparent | query/query.go:62-79 | Main result: in every interleaving a finished call agrees with Execute on success and value exactly when its query is nonempty. |
| ErrorPaths.JoinPrinted | errors.go:112-126 | joinPath of two printed paths prints the joined path exactly under the stated condition on empty segments. |
| ValidationContexts.ValidationContext.CurrentPath | context.go:59-72 | Prints the stack of segments, dots before all but the first and bracketed ones. |
| ValidationContexts.ValidationContext.AddError | context.go:75-81 | Appends one error at the current path and nothing else. |
| ValidationContexts.ValidationContext.PopPath | context.go:52-56 | Removes the last segment, if any. |
| ValidationContexts.ValidationContext.AddErrorUnder | context.go:111-115 | WithPath around one error: recorded one segment deeper, the path restored. |
| ValidationContexts.ValidationContext.RecordTransformation | context.go:134-141 | Appends one record at the current path. |
| ValidationContexts.ValidationContext.CheckRequired | schema.go:82-95 | Stops on null, with an error unless the schema is nullable and not required. |
| Keys.SortKeys | builders/object.go:534-541 | The names in ascending byte order, each once. |
| SchemaValidation.ValidateString | builders/string.go:115-186 | Appends exactly the errors of the specification and leaves the path as it was. |
| SchemaValidation.ValidateNumber | builders/number.go:118-154 | The same for numbers, after conversion. |
| SchemaValidation.ValidateBool | builders/bool.go:47-65 | The same for booleans. |
| SchemaValidation.ValidateObject | builders/object.go:105-169 | The same for objects: missing names, fields, extra keys, validators, in that order. |
| SchemaValidation.ReportMissing | builders/object.go:123-131 | One error under each required name that is missing. |
| SchemaValidation.ValidateField | builders/object.go:134-148 | A present field is validated under its name; a missing one is reported at most once. |
| SchemaValidation.RejectExtra | builders/object.go:151-159 | One error under each undeclared key, when the policy or the mode rejects them. |
| SchemaValidation.ValidateArray | builders/array.go:93-148 | The same for arrays: counts, uniqueness, elements, validators. |
| SchemaValidation.HasRepeat | builders/array.go:117-129 | The seen-set loop finds a repeat exactly when two elements print alike. |
| SchemaValidation.ValidateAnd | builders/composite.go:49-64 | The errors of all parts in order. |
| SchemaValidation.ValidateOr | builders/composite.go:111-150 | One error exactly when there are parts and none passes in a context of its own. |
| SchemaValidation.ValidateNot | builders/composite.go:197-211 | One error exactly when the inner schema passes in a context of its own. |
| SchemaValidation.ApplyTransformers | builders/transform.go:73-87 | The fold of the transformers, its records, and the error of the first one that refuses. |
| SchemaValidation.ValidateTransform | builders/transform.go:73-90 | Transformers first, then the inner schema on what they made. |
| SchemaValidation.Validate | schema.go:5-13 | For every schema: appends what the specification says, restores the path, changes nothing else. |
| SchemaValidation.ValidateWithMode | queryfy.go:39-45 | The errors of a fresh validation. |
| SchemaReports.ReportsWhatBreaks | builders/object.go:105-169 | Main result: for every kind of schema the errors of a validation are exactly the broken constraints, each with its place below the start, its message and the offending value. |
| SchemaReports.BrokenIsReported | builders/composite.go:111-211 | Nothing is reported exactly when nothing is broken, which is what Or and Not ask of their parts. |
| SchemaReports.ObjectCount | builders/object.go:122-166 | An object reports each missed name once and each extra name once, besides the errors of its fields and validators. |
| SchemaMeaning.AcceptsMeansConforms | builders/object.go:105-169 | Main result: validation at any path reports nothing exactly for the values that conform, said without errors, order or paths, for every kind of schema. |
| SchemaMeaning.EntriesMean | builders/object.go:105-169 | An object passes exactly when required names are there, declared fields conform, extras are allowed and validators accept. |
| SchemaMeaning.CountsMean | builders/array.go:106-129 | The count and uniqueness checks, as bounds and pairwise distinct prints. |
| SchemaRelocation.Relocation | context.go:42-81 | Main result: validating under a path reports the same errors and records with that path joined in front, for nonempty names. |
| SchemaRelocation.RelocatedErrors | errors.go:94-126 | From a fresh context to any path. |
| SchemaRelocation.EmptyNameIsLost | errors.go:112-126 | An input on which it fails when a name is empty. |
| SchemaRelocation.SameCount | context.go:75-81 | How many errors are reported does not depend on the path, whatever the names. |
| SchemaRelocation.WrapErrors | errors.go:94-109 | WrapError joins its path in front of every error, in order. |
| SchemaRelocation.ValidateEach | iterate.go:71-100 | Fails with the query; otherwise the errors of each matched element under its index. |
| SchemaRelocation.EachIsArrayOf | iterate.go:71-100 | Main result: over a matched list that is validating the list against Array().Of(schema). |
| SchemaTransform.ValidateAndTransform | builders/object.go:248-336 | For every schema, report and result are those of the specification. |
| SchemaTransform.TransformAndValidate | builders/transform.go:93-114 | The transformed value, or the original one when a transformer refuses. |
| SchemaTransform.TransformObject | builders/object.go:248-336 | Fills the result map field by field; validators see the result. |
| SchemaTransform.TransformArray | builders/array.go:186-250 | Fills the result slice element by element; validators see the input. |
| SchemaTransformLaws.PlainConvert | builders/object.go:248-336 | Main result: without reachable transformers it accepts the values Validate accepts and returns them unchanged. |
| SchemaTransformLaws.SameReport | builders/array.go:186-250 | With transformers it still reports exactly what Validate reports, if no rebuilt object has validators of its own. |
| SchemaTransformMeaning.ConvertsTo | builders/transform.go:93-114 | Main result: errors or not, the returned value is the input with each reachable Transform applied, a refused one giving its own input back, and with objects cut to the allowed keys. |
| SchemaTransformMeaning.ConvertsCleanly | builders/object.go:248-336 | Main result: ValidateAndTransform reports nothing exactly for the values that suit the schema, where an object's validators judge its result and an array's its input. |
| SchemaTransformMeaning.ObjectVerdict | builders/object.go:248-336 | For an object: required names present, each present field clean, missing fields not demanded, extras allowed, and the validators accept the returned value. |
| SchemaTransformMeaning.ConvertReportsWhatBreaks | builders/object.go:248-336 | Main result: its errors are exactly the constraints broken on the way, each with its place, message and offending value. |
| SchemaTransformLaws.ListItemsKept | builders/array.go:221-240 | Each item of a list becomes its own result, in its place. |
| SchemaTransformLaws.ObjectKeysKept | builders/object.go:265-316 | An object keeps its keys, cut to the declared ones when extras are rejected, and each declared one holds its field's result. |
| SchemaTransformLaws.PipeChains | builders/transform.go:93-105 | The records of a completed pipeline form a chain of transformer steps from input to result. |
| SchemaTransformLaws.TransformRecordsChain | builders/transform.go:93-114 | Main result: so do the records of a completed Transform, ending in the value it returns. |
| SchemaCompile.CompileSchema | compile.go:69-115 | Compiles to the chain of the specification, by both routes: a delegating check, or flattened checks. |
| SchemaCompile.CompileString | compile.go:155-248 | The checks of a string schema, in order, only for the constraints it has. |
| SchemaCompile.CompileNumber | compile.go:252-313 | The checks of a number schema. |
| SchemaCompile.CompileFields | compile.go:355-379 | The compiled fields in sorted order, with their required flags. |
| SchemaCompiledRun.CompiledValidate | compile.go:118-127 | One loop over the checks: appends what they report and restores the path. |
| SchemaCompiledRun.RunStep | compile.go:383-423 | A single check, flattened or delegating. |
| SchemaCompiledReports.CompiledReports | compile.go:118-511 | Main result: the errors of a compiled schema are exactly those of a relation on the original schema and the value: all checks run, on the text or number that the compiler sees. |
| SchemaCompileCorrect.SameVerdict | compile.go:69-127 | Main result: a compiled schema reports an error exactly when its original does, for every schema, mode and value within the stated bounds. |
| SchemaCompileCorrect.NumberAgrees | compile.go:252-313 | The number checks agree for the kinds the compiler knows, in the range of int64, with a nonzero divisor, where validators do not tell the raw value from its float64. |
| SchemaCompileCorrect.StringAgrees | compile.go:155-248 | The string checks agree on every value. |
| SchemaCompileCorrect.WholeSeen | compile.go:265-272 | Truncating to int64 tells whole numbers exactly within its range. |
| SchemaCompileCorrect.UndeclaredRequired | compile.go:363-379 | For a flattened object: the verdicts agree exactly when the undeclared required names are present or the rest is rejected anyway. |
| SchemaCompileCorrect.ZeroDivisorRejects | compile.go:292-301 | With a divisor of zero the compiled schema rejects every value but null, so the verdicts agree exactly on what the original rejects. |
| SchemaCompileCorrect.UnknownIsZero | compile.go:553-566 | For every number schema and every number of a kind toFloat does not know, or numeric string in loose mode: the verdicts agree exactly when asking the constraints of zero makes no difference. |
| SchemaCompileCorrect.KnownKindExact | compile.go:252-313 | For every number of a known kind, whatever its size: the verdicts agree exactly when truncation to int64 and raw validators make no difference. |
| SchemaCompileCorrect.RawValueSeen | compile.go:304-312 | For numbers within int64 and nonzero divisors: the verdicts agree exactly when the validators accept the raw value as they accept its float64, or the constraints reject it anyway. |
| SchemaCompileCorrect.NumberVerdicts | compile.go:252-313 | What decides each of the two verdicts, on every value. |
| SchemaCompileCorrect.FiveBelowOne | compile.go:553-566 | Inputs where the verdicts differ: five as a uint8, and as text in loose mode, against a minimum of one. |
| SchemaCompileCorrect.RawFiveRejected | compile.go:304-312 | An input where they differ for a validator that takes float64 only. |
| SchemaCompileCorrect.NullIntoTransform | compile.go:77-87 | On null the compiled Transform looks at the flags only, the original at what its transformers make. |
| SchemaPositions.WalkMeaning | builders/walk.go:24-113 | Main result: for every schema, composites included, the walk visits each position exactly once, in preorder, with the path that spells it. |
| SchemaWalk.VisitLeads | builders/walk.go:28-113 | Every visited path is the printed form of a position that leads to the visited schema. |
| SchemaWalk.FoundIsFine | query/executor.go:25-118 | What a path finds in an accepted value is accepted by the sub-schema it leads to, elementwise under wildcards. |
| SchemaWalk.WalkQueryAgree | builders/walk.go:24-113 | Main result: every visited path parses, and what it finds in an accepted value is accepted by the visited sub-schema. |
| SchemaEquality.CanonicaliseNode | builders/equality.go:45-104 | Writes the canonical string of any schema at the end of the builder. |
| SchemaEquality.CanonicaliseMeta | builders/equality.go:119-134 | Metadata in sorted key order. |
| SchemaEquality.CanonicaliseFields | builders/equality.go:208-220 | The fields in sorted order between braces. |
| SchemaEquality.EqualSchemas | builders/equality.go:33-35 | Compares canonical strings. |
| SchemaEquality.WordsSpell | builders/equality.go:136-240 | The canonical string is its words, each a delimiter and a text. |
| SchemaEquality.WordsUnique | builders/equality.go:136-240 | A string splits into proper words in one way only. |
| SchemaDecoding.SettingsUnique | builders/equality.go:106-175 | Optional settings with distinct keys are read back uniquely. |
| SchemaDecoding.WordsDecode | builders/equality.go:45-240 | Main result: a schema's words, with whatever follows, determine its normal form and what follows. |
| SchemaEqualSound.EqualIsSameNorm | builders/equality.go:33-104 | Equal holds exactly when the normal forms are the same. |
| SchemaEqualSound.EqualAcceptSame | builders/equality.go:33-104 | Main result: equal schemas accept the same values in each mode; of the printer it asks only that it tells apart the numbers that a float64 can hold. |
| SchemaEqualSound.ScaledIsGood | builders/equality.go:158-175 | Such printers exist: one for all numbers that are whole after scaling, hence for all finite float64. |
| SchemaEqualSound.DemandsAreMet | builders/equality.go:33-104 | Two different schemas with arbitrary such bounds that meet every demand of the main result and are Equal. |
| SchemaEqualSound.UniqueItemsUnseen | builders/equality.go:223-240 | Adding uniqueItems to an array schema gives an Equal one; the verdicts agree exactly on all but lists with a repeat that are otherwise accepted. |
| SchemaEqualSound.RepeatIsUnseen | builders/equality.go:223-240 | An input on which they differ: any value twice. |
| SchemaEqualSound.PositiveUnseen | builders/equality.go:158-175 | Adding Positive to a number schema with minimum zero gives an Equal one; the verdicts differ exactly on a zero that is otherwise accepted. |
| SchemaEqualSound.NegativeUnseen | builders/equality.go:158-175 | The same for Negative and a maximum of zero. |
| SchemaEqualSound.SignIsUnseen | builders/equality.go:158-175 | The input: zero. |
| SchemaEqualSound.EnumUnseen | builders/equality.go:153-155 | Enums whose values join alike give Equal schemas; the verdicts differ exactly on texts in one enum only that are otherwise accepted. |
| SchemaEqualSound.CommaAmbiguous | builders/equality.go:153-155 | Such enums: one value with a comma, and its two halves. |
| SchemaEqualKinds.KindsToldApart | builders/equality.go:45-104 | Schemas of different kinds are never Equal. |
| SchemaEqualKinds.NotEqual | builders/equality.go:94-97 | Two negations are Equal exactly when what they negate is. |
| SchemaEqualKinds.PartsEqual | builders/equality.go:76-93 | And and Or schemas are Equal exactly when they have as many parts and these are Equal one by one. |
| SchemaEqualKinds.TransformEqual | builders/equality.go:71-75 | Transforms are Equal exactly when their flags are the same and what they wrap is Equal. |
| SchemaEqualKinds.CompositeFlagsUnseen | builders/equality.go:76-97 | The flags of And, Or and Not are not seen; the verdicts then differ exactly on null, if the flags treat it differently. |
| SchemaEqualKinds.MetaSeen | builders/equality.go:106-134 | Changed metadata is noticed exactly when it prints differently, and never on And, Or and Not. |
| SchemaEqualKinds.MetaTold | builders/equality.go:119-134 | Metadata without punctuation prints the same exactly when it has the same keys with values that print the same. |
| SchemaDiff.WalkNode | builders/walk.go:28-101 | Visits the nodes in the order of the walk. |
| SchemaDiff.CollectFields | builders/diff.go:107-131 | The leaves below the root, with their paths. |
| SchemaDiff.DiffSchemas | builders/diff.go:35-96 | Computes the difference of the specification, also when neither side has leaves. |
| SchemaDiff.WalkPathsDistinct | builders/walk.go:92-113 | No two visits have one path. |
| SchemaDiff.TableIs | builders/diff.go:55-62 | The lookup table holds exactly the leaves, under the printed paths of their positions. |
| SchemaDiff.DiffAt | builders/diff.go:64-93 | Main result: a position is reported as added, removed or changed exactly when it was. |
| SchemaDiff.ReportedIsPosition | builders/diff.go:64-93 | Every reported path is the printed path of a position. |
| SchemaDiff.ReportedOnce | builders/diff.go:64-76 | No path is reported twice. |
| SchemaDiff.DiffSwaps | builders/diff.go:35-96 | Main result: swapping the schemas swaps added with removed and keeps the changed paths. |
| JsonSchemaConverter.Converter.CheckUnsupported | builders/jsonschema/jsonschema.go:151-164 | One problem for each unsupported keyword, an error exactly in strict mode; fatal exactly when strict and there is one. |
| JsonSchemaConverter.Converter.ResolveType | builders/jsonschema/jsonschema.go:199-234 | The type name, whether a type list names null, and a problem for a type that is neither name nor list. |
| JsonSchemaConverter.Converter.ConvertNode | builders/jsonschema/jsonschema.go:167-196 | For every document: the schema of the specification, and after the problems met before exactly those of this node and below, in order. |
| JsonSchemaConverter.Converter.ConvertString | builders/jsonschema/jsonschema.go:237-288 | String keywords, built-in formats overriding the pattern; bad patterns and unknown formats reported. |
| JsonSchemaConverter.ConvertNumber | builders/jsonschema/jsonschema.go:291-321 | Bounds, exclusive ones replacing inclusive ones and kept as metadata. |
| JsonSchemaConverter.Converter.ConvertObject | builders/jsonschema/jsonschema.go:332-397 | Required set, properties, additional-property policy, and their problems. |
| JsonSchemaConverter.Converter.ConvertProperties | builders/jsonschema/jsonschema.go:332-378 | The usable properties, marked as required when listed; the others reported at their places. |
| JsonSchemaConverter.Converter.ConvertArray | builders/jsonschema/jsonschema.go:400-427 | Counts, uniqueness and the element schema, or a problem where it is not an object. |
| JsonSchemaConverter.FromDocument | builders/jsonschema/jsonschema.go:108-122 | The schema and all problems; nothing is reported exactly for supported documents. |
| JsonSchemaMeaning.ImportMeaning | builders/jsonschema/jsonschema.go:167-460 | Main result: for every document, the imported schema accepts exactly the values that the keywords of the document allow, read directly. |
| JsonSchemaMeaning.MetaMeaning | builders/jsonschema/jsonschema.go:463-500 | The metadata of an imported node: the keywords that are carried over on request, and what an unusable format, exclusive bounds or a schema for other keys leave. |
| JsonSchemaMeaning.ExportMeaning | builders/jsonschema/export.go:64-286 | Main result: the document that an importable schema is exported to allows exactly the values the schema accepts. |
| JsonSchemaReports.ProblemsAreComplaints | builders/jsonschema/jsonschema.go:151-427 | Main result: the problems an import reports are exactly what is wrong with the document, each with keyword, reason, place and severity. |
| JsonSchemaProblems.NothingReported | builders/jsonschema/jsonschema.go:151-427 | Main result: an import reports nothing exactly when at every node it visits the document is in the supported subset, said without order or places. |
| JsonSchemaProblems.StrictHardens | builders/jsonschema/jsonschema.go:22-35 | Strict mode reports the same problems at the same places, unsupported keywords as errors instead of warnings. |
| JsonSchemaProblems.ExportIsQuiet | builders/jsonschema/export.go:64-286 | Main result: reading an exported schema back reports nothing exactly when it carries no format unknown to the reader. |
| JsonSchemaProblems.ReimportIsQuiet | builders/jsonschema/export.go:64-286 | So what an import produced can be exported without metadata and imported again, even strictly, without any report. |
| JsonSchemaConverter.StoreUnknown | builders/jsonschema/jsonschema.go:463-500 | Keeps exactly the keywords that are neither handled nor rejected. |
| JsonSchemaConverter.ExportNode | builders/jsonschema/export.go:64-82 | The document of the specification, for every schema. |
| JsonSchemaConverter.ExportObject | builders/jsonschema/export.go:151-216 | Properties, sorted required names and the additional-property policy. |
| JsonSchemaConverter.CopyMeta | builders/jsonschema/export.go:258-286 | Adds the metadata under keys not yet used, except the exclusive bounds. |
| JsonRoundTrip.NodeBack | builders/jsonschema/export.go:64-286 | Main result: importing the exported document of an importable schema gives it back, at every node. |
| JsonRoundTrip.ImportedFits | builders/jsonschema/jsonschema.go:167-460 | Every import of a parsed document is importable. |
| JsonRoundTrip.ImportAfterExport | builders/jsonschema/jsonschema.go:167-460 | Main result: import, export, import is import; with both options on, metadata included. |
| JsonRoundTrip.StringBack | builders/jsonschema/export.go:84-113 | The string case, formats and patterns included. |
| JsonRoundTrip.NumberBack | builders/jsonschema/export.go:115-143 | The number case, exclusive bounds included. |
| JsonRoundTrip.RoundTripExact | builders/jsonschema/export.go:109-111 | Over all codecs: every document comes back under every choice of options exactly when no format is registered under the empty name. |
| JsonRoundTrip.EmptyFormatLost | builders/jsonschema/export.go:109-111 | The document that does not come back when one is. |

## Left out

- Reflection on typed maps, slices, pointers and structs: values are the abstract lists and maps only.
- IEEE 754 rounding, infinities and NaN: numbers are exact; dividing by zero in a compiled check is modelled as never whole.
- Texts of error messages: errors carry a message constructor with its constants and the offending value.
- Positions inside queries: tokens of the query lexer carry no offset.
- Big-endian machines: word loads are little-endian.
- Array-size heuristics, parser pooling, atom statistics, unsafe string views and CompareToken with statistics, in the superjsonic prototypes.
- The rest of the stress tokenizer: on malformed literals and stray bytes its outer loop does not advance; only its string scan is modelled.
- Builder methods as mutations: a schema is a value; Required, Field, RequiredFields and the others are not modelled as calls that change it.
- ValidateAndTransform of a compiled schema: it forwards to the original.
- Closures of the compiler: a check is a datatype value with its constants, run by an interpreter; already compiled schemas inside schemas are not modelled.
- DateTime and Dependent schemas: calendar arithmetic and conditions that are arbitrary functions.
- Async validators and cancellation: external callbacks.
- Each and Collect: callbacks that may stop the loop. Errors returned by a Walk visitor, likewise.
- JsonSchemaConverter.Converter.ResolveType: returns the mark for a null in a type list, where the original writes it into the document.
- Parsing the text of a JSON Schema document: import starts from the parsed document.
- The keywords `$schema` and `$id` that ToJSON can add: import ignores them.
- SHA-256 in Hash: the canonical string is compared instead.
- The texts that describe a changed field in a Diff: both schemas are recorded instead.
- The background goroutine of the rate limiter: cleanup is a step that may happen at any time.
- JsonParser.FastJSONParser.ParseObject: the comma, the key and the item of a round are methods of their own, where the original has one loop body.
- SchemaEqualSound.EqualAcceptSame: bounds are numbers that a float64 can hold, with one zero; bounded to strings, numbers, booleans, objects and arrays without metadata, custom validators or uniqueItems, with identifier names and texts without delimiters; beyond that Equal is not sound, as the examples beside it show.
- SchemaCompileCorrect.SameVerdict: compares acceptance; a compiled schema runs all its checks and can report more errors than its original, which SchemaCompiledReports lists.
