# tantivy.swift binding core, modelled in Dafny

The repository wraps the tantivy search engine for Swift: a Rust layer
(`src/lib.rs`) exposes a schema builder, a document codec, a query DSL and an
index façade, and `src/unicode_tokenizer.rs` adds a word tokenizer of its own.
This project models both and proves what they promise.

**The tokenizer** (modules `UnicodeTokenizer`, `TokenStream`):
- Its input is the output of the Unicode word segmentation: a list of
  `(byte offset, word)` pairs. Characters are Unicode scalar values. Byte
  offsets are computed from each character's UTF-8 width.
- `split_word_tokens` is proved equal to a reference definition: the maximal
  runs of non-splitting characters, with interior apostrophes kept out of the
  text but inside the span.
- The apostrophe merge of `tokenize_text` is proved equal to a left fold.
- `expand_dash_compounds` is proved equal to a definition by maximal runs of
  dash-joined tokens.
- The stream pops one pending token per `advance` into the tokenizer's shared
  `Token`, with a wrapping 64-bit position.

**The binding layer** (modules `Schemas`, `FieldValues`, `QueryDsl`,
`IndexFacade`, over `Wrappers`, `Primitives` and `Errors`):
- The schema builder is a class over `Option<seq<FieldEntry>>` that is
  consumed once.
- The field-value codec covers `term_from_field_value`, `add_field_value`,
  `document_field_from_value` and `doc_to_fields`, with their kind policy.
- The query DSL is lowered by a method, proved equal to a recursive function
  `Lower`. Exactly when lowering succeeds is characterised by `Lowerable`.
- The index façade keeps the documents handed to the writer. It models field
  filtering, batch indexing up to the first failure, the consumed-builder
  error on opening, and the guards of `get_docs_by_ids`.
- Calls into code outside the repository are parameters bundled in
  `FieldValues.Externals`: facet parsing and printing, JSON parsing and
  printing, and regex compilation. Others are parameters of the operation
  that needs them: `is_alphanumeric`, the word segmentation, directory
  opening and the searcher.

Three behaviours of the code are easy to miss, and the model follows them:
- A `Range` with neither bound is rejected with a query error; it does not
  degenerate to a field-exists filter.
- Term values are checked against the field's type before the engine sees
  them (`term_from_field_value`).
- Empty `TermSet` and empty `DisjunctionMax` are special-cased to `EmptyQuery`.

## Model

| member | source | states |
|---|---|---|
| UnicodeTokenizer.SeparatorIsApostropheRun | src/unicode_tokenizer.rs:34-52 | true exactly for a non-empty separator made only of the ten apostrophe-like code points |
| UnicodeTokenizer.SeparatorIsDashRun | src/unicode_tokenizer.rs:54-72 | true exactly for a non-empty separator made only of the ten dash-like code points |
| UnicodeTokenizer.SeparatorKindsExclusive | src/unicode_tokenizer.rs:34-72 | no separator is both an apostrophe run and a dash run, so merging and compounding never compete for one gap |
| UnicodeTokenizer.AllChars | src/unicode_tokenizer.rs:51 | `chars().all(p)` holds iff p holds at every index |
| UnicodeTokenizer.Utf8Width | src/unicode_tokenizer.rs:98 | every character takes 1 to 4 bytes, and 1 byte exactly when it is ASCII |
| UnicodeTokenizer.CharIndices | src/unicode_tokenizer.rs:98 | one entry per character, pairing it with the byte offset where its encoding starts |
| UnicodeTokenizer.SliceOnBoundaries | src/unicode_tokenizer.rs:168 | slicing the text between the byte offsets of a piece gives back exactly that piece |
| UnicodeTokenizer.RunEnd | src/unicode_tokenizer.rs:103-137 | the end of a token's run: no splitting character inside, and a splitting character (or the end of the word) right after |
| UnicodeTokenizer.FlushPendingToken | src/unicode_tokenizer.rs:74-93 | pushes a token exactly when a start is set and the text is non-empty, with offsets shifted by the word offset; never pushes an empty text; afterwards the start is None and the end is 0; the text is emptied whenever it was pushed, and always when "text non-empty iff start set" held |
| UnicodeTokenizer.SplitWordTokens | src/unicode_tokenizer.rs:95-148 | the loop computes WordTokens, the reference definition by maximal non-splitting runs |
| UnicodeTokenizer.WordTokensWellFormed | src/unicode_tokenizer.rs:83-87 | every token lies within `[word_offset, word_offset + len(word)]`, is non-empty in span, and the spans strictly increase without overlapping |
| UnicodeTokenizer.WordTokensTexts | src/unicode_tokenizer.rs:112-127 | read in order, the token texts are the word's kept characters: alphanumerics only, interior apostrophes dropped |
| UnicodeTokenizer.WordTokensCoverage | src/unicode_tokenizer.rs:112-136 | a character lies inside some token's span iff it does not split: alphanumerics and interior apostrophes are covered, every other character ends the token |
| UnicodeTokenizer.InteriorApostropheSpanned | src/unicode_tokenizer.rs:112-118 | an apostrophe between two alphanumerics is left out of the text yet inside a token's span |
| UnicodeTokenizer.SplitExampleSams | src/unicode_tokenizer.rs:318-321 | "Sam's" splits into the single token "Sams" spanning bytes 0..5 |
| UnicodeTokenizer.DashRunEnd | src/unicode_tokenizer.rs:167-178 | the last token of the maximal run joined by dash separators: every gap inside is a dash run, the gap after it is not |
| UnicodeTokenizer.CompoundAfterRun | src/unicode_tokenizer.rs:150-189 | a dash-joined run of two or more tokens comes out as the run itself, then one compound whose text is the run's texts joined and whose span runs from the run's first start to its last end, then the expansion of the tokens after the run |
| UnicodeTokenizer.PushDashRun | src/unicode_tokenizer.rs:161-178 | the inner loop pushes the rest of the dash run, ends at DashRunEnd, accumulates the run's texts and last end, and sets the bridge flag iff the run has more than one token |
| UnicodeTokenizer.ExpandRunAt | src/unicode_tokenizer.rs:158-190 | one outer iteration appends the run followed by its compound (when it has a dash) and moves past the run |
| UnicodeTokenizer.ExpandDashCompounds | src/unicode_tokenizer.rs:150-193 | computes Expand: each maximal dash-joined run, followed by one compound when the run has two or more tokens |
| UnicodeTokenizer.ExpandFromLength | src/unicode_tokenizer.rs:150-193 | the output has the input's tokens plus exactly one compound per dash-joined run |
| UnicodeTokenizer.ExpandKeepsTokens | src/unicode_tokenizer.rs:158-178 | every input token appears in the output, in the original order, at strictly increasing positions |
| UnicodeTokenizer.ExpandNoDash | src/unicode_tokenizer.rs:150-193 | with no dash separator between neighbours, the output equals the input |
| UnicodeTokenizer.ExpandExampleCoop | src/unicode_tokenizer.rs:324-333 | "co-op" gives "co", "op", then "coop" spanning the whole word |
| UnicodeTokenizer.ExpandExampleSlash | src/unicode_tokenizer.rs:324-333 | "foo/bar" gives "foo", "bar" and no compound |
| UnicodeTokenizer.ExpandExampleEmDash | src/unicode_tokenizer.rs:324-333 | "baz—qux", whose em dash is three bytes wide, gives "baz", "qux" and the compound "bazqux" over bytes 0..9 |
| UnicodeTokenizer.ExpandExampleStateOfTheArt | src/unicode_tokenizer.rs:335-341 | "state-of-the-art" gives its four words and a single compound "stateoftheart" over the whole text |
| UnicodeTokenizer.MergeJoinsOrPushes | src/unicode_tokenizer.rs:200-210 | a token that follows the last merged token across an apostrophe run is appended to that token's text and moves its end, leaving its start and every earlier token alone; any other token is pushed unchanged |
| UnicodeTokenizer.MergeWordTokens | src/unicode_tokenizer.rs:200-212 | the inner loop over one word's tokens extends the fold Merged by those tokens |
| UnicodeTokenizer.TokenizeText | src/unicode_tokenizer.rs:195-217 | computes Tokenize: split every word, merge across apostrophe runs, then expand dash compounds |
| UnicodeTokenizer.MergedTexts | src/unicode_tokenizer.rs:201-211 | merging only glues neighbouring texts: the concatenated texts are unchanged |
| UnicodeTokenizer.MergedLength | src/unicode_tokenizer.rs:201-211 | merging never adds tokens and keeps at least one when there is one |
| UnicodeTokenizer.MergedNoApostrophe | src/unicode_tokenizer.rs:201-211 | with no apostrophe run between neighbours, merging changes nothing |
| UnicodeTokenizer.TokenizeExampleGrave | src/unicode_tokenizer.rs:318-321 | "Sam`s", split by the word segmentation at the grave accent, is merged back into "Sams" over bytes 0..5 |
| UnicodeTokenizer.OneLetterTokens | src/unicode_tokenizer.rs:195-217 | a one-character alphanumeric text is one token spanning that character's bytes |
| TokenStream.WrappingInc | src/unicode_tokenizer.rs:223 | `position.wrapping_add(1)` modulo 2^64 |
| TokenStream.Token.Default | src/unicode_tokenizer.rs:6-9 | the shared token starts empty at position `usize::MAX` |
| TokenStream.Emitted | src/unicode_tokenizer.rs:219-231 | one emitted token per pending token |
| TokenStream.EmittedAt | src/unicode_tokenizer.rs:219-231 | the k-th emitted token carries the k-th pending token's text and offsets at position start + k + 1 (wrapping) |
| TokenStream.EmittedFromDefault | src/unicode_tokenizer.rs:289-294 | from the default token, positions are 0, 1, 2, … |
| TokenStream.UnicodeTokenStream.Advance | src/unicode_tokenizer.rs:220-231 | pops the front pending token into the token (text, offsets, position + 1 wrapping) and returns true; on an empty queue returns false and changes nothing |
| TokenStream.UnicodeTokenStream.Collect | src/unicode_tokenizer.rs:247-253 | advancing to the end hands out Emitted(start, pending) and empties the queue |
| TokenStream.UnicodeTokenizer.TokenStream | src/unicode_tokenizer.rs:23-32 | the stream holds Tokenize of the text and shares the tokenizer's token as it is |
| TokenStream.UnicodeTokenizer.TokenStreamReset | src/unicode_tokenizer.rs:23-32 | the corrected stream: the token is reset to its default first |
| TokenStream.ReusedTokenizerAsWritten | src/unicode_tokenizer.rs:23-32 | one tokenizer, two one-token texts: the second text's token comes out at position 1 |
| TokenStream.ReusedTokenizerReset | src/unicode_tokenizer.rs:23-32 | with the reset, every stream numbers its tokens from 0 |
| Schemas.AsStr | src/lib.rs:70-78 | every tokenizer has a non-empty registered name |
| Schemas.AsStrInjective | src/lib.rs:70-78 | the five names are distinct |
| Schemas.GetField | src/lib.rs:639 | finds a field with that name, or fails with FieldNotFound(name) exactly when the schema has none |
| Schemas.TextEntryIndexed | src/lib.rs:231-253 | a text field is always indexed with the chosen tokenizer's name, and is fast (without a fast tokenizer) iff asked |
| Schemas.JsonEntryIndexedOnRequest | src/lib.rs:403-431 | a JSON field is indexed iff asked, fast iff asked, with the fast tokenizer's name when one is given |
| Schemas.DefaultEntries | src/lib.rs:126-214 | the defaults give a stored, not fast text field indexed on "unicode" with positions and fieldnorms; a stored, unindexed, not fast JSON field; dates at second precision |
| Schemas.Added | src/lib.rs:233 | appending works only on a live builder, keeps the fields already there and puts the new one last |
| Schemas.TantivySchemaBuilder.constructor | src/lib.rs:224-228 | a new builder is live and empty |
| Schemas.TantivySchemaBuilder.AddTextField | src/lib.rs:231-253 | appends the text entry built from the options while the builder is live; otherwise changes nothing |
| Schemas.TantivySchemaBuilder.AddU64Field | src/lib.rs:255-275 | appends the u64 entry built from the options while live |
| Schemas.TantivySchemaBuilder.AddI64Field | src/lib.rs:278-298 | appends the i64 entry built from the options while live |
| Schemas.TantivySchemaBuilder.AddF64Field | src/lib.rs:301-321 | appends the f64 entry built from the options while live |
| Schemas.TantivySchemaBuilder.AddDateField | src/lib.rs:324-345 | appends the date entry, precision included, while live |
| Schemas.TantivySchemaBuilder.AddBoolField | src/lib.rs:348-368 | appends the bool entry built from the options while live |
| Schemas.TantivySchemaBuilder.AddBytesField | src/lib.rs:371-388 | appends a bytes entry with the three flags while live |
| Schemas.TantivySchemaBuilder.AddFacetField | src/lib.rs:391-400 | appends a facet entry, stored iff asked, while live |
| Schemas.TantivySchemaBuilder.AddJsonField | src/lib.rs:403-431 | appends the JSON entry built from the options while live |
| Schemas.TantivySchemaBuilder.TakeAndBuild | src/lib.rs:435-438 | the builder is None afterwards; the schema holds the fields added, and is None iff the builder was already taken |
| Schemas.BuildOnce | src/lib.rs:435-438 | after one build, a late add changes nothing and a second build returns None |
| Errors.TypeMismatch | src/lib.rs:628-631 | the mismatch message ends with the field's name |
| FieldValues.TermFromFieldValueSucceeds | src/lib.rs:604-633 | a term comes out iff the value's kind is the field's, it is not JSON, and a facet path parses; the term is on that field and holds the value |
| FieldValues.TermFromFieldValueErrors | src/lib.rs:621-631 | a non-facet failure is a query error; JSON on a JSON field says "not supported yet"; any kind mismatch gives the type-mismatch message naming the field; a facet that does not parse on a facet field gives the facet parse error |
| FieldValues.TermFromDocumentFieldSucceeds | src/lib.rs:635-641 | succeeds iff the name is in the schema and its field accepts the value; an unknown name fails with FieldNotFound for that name |
| FieldValues.TermsFromDocumentFields | src/lib.rs:760-763 | the loop stops at the first failure and otherwise collects every term in order |
| FieldValues.TermsOfSucceeds | src/lib.rs:760-763 | the collection succeeds iff every conversion does; it then holds each field's term, one per field, in order |
| FieldValues.StoredValue | src/lib.rs:575-602 | adding a value fails only for a facet path that does not parse (facet error) or JSON that does not parse (serialization error) |
| FieldValues.DocumentFieldFromValueKinds | src/lib.rs:651-696 | IpAddr fields always give None; only a JSON field can fail; on other fields the result is None iff the stored kind differs from the field's; a returned value has the field's kind |
| FieldValues.StoredValueRoundTrip | src/lib.rs:575-696 | a value stored by `add_field_value` under a field of its own kind is read back by `document_field_from_value` as itself, except that a facet comes back as the printing of its parsed path and JSON as the printing of its parsed value (or a serialization error when that value does not print) |
| FieldValues.MismatchedValueDropped | src/lib.rs:651-696 | a non-JSON value stored under a non-JSON field of another kind is skipped when read back; a JSON field is not covered, since it prints whatever value it holds (lines 688-691) |
| FieldValues.DocToFields | src/lib.rs:698-715 | the loop stops at the first conversion error and otherwise keeps only the Some results, in order |
| FieldValues.DocFieldsSucceeds | src/lib.rs:698-715 | reading a document succeeds iff every stored value converts, and never yields more fields than the document holds |
| FieldValues.DocFieldsKeepsMatching | src/lib.rs:704-712 | when every value has its field's kind, every value is kept, in order, under its field's name |
| QueryDsl.OccurFromDslBijective | src/lib.rs:643-649 | Must, Should and MustNot map one-to-one onto the engine's occurs |
| QueryDsl.TextTerms | src/lib.rs:782-785 | one text term per word |
| QueryDsl.Paired | src/lib.rs:767-772 | one (occur, sub-query) pair per clause |
| QueryDsl.ToQuery | src/lib.rs:743-914 | the lowering computes Lower, the recursive definition, for every query |
| QueryDsl.ToBooleanQuery | src/lib.rs:766-774 | the Boolean arm computes Lower of the Boolean query, stopping at the first failing clause |
| QueryDsl.ToDisjunctionMaxQuery | src/lib.rs:887-902 | the DisjunctionMax arm computes Lower of that query, with the tie breaker defaulting to 0 |
| QueryDsl.BoundOfSucceeds | src/lib.rs:822-844 | a bound converts iff it is absent or the field accepts its value |
| QueryDsl.BuildQueryParserSucceeds | src/lib.rs:717-741 | the parser builds iff every fuzzy field is in the schema |
| QueryDsl.TermSetSucceeds | src/lib.rs:756-765 | a term set lowers iff every term names a field that accepts it |
| QueryDsl.RangeSucceeds | src/lib.rs:813-855 | a range lowers iff its field exists, it has a bound, and each present bound is accepted |
| QueryDsl.BooleanSucceeds | src/lib.rs:766-774 | a boolean query lowers iff all its clauses do |
| QueryDsl.DisjunctionMaxSucceeds | src/lib.rs:887-902 | a disjunction lowers iff all its parts do |
| QueryDsl.LowerSucceeds | src/lib.rs:743-914 | lowering succeeds exactly on the queries Lowerable describes, a rule stated on the DSL alone |
| QueryDsl.EmptyListsLowerToEmptyQuery | src/lib.rs:756-893 | an empty term set (lines 757-759) and an empty disjunction (lines 891-893) lower to EmptyQuery whatever the schema |
| QueryDsl.RejectedShapes | src/lib.rs:775-852 | a phrase of fewer than two words, a phrase prefix of none, and a range with no bound are rejected with their query errors; a range on an unknown field fails with FieldNotFound |
| QueryDsl.RangeBounds | src/lib.rs:822-844 | a lowered range's bounds are Included or Excluded terms of the given values as the flags say, and Unbounded for absent ones |
| QueryDsl.BooleanKeepsClauses | src/lib.rs:766-774 | a lowered boolean query has one sub-query per clause, in order, each with its clause's occur and lowered query |
| QueryDsl.BooleanFirstFailure | src/lib.rs:770 | the first failing clause's error is the whole query's error |
| QueryDsl.PhraseTerms | src/lib.rs:775-812 | a lowered phrase (prefix) has one text term per word on the named field, with slop or expansion limit carried over |
| QueryDsl.QueryParserFields | src/lib.rs:723-738 | unknown default fields are dropped and known ones kept; there is one fuzzy setting per fuzzy field, on that field |
| IndexFacade.StoredField | src/lib.rs:1004-1008 | a field whose name is not in the schema adds nothing; a known one is stored under its field |
| IndexFacade.BuildDocument | src/lib.rs:1003-1008 | the field loop computes Built, stopping at the first value that cannot be added |
| IndexFacade.BuiltFailurePrefix | src/lib.rs:1006 | once a prefix of the fields fails, the whole document fails with that error |
| IndexFacade.KnownOnly | src/lib.rs:1005 | keeps only fields whose names are in the schema |
| IndexFacade.UnknownFieldsSkipped | src/lib.rs:1004-1008 | fields with unknown names are skipped silently: the result is that of the known fields alone |
| IndexFacade.BuiltInSchema | src/lib.rs:1004-1008 | a built document only uses fields of the schema |
| IndexFacade.BuiltAllKnown | src/lib.rs:1004-1008 | when every field is known and addable, the document holds every value, in order, under its field |
| IndexFacade.IndexThenRead | src/lib.rs:1003-1008 | a document whose fields each have their field's kind, with facet paths and JSON strings already in the form the engine prints them, once built, is read back by `doc_to_fields` exactly as given |
| IndexFacade.FirstUnbuilt | src/lib.rs:1024-1032 | the index of the first document that fails to build, every one before it building |
| IndexFacade.BuiltDocs | src/lib.rs:1024-1032 | the built forms of the first n documents, in order |
| IndexFacade.TantivyIndex.IndexDoc | src/lib.rs:995-1013 | adds the built document, or adds nothing and returns the conversion error |
| IndexFacade.TantivyIndex.IndexDocs | src/lib.rs:1016-1035 | adds the documents in order up to the first that fails, whose error is returned; the ones before stay added |
| IndexFacade.NewWithSchema | src/lib.rs:937-978 | a directory failure is returned before the builder is touched; otherwise the builder is consumed and an already-taken builder gives "Schema already built or empty" |
| IndexFacade.SecondIndexFails | src/lib.rs:954-956 | a second index opened from the same builder fails with the schema-builder error |
| IndexFacade.StoredOnlyMembers | src/lib.rs:1117 | of an added document, the engine's store (StoredOnly) keeps exactly the entries whose field is stored |
| IndexFacade.StoredOnlyNoneStored | src/lib.rs:1117 | a document with no entry of a stored field leaves nothing in the store |
| IndexFacade.StoredOnlyAllStored | src/lib.rs:1117 | a document whose every entry is of a stored field is kept whole |
| IndexFacade.UnstoredNotRead | src/lib.rs:1117-1118 | a document with no entry of a stored field reads back as no fields at all |
| IndexFacade.StoreThenRead | src/lib.rs:1117-1118 | a document added from fields that each round-trip and are stored is read back from the store exactly as it was indexed |
| IndexFacade.ReadHits | src/lib.rs:1115-1119 | the read-back loop gives each hit's stored fields in order, or the first failure, an address the store does not hold failing |
| IndexFacade.GetDocsByIds | src/lib.rs:1097-1122 | computes DocsByIds: terms first, then the search, then each hit read back from the store, stored fields only, with an address the store does not hold failing |
| IndexFacade.DocsByIdsGuards | src/lib.rs:1101-1109 | no ids give an empty list without building terms; a failing term's error is returned before any search |
| Wrappers.SequenceFirstFailure | src/lib.rs:762 | collecting with `?` in a loop returns the first failure |
| Wrappers.SequenceSucceeds | src/lib.rs:762 | collecting with `?` succeeds iff every element does |
| Wrappers.SequenceValues | src/lib.rs:762 | when every element succeeds, the collection holds their values in order |
| Wrappers.SomesMembers | src/lib.rs:706-711 | keeping the Some results keeps exactly the present values |
| Wrappers.SomesAll | src/lib.rs:706-711 | when every result is Some, all are kept, in order |

## Left out

- The word segmentation of Unicode Standard Annex #29, section 4.1, is not modelled: its output is a parameter (a list of words with byte offsets).
- `char::is_alphanumeric` is a parameter `isAlnum`. The Unicode tables behind it are not modelled.
- Slicing `&text[a..b]` is modelled as a total function. Rust panics on a range that is not on a character boundary; offsets produced by the pipeline always are.
- Byte offsets are `nat`. The `usize` overflow of `word_offset + start` is not modelled. Token positions are a 64-bit wrapping counter.
- `Token::position_length` is carried unchanged: the default token and the reset set it to 1 and `advance` leaves it as is; the indexer's use of it is not modelled. The engine's token filters (lower-casing, ASCII folding) are not modelled; `new_with_schema` only registers them.
- Facet parsing and printing, JSON parsing and printing, and regex compilation are uninterpreted parameters in `Externals`.
- `QueryParser` is not modelled: the lowered query records the parser's configuration and the text. Lenient parsing cannot fail.
- Floating-point values (`F64` payloads, boosts, scores, tie breakers) are carried as bit patterns, with no arithmetic.
- `DateTime::from_timestamp_micros` and date precision truncation are not modelled: a date is its microseconds.
- The engine panics when a field name is registered twice; the model simply appends the second entry.
- The `Mutex` around the builder and the writer, and `WriterAcquisitionError`, are not modelled: the model is sequential.
- IndexFacade.NewWithSchema: directory opening and creation is one parameter. `Index::open_or_create`, the writer and the reader cannot fail in the model. The model's index always starts empty: documents persisted earlier in a directory that `open_or_create` reopens are not modelled, so their addresses read back as an engine failure.
- IndexFacade.GetDocsByIds: the searcher is a parameter from terms and a limit to document addresses. Commit visibility and ranking are not modelled; the searcher sees every added document.
- Schemas.IsStoredType: the model holds no options for an IP-address field and counts it as not stored; such a field reads back as nothing either way.
- IndexFacade.TantivyIndex.IndexDoc, IndexDocs: the engine writer's `add_document` is taken to succeed; its own failure (the indexing workers having stopped) is engine state outside the model, so only the conversion error path is modelled.
- `clear_index`, `commit`, `delete_doc`, `doc_exists`, `get_doc`, `docs_count`, `search_doc_ids`, `search_dsl` and `search` are disk and engine calls around the modelled core and are not part of this model.
- `src/schema-gen.rs` is a build script writing a file and is not part of this model. The uniffi scaffolding and error derive code are FFI glue.

## Findings

| source | as written | input that shows it | evidently intended | confidence | as-written member | corrected member |
|---|---|---|---|---|---|---|
| src/unicode_tokenizer.rs:23-32 | `token_stream` hands the new stream the tokenizer's `Token` without resetting it, so positions continue from the previous text | one tokenizer used on "a" and then on "b": "b" comes out at position 1 | every stream starts at position 0, as the engine's own tokenizers do by resetting the token, and as the test at src/unicode_tokenizer.rs:289-294 expects for a fresh tokenizer | not executed | TokenStream.ReusedTokenizerAsWritten | TokenStream.ReusedTokenizerReset |
