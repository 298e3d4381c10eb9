# Models of the schema compressor, the token protocol and the stream protocols

This project models three parts of the Lombok repository in Dafny and proves what they are for.

**The schema compressor** (`packages/api/script/generate-metadata.ts`) is a pipeline of passes over a graph of named
JSON schemas that refer to each other, cycles included. A document is an ordered map of schemas and a value for
everything else. The meaning of a schema is its unfolding: references followed, key order forgotten, cut off at depth k,
for every k. The passes are modelled on JSON values with ordered keys, branch by branch:

- `Json`, `Strings`, `Fnv`: values, JSON.stringify, canonicalJSON, stripAnnotations and the 32-bit hash; lenses, which
  say what of a value counts (a lens knows where a schema, a map of schemas, or data stands, so that the keyword
  `description` can be forgotten and a property named `description` not);
- `Documents`: references with and without siblings, closed documents, unfolding, rewriteAllRefs, merges and quotients
  of documents;
- `Fingerprints`, `Equivalence`, `Naming`, `Canonicalize`: partition refinement by fingerprints, what its partition is,
  and the merging of its classes; `Limits`: documents on which that loses meaning;
- `Collapse`: copies `<prefix><Id>` of registered schemas;
- `Hoist`, `Reversal`, `Occurrences`, `HoistMeasure`, `HoistCount`, `HoistAgree`, `HoistLoop`, `InlineBack`,
  `HoistShared`, `Sums`: hoisting of repeated subschemas, and inlining of those that did not pay off; `HoistLimits`: a
  document on which that loses meaning;
- `Compress`, `Pipeline`: nested copies of whole schemas, and the last two passes in a row;
- `SchemaPaths`, `HoistPaths`, `CompressPaths`, `OccurrenceLaws`: what hoisting and compressing replace, leave and
  count, told by the keywords that lead there rather than by the passes' own walks;
- `NullTypes`: the rewrite of null entries; `Acceptance`: what a schema accepts, keyword by keyword (JSON Schema 2020-12
  Validation sections 6.1.1 to 6.1.3 for `type`, `enum` and `const`, Core sections 10 and 11 for the applicators, what
  they see of their neighbours, and what is left unevaluated); `NullVerdicts`: what the rewrite does to that;
  `NullLimits`: schemas that it changes.

**The client token protocol** (`authenticator.ts`, `lombok-sdk.ts`) is one state machine in `Authenticator`
(with `AuthenticatorInvariant`, `AuthenticatorRuns`, `AuthenticatorOutcomes`, `AuthenticatorSession`,
`AuthenticatorSerial` and `AuthenticatorStages`). A step is one
stretch of code between two awaits; stacks of frames record which call waits for which; a run is any interleaving of
calls, answers of store, network and callbacks, and resumptions. Theorems speak of every state of every run.

**The stream protocols** are decoders with a buffer: `Lines` (newline-delimited streams in general), `LogInterceptor`
(the Go log interceptor), `Ipc` (JSON lines and request correlation) and `WsPairing` (envelopes and bodies). Each is a
class whose methods are proved against functions, and lemmas about those functions say that decoding undoes encoding for
every chunking.

Preconditions that decide what is true, and where they are stated:

- `Documents.ClosedDocument`: every `$ref` string is a reference to a schema of the document; what stands beside a
  reference holds no references of its own; no top-level schema is itself a reference, and a reference in place of a
  `properties` map has no siblings.
- `Fingerprints.NoCollision`, `CollisionFree`: the 32-bit hash kept apart the texts it was given. `Unmarked`: no object
  has the key `__fp__`, which marks a replaced reference.
- `Fingerprints.Stable`: the partition that the refinement loop stopped at is final; `Canonicalize.WhenStable` says when
  that is so, `Limits.LongChainLosesMeaning` shows a document where it is not. `Equivalence.SiblingsAgree`: schemas of
  one class have the same siblings beside their references, which the fingerprint ignores; it is asked of the schemas
  that are merged and of all they refer to. `Limits.SiblingsAreLost` shows what happens otherwise.
- `HoistLoop.AlwaysAlike`: each turn of the hoisting loop merges only what says the same; `HoistLoop.RunFaithfulIff`
  shows that this is exact. `HoistAgree.Agrees` is a condition on the input that implies it: parts that have one form
  differ in annotation keywords only. It can be decided from the document, and holds when no property and no data has a
  key named like an annotation (`HoistAgree.PlainAgrees`); `HoistLimits.HoistingLosesMeaning` shows what happens
  otherwise.
- `Pipeline.RegularDocument` and `Compress.NoTuples`: no array stands in place of a schema and properties are objects.
- `NullVerdicts.Tame`, `NullTypes.Once`: what each rewrite of a null entry finds; both can be decided from the document.
  `NullLimits` has inputs on which rewrites that are not tame go wrong.
- `AuthenticatorSerial.RunsAlone`: from one state of a run to another a call is the only activation, no read or write of
  the store fails, and network, callbacks and clock answer as its `Fate` says; all of that is said of states and steps.
- `Json.Decodes`: JSON.parse undoes JSON.stringify; `Json.DecoderExists` shows that this can be met.

Where code and comments disagree the model follows the code. The comment above the refinement loop says that the
fingerprint strings reach a fixpoint; on a reference cycle they never do, only the partition settles
(`Equivalence.StringSettlesIffNoPath`). The core worker trims a line before parsing it and the bridge parses it
untrimmed; `Ipc.MessageOn` has both.

## Model

| member | source | states |
|---|---|---|
| Fnv.HashCanonical | packages/api/script/generate-metadata.ts:239-246 | the character loop computes the FNV-1a fold of the whole string, rendered as padded hexadecimal |
| Fnv.HashIsEightHexDigits | packages/api/script/generate-metadata.ts:239-246 | the state never leaves [0, 2^32); the name is exactly eight lower-case hex digits that read back to the state |
| Fnv.TimesPrimeInjective | packages/api/script/generate-metadata.ts:243 | multiplication by the odd prime is injective modulo 2^32 |
| Fnv.OneCharacterNeverCollides | packages/api/script/generate-metadata.ts:239-246 | two strings that differ in exactly one character never get the same hash |
| Fnv.KnownHashes | packages/api/script/generate-metadata.ts:239-246 | the hash has the published values of FNV-1a: offset, prime, and a character mixed in before the multiplication |
| Fnv.XorBits | packages/api/script/generate-metadata.ts:242 | the exclusive or that the hash mixes with works digit by digit |
| Json.StringifyInjective | packages/api/script/generate-metadata.ts:93-108 | two values print the same JSON text exactly when they are the same value with the same key order, so a textual match is a copy |
| Json.Reads | packages/api/script/generate-metadata.ts:250-264 | unique readability: no JSON text is a proper beginning of another one in any place where a value may stand, and a text determines its value |
| Json.CanonicalIsSorted | packages/api/script/generate-metadata.ts:250-264 | the sorting serializer prints what the plain one prints for the value with all keys sorted |
| Json.CanonicalInjective | packages/api/script/generate-metadata.ts:250-264 | two values have the same canonical text exactly when they are equal with unordered keys |
| Json.CanonicalForDedupInjective | packages/api/script/generate-metadata.ts:632-665 | two schemas are one hoist target exactly when they agree up to key order and annotation keys at every level |
| Json.DecoderExists | docker/docker-bridge/src/ipc.ts:47 | a decoder that undoes JSON.stringify on every value exists, so the assumption made of JSON.parse can be met |
| Strings.SortKeysUnique | packages/api/script/generate-metadata.ts:255-262 | the sorted key list depends on the set of keys only |
| Strings.LessIff | packages/api/script/generate-metadata.ts:257-263 | a key sorts before another when it is a proper prefix of it or has the smaller code unit at the first place where they differ |
| Json.KnownTexts | packages/api/script/generate-metadata.ts:250-263 | texts of values of every kind and with every escape are the prescribed ones |
| Documents.RewriteMentions | packages/api/script/generate-metadata.ts:268-292 | a rewritten value refers to exactly the new names of the names it referred to, whether or not a reference has siblings |
| Documents.RewriteComposes | packages/api/script/generate-metadata.ts:268-292 | two renamings in a row rewrite a value as their composition does |
| Documents.MergeKeepsMeaningIff | packages/api/script/generate-metadata.ts:594-627 | any merge of names that takes each new body from a name that ends up there keeps every meaning exactly when the names that end up as one mean the same |
| Documents.QuotientKeepsMeaning | packages/api/script/generate-metadata.ts:268-292 | after merging names of equal meaning, every rewritten value unfolds to every depth as before, cyclic references included, although one body is kept per merged name |
| Documents.QuotientDocument | packages/api/script/generate-metadata.ts:594-627 | such a merge keeps the meaning of every schema under its new name and of the rest of the document, and all references still resolve |
| Fingerprints.AlikeIsMatch | packages/api/script/generate-metadata.ts:443-473 | the normalized texts of two bodies agree exactly when the bodies agree node by node, a reference matching a reference whose target has the same fingerprint |
| Equivalence.SiblingsDoNotShow | packages/api/script/generate-metadata.ts:455-462 | schemas that are equal but for key order and what stands beside references share a fingerprint in every round |
| Fingerprints.Refine | packages/api/script/generate-metadata.ts:531-548 | the refinement loop returns the fingerprints of some round r of at most 100, and r is 100 or a fixpoint of the strings |
| Fingerprints.FingerprintsAreDigests | packages/api/script/generate-metadata.ts:472-473 | from the first round on every fingerprint is eight hexadecimal digits, so that they do not grow from round to round |
| Fingerprints.RoundIsMatch | packages/api/script/generate-metadata.ts:443-473 | one round puts two names together exactly when their bodies match under the previous round, given that the hash kept that round's texts apart |
| Fingerprints.Refines | packages/api/script/generate-metadata.ts:528-548 | each round's partition refines the one before |
| Fingerprints.StablePersists | packages/api/script/generate-metadata.ts:528-548 | a stable partition stays stable in the next round |
| Fingerprints.UnstableSplits | packages/api/script/generate-metadata.ts:528-548 | a round that is not stable adds at least one class |
| Fingerprints.StableByCount | packages/api/script/generate-metadata.ts:528-548 | the partition is stable after number-of-names minus one rounds, whatever the references do |
| Equivalence.StableClassHasOneMeaning | packages/api/script/generate-metadata.ts:518-548 | names in one class of a stable partition unfold alike at every depth, when the class and all it refers to agree on what stands beside references |
| Equivalence.StableClassesHaveOneMeaningIff | packages/api/script/generate-metadata.ts:443-473 | among schemas that refer to each other only, the classes of a stable partition have one meaning each exactly when their members agree on what stands beside references |
| Equivalence.StableClassesAreGraphEquivalence | packages/api/script/generate-metadata.ts:435-473 | in a stable partition two names share a fingerprint exactly when their infinite unfoldings, with references marked, agree at every depth |
| Equivalence.StringSettlesIffNoPath | packages/api/script/generate-metadata.ts:528-548 | a fingerprint string is unchanged by round r + 1 exactly when no chain of r references starts at the name; on a reference cycle the strings never settle |
| Equivalence.RoundBoundIsTight | packages/api/script/generate-metadata.ts:528-548 | for every number of names there is a document that is not yet stable one round before the bound, and whose names in one class differ in meaning |
| Naming.FreshName | packages/api/script/generate-metadata.ts:858-867 | the result is not taken; it is the base if that is free, and otherwise the base with the first free number from 2 on |
| Naming.ExtractedIffNumbered | packages/api/script/generate-metadata.ts:485-489 | a name counts as extracted exactly when it is a stem, then `__schema`, then one digit or more |
| Naming.NumberSuffixIs | packages/api/script/generate-metadata.ts:487-489 | the number of an extracted name is those digits, whatever the stem |
| Canonicalize.ChooseGroupCanonicalName | packages/api/script/generate-metadata.ts:480-508 | a group of extracted names gets the first free name for its base: `Schema` with the number that all its members end in, or `Schema_` with the fingerprint; any other group keeps its smallest member |
| Canonicalize.RenameGroups | packages/api/script/generate-metadata.ts:550-592 | exactly the names of classes of several extracted names are renamed, each class to one fresh name of its own, for the members' smallest one; classes have their turn in the order of these, and each gets the first name for its base that is free of the document's names and of the new names before it |
| Canonicalize.CanonicalizeRecursiveSchemas | packages/api/script/generate-metadata.ts:518-627 | the output keeps the schemas that are not renamed, adds one body per renamed class, and follows the renaming in every reference |
| Canonicalize.CanonicalizeKeepsMeaningIff | packages/api/script/generate-metadata.ts:518-627 | whatever round the loop stopped at and however the hash collided: every schema means under its new name what it meant before exactly when the names merged into one mean the same, and then the rest keeps its meaning too |
| Canonicalize.CanonicalizeKeepsMeaning | packages/api/script/generate-metadata.ts:518-627 | when the partition is stable, the hash kept its texts apart, and the classes of several extracted names, with all they refer to, agree on what stands beside references: every schema means under its new name what it meant before at every depth, and the rest too; for any number of schemas, cyclic or not |
| Canonicalize.WhenStable | packages/api/script/generate-metadata.ts:528-548 | the partition is stable when the loop ended at a fixpoint of the strings, when there are no more classes than rounds, or no more than one name above the number of rounds |
| Canonicalize.CanonicalizeCloses | packages/api/script/generate-metadata.ts:594-627 | all references of the output resolve, collisions or not |
| Limits.LongChainLosesMeaning | packages/api/script/generate-metadata.ts:518-627 | a chain of 102 schemas or more: whenever the loop stops, the first two are merged although they mean different things, and some schema loses its meaning |
| Limits.SiblingsAreLost | packages/api/script/generate-metadata.ts:455-462 | two schemas that differ only beside a reference are merged whatever round the loop stops at, and one of them loses its meaning |
| Canonicalize.PublicNamesSurvive | packages/api/script/generate-metadata.ts:553-592 | only names that end in `__schema` and digits disappear, and only names that the renaming introduces are new |
| Canonicalize.RenamedAreNumbered | packages/api/script/generate-metadata.ts:555-562 | a name is renamed exactly when its class has another member and every member ends in `__schema` and digits: public names are never merged |
| Collapse.CopyOfIsLongestSuffix | packages/api/script/generate-metadata.ts:308-326 | a name is a copy of an id exactly when it is not registered itself, is the id with something before it, and no longer registered id is such |
| Collapse.CollapseRegisteredIdCopies | packages/api/script/generate-metadata.ts:308-349 | the output holds every name that is not a copy and every id with a copy, each with its provider's rewritten body; without copies the document comes back unchanged |
| Collapse.BareEntryWins | packages/api/script/generate-metadata.ts:330-344 | an existing entry under the bare id keeps its own body, wherever it stands among the copies |
| Collapse.FirstCopyWins | packages/api/script/generate-metadata.ts:330-344 | without an entry under the bare id, the first copy in the order of the document gives the shared entry its body |
| Collapse.CollapseIsIdempotent | packages/api/script/generate-metadata.ts:308-349 | a second run finds no copy |
| Collapse.CollapsedNames | packages/api/script/generate-metadata.ts:308-349 | exactly the copies disappear, and only registered ids can be new |
| Collapse.CollapseCloses | packages/api/script/generate-metadata.ts:308-349 | a document whose references resolve is mapped to one whose references resolve |
| Collapse.CollapseKeepsMeaningIffCopiesAgree | packages/api/script/generate-metadata.ts:308-349 | the pass keeps the meaning of every schema exactly when all schemas that end up under one name mean the same |
| Reversal.RewriteReversesIff | packages/api/script/generate-metadata.ts:893-954 | expanding the new name in a rewritten value gives back what the value expands to, up to annotation keywords of schema objects, exactly when every occurrence that was replaced expands to what the new name stands for |
| HoistPaths.FormIsReplaced | packages/api/script/generate-metadata.ts:893-954 | an object of the hoisted form becomes a reference to the new name wherever properties, single-schema and list keywords lead without passing a reference or another object of that form |
| HoistPaths.RestIsKept | packages/api/script/generate-metadata.ts:893-954 | an object there that stays keeps its keys in order and everything under other keywords; references and plain values stay |
| Hoist.HoistCloses | packages/api/script/generate-metadata.ts:1068-1090 | hoisting a part under a fresh name leaves no dangling reference, for every document |
| Reversal.HoistReversesIff | packages/api/script/generate-metadata.ts:1068-1090 | one hoist keeps the document reversible, so that expanding all added names gives every original schema back, exactly when all the occurrences it merges say the same |
| Reversal.ExpansionUnfolds | packages/api/script/generate-metadata.ts:1025-1091 | in a reversible document a value unfolds as its expansion unfolds in the original document, at every depth |
| Reversal.ReversibleKeepsMeaning | packages/api/script/generate-metadata.ts:1025-1091 | every original schema keeps its meaning in a reversible document, up to annotation keywords of schema objects; schemas of properties named like annotations, and data in const and enum, count |
| Reversal.AddedNamesDescend | packages/api/script/generate-metadata.ts:1025-1091 | a reference between added schemas goes to a strictly smaller expansion |
| Reversal.AddedNamesAcyclic | packages/api/script/generate-metadata.ts:1025-1091 | no path of references through added schemas returns to where it started |
| HoistMeasure.RewriteRemoves | packages/api/script/generate-metadata.ts:893-954 | the schema nodes of a rewritten value and those of everything that was replaced in it add up to the nodes of the value, for every value and form |
| Occurrences.WalkFinds | packages/api/script/generate-metadata.ts:770-841 | the walk reports only schema objects that pass the three filters, each a part of the schema that is walked |
| OccurrenceLaws.WalkReportsExactly | packages/api/script/generate-metadata.ts:770-841 | the walk reports exactly the objects worth a name that stand in the schema, each under its property name if it is a property and under none otherwise |
| OccurrenceLaws.CandidateIff | packages/api/script/generate-metadata.ts:672-768 | the three filters let through exactly the objects with structure that are neither a nullable reference nor an array of references or scalars |
| HoistMeasure.SampleIsReplaced | packages/api/script/generate-metadata.ts:770-954 | for every form that the walk reports, the rewrite replaces some node that holds the reported one, so that at least its schema nodes go |
| HoistCount.CountedAreReplaced | packages/api/script/generate-metadata.ts:770-841 | where no form nests in itself, every occurrence that the walk counts for a form is replaced by the rewrite |
| HoistMeasure.HoistRemoves | packages/api/script/generate-metadata.ts:1068-1090 | a hoist takes away exactly the schema nodes of all replaced occurrences and adds those of the sample |
| HoistMeasure.HoistDecreases | packages/api/script/generate-metadata.ts:1025-1091 | in every document, hoisting a form that the scan reports lowers the number of inline schema nodes by at least the number of references it puts in, so the loop ends without its cap |
| HoistLoop.Tally.Visit | packages/api/script/generate-metadata.ts:770-841 | the walk adds to the map exactly the occurrences of the walked value, in the order of the walk |
| HoistLoop.TallyCounts | packages/api/script/generate-metadata.ts:789-805 | the map's count for a form is the number of its occurrences, and its sample is one of them |
| HoistLoop.SampleIsFirst | packages/api/script/generate-metadata.ts:796-800 | the sample is the first occurrence of its form |
| HoistLoop.PropNamesAreListed | packages/api/script/generate-metadata.ts:801-804 | the property names of a form are those of its named occurrences, in order |
| HoistAgree.AgreeMerges | packages/api/script/generate-metadata.ts:1025-1091 | when parts of one form say the same in the input, every hoist of every turn merges only occurrences that expand alike |
| HoistAgree.AgreeNoNest | packages/api/script/generate-metadata.ts:1025-1091 | when parts of one form say the same in the input, no form nests in itself in any turn |
| HoistAgree.PlainForms | packages/api/script/generate-metadata.ts:632-665 | values of one form differ in annotation keywords only, when outside such keywords no key is named like one |
| HoistAgree.PlainAgrees | packages/api/script/generate-metadata.ts:632-665 | in a closed document without such keys, at any depth, parts of one form say the same |
| HoistLoop.ChooseCandidate | packages/api/script/generate-metadata.ts:1036-1066 | nothing is chosen exactly when no repeated form gets a name; otherwise the chosen form is the first of those that do, by count, length of text, and order of texts |
| HoistLoop.ChosenIsMostShared | packages/api/script/generate-metadata.ts:1042-1066 | no other form that gets a name occurs more often than the chosen one; of those that occur as often none is longer, and of those as long none comes earlier in the order of texts |
| HoistLoop.NamedIffLong | packages/api/script/generate-metadata.ts:869-891 | a form gets a name from 50 characters on if it stands under properties, and from 80 on otherwise |
| HoistLoop.NameableIff | packages/api/script/generate-metadata.ts:1055-1066 | a form is passed over exactly when it gets no name or an empty one |
| HoistLoop.AddedAreNamed | packages/api/script/generate-metadata.ts:1055-1066 | no schema is added under an empty name |
| HoistLoop.HoistStep | packages/api/script/generate-metadata.ts:1068-1090 | naming a part of some schema under a fresh name keeps names distinct and references closed, for every document |
| HoistLoop.FaithfulStepIff | packages/api/script/generate-metadata.ts:1068-1090 | a hoist under a fresh name keeps the document reversible, and what the names stand for traceable to parts of the input, exactly when all it replaces says the same |
| HoistLoop.RunFaithfulIff | packages/api/script/generate-metadata.ts:1025-1091 | every stage of a run of the loop can be reversed exactly when every turn merges only what says the same |
| HoistLoop.AgreeMergesAlike | packages/api/script/generate-metadata.ts:1025-1091 | when parts of one form say the same in the input, every turn merges only what says the same |
| HoistLoop.TurnPays | packages/api/script/generate-metadata.ts:1036-1090 | a turn of the loop leaves at least one inline node less in every document, and at least two less when parts of one form say the same |
| HoistLoop.HoistRepeated | packages/api/script/generate-metadata.ts:1025-1091 | the loop takes the turns described by TurnsTo and ends with nothing left to hoist unless it was cut off after 1000 turns; it adds no more names than there are inline nodes, names stay distinct and references closed; when each turn merges only what says the same, as it does if parts of one form agree in the input, the document stays reversible |
| HoistLimits.HoistingLosesMeaning | packages/api/script/generate-metadata.ts:1012-1134 | a document with two schemas whose property `description` has different types: whatever the pass returns for it, some schema has lost its meaning |
| InlineBack.CountSchemaRefs | packages/api/script/generate-metadata.ts:961-988 | the explicit stack counts every component reference of a value exactly once |
| InlineBack.InlineIsSubst | packages/api/script/generate-metadata.ts:990-1010 | inlineRefsTo substitutes the definition for exactly the references to the name |
| InlineBack.InlineCounts | packages/api/script/generate-metadata.ts:1098-1125 | inlining a schema with at most one reference raises no other schema's reference count, so counts taken before a round stay upper bounds |
| InlineBack.InlineShrinks | packages/api/script/generate-metadata.ts:1098-1125 | inlining a schema with at most one reference makes the document strictly smaller: no body is duplicated |
| HoistShared.InlineCloses | packages/api/script/generate-metadata.ts:1098-1125 | inlining a schema with at most one reference leaves none dangling, even if that one is its own |
| HoistShared.InlineReverses | packages/api/script/generate-metadata.ts:1106-1124 | inlining an added schema keeps the document reversible with that name gone |
| HoistShared.InlineRound | packages/api/script/generate-metadata.ts:1106-1124 | one round removes exactly the listed names, although the counts behind the list were taken before it, and shrinks the document by at least one per name |
| HoistShared.InlineBackUnderused | packages/api/script/generate-metadata.ts:1098-1125 | the loop ends; every surviving added schema has at least two references; the document shrinks by at least one per removed name; nothing changes when every added schema already has two |
| HoistShared.HoistSharedSubschemas | packages/api/script/generate-metadata.ts:1012-1134 | for every closed document: original names stay, no reference dangles, and every added schema has at least two references; when each turn of the loop merges only what says the same, as it does if parts of one form agree in the input, every original schema and the rest also keep their meaning up to annotation keywords, and the added schemas are acyclic |
| Compress.FoundIsCopy | packages/api/script/generate-metadata.ts:93-108 | the schema found is another one that equals the value, and none is found exactly when there is no such schema |
| Compress.CopiesAreReplaced | packages/api/script/generate-metadata.ts:110-129 | a nested schema becomes a reference to n exactly when n is the first of the other schemas that equals it |
| CompressPaths.CopyIsReplaced | packages/api/script/generate-metadata.ts:110-166 | wherever properties, items, additionalProperties, oneOf, anyOf and allOf lead without passing a reference or another copy, a copy of another schema becomes a reference to the first schema that it copies |
| CompressPaths.RestIsKept | packages/api/script/generate-metadata.ts:131-166 | an object there that is no copy keeps its keys in order and everything under other keywords |
| Compress.CompressOpenApiDocument | packages/api/script/generate-metadata.ts:1136-1150 | every schema is rewritten against the schemas of the input, names and the rest stay |
| Compress.CompressCloses | packages/api/script/generate-metadata.ts:110-166 | all references of the compressed document resolve |
| Compress.CompressKeepsMeaningIffNoTuples | packages/api/script/generate-metadata.ts:110-166 | compression keeps every schema's unfolding at every depth exactly when it meets no array in place of a schema and no properties that are no object |
| Compress.CompressKeepsRest | packages/api/script/generate-metadata.ts:1136-1150 | then everything outside the schemas keeps its unfolding too |
| Compress.NewEdgeDescends | packages/api/script/generate-metadata.ts:110-166 | a reference that compression puts anywhere goes to a schema that was a proper part of the one that now refers to it, and everything else a compressed schema refers to it referred to before |
| Compress.NewEdgesAcyclic | packages/api/script/generate-metadata.ts:110-166 | the added references form no cycle among themselves |
| CompressPaths.NewEdgeIff | packages/api/script/generate-metadata.ts:110-166 | in a document without arrays in place of schemas, compression puts a reference to y into x exactly when some path through values that stay leads to a value whose first copy is y |
| Pipeline.HoistedHasNoTuples | packages/api/script/generate-metadata.ts:1318-1321 | hoisting a document in which no array stands for a schema and properties are objects leaves one of that kind to the compressor |
| Pipeline.HoistAndCompress | packages/api/script/generate-metadata.ts:1318-1321 | hoisting and then compressing leaves a document whose references resolve and whose original names stay; if each turn of the hoisting loop merges only what says the same, no array stands for a schema and properties are objects in the input, every original schema and the rest keep their meaning up to annotation keywords |
| NullTypes.SchemaObject.ConvertNullEntries | packages/api/script/generate-metadata.ts:190-224 | the in-place edit of one composition keyword computes Convert: splice the first standalone null out, widen the first entry with a string type or append a null type, dissolve a single entry |
| NullTypes.TransformInPlace | packages/api/script/generate-metadata.ts:171-226 | the recursion over a document, values first, then anyOf and oneOf of the object that holds them, computes TransformNullTypes |
| NullTypes.ConvertsTyped | packages/api/script/generate-metadata.ts:190-224 | in a list with an entry whose type is a name, the first standalone null goes and the first such entry's type becomes the pair of its name and null; an only entry that is no reference dissolves: the object's other keys stay in order, then come the entry's new keys, and the entry's values count |
| NullTypes.ConvertsUntyped | packages/api/script/generate-metadata.ts:190-224 | in a list without such an entry the null moves to the end in list form, or dissolves if it is alone |
| NullTypes.ConvertsNothing | packages/api/script/generate-metadata.ts:190-200 | an object without a standalone null under the keyword stays as it is |
| NullTypes.TransformWellFormed | packages/api/script/generate-metadata.ts:171-226 | the rewrite of a JSON value is a JSON value: every object lists each of its keys once |
| Acceptance.HoldsLocal | packages/api/script/generate-metadata.ts:216-222 | the verdict of a keyword and what it evaluates depend on its value and on the keywords that SameNeighbours names, and on nothing else beside it |
| NullVerdicts.MergeKeepsAnyOfIff | packages/api/script/generate-metadata.ts:200-214 | under anyOf the rewritten list accepts the same values exactly when the merge target accepts null once its type does, or another entry accepts null |
| NullVerdicts.MergeKeepsOneOfIff | packages/api/script/generate-metadata.ts:200-214 | the exact condition under oneOf, which also depends on whether the target's type is already null |
| NullVerdicts.AssignKeepsIff | packages/api/script/generate-metadata.ts:216-222 | dissolving an entry into its object keeps a value's verdict exactly when, if the result accepts it, the keywords that were overwritten or got other neighbours had nothing against it, and, if both accepted it, the keywords with other neighbours now have nothing against it |
| NullVerdicts.DissolveKeepsIff | packages/api/script/generate-metadata.ts:216-222 | the exact condition for the whole step on one composition keyword, where its rewritten list keeps its verdict |
| NullVerdicts.DissolveKeeps | packages/api/script/generate-metadata.ts:216-222 | dissolving a one-entry list keeps the verdict and what is evaluated of the value when everything that asserts anything keeps its value and its neighbours, such as prefixItems beside items, properties and patternProperties beside additionalProperties, minContains beside contains, if beside then; unevaluatedItems and unevaluatedProperties of the object may stay, because they saw through the list before |
| NullVerdicts.ConvertKeeps | packages/api/script/generate-metadata.ts:190-224 | one rewrite accepts the same values when the target rejects null by nothing but its type and a dissolved entry does not clash |
| NullVerdicts.TransformKeeps | packages/api/script/generate-metadata.ts:171-226 | a document all of whose rewrites are of this kind accepts the same values afterwards and evaluates the same properties and items of them, through references and at every nesting level, below each keyword of JSON Schema that holds schemas, lists of schemas or maps of schemas |
| NullTypes.TransformCleans | packages/api/script/generate-metadata.ts:171-226 | when no list has two standalone null entries at its turn, no standalone null entry is left anywhere |
| NullLimits.TwoNullsUnderOneOf | packages/api/script/generate-metadata.ts:196-210 | two standalone nulls under oneOf reject null before and accept it after |
| NullLimits.EnumeratedTargetLosesNull | packages/api/script/generate-metadata.ts:207-210 | a merge target with an enumeration keeps null exactly when null is on the list |
| NullLimits.DissolvedTypeOverwrites | packages/api/script/generate-metadata.ts:216-222 | a dissolved entry overwrites the type beside its list |
| NullLimits.DissolvedPropertiesOpen | packages/api/script/generate-metadata.ts:216-222 | a dissolved entry's properties change what additionalProperties beside the list rules out |
| NullLimits.DissolvedItemsSkipPrefix | packages/api/script/generate-metadata.ts:216-222 | a dissolved items no longer applies to the items that prefixItems beside the list takes care of: a tuple that was rejected is accepted |
| NullLimits.DissolvedClosureSkipsPatterns | packages/api/script/generate-metadata.ts:216-222 | a dissolved additionalProperties no longer applies to names that patternProperties beside the list matches: an object that was rejected is accepted |
| NullLimits.DissolvedRestSeesBeside | packages/api/script/generate-metadata.ts:216-222 | a dissolved unevaluatedProperties no longer applies to what properties beside the list has evaluated: an object that was rejected is accepted |
| AuthenticatorInvariant.NextInv | packages/auth-utils/src/authenticator.ts:150-202 | every step of every interleaving keeps the invariant: at most one token operation and one 401 logout, each owned by its field, valid call stacks, one outcome per operation, verified tokens, both tokens stored or none |
| AuthenticatorRuns.OneTokenOperation | packages/auth-utils/src/authenticator.ts:150-181 | in every state of every run at most one doGetAccessToken or refresh runs, and it is the one in flight |
| AuthenticatorRuns.OneRefreshRequest | packages/auth-utils/src/authenticator.ts:391-430 | at most one refresh request is on the network in every state of every run |
| AuthenticatorRuns.JoinersShareOutcome | packages/auth-utils/src/authenticator.ts:150-158 | a caller that calls while an operation is in flight starts none, and if it gets an outcome it is that operation's |
| AuthenticatorRuns.OneOutcomePerOperation | packages/auth-utils/src/authenticator.ts:150-158 | all callers of one operation get one and the same outcome, whenever they get it |
| AuthenticatorRuns.NoCallerStranded | packages/auth-utils/src/authenticator.ts:150-158 | the operation a caller joined has ended or is still running |
| AuthenticatorRuns.NeverStuck | packages/auth-utils/src/authenticator.ts:150-202 | every running activation understands some answer of its environment |
| AuthenticatorOutcomes.ReturnedTokensWereFresh | packages/auth-utils/src/jwt.util.ts:35-38 | every token returned was verified at a moment of the run and had at least 60 s left then |
| AuthenticatorOutcomes.NoTokenMeansDropped | packages/auth-utils/src/authenticator.ts:160-181 | a caller that gets neither a token nor an exception joined an operation that left the session unauthenticated in one of its own steps |
| AuthenticatorOutcomes.OneLogoutCallPerDrop | packages/auth-utils/src/authenticator.ts:432-446 | the number of onLogout calls begun equals the number of changes from authenticated to unauthenticated |
| AuthenticatorRuns.LoadedStays | packages/auth-utils/src/authenticator.ts:448-456 | isLoaded never goes back to false |
| AuthenticatorRuns.LoadedIffCompleted | packages/auth-utils/src/authenticator.ts:448-456 | isLoaded is true exactly when a setTokens or a reset has completed its store call |
| AuthenticatorRuns.OneUnauthorizedLogout | packages/sdk/src/lombok-sdk.ts:51-71 | at most one logout caused by a 401 response is in flight |
| AuthenticatorSession.OrderlyRunsAgree | packages/auth-utils/src/authenticator.ts:183-202 | in every run in which direct setTokens calls carry verified tokens, verified sessions come with both tokens, no write of the store fails and at most one activation is alive: whenever none is, the session is authenticated exactly when tokens are stored |
| AuthenticatorSession.RejectedSetTokens | packages/auth-utils/src/authenticator.ts:183-190 | a run from the start in which a rejected direct setTokens leaves the session authenticated with an empty store |
| AuthenticatorSession.HalfSession | packages/auth-utils/src/authenticator.ts:86-93 | a run in which a verified access token without a refresh token does |
| AuthenticatorSession.FailedWrite | packages/auth-utils/src/authenticator.ts:191-195 | a run in which a store write that fails after it took effect leaves tokens without a session |
| AuthenticatorSession.OverlappingCalls | packages/auth-utils/src/authenticator.ts:183-202 | a run in which a reset overlaps a setTokens call and leaves the session authenticated with an empty store |
| AuthenticatorSession.RejectedSetTokensKeepsSession | packages/auth-utils/src/authenticator.ts:183-190 | from any authenticated state a rejected direct setTokens empties the store and leaves the session authenticated |
| AuthenticatorSerial.RunsToItsFate | packages/auth-utils/src/authenticator.ts:150-246 | a call that runs alone, with a store that does not fail, leaves tokens and session as its answers ask: getAccessToken keeps a usable token, renews it, is refused, or drops the session when there is nothing to renew with; login is accepted or declined; logout, reset, setTokens and the logout after a 401 do their work |
| AuthenticatorSerial.TokenIsRenewed | packages/auth-utils/src/authenticator.ts:160-181 | with an unusable access token, a refresh token, and an answer of two tokens the first of which lasts, whoever gets an outcome gets the new access token, and the new session is stored and authenticated |
| AuthenticatorSerial.RefreshIsRefused | packages/auth-utils/src/authenticator.ts:391-430 | when the network refuses, or answers with an access token that does not last, the caller gets an exception, nothing is stored and the session is not authenticated |
| AuthenticatorSerial.CallerServed | packages/auth-utils/src/authenticator.ts:150-181 | the caller of such a getAccessToken gets no outcome before the call is over, and then the one of its fate |
| AuthenticatorStages.CallCanEnd | packages/auth-utils/src/authenticator.ts:150-246 | from every stage that a call running alone reaches, some answers bring it to its end |
| AuthenticatorStages.CallPassesStages | packages/auth-utils/src/authenticator.ts:150-246 | a call that runs alone and gets a session waits for onTokensCreated and onTokensRefreshed exactly if they are given, and getAccessToken, when it drops the session, asks the server to log out exactly if there is one |
| Lines.StreamSplits | docker/worker-agent/cmd/worker_supervisor.go:288-304 | the lines and the rest, put together, are the stream, and none of them holds a newline |
| Lines.LinesUnique | docker/worker-agent/cmd/worker_supervisor.go:288-304 | no other lines and rest are |
| Lines.LinesInTwo | docker/worker-agent/cmd/worker_supervisor.go:288-304 | reading a stream in two pieces gives the lines of the whole, the rest carried over |
| Lines.StringifyIsLine | packages/core-worker/core-worker.ts:114-130 | JSON.stringify writes no newline, whatever its strings hold |
| Lines.TrimPadded | docker/worker-agent/cmd/worker_supervisor.go:344-346 | trimming takes off exactly the white space at both ends |
| LogInterceptor.Interceptor.Write | docker/worker-agent/cmd/worker_supervisor.go:285-307 | one write processes exactly the complete lines of buffer and chunk, in order, and leaves in the buffer exactly the bytes after the last newline |
| LogInterceptor.FilesHoldRecords | docker/worker-agent/cmd/worker_supervisor.go:309-326 | a job's log file exists exactly when the job has records, and holds them in order |
| LogInterceptor.WorkerLogHoldsRest | docker/worker-agent/cmd/worker_supervisor.go:309-326 | the lines that hold no record reach the worker's own log, once and in order, and nothing else does |
| LogInterceptor.JobFileHoldsRecords | docker/worker-agent/cmd/worker_supervisor.go:309-326 | the records of a job are those of the lines that hold one of it, once and in order |
| LogInterceptor.WriteAll | docker/worker-agent/cmd/worker_supervisor.go:285-307 | successive writes amount to Feed |
| LogInterceptor.ChunksDoNotMatter | docker/worker-agent/cmd/worker_supervisor.go:285-307 | the events and the final buffer depend on the concatenated bytes only |
| LogInterceptor.PrintedLineParses | docker/worker-agent/cmd/worker_supervisor.go:343-411 | a printed record is one line and parses back to the record |
| LogInterceptor.ParsedLineWasPrinted | docker/worker-agent/cmd/worker_supervisor.go:343-411 | a line is parsed to a record exactly when, up to white space, it is the prefix, a non-empty id, a known level and the text of an array of the message and the data, between bars; every other line goes to the worker log |
| LogInterceptor.RecordsSurvive | docker/worker-job-runner/src/http-worker-example.ts:36-53 | any records printed to one of the two output streams, cut into any chunks and written in sequence are parsed back to the same records in order, with an empty buffer left |
| Ipc.Connection.OnData | docker/docker-bridge/src/ipc.ts:39-57 | one piece of data delivers exactly the messages on the lines it completes and keeps what follows the last newline |
| Ipc.MessageOnLine | packages/core-worker/core-worker.ts:415-433 | a line of white space holds no message; of any other the core worker parses what is left without the white space around it, and the bridge the whole line |
| Ipc.OnAllData | docker/docker-bridge/src/ipc.ts:39-57 | successive pieces of data amount to Feed |
| Ipc.ChunksDoNotMatter | packages/core-worker/core-worker.ts:411-443 | for both readers, the messages seen depend on the concatenated data only |
| Ipc.MessagesSurvive | docker/docker-bridge/src/ipc.ts:26-57 | messages sent as JSON lines, cut anywhere, arrive as the same messages in order at either reader |
| Ipc.CoreRequests.SendIpcRequest | packages/core-worker/core-worker.ts:131-164 | a request is entered as pending with its timer armed |
| Ipc.CoreRequests.ResolveCoreResponse | packages/core-worker/core-worker.ts:166-181 | a response settles a pending request and disarms its timer; an unknown one changes nothing |
| Ipc.CoreRequests.OnTimeout | packages/core-worker/core-worker.ts:153-158 | a timer that fires removes and rejects its request |
| Ipc.FirstDecisionSettles | packages/core-worker/core-worker.ts:131-181 | in every run a request is pending with its timer armed exactly while nothing has decided it since it was sent; the first response or timeout for it settles it, once, and nothing else has an effect |
| Ipc.SettledIffDecided | packages/core-worker/core-worker.ts:153-181 | a request is resolved with a body exactly when a successful response with it was the first response or timeout after sending, rejected exactly when an unsuccessful one was, and timed out exactly when its timer was |
| Ipc.PendingIffArmed | packages/core-worker/core-worker.ts:131-181 | the pending requests are exactly the sent ones that are unsettled, their timers exactly the armed ones, and no request is settled twice |
| WsPairing.Bridge.Receive | docker/docker-bridge/src/ws-server.ts:146-282 | one message of one session is handled as OnMessage says, and no other session is touched |
| WsPairing.Bridge.ReceiveAll | docker/docker-bridge/src/ws-server.ts:146-282 | for any interleaving of sessions, each framed session is served as if it were alone |
| WsPairing.KindByFields | docker/docker-bridge/src/ws-server.ts:208-262 | what an envelope asks for depends on its stream_id, type and body_follows only, in this way |
| WsPairing.FramesArrive | docker/docker-bridge/src/ws-server.ts:163-268 | envelopes of any kind, as text or as bytes, each followed by its body if it announces one, lead in order to what their fields ask for, whatever bytes the bodies hold; other envelopes lead to nothing |
| WsPairing.RequestsArrive | docker/docker-bridge/src/ws-server.ts:163-244 | HTTP requests sent as envelope and body are dispatched in order, each with its stream_id, its envelope and its body |
| WsPairing.BodyGoesWithAnnouncement | docker/docker-bridge/src/ws-server.ts:173-206 | a body is dispatched with an envelope exactly when it is the first non-text message after that envelope and no later announcement replaced it |
| WsPairing.OneBodyPerAnnouncement | docker/docker-bridge/src/ws-server.ts:173-206 | of two dispatched bodies, the later one goes with an announcement that came after the earlier one |

## Left out

- Characters: strings are sequences of Dafny characters, not UTF-16 code units, and the log interceptor's bytes are characters too; UTF-8 and its cuts inside a character are not part of this model.
- Documents.Closed: outside every theorem are a reference inside the siblings of another reference, which the source rewrites in some passes and not in others; a `$ref` that names anything but a schema of the document, such as another section of components; a top-level schema that is itself a reference, with siblings or without; and a reference with siblings in place of a `properties` map.
- Pipeline: collapsing, canonicalizing and the null rewrite are proved each on its own. Between collapsing and canonicalizing the source edits single entries in three passes that are not part of this model, and the null rewrite changes what schemas unfold to; what a schema accepts is not derived from its unfolding.
- Json: a number is carried by its JSON text; how JavaScript formats numbers, and its reordering of integer-like keys, are not modelled.
- Canonicalize.RenameGroups: groups are visited in code-unit order, where the source sorts with localeCompare.
- HoistLoop.ChooseCandidate: the order of localeCompare is a parameter, any strict total order of texts. localeCompare can also find two different texts equal, and then the source keeps them in order of discovery, which is not modelled.
- HoistLoop.HoistRepeated: pascalCase and the choice of the most frequent property name are a function parameter; only the freshness of names matters.
- Occurrences.Walk: an array under `properties` is passed over, where the source walks its entries; so does Hoist.RewriteAt, where the source turns it into an object.
- Wrappers: no claim that nullable references and trivial arrays always stay inline, because the filters look at nodes with annotations and the rewrite at nodes without.
- NullTypes.TransformInPlace: edits each object in place but holds its values as values; the source works on a freshly parsed tree, where no two places share a node. A null inside anyOf or oneOf, on which the source throws, is passed over.
- NullVerdicts.TransformKeeps: a keyword other than those that Acceptance.KeywordOf names, such as `$dynamicRef` or one that JSON Schema does not define, is judged by an arbitrary rule on its own value and evaluates nothing, and so does a reference to anything but a named schema, such as to a place inside one. Fuel counts the references followed.
- Authenticator: a state machine on values rather than a class with fields; a custom token store is covered as far as it answers, fails or delays, and what it stores is what the built-in one would. The time it takes to become ready is one such delay.
- AuthenticatorInvariant.NextInv: signup, getViewer and verifyEmail are combinations of the calls modelled, and are not calls of their own; state-change events are left out.
- LogInterceptor.RecordsSurvive: levels ERROR and FATAL go to one output stream and all others to another, each with an interceptor of its own; order is claimed within a stream, not across the two. Falsy data is not sent by the printer, so it comes back as null; opening and writing files does not fail here, and concurrent writes, which may process their lines in either order, are left out.
- Ipc: schemas of messages, the handling of incoming requests and failures of the socket are left out; identifiers are fresh.
- WsPairing: authentication, attaching, closing and the tunnel handlers behind a dispatch are left out.
- Drivers: main, NestJS, the Zod registry, file writes, patchEmptyRecordSchemas, breakRecursiveJsonValueSchemas, stripSchemaIdAnnotations and rewriteDefsRefsToComponents, which look up or edit single entries.
- The worker supervisor's locking, the Postgres client pool, bridge routing and sessions, argument parsing and log tailing.
