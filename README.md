# Block renderer back end: render-data resolver and structure encoder

This project models two route handlers of a block renderer's back end.

The **renderer** route (`src/routes/renderer.ts`) works in five steps:

1. It takes a `|`-separated list of block-state identifiers such as `oak_stairs[facing=east,half=top]`.
2. It parses each identifier into a name and ordered properties.
3. It picks the model parts that apply to the state: the first matching key of a `variants` collection, or every matching part of a `multipart` collection.
4. It compiles a state record: models, textures with their animation frames, occlusion and liquid rows, and special textures. A state with nothing to render gets the shared empty record.
5. It memoises that record in an LRU cache keyed by the canonical state string. It then answers with one summary per state, plus each referenced texture atlas row and model once.

The **structure** route (`src/routes/structure.ts`) starts from a downloaded structure file:

1. It picks the palette of the requested variant.
2. It maps every palette entry to one character:
   - `+` for air;
   - `-` for structure voids;
   - a fresh name from a generator for every other entry.
3. It records `name[k=v,...]` for each fresh name.
4. It fills a `y`×`z`×`x` grid of `-` with the characters of the blocks.
5. It prints the grid as rows joined by `,` and layers joined by `;`.

## Modules

| module | contents |
|---|---|
| `Wrappers` | `Option` and `Result` |
| `JsStrings` | The JavaScript string and array built-ins the routes rely on: `indexOf`, `split`, `join`, `trim`, the comparator sort and `filter`. Each has the lemmas that tie them together. |
| `OrderedSets` | A JavaScript `Set<number>`: insertion-ordered and duplicate-free. |
| `BlockStates` | The state codec: `stringToState`, `stateToString` and `stateToStringFilteredWaterLogged`. |
| `ModelSelector` | `conditionMatch` and `chooseModel`. |
| `RenderData` | The seven read-only tables, the specification function `Compile`, and `makeStateData` as loops proved against it. |
| `ResponseCache` | `RESPONSE_CACHE` and `findOrMakeData`, as a class. |
| `Batch` | The `states` schema transform and the GET handler. |
| `Structure` | `nameProvider` as a class, the palette mapping, the grid as an `array3`, serialisation, `resolveStructure` and the status of the GET handler. |

## Representation choices

- A JavaScript object of properties is an ordered sequence of key/value pairs, with one entry per key (`ValidProps`).
  - The order is insertion order, as `Object.entries` reports it.
  - A value is `None` when the source holds `undefined`. That happens for `a[k]` without `=`.
- Strings in the renderer are `seq<char>`.
- The structure output is a sequence of UTF-16 code units (`CodeUnit`), because `String.fromCharCode` truncates its argument to 16 bits.

## A missing atlas row throws

A texture id with no atlas row is not skipped. `makeStateData` reads `textureData.frames` from the missing row and throws (`src/routes/renderer.ts:329-334`), and the GET handler then fails. The model returns `Err(MissingAtlasEntry(id))` from `Compile`, and the handler answers with a server error (`RenderData.CompileFails`, `Batch.RespondFails`).

## Model

| member | source | states |
|---|---|---|
| JsStrings.IndexOf | src/routes/renderer.ts:220 | The result is -1 exactly when the character is absent. Otherwise it is the position of its first occurrence. |
| JsStrings.JoinOfSplit | src/routes/renderer.ts:226 | Joining the pieces of a split with the same separator gives back the original string. |
| JsStrings.SplitPieces | src/routes/renderer.ts:226 | No piece of a split contains the separator. |
| JsStrings.SplitOfJoin | src/routes/renderer.ts:240-243 | Splitting a join of separator-free parts gives back exactly those parts. |
| JsStrings.SplitAtFirst | src/routes/renderer.ts:229 | Splitting at the first separator yields the text before it, then the split of the rest. |
| JsStrings.SplitOfConcat | src/routes/renderer.ts:226 | Splitting two texts joined by a separator yields the pieces of each, concatenated. |
| JsStrings.IndexOfExtend | src/routes/renderer.ts:220 | Appending text does not move the first occurrence of a character already present. |
| JsStrings.Trim | src/routes/renderer.ts:43 | The result is a middle slice of the input. It is empty exactly when the input is all whitespace; otherwise it starts and ends with a non-whitespace character. |
| JsStrings.TrimStart | src/routes/renderer.ts:43 | Only leading whitespace is removed, and the result does not start with whitespace. |
| JsStrings.TrimEnd | src/routes/renderer.ts:43 | Only trailing whitespace is removed, and the result does not end with whitespace. |
| JsStrings.TrimKeeps | src/routes/renderer.ts:43 | Trimming introduces no character that was not already in the text. |
| JsStrings.LexLeReflexive | src/routes/renderer.ts:241 | The key comparison is reflexive. |
| JsStrings.LexLeTotal | src/routes/renderer.ts:241 | Any two keys are comparable. |
| JsStrings.LexLeAntisymmetric | src/routes/renderer.ts:241 | Two keys that compare both ways are equal. |
| JsStrings.LexLeTransitive | src/routes/renderer.ts:241 | The key comparison is transitive. |
| JsStrings.Insert | src/routes/renderer.ts:241 | Inserting adds exactly one element to the multiset of elements. |
| JsStrings.InsertSorted | src/routes/renderer.ts:241 | Insertion keeps a sorted sequence sorted. |
| JsStrings.InsertDistinct | src/routes/renderer.ts:241 | Inserting an element with a fresh key keeps the keys distinct. |
| JsStrings.SortBy | src/routes/renderer.ts:241 | The result is a permutation of the input, sorted by key. |
| JsStrings.SortByDistinct | src/routes/renderer.ts:241 | Sorting keeps the keys distinct. |
| JsStrings.SortedHeads | src/routes/renderer.ts:241 | Two sorted permutations of a sequence with distinct keys start with the same element. |
| JsStrings.SortedUnique | src/routes/renderer.ts:241 | Two sorted permutations of a sequence with distinct keys are equal. |
| JsStrings.SortByPermutation | src/routes/renderer.ts:241 | With distinct keys, the sort result depends only on the multiset of entries, not on their order. |
| JsStrings.Filter | src/routes/renderer.ts:250-252 | The result is no longer than the input, and every kept element satisfies the predicate. |
| JsStrings.FilterAppend | src/routes/renderer.ts:250-252 | Filtering distributes over concatenation. |
| JsStrings.FilterMultiset | src/routes/renderer.ts:250-252 | An element kept by the predicate occurs as often as in the input; any other element does not occur. |
| JsStrings.FilterCongruent | src/routes/renderer.ts:250-252 | Predicates that agree on every element filter alike. |
| OrderedSets.AddDistinct | src/routes/renderer.ts:306 | `Set.add` keeps the elements distinct. |
| OrderedSets.AddAllMembership | src/routes/renderer.ts:315 | After adding a sequence, an element is present exactly when it was before or it is in the sequence. |
| OrderedSets.AddAllDistinct | src/routes/renderer.ts:315 | Adding a sequence keeps the elements distinct. |
| OrderedSets.AddAllConcat | src/routes/renderer.ts:315 | Adding `a + b` equals adding `a`, then `b`. |
| OrderedSets.AddAllStep | src/routes/renderer.ts:315 | Adding one more element of the sequence is one `Set.add`. |
| BlockStates.Lookup | src/routes/renderer.ts:172 | `blockProperties[key]` is the value of the entry with that key, and `undefined` when no entry has it. |
| BlockStates.Assign | src/routes/renderer.ts:230 | `acc[key] = value` appends a fresh key at the end; otherwise every entry stays in place or becomes the new pair, and the length grows by at most one. |
| BlockStates.AssignValid | src/routes/renderer.ts:230 | Assignment keeps one entry per key. |
| BlockStates.AssignLookup | src/routes/renderer.ts:230 | After the assignment, the key reads the new value and every other key reads as before. |
| BlockStates.Bracketed | src/routes/renderer.ts:239-246 | The result is the bare name exactly when there are no properties; otherwise the name is a prefix. |
| BlockStates.StateToString | src/routes/renderer.ts:238-247 | `stateToString`: the name with its entries sorted by key. `Bracketed`, `StateToStringOrderIndependent`, `ParseOfCanonicalKey` and `CanonicalKeyRoundTrip` state what it means. |
| BlockStates.StateToStringFilteredWaterLogged | src/routes/renderer.ts:249-261 | `stateToStringFilteredWaterLogged`: the same key over the entries other than `waterlogged`. `WaterloggedIgnored`, `FilteredKeyOrderIndependent` and `FilteredKeyWhenDry` state what it means. |
| BlockStates.EntryOfClean | src/routes/renderer.ts:229 | An entry parsed from a comma-free piece has a key and value free of `,` and `=`. |
| BlockStates.ParseEntries | src/routes/renderer.ts:224-234 | The reduce yields one entry per key, and at least one entry for a non-empty list of pieces. |
| BlockStates.StringToState | src/routes/renderer.ts:219-236 | Text without `[` is a name with no properties. Text with `[` yields a name free of `[` and at least one property, with one entry per key. |
| BlockStates.StateToStringOrderIndependent | src/routes/renderer.ts:238-247 | The canonical key does not depend on the insertion order of the properties. |
| BlockStates.FilterPermutation | src/routes/renderer.ts:250-252 | Dropping `waterlogged` from permuted property lists leaves permuted lists. |
| BlockStates.FilterDistinct | src/routes/renderer.ts:250-252 | Dropping `waterlogged` keeps one entry per key. |
| BlockStates.FilteredKeyOrderIndependent | src/routes/renderer.ts:249-261 | The waterlog-stripped key does not depend on property order. |
| BlockStates.FilterAssignWaterlogged | src/routes/renderer.ts:250-252 | Setting `waterlogged` to any value leaves the filtered list unchanged. |
| BlockStates.WaterloggedIgnored | src/routes/renderer.ts:249-261 | The waterlog-stripped key is the same whatever `waterlogged` is set to. |
| BlockStates.FilterAllKept | src/routes/renderer.ts:250-252 | Without a `waterlogged` entry, the filter keeps everything. |
| BlockStates.FilteredKeyWhenDry | src/routes/renderer.ts:249-261 | For a state without `waterlogged`, the stripped key equals the canonical key. |
| BlockStates.EntryRoundTrip | src/routes/renderer.ts:229 | Parsing `k=v` back gives `(k, v)` when neither part holds `,` or `=` and the value is defined; the printed entry has no comma. |
| BlockStates.ParseFormatted | src/routes/renderer.ts:224-234 | Parsing the printed entries of a clean property list gives back exactly that list. |
| BlockStates.ParseOfCanonicalKey | src/routes/renderer.ts:219-247 | Parsing the canonical key of a printable state with properties yields its name and its properties sorted by key. |
| BlockStates.CanonicalKeyRoundTrip | src/routes/renderer.ts:219-247 | Parsing the canonical key of a printable state gives back its name and the same multiset of properties. Printing that result again gives the same key. |
| BlockStates.LookupPermutation | src/routes/renderer.ts:172 | Permuted property lists with one entry per key read every key alike. |
| BlockStates.UndefinedValueSharesKey | src/routes/renderer.ts:219-247 | `name[k]` parses to `k` with an undefined value. That state prints like `name[k=undefined]`, and its key parses back to the string value `"undefined"`. |
| BlockStates.UndefinedTextParses | src/routes/renderer.ts:219-236 | `name[k=undefined]` round-trips to the string value `"undefined"`. |
| BlockStates.UndefinedPrintsAsText | src/routes/renderer.ts:238-247 | An undefined value prints as the text `undefined`. |
| BlockStates.BareKeyParses | src/routes/renderer.ts:219-236 | A bracketed key without `=` parses to that key with an undefined value. |
| ModelSelector.EmptyConditions | src/routes/renderer.ts:138-153 | An empty `AND` holds, an empty `OR` fails, and an empty literal holds. |
| ModelSelector.AbsentProperty | src/routes/renderer.ts:150-152 | A condition on a property the state lacks holds exactly when it is negated. |
| ModelSelector.NegationFlips | src/routes/renderer.ts:150-152 | A leading `!` turns a condition into its complement. |
| ModelSelector.AlternativesDisjoin | src/routes/renderer.ts:152 | `v1\|v2` holds exactly when `v1` holds or `v2` holds. |
| ModelSelector.NegatedAlternativesExample | src/routes/renderer.ts:149-153 | `!1\|2` holds for 3 and fails for 1 and for 2: the negation covers the whole alternative list. |
| ModelSelector.ConditionMatch | src/routes/renderer.ts:134-155 | `conditionMatch` as a recursive predicate: `AND` is every child, `OR` is some child, and a literal is every entry. Its meaning is stated by `EmptyConditions`, `AbsentProperty`, `NegationFlips`, `AlternativesDisjoin` and `ConditionMatchLookupOnly`. |
| ModelSelector.ConditionMatchLookupOnly | src/routes/renderer.ts:134-155 | A condition's outcome depends only on what each key reads. |
| ModelSelector.EmptyVariantKey | src/routes/renderer.ts:168-176 | The variant key `""` matches every state without an empty-named property. |
| ModelSelector.FirstMatchingVariant | src/routes/renderer.ts:166-178 | The result is the first variant whose constraints all hold, or -1 when none do. |
| ModelSelector.FirstNotMostSpecific | src/routes/renderer.ts:166-178 | The first matching variant wins even when a later one is more specific. |
| ModelSelector.MatchingAppliesAppend | src/routes/renderer.ts:180-182 | The multipart filter distributes over concatenation of parts. |
| ModelSelector.MatchingAppliesSingle | src/routes/renderer.ts:180-181 | A single part is selected exactly when its condition holds; a part without `when` always is. |
| ModelSelector.MatchingAppliesEmpty | src/routes/renderer.ts:180-183 | No part is selected exactly when no part's condition holds. |
| ModelSelector.BothPartsSelected | src/routes/renderer.ts:180-184 | Every matching multipart part is applied, in order; the selection does not stop at the first. |
| ModelSelector.SelectParts | src/routes/renderer.ts:157-188 | An unknown block name yields null, and a non-null selection is never empty. |
| ModelSelector.FirstMatchingVariantLookupOnly | src/routes/renderer.ts:166-178 | The chosen variant depends only on what each key reads. |
| ModelSelector.SelectPartsLookupOnly | src/routes/renderer.ts:157-188 | States with the same name whose properties read alike select the same parts. |
| ModelSelector.CheckConstraint | src/routes/renderer.ts:171-172 | For properties with one entry per key, a `key=value` constraint holds exactly when the state has that entry. A bare `key` holds exactly when the state lacks the key or holds it with an undefined value, because `undefined === undefined`. |
| ModelSelector.MatchVariant | src/routes/renderer.ts:168-176 | The loop over the comma-separated constraints reports a match exactly when every constraint holds. |
| ModelSelector.ChooseModel | src/routes/renderer.ts:157-188 | `chooseModel` returns the selection its specification describes. |
| RenderData.PartModelsMembership | src/routes/renderer.ts:301-312 | A model id is collected exactly when some chosen part, or some weighted alternative of it, refers to it. |
| RenderData.TextureSet | src/routes/renderer.ts:314-325 | The `textures` set before expansion: specials, then face textures of held models. `TextureSetMembership` states its members. |
| RenderData.ModelTexturesMembership | src/routes/renderer.ts:316-325 | A texture id is collected from the models exactly when some face of some element of a listed model held in the model table names it. |
| RenderData.ExpandErrPrefix | src/routes/renderer.ts:327-336 | Once expansion has thrown on a prefix, the whole expansion throws the same fault. |
| RenderData.Expand | src/routes/renderer.ts:327-336 | The `texturesParsed` set: each texture followed by its frames, one level deep, or a throw at the first id the atlas lacks. `ExpandSpec` states its meaning. |
| RenderData.ExpandSpec | src/routes/renderer.ts:327-336 | Expansion throws exactly when some collected id has no atlas row, and names such an id. Otherwise it lists, once each, every collected id and every frame of an animated one. |
| RenderData.CompileEmptyIff | src/routes/renderer.ts:298-299 | The shared empty record is returned exactly for a state with no parts, no specials, no occluding shape and no motion-blocking liquid row. Every other record has exactly the six face keys. |
| RenderData.CompileFields | src/routes/renderer.ts:338-354 | A record that is not the empty one holds the selected parts, the render type (`solid` when the table has none), the liquid row's flags, the occlusion flag, each face's boxes (`[]` when missing) and the special textures. |
| RenderData.CompileModels | src/routes/renderer.ts:301-312 | The record's models are distinct, and are exactly those the selected parts refer to. |
| RenderData.CompileTextures | src/routes/renderer.ts:314-341 | The record's textures are distinct and include every special texture. They are exactly the collected textures plus their animation frames. |
| RenderData.TextureSetMembership | src/routes/renderer.ts:314-325 | A texture is collected exactly when it is special or a face texture of a held model. |
| RenderData.CompileFails | src/routes/renderer.ts:327-336 | Compilation throws exactly when the state is not plain and some collected texture has no atlas row. |
| RenderData.Build | src/routes/renderer.ts:292-355 | `makeStateData` after the table reads: the empty record on the fast path, otherwise the assembled record. `CompileEmptyIff`, `CompileFields`, `CompileModels` and `CompileTextures` state its output. |
| RenderData.Compile | src/routes/renderer.ts:286-356 | `makeStateData` as a function of the tables and the state. It is the specification that `MakeStateData` and the memo are proved against. |
| RenderData.CompileOrderIndependent | src/routes/renderer.ts:286-356 | Property insertion order never changes the compiled record. |
| RenderData.CompileCanonical | src/routes/renderer.ts:282-356 | A printable state compiles like the state its canonical key parses back to. |
| RenderData.WaterloggedKeepsRows | src/routes/renderer.ts:287-296 | Setting `waterlogged` never changes the occlusion and liquid rows a state reads. |
| RenderData.AddEach | src/routes/renderer.ts:315 | The `forEach` of `Set.add` calls yields the ordered union. |
| RenderData.AddApplyModels | src/routes/renderer.ts:304-310 | The loop over one part adds the model of each of its alternatives. |
| RenderData.CollectModels | src/routes/renderer.ts:301-312 | The model loop computes the specified model set. |
| RenderData.AddElementTextures | src/routes/renderer.ts:319-323 | The loop over elements and faces adds every face texture. |
| RenderData.CollectTextures | src/routes/renderer.ts:314-325 | The texture loop computes the specified texture set. |
| RenderData.ExpandTextures | src/routes/renderer.ts:327-336 | The expansion loop computes the specified expansion, including its fault. |
| RenderData.MakeStateData | src/routes/renderer.ts:286-356 | `makeStateData` returns the specified compiled record or fault. |
| ResponseCache.WithoutMembership | src/routes/renderer.ts:277-280 | Removing a key from the recency list removes exactly that key. |
| ResponseCache.WithoutDistinct | src/routes/renderer.ts:277-280 | Removing a key keeps the list distinct and shortens it by one when the key was present. |
| ResponseCache.Cache.constructor | src/routes/renderer.ts:277-280 | The memo starts empty, well-formed, sound and coherent. |
| ResponseCache.StoreKeepsSound | src/routes/renderer.ts:277-280 | Storing a compile of some state under that state's key, with or without an eviction, keeps every stored record a compile of some state with its key. |
| ResponseCache.StoreKeepsCoherent | src/routes/renderer.ts:277-280 | Storing the compile of a printable state under its key keeps every stored record equal to the compile of the state its key parses back to. |
| ResponseCache.Cache.MakeAndStore | src/routes/renderer.ts:277-279 | A miss returns the fresh compile and, on success, stores it under the state's key, evicting the least recently used key when 2000 are held. The memo stays well-formed and sound, and coherent while the state is printable. |
| ResponseCache.Cache.Touch | src/routes/renderer.ts:283 | A hit moves its key to the most recently used end, and the entries stay the same. |
| ResponseCache.Cache.Store | src/routes/renderer.ts:277-279 | A miss stores its record under its key. When 2000 keys are held, the least recently used key is evicted first. |
| ResponseCache.Cache.FindOrMakeData | src/routes/renderer.ts:282-284 | A hit returns the stored record and refreshes its key; a miss compiles and stores a successful result. Whatever the memo holds, a returned record is the compile of some state with the same canonical key. While the memo is coherent and the state is printable, the result is what a fresh compile gives. |
| Batch.StatesParam | src/routes/renderer.ts:37-47 | A rejected parameter is a bad request. An accepted one is a non-empty list of non-empty states. |
| Batch.StatesParamRejects | src/routes/renderer.ts:37-47 | The parameter is rejected exactly when it is missing or every `\|`-separated piece is whitespace. |
| Batch.StatesParamPieces | src/routes/renderer.ts:40-45 | Every accepted state is free of `\|` and of whitespace at either end. |
| Batch.FilterEmptyIff | src/routes/renderer.ts:44-46 | Dropping empty pieces leaves nothing exactly when every piece is empty. |
| Batch.MapOrThrow | src/routes/renderer.ts:371-387 | A successful pass over the states yields one record per state. |
| Batch.MapOrThrowSpec | src/routes/renderer.ts:371-387 | The pass succeeds exactly when every state compiles, and the i-th record is then the i-th state's. |
| Batch.MapOrThrowStep | src/routes/renderer.ts:371-387 | One more state either throws its fault or appends its record. |
| Batch.MapOrThrowErrPrefix | src/routes/renderer.ts:371-387 | A fault on a prefix of the states is the fault of the whole pass. |
| Batch.SummariesIndex | src/routes/renderer.ts:374-383 | The i-th summary pairs the i-th parsed state with the i-th record. |
| Batch.TexturesOfMembership | src/routes/renderer.ts:384-385 | A texture is collected exactly when some record lists it among its textures or its special textures. |
| Batch.TexturesOfLast | src/routes/renderer.ts:384-385 | Textures collected over one more record are the earlier ones plus that record's. |
| Batch.ModelsOfMembership | src/routes/renderer.ts:386 | A model is collected exactly when some record lists it. |
| Batch.ModelsOfLast | src/routes/renderer.ts:386 | Models collected over one more record are the earlier ones plus that record's. |
| Batch.RespondStates | src/routes/renderer.ts:365-393 | A successful response has one summary per requested state, in request order. Each summary holds the parsed state and its compiled record. |
| Batch.RespondFails | src/routes/renderer.ts:371-387 | The request fails exactly when some requested state's compile throws. |
| Batch.RespondCoversSpecials | src/routes/renderer.ts:384-389 | Every special texture of every summary has its atlas row in the response. |
| Batch.AssembleCoversSpecials | src/routes/renderer.ts:384-389 | In the assembled response, every special texture has its atlas row. |
| Batch.SpecialCollected | src/routes/renderer.ts:385 | A special texture of a compiled record is in the atlas and among the collected textures. |
| Batch.SpecialInAtlas | src/routes/renderer.ts:327-336 | A successfully compiled special texture has an atlas row. |
| Batch.RespondModelsReferenced | src/routes/renderer.ts:386-390 | Every model in the response is in the model table and is referenced by the parts of some summary. |
| Batch.AssembleModelsReferenced | src/routes/renderer.ts:386-390 | In the assembled response, every model is held and referenced. |
| Batch.ModelReferenced | src/routes/renderer.ts:340 | A model of a compiled record is referenced by its parts. |
| Batch.RespondOk | src/routes/renderer.ts:365-393 | When every state compiles, the response is the assembly of the summaries and the collected rows. |
| Batch.SummariesExtend | src/routes/renderer.ts:374 | Pushing one summary extends the summaries of the prefix by one state. |
| Batch.CollectedExtend | src/routes/renderer.ts:384-386 | Collecting one more record adds its textures, then its specials, then its models. |
| Batch.MapOrThrowNext | src/routes/renderer.ts:371-387 | A fault on the next state is the fault of the whole pass; a success extends the prefix's records. |
| Batch.Assemble | src/routes/renderer.ts:374-390 | The response for given records: summaries in order, plus the atlas and model rows of the collected ids. `AssembleCoversSpecials` and `AssembleModelsReferenced` state what it holds. |
| Batch.Respond | src/routes/renderer.ts:365-393 | The GET handler read against fresh compiles. `RespondStates`, `RespondFails`, `RespondCoversSpecials`, `RespondModelsReferenced` and `RespondOk` state its meaning. |
| Batch.ResolveNext | src/routes/renderer.ts:372-373 | One state goes through the memo. A record is the compile of some state with the same canonical key. While the memo is coherent, that state is the requested one and a fault is the pass's fault. |
| Batch.Record | src/routes/renderer.ts:374-386 | Recording a record pushes its summary and adds its textures and models. |
| Batch.ResolveOne | src/routes/renderer.ts:371-387 | One iteration of the loop keeps the summaries and collected sets equal to their specification over the prefix, and the records so far the compiles of states with the requested canonical keys. |
| Batch.ResolveAll | src/routes/renderer.ts:371-387 | After the loop, the summaries and collected sets are those of all states, and the records are the compiles of states with the requested canonical keys, one for one. While the memo is coherent at the start and every state is printable, the memo stays coherent and the fault or records are those of the specified pass. |
| Batch.HandleGet | src/routes/renderer.ts:365-393 | A bad parameter is a bad request and leaves the memo untouched. Any successful answer has one summary per requested state, in request order, and is assembled from compiles of states with the requested canonical keys (`Answered`). While the memo is coherent and every state is printable, the answer is the specified response. |
| Batch.AnsweredReferences | src/routes/renderer.ts:371-390 | Whatever the memo held, an answered response carries only models the table holds and some summary's parts refer to, and an atlas row for every special texture of every summary. |
| Batch.Reply | src/routes/renderer.ts:389-390 | Filling the atlas and model rows after the loop gives an answered response, so it names only referenced models and covers every special texture. |
| Batch.MapOrThrowAppend | src/routes/renderer.ts:371-387 | Appending one successful call to a successful map appends its value to the records. |
| Batch.FillTextures | src/routes/renderer.ts:389 | The response holds exactly the atlas rows of the collected textures. |
| Batch.FillModels | src/routes/renderer.ts:390 | The response holds exactly the model rows of the collected models. |
| Structure.ToUint16Mod | src/routes/structure.ts:49 | `String.fromCharCode` keeps the code modulo 2^16. |
| Structure.NameAt | src/routes/structure.ts:41-51 | The code unit of the n-th `nameProvider` call. `NameAtRanges`, `NamesDistinct` and `NamesWrap` state its values. |
| Structure.NameAtRanges | src/routes/structure.ts:41-51 | Below capacity, the first 26 names are `A`-`Z`, the next 26 are `a`-`z`, and the rest are from U+4E00 on. No name is `+`, `-`, `,` or `;`. |
| Structure.NamesDistinct | src/routes/structure.ts:41-51 | Two different calls below capacity give two different names. |
| Structure.NamesWrap | src/routes/structure.ts:49 | Past capacity, the generator yields `+`, then `-`, and then repeats `A`. |
| Structure.NameProvider.constructor | src/routes/structure.ts:41-42 | A fresh generator has drawn no name. |
| Structure.NameProvider.Next | src/routes/structure.ts:43-50 | Each call returns the name of its call number and counts one more call. Below capacity, it never returns `+` or `-`. |
| Structure.BlockName | src/routes/structure.ts:78 | The name exists exactly when the id holds a `:`. |
| Structure.BeforeColon | src/routes/structure.ts:78 | The scanned name holds no `:`. |
| Structure.BeforeColonSplit | src/routes/structure.ts:78 | The scan up to the first `:` is the first piece of the split. |
| Structure.BlockNameSplit | src/routes/structure.ts:78 | The scanned name is `split(':', 2)[1]`, and undefined when there is no second piece. |
| Structure.BlockNameOfNamespaced | src/routes/structure.ts:78 | `ns:name` and `ns:name:rest` both give `name`. |
| Structure.PropertiesTextPieces | src/routes/structure.ts:88-91 | Without commas in keys and values, the properties text lists every `k=v` once, in sorted order. |
| Structure.StateText | src/routes/structure.ts:86-94 | The state text is undefined exactly for an id without `:` and without properties. With properties it is always defined and ends in `]`. |
| Structure.IndexMap | src/routes/structure.ts:77-97 | Every palette entry gets a character. |
| Structure.NamedCountPrefix | src/routes/structure.ts:84 | The number of names drawn grows along the palette, and a named entry counts itself. |
| Structure.IndexMapAt | src/routes/structure.ts:77-85 | Entry `k` gets its marker, or the name of the number of entries named before it. |
| Structure.MarkersExactlyAirAndVoid | src/routes/structure.ts:79-82 | Below capacity, an entry maps to `+` exactly when it is air, and to `-` exactly when it is a structure void. |
| Structure.NamedEntriesDistinct | src/routes/structure.ts:84-85 | Below capacity, two named entries get different characters. |
| Structure.StateMapKeys | src/routes/structure.ts:84-95 | The state table's keys are exactly the names drawn. |
| Structure.StateMap | src/routes/structure.ts:77-97 | `stateMapper` after the palette. `StateMapKeys`, `MarkersHaveNoState`, `StateMapEntry` and `StateMapName` state its contents. |
| Structure.MarkersHaveNoState | src/routes/structure.ts:79-95 | Below capacity, neither `+` nor `-` is a key of the state table. |
| Structure.StateMapEntry | src/routes/structure.ts:86-95 | Below capacity, a named entry's character maps to its state text: `name[k=v,...]` when it has properties, otherwise its bare name, which is undefined for an id without `:`. |
| Structure.StateMapName | src/routes/structure.ts:86-95 | The name drawn for an entry maps to that entry's state text, undefined included. |
| Structure.MapPalette | src/routes/structure.ts:77-97 | The `forEach` over the palette builds the specified index and state tables. |
| Structure.Dims | src/routes/structure.ts:99-105 | `Array(n)` throws exactly for a negative length on an array that is actually built. An inner length is checked only when its outer array has elements. |
| Structure.LookupIndex | src/routes/structure.ts:109 | `indexMapper.get(state)` is defined exactly for a palette index. |
| Structure.BlockFault | src/routes/structure.ts:107-109 | A write succeeds exactly when the position lies inside the grid. |
| Structure.FirstFault | src/routes/structure.ts:106-110 | The writes succeed exactly when every block lies inside the grid. |
| Structure.FirstFaultPrefix | src/routes/structure.ts:106-110 | The first failing write of a prefix is the first of the whole list. |
| Structure.CellUntouched | src/routes/structure.ts:104 | A cell no block writes keeps its `-`. |
| Structure.CellLastWrite | src/routes/structure.ts:106-110 | A cell holds the character of the last block written to it. |
| Structure.CellAfterStep | src/routes/structure.ts:106-110 | One more write changes only its own cell. |
| Structure.ContentsOfFilled | src/routes/structure.ts:99-110 | A filled array reads as the specified grid. |
| Structure.BuildGrid | src/routes/structure.ts:99-110 | The grid has the shape of `size` and each cell holds its last write or `-`. The build fails exactly on the specified fault. |
| Structure.RowTextCells | src/routes/structure.ts:111 | A row of defined cells prints one code unit per cell, in order. A row never prints a unit no cell holds. |
| Structure.JoinAvoids | src/routes/structure.ts:111 | A join holds no code unit that is neither the separator nor in a part. |
| Structure.LayerRows | src/routes/structure.ts:111 | Splitting a printed layer on `,` gives back its printed rows. |
| Structure.GridLayers | src/routes/structure.ts:111 | Splitting the printed grid on `;` gives back its printed layers. |
| Structure.GridText | src/routes/structure.ts:111 | The `structure` string: layers joined by `;`, rows by `,`. `GridShape`, `LayerRows` and `GridLayers` state its shape. |
| Structure.SelectPalette | src/routes/structure.ts:64-76 | There is no palette exactly when the variant is out of bounds: past the list, or non-zero for a single palette. |
| Structure.Resolve | src/routes/structure.ts:53-120 | `resolveStructure` after the download, as a function. `UnresolvedIff`, `ResolvedShape` and `ResolvedBlocks` state its meaning. |
| Structure.ResolveStructure | src/routes/structure.ts:53-120 | `resolveStructure` computes the specified resolution or fault. Its `blocks` record drops the names whose state text is undefined, as JSON does. |
| Structure.ResolvedBlocks | src/routes/structure.ts:77-116 | Below capacity, the `blocks` record keys each named entry's character to its state text, unless that text is undefined. It holds no other key. |
| Structure.UnresolvedIff | src/routes/structure.ts:53-76 | The result is unresolved exactly when the download failed or the variant is out of bounds. |
| Structure.ResolvedShape | src/routes/structure.ts:53-120 | Under capacity, and when every block indexes the palette, the output is `y` layers split by `;`. Each layer is `z` rows split by `,`, and each row is `x` units. |
| Structure.GridShape | src/routes/structure.ts:111 | A full grid of defined non-separator cells prints in its shape. |
| Structure.LayerShape | src/routes/structure.ts:111 | A full layer of defined non-comma cells prints as `z` rows of `x` units. |
| Structure.CellIsMapped | src/routes/structure.ts:99-110 | When blocks index the palette, every cell holds `-` or a mapped character, never `,` or `;`. |
| Structure.LastWriteAt | src/routes/structure.ts:106-110 | The result is the last block written to a position, or -1 when none is. |
| Structure.Status | src/routes/structure.ts:122-132 | The status is 200 exactly for a resolved structure and 404 exactly for an unresolved one. |

## Left out

- Sort order: `localeCompare` in the renderer and the default `.sort()` in the structure route are both modelled as plain lexicographic order on characters (`JsStrings.LexLe`). The locale collation and UTF-16 surrogate order are not modelled.
- Integer-like keys: JavaScript lists integer-like object keys (`"0"`, `"1"`) first in ascending order. Properties are modelled in plain insertion order.
- Prototype keys: a key such as `__proto__` behaves differently on a real object; this is not modelled.
- JSON rendering (key order, `undefined` dropped from objects) is not modelled beyond `FillTextures` and `FillModels` keeping only defined rows and `Structure.JsonRecord` dropping keys whose state text is undefined. The constant `found: true` and `resolved: true` fields of a resolved structure body are not carried by `Structure.Resolution.Resolved`.
- Renderer cache internals: the LRU library's internal bookkeeping is modelled only as its contract (2000 entries, least recently used evicted first).
- Structure cache: the structure route's `RESOLVED_CACHE`, with its TTL and LRU, is not part of this model. `resolveStructure` is modelled directly.
- Structure input: the download (`fetch`), `Buffer` and NBT parsing are not modelled. The model starts from an already parsed file, with `None` for a non-200 response.
- Property tags: non-string NBT property tags are not modelled; every property value is text.
- Structure.BuildGrid: a column index outside `[0, x)` is modelled as a fault (`ColumnOutOfRange`). The JavaScript code instead lengthens the row or sets an unprinted property.
- Structure.Resolve: returns `Err(ColumnOutOfRange)` where the JavaScript code still resolves, for the same reason as `Structure.BuildGrid`.
- Structure.ResolveStructure: returns `Err(ColumnOutOfRange)` where the JavaScript code still resolves, for the same reason as `Structure.BuildGrid`.
- Structure.NamesDistinct: name distinctness, and everything built on it, is stated only for the first 45,620 names. After that, `String.fromCharCode` wraps around; `Structure.NamesWrap` shows it yielding `+`, `-` and repeated names.
- ResponseCache.Cache.FindOrMakeData: the memo is proved faithful only under its coherence invariant and for printable states. `name[k]` and `name[k=undefined]` share one cache key but can select different models; `BlockStates.UndefinedValueSharesKey` shows the collision.
- Array length limit: JavaScript's 2^32-1 array length limit is not modelled.
- Concurrency: concurrent requests are not modelled; each handler call runs alone.
- Weighted models: the client-side weighted choice among weighted alternatives is not modelled; all alternatives are collected.
- HTTP details: Cache-Control headers, the Hono routing layer and zod's error messages are not modelled. A schema failure is `BadRequest`.
- Structure query: the structure route's query schema (`id` regex and `variant` coercion) is not modelled beyond `variant` being a natural number.
