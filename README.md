# vmsgen document transforms, in Dafny

`vmsgen` turns a vSphere REST metamodel into an OpenAPI (Swagger 2.0)
document. This project models the map and string transforms that build and
tidy that document, and proves what they promise:

- the metamodel-to-Swagger type table and the builtin-type test;
- `visit_builtin`, which writes a type (and format) into a property;
- `tags_from_service_name`, `build_path`, `post_process_path` and
  `get_response_object_name`, which build one operation record;
- `cleanup`, which drops the bookkeeping keys from operations and `required`
  from type properties;
- `remove_query_params`, which folds `base?name=value` path variants into
  `base`;
- `remove_com_vmware_from_dict`, which strips the `com.vmware.` prefix from
  references, texts and type names;
- `create_camelized_op_id`, `find_url` and
  `categorize_service_urls_by_package_names`.

The behaviour comes from the repository's test suite `test_vmsgen.py`; the
implementation file `vmsgen.py` is not part of this model.

A Python dictionary that a pass mutates in place is a `Document.Dict` object.
It holds an insertion-ordered key list and a map, the two kept consistent by
`Valid()`. Its value is an `ODict`. Nested dictionaries and lists are `Json`
values. Each in-place pass is a method whose `ensures` ties the new
dictionary to a function of the old one, and the lemmas prove what the
function promises. Pure helpers are functions.

Modules: `Strings` (Python string operations), `Document` (JSON values and
dictionaries), `TypeMapper`, `PathBuilder`, `OpIds`, `Cleanup`,
`QueryParams`, `Normalizer`, `ServiceUrls`.

Three behaviours are pinned by the tests and shape the model:

- Two query variants of a path that is itself absent are merged into a newly
  created bare path (test_vmsgen.py:353-406). They are not left alone.
- `tags_from_service_name` joins the segments after the third
  (`[sep.join(name.split('.')[3:])]`). Three segments give `['']`
  (test_vmsgen.py:9-13) and five give `levels_deep`, the last two
  (test_vmsgen.py:15-19). The `build_path` tests fix the four-segment case:
  `com.vmware.mock_package.mock_tag` gives `mock_tag` (test_vmsgen.py:183)
  and `com.vmware.cis.session` gives `session` (test_vmsgen.py:208).
- `security` is added by `build_path`, for the session `post` only
  (test_vmsgen.py:197). `post_process_path` never adds it: its session
  test expects no `security` key (test_vmsgen.py:74).

## Model

| member | source | states |
|---|---|---|
| TypeMapper.TypeConverterCaseInsensitive | test_vmsgen.py:127-137 | the converter depends only on the lower-cased name (`BOOLEAN` and `boolean` agree) |
| TypeMapper.TypeConverter | test_vmsgen.py:127-137 | a format is produced only for a name in the table (the whole table behaviour is `TypeConverterShape`) |
| TypeMapper.TypeConverterShape | test_vmsgen.py:127-137 | the Swagger type is lower case; a name in the table gets exactly its table entry; any other name passes through lower-cased with no format |
| TypeMapper.IsTypeBuiltinCaseInsensitive | test_vmsgen.py:114-125 | the builtin test depends only on the lower-cased name |
| TypeMapper.IsTypeBuiltin | test_vmsgen.py:114-125 | membership of the lower-cased name in the builtin list; its contracts are `IsTypeBuiltinCaseInsensitive` and `IsTypeBuiltinAcceptsListed` |
| TypeMapper.IsTypeBuiltinAcceptsListed | test_vmsgen.py:114-125 | every one of the listed builtin names is accepted as written |
| TypeMapper.TypeObjectShape | test_vmsgen.py:139-157 | the type object holds `type`, plus `format` exactly when the table gives one |
| TypeMapper.VisitedPropertySpec | test_vmsgen.py:139-163 | an array property keeps `type: array` and receives the pair under `items`; any other property receives `type`/`format` directly; every other key keeps its value |
| TypeMapper.MergeByKeys | test_vmsgen.py:139-163 | adding the type object equals storing its `type` and then its `format` one by one |
| TypeMapper.VisitBuiltinBooleanExample | test_vmsgen.py:141-145 | `BOOLEAN` on an empty property gives `{type: boolean}` |
| TypeMapper.VisitBuiltinArrayExample | test_vmsgen.py:159-163 | `long` on an array property puts `{type: integer, format: int64}` under `items` |
| TypeMapper.VisitBuiltin | test_vmsgen.py:139-163 | the in-place call keeps the property well formed and leaves it equal to the visited property, whose meaning `VisitedPropertySpec` states |
| PathBuilder.TagsShort | test_vmsgen.py:9-13 | a name of at most three dot-segments gives the single empty tag |
| PathBuilder.TagsFourOrFive | test_vmsgen.py:15-19 | four segments give the last one; five give the last two joined by the separator |
| PathBuilder.TagsRecoverSegments | test_vmsgen.py:15-19 | splitting the tag at a one-character separator recovers the segments after the third |
| PathBuilder.TagsThreeLevelsExample | test_vmsgen.py:9-13 | `three.levels.deep` with an empty separator gives `['']` |
| PathBuilder.Tags | test_vmsgen.py:7-19 | there is always exactly one tag; its text is stated by `TagsShort`, `TagsFourOrFive` and `TagsRecoverSegments` |
| PathBuilder.PostProcessedSpec | test_vmsgen.py:65-94 | the header parameter is appended exactly for the session `post`; a `$task` operation id appends `?vmw-task=true` to `path` only; every other key keeps its value |
| PathBuilder.PostProcessedUnchanged | test_vmsgen.py:78-88 | an operation that is neither the session `post` nor a `$task` operation is unchanged |
| PathBuilder.PostProcessedOk | test_vmsgen.py:65-94 | the result is a well-formed dictionary |
| PathBuilder.PostProcessPath | test_vmsgen.py:75-76 | the in-place call leaves the dictionary equal to the post-processed value |
| PathBuilder.BaseRecordKeys | test_vmsgen.py:186-224 | the record's keys are the nine names, plus `security` exactly for the session `post` |
| PathBuilder.BaseRecordFields | test_vmsgen.py:186-224 | the record keeps every field, and the session `post` gets `security: [{basic_auth: []}]` |
| PathBuilder.BuildPathKeys | test_vmsgen.py:167-224 | the built operation is well formed and has the nine keys, plus `security` exactly for the session `post` |
| PathBuilder.BuildPathFields | test_vmsgen.py:167-224 | the built operation carries the fields, the header parameter for the session `post` and the `$task` path suffix |
| PathBuilder.BuildPath | test_vmsgen.py:167-224 | the operation carries its `method` and `operationId`; the rest is stated by `BuildPathKeys` and `BuildPathFields` |
| PathBuilder.ResponseObjectNameSpec | test_vmsgen.py:96-112 | the name is the service id exactly for `get`; otherwise it is the service id, `.` and the operation id |
| PathBuilder.ResponseObjectNameExamples | test_vmsgen.py:100-112 | `tag`/`get` gives `tag`, and `tag`/`post` gives `tag.post` |
| PathBuilder.ResponseObjectName | test_vmsgen.py:96-112 | the name starts with the service id; `ResponseObjectNameSpec` states the rest |
| Cleanup.CleanPathsSpec | test_vmsgen.py:227-259 | every path and method stays; no operation keeps `method` or `path`; every other key keeps its value |
| Cleanup.CleanTypesSpec | test_vmsgen.py:261-285 | every type stays; no property keeps `required`; every other key keeps its value |
| Cleanup.CleanPathsIdempotent | test_vmsgen.py:227-259 | cleaning the paths twice equals cleaning them once |
| Cleanup.CleanTypesIdempotent | test_vmsgen.py:261-285 | cleaning the types twice equals cleaning them once |
| Cleanup.CleanPathDict | test_vmsgen.py:258-259 | the first loop leaves the path dictionary equal to `CleanPaths` of its old value, with its key order |
| Cleanup.CleanTypeDict | test_vmsgen.py:284-285 | the second loop leaves the type dictionary equal to `CleanTypes` of its old value, with its key order |
| Cleanup.CleanupDocuments | test_vmsgen.py:227-285 | `cleanup(path_dict, type_dict)` applies both cleanings |
| QueryParams.BasePath | test_vmsgen.py:289-435 | the bare path holds no `?`, is a prefix of the key, and differs from a key that has a query |
| QueryParams.QueryParts | test_vmsgen.py:317-351 | `name=value` splits back into its name and its value |
| QueryParams.WithParameter | test_vmsgen.py:317-351 | the operation gets the parameter appended to its `parameters` list; every other key keeps its value |
| QueryParams.StepShape | test_vmsgen.py:287-435 | one loop step keeps the dictionary well formed; a blocked variant is left, any other is merged and removed |
| QueryParams.MergedKeepsPlain | test_vmsgen.py:317-351 | merging a variant keeps every bare path and every operation already there |
| QueryParams.MergedAbsorbs | test_vmsgen.py:317-351 | after the merge the variant key is gone and its operations sit under the bare path with the query parameter appended |
| QueryParams.StepFacts | test_vmsgen.py:287-435 | one step keeps bare paths and other variants, adds no query key, and either keeps the variant (blocked) or absorbs it |
| QueryParams.StepKeepsBlocked | test_vmsgen.py:408-435 | a blocked variant stays blocked and unchanged through later steps |
| QueryParams.StepKeepsAbsorbed | test_vmsgen.py:317-406 | an absorbed variant stays absorbed through later steps |
| QueryParams.ProgressStep | test_vmsgen.py:287-435 | the loop invariant survives one step |
| QueryParams.ProcessProgress | test_vmsgen.py:287-435 | after the first `n` keys, every visited variant is blocked and unchanged or removed and absorbed |
| QueryParams.ProvenanceStep | test_vmsgen.py:317-406 | one step keeps every key and every operation accounted for: old, or moved from a variant with its query parameter |
| QueryParams.ProcessProvenance | test_vmsgen.py:287-435 | after the first `n` keys, every key and every operation is accounted for in the same way |
| QueryParams.RemovedQueryParamsSpec | test_vmsgen.py:287-435 | every bare path keeps its operations; every variant either stays, unchanged and blocked, or is removed and absorbed; no new query key appears; nothing else: every key is an old key or the bare path of a removed variant, and every operation is an old one or a moved variant operation with its query parameter |
| QueryParams.RemovedQueryParams | test_vmsgen.py:287-435 | the result is a well-formed dictionary; its contents are stated by `RemovedQueryParamsSpec` |
| QueryParams.VariantParts | test_vmsgen.py:289-435 | `base?query` has the bare path `base` and the query `query` |
| QueryParams.WithQueryIs | test_vmsgen.py:317-351 | an operation with no parameters gets exactly the one query parameter |
| QueryParams.AbsoluteDuplicateUnchanged | test_vmsgen.py:289-314 | a variant whose method already exists on the bare path leaves the document unchanged |
| QueryParams.PartialDuplicateStep | test_vmsgen.py:317-351 | the variant's `post` joins the bare path's `get`, with the query parameter added |
| QueryParams.PartialDuplicateMerged | test_vmsgen.py:317-351 | the whole pass on the partial-duplicate document gives that merged document |
| QueryParams.TwoVariantsFirstStep | test_vmsgen.py:353-406 | the first of two variants moves under the absent bare path, which is created |
| QueryParams.TwoVariantsSecondStepMerges | test_vmsgen.py:379-406 | a second variant with another method joins the created bare path |
| QueryParams.TwoVariantsSecondStepBlocked | test_vmsgen.py:408-435 | a second variant with the same method stays as it is |
| QueryParams.TwoVariantsMerged | test_vmsgen.py:353-406 | two variants with different methods end up under one new bare path, each with its query parameter |
| QueryParams.TwoVariantsSameMethod | test_vmsgen.py:408-435 | of two variants with the same method, the first moves and the second stays |
| QueryParams.MoveVariant | test_vmsgen.py:313-314 | one turn of the in-place loop performs one step |
| QueryParams.RemoveQueryParams | test_vmsgen.py:313-314 | the in-place pass leaves the dictionary equal to the specified result |
| Normalizer.CleanRef | test_vmsgen.py:455-490 | a cleaned reference holds no `$` |
| Normalizer.NewKey | test_vmsgen.py:503-526 | a renamed type key holds no `$` |
| Normalizer.Normalize | test_vmsgen.py:437-546 | the rewrite keeps the kind of each value (mapping stays mapping, string stays string) |
| Normalizer.NormalizeRefsClean | test_vmsgen.py:439-546 | after the rewrite no `$ref` string holds `$` and no `required` stands beside a `$ref`, at every level |
| Normalizer.NormalizeEntryRefsClean | test_vmsgen.py:439-546 | the same for the value under any key |
| Normalizer.NormalizeFieldsKeys | test_vmsgen.py:463-490 | a mapping keeps its keys, less `required` when `$ref` is present |
| Normalizer.CleanTextTwice | test_vmsgen.py:448-488 | cleaning a settled text twice equals cleaning it once |
| Normalizer.CleanRefTwice | test_vmsgen.py:455-490 | cleaning a settled reference twice equals cleaning it once |
| Normalizer.NormalizeIdempotent | test_vmsgen.py:437-546 | on settled input the rewrite is idempotent and its output is settled |
| Normalizer.NormalizeEntryIdempotent | test_vmsgen.py:437-546 | the same for the value under any key |
| Normalizer.CleanPrefixFree | test_vmsgen.py:440-490 | a text or reference whose one removal leaves no `com.vmware.` comes out free of it |
| Normalizer.NewKeyPrefixFree | test_vmsgen.py:503-526 | a renamed key is free of `com.vmware.` under the same condition |
| Normalizer.NormalizePrefixFree | test_vmsgen.py:437-546 | on settled input no `$ref`, `summary` or `description` text keeps `com.vmware.`, at every level |
| Normalizer.NormalizeEntryPrefixFree | test_vmsgen.py:437-546 | the same for the value under any key |
| Normalizer.NormalizeFieldsKeepsOthers | test_vmsgen.py:444-546 | nothing else changes: a null, a boolean, or a string under any other key keeps its key and value, except `required` beside `$ref` |
| Normalizer.CleanTextOfPrefixed | test_vmsgen.py:448-452 | a text starting with `com.vmware.` loses it (`com.vmware.mock` becomes `mock`) |
| Normalizer.CleanRefOfReference | test_vmsgen.py:455-490 | `#/definitions/com.vmware.x$y` becomes `#/definitions/x_y`, for any section head |
| Normalizer.NewKeyOfTypeName | test_vmsgen.py:506-526 | `com.vmware.x$y` is renamed `x_y` (`com.vmware.mock.mock_check$list` becomes `mock.mock_check_list`) |
| Normalizer.RenameStepOk | test_vmsgen.py:503-526 | a rename step keeps the dictionary well formed |
| Normalizer.RenamedOk | test_vmsgen.py:503-526 | the rename loop keeps the dictionary well formed |
| Normalizer.RenamedKeysClean | test_vmsgen.py:503-526 | after the loop has visited `n` keys, any mapping under a `$` key sits at a key not yet visited |
| Normalizer.RenamedKeysFrom | test_vmsgen.py:503-526 | every mapping after the loop sits at an unvisited key or at the new key of an old key |
| Normalizer.RenamedKeepsScalars | test_vmsgen.py:503-526 | every value that is not a mapping stays under its old key |
| Normalizer.MovedStepVisited | test_vmsgen.py:503-526 | after a step, every visited entry is at its target with its value |
| Normalizer.MovedStepUnvisited | test_vmsgen.py:503-526 | after a step, every unvisited entry is where it was |
| Normalizer.MovedStepNothingElse | test_vmsgen.py:503-526 | after a step, every key present is a target or an unvisited key |
| Normalizer.RenamedMoves | test_vmsgen.py:503-526 | without collisions, every entry ends at its target with its value, and nothing else is present |
| Normalizer.NewKeyOfPlain | test_vmsgen.py:444-473 | a slash-form path key such as `com/vmware/mock/path` keeps its name |
| Normalizer.NewKeyDropsLeadingPrefix | test_vmsgen.py:506-526 | a leading `com.vmware.` is dropped from a type name |
| Normalizer.RewrittenOk | test_vmsgen.py:437-546 | the rewritten top level is well formed and every value is the rewrite of the old one |
| Normalizer.RemovedComVmwareSpec | test_vmsgen.py:437-546 | the result is well formed, no mapping sits under a key holding `$`, and every value holds only clean references |
| Normalizer.RemovedComVmwarePrefixFree | test_vmsgen.py:437-546 | on settled input with settled keys, no touched text at any level and no top-level mapping key keeps `com.vmware.` |
| Normalizer.RemovedComVmware | test_vmsgen.py:437-546 | every value of the result is the rewrite of some old value; the rest is stated by `RemovedComVmwareSpec`, `RemovedComVmwarePrefixFree`, `RemovedComVmwareMoves` and `RemovedComVmwareIdempotent` |
| Normalizer.RemovedComVmwareIdempotent | test_vmsgen.py:437-546 | on settled input with settled keys and no top-level `$ref`, a second pass changes nothing |
| Normalizer.RewrittenFixed | test_vmsgen.py:437-546 | under the same conditions, rewriting the values of the result again gives the result |
| Normalizer.RemovedKeysFixed | test_vmsgen.py:503-526 | every mapping of the result sits at a key that is its own new form |
| Normalizer.RenamedFixed | test_vmsgen.py:503-526 | a rename over a document whose mappings sit at their own new keys changes nothing |
| Normalizer.RemovedComVmwareMoves | test_vmsgen.py:503-546 | without collisions, every rewritten top-level entry is under its new key and nothing else is present |
| Normalizer.RenamedValues | test_vmsgen.py:503-526 | renaming never creates a value |
| Normalizer.RewriteAfterDrop | test_vmsgen.py:437-546 | dropping `required` beside `$ref` and then rewriting each value gives the rewritten document |
| Normalizer.RewriteValues | test_vmsgen.py:499-500 | the value loop rewrites every top-level value in place |
| Normalizer.RenameKeys | test_vmsgen.py:545-546 | the rename loop leaves the dictionary equal to the specified renaming |
| Normalizer.RemoveComVmware | test_vmsgen.py:499-500 | the in-place pass leaves the dictionary equal to the specified result |
| OpIds.StripQuery | test_vmsgen.py:560-568 | the query-free path holds no `?` and is a prefix of the path |
| OpIds.KeptSegments | test_vmsgen.py:570-578 | the kept segments are no path variables and come from the path |
| OpIds.CamelizedOpIdShape | test_vmsgen.py:548-578 | the id starts with the HTTP method, and nothing after it is `/`, `-`, `_` or `?` |
| OpIds.CamelizedOpIdIgnoresQuery | test_vmsgen.py:560-568 | a query string does not change the id |
| OpIds.CamelizedOpIdIgnoresVendorPrefix | test_vmsgen.py:548-558 | a leading `com/vmware/` does not change the id |
| OpIds.KeptSegmentsAppend | test_vmsgen.py:570-578 | path variables are dropped wherever they stand |
| OpIds.CamelizedOpIdDropsPathVariable | test_vmsgen.py:570-578 | a `{…}` segment does not change the id |
| OpIds.WordsDropPathVariable | test_vmsgen.py:570-578 | a `{…}` segment inserted between two segments adds no word |
| OpIds.CamelizedOpId | test_vmsgen.py:548-578 | the id starts with the HTTP method; the words after it are stated by the lemmas below |
| OpIds.CamelizedOpIdOfSegments | test_vmsgen.py:548-578 | for segments without `/`, `?` or `_` and no `com/vmware/`, the id is the method followed by the capitalised `-`-words of the segments that are not path variables |
| OpIds.CamelizedOpIdOfPlainSegments | test_vmsgen.py:548-578 | for plain segments the words are the segments themselves |
| OpIds.CamelizedOpIdOfDash | test_vmsgen.py:551-558 | `a-b` gives the method, `A…` and `B…` (capitalised `a` and `b`) |
| OpIds.CamelizedOpIdOfDashedName | test_vmsgen.py:550-568 | `com/vmware/a-b`, with or without a query, gives the method and the capitalised words (`com/vmware/mock-path` gives `postMockPath`, cases 1 and 2) |
| OpIds.CamelizedOpIdOfDashAndVariable | test_vmsgen.py:570-578 | `a-b/{v}/c` gives the method and the capitalised `a`, `b`, `c` |
| OpIds.CamelizedOpIdOfDashedPathWithVariable | test_vmsgen.py:570-578 | `com/vmware/a-b/{v}/c` gives the same (`com/vmware/mock-path/{mock}/test` gives `postMockPathTest`, case 3) |
| ServiceUrls.PackageName | test_vmsgen.py:582-599 | a package name holds no `/` |
| ServiceUrls.UrlsOf | test_vmsgen.py:582-599 | a URL is in a package's list exactly when it is an input URL of that package |
| ServiceUrls.CategorizeSpec | test_vmsgen.py:582-599 | the grouping has one entry per package that occurs, and each entry lists exactly that package's URLs in input order |
| ServiceUrls.Categorize | test_vmsgen.py:582-599 | no package gets an empty list; the contents are stated by `CategorizeSpec` |
| ServiceUrls.PackageNameOf | test_vmsgen.py:585-590 | `base/com/vmware/pkg/rest` belongs to `pkg` |
| ServiceUrls.CategorizeThree | test_vmsgen.py:582-599 | two URLs of one package and one of another group as in the test |
| ServiceUrls.FirstWithout | test_vmsgen.py:612-620 | the position of the first link without the marker |
| ServiceUrls.FirstWith | test_vmsgen.py:623-631 | the position of the first link with the marker |
| ServiceUrls.FindUrlSpec | test_vmsgen.py:601-641 | the sole link; else the first link without `~action`; else the first with `id:`; else the first; no link, no answer |
| ServiceUrls.FindUrl | test_vmsgen.py:601-641 | there is an answer exactly when there is a link; `FindUrlSpec` states which |
| ServiceUrls.FindUrlPicksALink | test_vmsgen.py:601-641 | the answer is always one of the links |
| ServiceUrls.FindUrlPrefersPlain | test_vmsgen.py:612-620 | between an `~action` link and a plain one, the plain one wins |
| ServiceUrls.FindUrlPrefersId | test_vmsgen.py:623-631 | between two `~action` links, the one holding `id:` wins |
| ServiceUrls.FindUrlDefaultsToFirst | test_vmsgen.py:634-641 | between two `~action` links without `id:`, the first wins |

## Left out

- `get_input_params` (test_vmsgen.py:21-63) reads the command line. Its outputs become parameters: the tag separator is an argument of `Tags`, and `PathBuilder.Config` holds the tag separator that `build_path` passes on.
- Fetching the metamodel over HTTP, TLS and credentials, and writing the final document: these are network and file I/O.
- The recursive walk over the live metamodel: it works on vendor library objects that are not part of this model.
- `create_unique_op_ids`: the tests pin no behaviour for it.
- The `mock.patch` test harness.
- Letter case covers ASCII only. Python's Unicode case mapping is not modelled.
- A query string is split at its first `=` and a path at its first `?`. Behaviour on a second `=` or `?` beyond that split is not pinned by the tests.
- QueryParams.RemoveQueryParams: requires that every query holds an `=`, because the value of the synthesized parameter is the text after `=`, and the tests show only queries of the form `name=value`.
- Nested dictionaries are values. Aliasing between them (one dict object reachable twice) is not modelled.
- Key renaming in `remove_com_vmware_from_dict` is modelled for top-level keys holding mappings, as the type-document test shows. Path keys such as `com/vmware/mock/path` stay, as the path-document test shows.
- Normalizer.NormalizeIdempotent: proved only on settled input. On a text like `com.com.vmware.vmware.x`, one pass leaves `com.vmware.x`, so the rewrite is not idempotent in general.
- Normalizer.RemovedComVmwareIdempotent: proved on settled texts and keys and without a top-level `$ref` key. With a top-level `$ref`, the pass is not idempotent: `{"$ref": "x", "com.vmware.required": {}}` becomes `{"$ref": "x", "required": {}}`, and a second pass drops that `required` because it stands beside `$ref`.
- Normalizer.RemovedComVmwareMoves: states where entries end only when no renamed key collides with another key. With a collision, the later entry overwrites the earlier, and the model computes that too.
- ServiceUrls.FindUrlSpec: gives `None` for an empty list. The source's behaviour there is not pinned by its tests.
- Test cases with long literal strings are proved as lemmas over symbolic strings, not on the literals themselves. Examples are `PackageNameOf`, the `QueryParams` case lemmas and the `OpIds` lemmas over plain words.
- The `remove_com_vmware_from_dict` test documents (test_vmsgen.py:437-546) are covered piece by piece, not as whole documents: `CleanTextOfPrefixed`, `CleanRefOfReference`, `NewKeyOfTypeName` and `NewKeyOfPlain` state the rewrite of the individual strings. The mid-text case `description about com.vmware.mock_response` (test_vmsgen.py:460) has no lemma of its own; `NormalizePrefixFree` covers it only as "no prefix is left".
- OpIds.CamelizedOpId: takes no `operations_dict` argument. The id is seeded with the HTTP method. The tests pass an `operationId` equal to the method, so they do not pin which of the two the source uses.
- QueryParams.WithParameter: `ParamsOf` gives `[]` when `parameters` is absent or not a list, so the model builds the one-parameter list. The source relies on the key being there (test_vmsgen.py:293 says `parameters` is always created) and would fail on a missing key. `PathBuilder.SessionFixup` and `PostProcessedSpec` append the header parameter the same way; for the absent case this is what test_vmsgen.py:70-76 expects.
- The key order of the grouping in `categorize_service_urls_by_package_names` is not modelled: the result is a map.
