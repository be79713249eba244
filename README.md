# container_import, modelled in Dafny

`container_import` is an ArchivesSpace backend plugin. It reads a CSV of
box and barcode rows, each row naming a resource by identifier and
optionally a series number, and writes them into the archival database
(`backend/plugin_init.rb`). The run has two passes.

- **Pass 1** runs inside the service's `loaded_hook` (lines 97-181):
  - every row's barcode is stripped to its digits;
  - the row's resource identifier is normalised with `parse_identifier`
    and looked up in an index of all resources (`parsed_resources`);
  - rows whose resource is unknown, or that lack a box or a barcode, are
    skipped with a complaint;
  - the remaining rows are grouped per resource and series label
    (`series_groups`) or per resource alone (`resource_groups`), and the
    resource is cached;
  - every row of a series group whose series id is still nil looks up the
    top-level archival object whose component id carries that series number
    (`find_series`, line 145); once one is found, the group records its id
    and fetches that object's direct children
    (`find_children_by_parent_id`), and later rows skip the lookup.
- **Pass 2, series groups** (lines 183-241):
  - a missing series is created (`build_series`);
  - every child box container whose indicator equals a row's box takes
    that row's barcode, and the child is written back; a refused write
    is logged and the import goes on;
  - the matched rows are dropped from the group;
  - every remaining row becomes a new box container on the series
    (`build_container`), written in one update.
- **Pass 2, resource groups** (lines 243-260): every row of a resource
  group becomes a new box container on the resource, written in one update.

The model keeps the program's own structure.

- **Pure code** becomes functions, with lemmas about them:
  - `parse_identifier`, with the Ruby regular expressions `/^(A|M)C/` and
    `/\d{1,}/` and `to_i.to_s` written out;
  - the barcode `gsub`;
  - `build_container` and `build_series`;
  - the first-match scan of `find_series`.
- **Loops** become methods with loop invariants:
  - the row loop of pass 1;
  - the nested loops over rows, children and instances of pass 2;
  - the delete loop of line 223;
  - the append loops of lines 229-235 and 249-255;
  - the loops over both group hashes.
- **Each method is proved against a specification function.** The
  function states what the loop must produce, for example:
  - `ApplyRows`: the barcodes after a sequence of rows;
  - `Remaining`: the rows no child matched;
  - `FailedUpdates`: the complaints, in order;
  - `SeriesRows` and `ResourceRows`: the rows of a group;
  - `SeriesLookup`: the `find_series` scan.

Conventions of the model:

- **Store.** The ArchivesSpace database is a value `Store.Store` holding:
  - the archival objects and resources by id;
  - their scan orders;
  - the next id `create_from_json` hands out;
  - `rejects`, the ids whose updates the store refuses.
- **Hashes.** Ruby's insertion-ordered `Hash` is `OrderedHash.OrderedMap`:
  a key sequence plus a map. Assigning to an existing key keeps that key's
  position.
- **Truthiness.** Ruby's "only `nil` is false" is kept. An empty string
  passes the checks of lines 118 and 132.
- **Nil identifiers.** `parse_identifier(nil)` yields `nil` through the
  `rescue nil` modifier, so such a row is reported as "resource not found".

## Model

| member | source | states |
|---|---|---|
| Identifiers.FirstDigitRunIsLeftmost | backend/plugin_init.rb:79 | `/\d{1,}/` matches the whole digit run that starts at the first digit of the string |
| Identifiers.LinePrefixAtStart | backend/plugin_init.rb:78 | a string that begins with `AC` or `MC` has that prefix as its line-anchored prefix match |
| Identifiers.LinePrefixWithoutNewlines | backend/plugin_init.rb:78 | in a string without newlines, `^` holds only at the start, so no later `AC`/`MC` matches |
| Identifiers.DecimalOfValue | backend/plugin_init.rb:79 | `to_i.to_s` of a digit run is the run with its leading zeros stripped (a lone zero stays) |
| Identifiers.CanonicalRoundTrip | backend/plugin_init.rb:79 | `to_i.to_s` returns a canonical decimal unchanged |
| Identifiers.ParseIdentifier | backend/plugin_init.rb:77-82 | with both a prefix and a digit run the key is prefix + the run without leading zeros; without a prefix or without digits, the identifier is returned unchanged |
| Identifiers.ParseIdentifierIdempotent | backend/plugin_init.rb:77-82 | normalising a normalised identifier changes nothing, so index keys and row keys meet |
| Identifiers.PrefixedKey | backend/plugin_init.rb:77-82 | an `AC`/`MC` identifier ending in its digits normalises to the prefix + those digits without leading zeros |
| Identifiers.ParseIdentifierSpacedExample | backend/plugin_init.rb:77-82 | "AC 0123" normalises to "AC123" |
| Identifiers.ParseIdentifierPaddedExample | backend/plugin_init.rb:77-82 | "AC0123" normalises to "AC123" |
| Identifiers.ParseIdentifierPlainExample | backend/plugin_init.rb:77-82 | "AC123" is already a key |
| Records.BuildContainer | backend/plugin_init.rb:19-31 | a built instance is `mixed_materials` with a box container carrying the box, the barcode and no locations, and the line-209 test matches it for exactly its own box |
| Records.BuildSeries | backend/plugin_init.rb:34-41 | a series payload has component id "Series n.", level "series", title "ContainerImport n" and the resource reference, and for a label made of digits that component id's first digit run is the label again, so a later `find_series` finds it |
| Records.SeriesWordKeepsLabel | backend/plugin_init.rb:36 | the first digit run of "Series n." is n, for n made of digits |
| Records.ContainersAt | backend/plugin_init.rb:229-235 | the k-th new container is built from the k-th row's box and barcode |
| Records.AppendContainers | backend/plugin_init.rb:229-235 | the instances grow by one built container per row, in row order, after the old ones |
| Store.FindSeries | backend/plugin_init.rb:56-74 | the scan with `break` returns the specification lookup `SeriesLookup` |
| Store.SeriesLookupFirst | backend/plugin_init.rb:63-70 | the first top-level object, in scan order, whose digit run equals the label is the one found |
| Store.SeriesLookupNone | backend/plugin_init.rb:63-73 | nil is returned exactly when no scanned object matches |
| Store.SeriesLookupFound | backend/plugin_init.rb:63-70 | a found id was scanned and its object matches the label |
| Store.SeriesLabelIsText | backend/plugin_init.rb:65-66 | the label is compared with the digit run as text: "4" does not find "Series 04.", "04" does |
| Store.SeriesNeedsDigits | backend/plugin_init.rb:64-65 | an object with a nil component id, or one without digits, is never a match |
| Store.ChildIdsIn | backend/plugin_init.rb:46-50 | the filtered scan keeps exactly the ids whose object has the given parent, repository and root, without repeats when the scan has none, and any two of them in their scan order |
| Store.FindChildren | backend/plugin_init.rb:43-53 | the child ids are distinct stored objects other than the parent, an object is listed exactly when it is a child of that parent in that repository and resource, and the ids come in table scan order |
| Store.Store.CreateSeries | backend/plugin_init.rb:193 | `create_from_json` stores the new series under the next id, which no object had, appends it to the scan order, and keeps the store consistent |
| Store.JoinParts | backend/plugin_init.rb:89 | `join` of the identifier parts is empty exactly when every part is nil or empty, and the join of a single part is that part, with nil as "" |
| Store.JoinPartsAppend | backend/plugin_init.rb:89 | joining is concatenation: the join of two runs of parts is the join of the first followed by the join of the second |
| Store.ParsedResources | backend/plugin_init.rb:85-95 | the loop over the resource scan builds the index `IndexOf` of joined, normalised identifiers |
| Store.IndexLastWins | backend/plugin_init.rb:91 | for a key shared by several resources, the last one scanned is the one kept |
| Store.IndexCovers | backend/plugin_init.rb:88-91 | every resource's normalised identifier is a key of the index |
| Store.IndexKeyScanned | backend/plugin_init.rb:88-91 | every key of the index is some scanned resource's normalised identifier |
| Store.IndexResolves | backend/plugin_init.rb:91 | each index entry names a scanned resource and that resource's repository |
| Rows.StripNonDigits | backend/plugin_init.rb:103 | `gsub(/\D/, '')` keeps exactly the digits, each as often as it occurs; a one-character string is kept iff it is a digit |
| Rows.StripNonDigitsAppend | backend/plugin_init.rb:103 | the substitution works character by character: stripping a concatenation strips each part and concatenates the results, so the digits keep their positions' order |
| Rows.StripNonDigitsInOrder | backend/plugin_init.rb:103 | any two kept digits, compared as values, appear in the barcode in the same order |
| Rows.CleanBarcode | backend/plugin_init.rb:103 | a nil barcode stays nil; any other becomes `StripNonDigits` of it: a string made only of its digits, each digit as often as the barcode has it |
| Rows.ParsedKey | backend/plugin_init.rb:106 | a nil resource value parses to nil through `rescue nil`; any other parses to `parse_identifier` of it |
| Rows.StripNonDigitsKeepsDigits | backend/plugin_init.rb:103 | a digit-only barcode is unchanged |
| Rows.CleanBarcodeIdempotent | backend/plugin_init.rb:103 | cleaning a clean barcode changes nothing |
| Rows.CleanBarcodeExample | backend/plugin_init.rb:103 | "B-007" becomes "007" |
| Rows.Classify | backend/plugin_init.rb:103-126 | a row is skipped as "resource not found" iff its normalised resource is not an index key, skipped as "box and barcode required" iff it is a key but the box or barcode is nil, and otherwise accepted with its index entry and its cleaned barcode |
| Rows.StripNoDigits | backend/plugin_init.rb:103 | a barcode without digits cleans to "" |
| Rows.NoDigitBarcodePasses | backend/plugin_init.rb:103-118 | a barcode "N/A" cleans to "" and, being non-nil, passes the check |
| Rows.NilResourceNotFound | backend/plugin_init.rb:113-116 | a row without a resource value is skipped as not found |
| Grouping.Fetched | backend/plugin_init.rb:152-157 | the fetched children pair each child id, in scan order, with its stored object |
| Grouping.FetchChildren | backend/plugin_init.rb:150-158 | the loop fetches every child of the series, in scan order |
| Grouping.ExpectedGroupValid | backend/plugin_init.rb:133-162 | a group built the way lines 133-162 build it has a stored series exactly when it exists, distinct stored children whose parent is that series, and no children when the series is missing |
| Grouping.AddSeriesRow | backend/plugin_init.rb:132-162 | one more labelled row: the group is created on first sight, the series looked up while the group has no id, children fetched when it is found, and the row appended, so `series_groups` stays equal to its specification over the rows read so far |
| Grouping.AddResourceRow | backend/plugin_init.rb:163-170 | one more unlabelled row keeps `resource_groups` equal to its specification: the group is created on first sight and the row appended |
| Grouping.GroupAccepted | backend/plugin_init.rb:123-177 | an accepted row joins its series group or its resource group and caches its resource, keeping both group hashes and the cache equal to their specifications |
| Grouping.GroupRow | backend/plugin_init.rb:100-180 | one more row keeps both group hashes, the cache and the complaints equal to their specification over the rows read so far |
| Grouping.GroupRows | backend/plugin_init.rb:97-181 | after the CSV loop, the index is `parsed_resources`; each series group holds, in row order, the cleaned rows naming it, with its series looked up and its children fetched; each resource group holds its unlabelled rows; the group hashes are ordered by first occurrence; the cache holds every accepted row's resource; the complaints are the skipped rows with their 1-based numbers |
| Grouping.RowPlaced | backend/plugin_init.rb:113-176 | every row ends up somewhere: a skipped row has its complaint, a labelled row is in its series group, an unlabelled row is in its resource group, and an accepted row's resource is cached |
| Grouping.SeriesRowsSound | backend/plugin_init.rb:162 | every row of a series group is the cleaned form of a CSV row naming that resource and label |
| Grouping.ResourceRowsSound | backend/plugin_init.rb:169 | every row of a resource group is the cleaned form of an unlabelled CSV row naming that resource |
| Grouping.LabelsNeedTarget | backend/plugin_init.rb:133-134 | a resource that no labelled row names has no series groups |
| Grouping.RowsNeedLabel | backend/plugin_init.rb:133-162 | a label that no row of the resource carries has no rows |
| Grouping.ResourceRowsNeedTarget | backend/plugin_init.rb:165-169 | a resource that no unlabelled row names has no resource rows |
| SeriesImport.ApplyRow | backend/plugin_init.rb:208-210 | one row sets the barcode of exactly the box containers whose indicator is the row's box, leaving every other instance alone |
| SeriesImport.UpdateInstance | backend/plugin_init.rb:208-218 | one more instance of a child: a matching box container takes the row's barcode, and the child is written back, or a complaint logged if the store refuses it, so the state stays the specification over the instances seen |
| SeriesImport.UpdateChildren | backend/plugin_init.rb:205-220 | one row against every child: each child takes the row's barcode on its matching boxes; a child with the box is written back unless refused; nothing else changes; a hit is reported iff some child has the box; the complaints are `ChildFailures` |
| SeriesImport.UpdateForRow | backend/plugin_init.rb:200-221 | one more row of lines 200-221 keeps the children, the store, `data_updated_child` and the complaints equal to their specification over the rows seen |
| SeriesImport.ApplyRowsKeepsMatching | backend/plugin_init.rb:209-210 | setting barcodes never changes which box an instance matches |
| SeriesImport.LastMatchingRow | backend/plugin_init.rb:200-210 | the row whose barcode an instance keeps is one of the group's rows, matches its box, and no later row matches; there is none exactly when no row matches |
| SeriesImport.LastRowWins | backend/plugin_init.rb:200-210 | after all rows, each child instance holds the barcode of the last row naming its box, or is unchanged when none does |
| SeriesImport.ApplyRowWithoutMatch | backend/plugin_init.rb:208-209 | a row whose box no instance has leaves the child unchanged |
| SeriesImport.InstanceFailuresByMatching | backend/plugin_init.rb:214-215 | the complaints of a refused child depend only on which of its instances match the box |
| SeriesImport.UpdateChildAt | backend/plugin_init.rb:206-219 | one more child of the loop over `children` for one row: the children, the store, the hit flag and the complaints stay equal to their specification over the children seen |
| SeriesImport.UpdateChildBarcodes | backend/plugin_init.rb:206-219 | for one row and one child, the matching instances take the barcode; the child is written back iff it has the box and the store accepts it; a refused child yields one complaint per matching instance |
| SeriesImport.UpdateMatchingBoxes | backend/plugin_init.rb:199-222 | after all rows and children, each child carries `ApplyRows` of the rows; it was written back iff some row touched it and the store accepts it; nothing else changed; `data_updated_child` holds exactly the rows some child matched; the complaints are `FailedUpdates` |
| SeriesImport.RemainingSpec | backend/plugin_init.rb:223-226 | the rows left after line 223 are exactly the rows whose box no child has |
| SeriesImport.WithoutMatched | backend/plugin_init.rb:223 | deleting every matched row leaves `Remaining` |
| SeriesImport.Delete | backend/plugin_init.rb:223 | `Array#delete` keeps exactly the elements not equal to the deleted one; a one-element array loses its element iff it is equal |
| SeriesImport.DeleteAppend | backend/plugin_init.rb:223 | `Array#delete` works element by element: on a concatenation it deletes from each part, so the kept elements keep their order and their copies |
| SeriesImport.DeleteWithout | backend/plugin_init.rb:223 | one more `Array#delete` removes every copy of that row |
| SeriesImport.NoChildren | backend/plugin_init.rb:199 | a group without children keeps all its rows and logs nothing |
| SeriesImport.RemoveMatched | backend/plugin_init.rb:223 | the delete loop leaves the rows equal to no matched row, in order |
| SeriesImport.MatchAndRemove | backend/plugin_init.rb:199-223 | the child updates followed by the delete leave `Remaining` rows, write back the touched children, and change no parent links |
| SeriesImport.ChildWritesKeepValid | backend/plugin_init.rb:212 | writing back children of a valid group keeps the store consistent |
| SeriesImport.WriteChildren | backend/plugin_init.rb:199-223 | lines 199-223 on a valid group keep the store valid and have the effects `MatchAndRemove` states |
| SeriesImport.EnsureSeries | backend/plugin_init.rb:191-196 | a missing series is created under the resource with the next id; an existing one is used as is; no other object changes |
| SeriesImport.AddSeriesContainers | backend/plugin_init.rb:226-237 | the series gets one new box container per remaining row after its old instances, in a single update that changes nothing else; no rows means no change |
| SeriesImport.UpdateSeries | backend/plugin_init.rb:199-237 | on a series present in the store: children updated as `UpdateMatchingBoxes` states, the series extended by the remaining rows, and every other object unchanged |
| SeriesImport.ImportSeriesGroup | backend/plugin_init.rb:186-240 | one series group: the series exists afterwards (new with the next id iff it was missing), the children carry the last matching row's barcode and are written back unless refused, the unmatched rows are appended to the series, the rest of the store is unchanged, and the complaints are exactly the refused updates |
| Importer.ImportOne | backend/plugin_init.rb:186-240 | one series group: the store only grows; the series is the found one or a new object with the next id; the series carries the unmatched rows as new box containers; each touched, accepted child carries the rows' barcodes and the others are as before; no object other than the series and the children changes; the complaints are the refused updates |
| Importer.ImportedRebase | backend/plugin_init.rb:186-240 | a group imported into a store that still held its series and children as the start store did counts as imported from the start store |
| Importer.ImportedKept | backend/plugin_init.rb:185-241 | importing a group that shares no series or child with an imported group keeps that group's import |
| Importer.UntouchedKept | backend/plugin_init.rb:185-241 | importing a group that shares no series or child with a pending group leaves the pending group's objects as they were |
| Importer.ImportInnerStep | backend/plugin_init.rb:186-240 | one more label of a resource: the groups before it stay imported, the ones after stay untouched, and the complaints grow by its refused updates |
| Importer.ImportInner | backend/plugin_init.rb:186-240 | all series groups of one resource in label order: every group ends imported as if imported alone from the start store, no object outside their series and children changes, the only new objects are the series created for groups whose series was missing, and the complaints are theirs in order |
| Importer.InnerCreatedStep | backend/plugin_init.rb:191-196 | importing one more group adds at most its own series, and only when that series was missing |
| Importer.ImportOuterStep | backend/plugin_init.rb:185-241 | one more resource of `series_groups`: its groups are imported, later resources' groups stay untouched |
| Importer.ImportSeriesGroups | backend/plugin_init.rb:185-241 | all series groups: the store only grows and stays valid, resources are untouched, every group is imported as if alone from the start store, no other archival object changes, every new object is the series created for a group whose series was missing, and the complaints are the refused updates in hash order |
| Importer.CreatedStep | backend/plugin_init.rb:185-241 | importing one more resource's groups adds only series created for its own groups whose series was missing |
| Importer.GroupValidGrows | backend/plugin_init.rb:185-241 | a group stays importable while the store only grows |
| Importer.GrowsTrans | backend/plugin_init.rb:185-241 | growth of the store across groups composes |
| Importer.ImportResourceGroup | backend/plugin_init.rb:246-257 | one resource group: the resource, taken from the cache when cached, gets one new box container per row in a single update; a cached model is the object that changed, so the cache holds the new value; nothing else changes |
| Importer.ImportResourceStep | backend/plugin_init.rb:245-260 | one more resource group: the groups before it have their containers, the ones after are unchanged, and so are all other resources and cache entries |
| Importer.ImportResourceGroups | backend/plugin_init.rb:245-260 | every grouped resource gets its rows' containers; every other resource and cache entry is unchanged |
| Importer.ExpectedGroupFacts | backend/plugin_init.rb:145-158 | a found series is a top-level object of the resource whose digit run is the label, and each fetched child is a stored object whose parent is that series |
| Importer.ExpectedGroupsSeparate | backend/plugin_init.rb:133-162 | groups for different resources or labels share no series and no child |
| Importer.GroupedAreSeparate | backend/plugin_init.rb:133-162 | any two groups `series_groups` holds under different keys share no series and no child |
| Importer.GroupedIsReady | backend/plugin_init.rb:133-162 | the groups pass 1 leaves are valid and pairwise separate, so pass 2 can import them one by one |
| Importer.UntouchedResource | backend/plugin_init.rb:165-169 | a resource without unlabelled rows keeps its instances |
| Importer.LabelGrouped | backend/plugin_init.rb:132-162 | `series_groups` holds a group for a resource and label exactly when some accepted row carries them, and that group is the one pass 1 builds |
| Importer.LabelledImported | backend/plugin_init.rb:97-241 | after pass 2's series loop, every labelled group is imported and every other archival object is as it was, stated in terms of the CSV rows |
| Importer.CreatedIdIsNew | backend/plugin_init.rb:191-196 | the id recorded for a group whose series was missing is an object the start store lacked and the series loop added |
| Importer.CreatedIdsCover | backend/plugin_init.rb:185-241 | every object the series loop added is the id recorded for some group whose series was missing |
| Importer.CreatedIdsFresh | backend/plugin_init.rb:185-241 | every id recorded for a group whose series was missing is an object the series loop added |
| Importer.CreatedIds | backend/plugin_init.rb:185-241 | the objects the series loop adds are exactly the ids recorded for the groups whose series was missing |
| Importer.GroupCreated | backend/plugin_init.rb:191-240 | a group whose series was missing has a recorded id, and the object under it carries the group's import |
| Importer.LabelledGroupCreated | backend/plugin_init.rb:97-241 | a labelled group whose series was missing, as pass 1 builds it from the CSV rows, has a recorded id carrying its import |
| Importer.LabelledCreated | backend/plugin_init.rb:97-241 | after pass 2's series loop, the map `created` holds exactly the labelled groups whose series was missing, each with a series carrying its import, and the objects the start store lacked are exactly its ids |
| Importer.CreatedDistinct | backend/plugin_init.rb:191-196 | no two groups share a created series: each carries its own label in its component id and its own resource as its root |
| Records.SeriesWordInjective | backend/plugin_init.rb:36 | "Series n." determines n, so different labels give different component ids |
| Importer.RunImport | backend/plugin_init.rb:97-260 | pass 1 followed by pass 2: the store stays valid; every labelled group is imported, with its series extended by the unmatched rows and its touched, accepted children carrying the barcodes; no other archival object changes or is lost; each labelled group whose series was missing gets exactly one new series, its own, carrying its import, and those are the only new archival objects; every resource ends with its old instances followed by one box container per unlabelled row naming it, in CSV order; the complaints begin with the skipped rows |
| OrderedHash.OrderedMap.Put | backend/plugin_init.rb:133 | `Hash#[]=` maps the key to the new value, appends a new key at the end of the key order and keeps an existing key in its place |
| OrderedHash.PutKeys | backend/plugin_init.rb:133-143 | inserting into a Ruby hash keeps its keys in order of first insertion |

## Left out

- Reporting is not modelled. This covers `Reporter` and every
  `reporter.report` message, timestamps and the `/tmp/aspace` paths.
  Complaints are modelled as values. The report messages carry no
  decision.
- `CSV.foreach` and `JSON.parse` are not modelled. Rows are given as values,
  and a resource identifier as its list of parts, which `join` concatenates
  with nil parts as "".
- `DB.open`, `RequestContext`, `JSONModel` validation and the
  `get_or_die`/`to_jsonmodel`/`create_from_json`/`update_from_json` calls are
  foreign framework calls. They become reads and writes of the `Store`
  value.
- Whether a child update succeeds is decided by the store. `Store.rejects`
  is a fixed set of ids standing in for that. A store that refuses one
  write of a child and accepts another is not modelled.
- The `lock_version` conflicts that repeated updates of the same fetched
  child could cause are not modelled.
- An uncaught failure is not modelled. When the series creation, the
  series update or the resource update fails, the script aborts; the
  model lets every such write succeed.
- `location` and `coordinate` are fields of `Records.Row`. Nothing reads
  them except the row equality `Array#delete` uses at line 223, and the
  model keeps that equality. `group[:resource]` only feeds report messages
  and is not modelled.
- `data_updated_child` gets one entry per matching instance of every child,
  so the same row can appear several times. The model keeps one entry per
  row. Because `Array#delete` removes every equal row, the rows left after
  line 223 are the same.
- The host decides when the `loaded_hook` callback runs relative to the
  top-level pass-2 code. If the host runs the callback after that code,
  pass 2 finds empty group hashes and imports nothing. `Importer.RunImport`
  composes the passes in the order the program evidently intends: grouping
  first, then both pass-2 loops.
- Importer.RunImport: only the skipped-row complaints are pinned down, as a
  prefix of the complaint list. The refused-update complaints that follow
  are stated in full by `Importer.ImportSeriesGroups`.
- The list builders append to a new sequence. The in-place `<<` on the cached Ruby object is modelled by
  writing the new value back to the store and, for resources, to the
  cache.

## Barcodes without digits

A barcode without any digits is not treated as missing:
- line 103 turns "N/A" into "";
- Ruby treats "" as true, so the check of line 118 lets the row through;
- the row is then imported with an empty barcode.

The model follows the code, and `Rows.NoDigitBarcodePasses` states this
behaviour.
