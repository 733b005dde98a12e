# dynamic-docker-compose: the `DockerComposeFile` document, modelled in Dafny

`DockerComposeFile` holds one merged YAML value, `yamlObject`. Its constructor and
`add` fold sources into that value left to right with deepmerge. A source is another
document, a path (any string containing `.yml`), or literal YAML text. Lists are
merged by concatenating target then source and keeping the first occurrence of each
element. `mapTemplate` expands the document's YAML text into one new document per
index of the substitution lists. The repository ships the class twice, as CommonJS
(`src/DockerComposeFile.js`) and as ESM (`src/DockerComposeFile.mjs`). This project
models the two once and notes where they differ.

Modules, one file each:

- `values.dfy` (`Values`): the YAML value (`Undefined`, scalar, sequence, mapping),
  plus `Error`, `Option` and `Result`.
- `array_merge.dfy` (`ArrayMerge`): the `arrayMerge` callback with `onlyUnique`,
  `indexOf` and deepmerge's clone, which runs the callback on every nested list.
  JavaScript's `===` compares scalars by value. A mapping or a sequence element is a
  separate object and is identical only to itself, so only scalars are de-duplicated.
- `deep_merge.dfy` (`DeepMerge`): the deepmerge call, following the object policy of
  deepmerge 4.
- `text.dfy` (`Text`): the string built-ins the class uses. These are `includes`,
  `trim` (with the full JavaScript white-space set) and `replaceAll`. For
  `replaceAll`, the `$$`, `$&`, `` $` `` and `$'` patterns of the replacement string
  are modelled as ECMAScript defines them for a string pattern.
- `template.dfy` (`Template`): the loop of `mapTemplate`, written as a method with
  loop invariants. It is proved against a per-slot specification, `Slot`.
- `compose_file.dfy` (`ComposeFile`): source dispatch, the fold of `add`, and the
  class `DockerComposeFile`.

The class and its differences between the two files:

- `MergeValue` is the ESM `yaml` setter. It merges an already-parsed value.
- `AssignYaml` is the CommonJS `yaml` setter. It forwards one source to `Add`.
- `Add` returns the new `yaml` text, as the CommonJS file does. The ESM file returns
  nothing.
- Both files merge each source in the same way. The ESM file does it through its setter.

Behaviour worth knowing, as the code has it:

- `mapTemplate` gives one output per index of the longest substitution list. Slot
  `i` gets only the pairs whose list is longer than `i`. Its doc comment
  (src/DockerComposeFile.js:78) says it "Only operates with arrays of substitutions
  of the same length", and line 97 leaves unequal lengths as a `@todo`.
- The pairs are popped off the argument list, so the last pair is applied first.
  The order can matter when a value itself contains a placeholder.
- `add` treats a string as a path whenever it contains `.yml`, at any position.
- A document given to `add` contributes its `yaml` text: the dumped and trimmed
  value, which is then parsed again.
- Every value that deepmerge copies is cloned, and the clone of a list runs the
  `arrayMerge` callback on it. So a document built from `a: [x, x]` holds
  `a: [x]`: repeated scalars disappear from every list at every level, not only
  from lists that are merged with another list.

`mapTemplate` wraps each expanded text with the constructor. So an expanded text that
contains `.yml` anywhere (a volume such as `./a.yml:/a.yml`) is read as a file path,
not parsed as YAML. `MapTemplate` models this as written: each output goes through
`StringValue`, the same dispatch as any string argument.

Modelling assumptions, stated explicitly:

- js-yaml `load` and `dump` (with `sortKeys: true`) and `fs.readFileSync` are
  function-valued fields of the parameter `Env`. Their code is not part of this model.
  A throwing call is `None`.
- The round trip `load(trim(dump(v))) == v` is the predicate `RoundTrips`. Only the
  lemmas that need it require it.
- Mappings are Dafny maps, which have no key order. This matches `dump` with sorted
  keys: equal values give identical text.

## Model

| member | source | states |
|---|---|---|
| ArrayMerge.IndexOf | src/DockerComposeFile.js:44 | `self.indexOf(value)` is the first position identical (`===`) to the element, and no earlier position is identical to it |
| ArrayMerge.OnlyUnique | src/DockerComposeFile.js:43-45 | definition: `onlyUnique(value, index, self)` is `self.indexOf(value) === index` |
| ArrayMerge.OnlyUniqueIff | src/DockerComposeFile.js:43-45 | `onlyUnique` drops an element exactly when it is a scalar that already occurred earlier |
| ArrayMerge.Filtered | src/DockerComposeFile.js:47 | `filter(onlyUnique)` keeps only elements of the list it filters |
| ArrayMerge.MergeArrays | src/DockerComposeFile.js:47-49 | definition: the callback concatenates target and source, filters with `onlyUnique` and clones every kept element |
| ArrayMerge.Clone | src/DockerComposeFile.js:48 | `cloneUnlessOtherwiseSpecified` keeps the kind of a value, returns a scalar or `undefined` as it is, and keeps a mapping's keys |
| ArrayMerge.CloneOfList | src/DockerComposeFile.js:48 | a list is cloned by merging it into an empty list through this same callback |
| ArrayMerge.CloneDeduped | src/DockerComposeFile.js:47-48 | a clone repeats no scalar in any list at any level |
| ArrayMerge.CloneFixedIff | src/DockerComposeFile.js:47-48 | cloning leaves a value unchanged exactly when no list in it repeats a scalar |
| ArrayMerge.CloneIdempotent | src/DockerComposeFile.js:48 | cloning a clone changes nothing |
| ArrayMerge.MergeArraysOrder | src/DockerComposeFile.js:47-48 | the merged list is `target ++ source` read at strictly increasing positions and cloned; those positions are exactly the ones that do not repeat an earlier scalar, so first-occurrence order is kept |
| ArrayMerge.MergeArraysElements | src/DockerComposeFile.js:42-50 | the merged list repeats no scalar and each element repeats none inside it; its scalars are exactly those of target and source; every element given has its clone in the result |
| ArrayMerge.MergeArraysNoGrowth | src/DockerComposeFile.js:47 | merging a list free of repeated scalars at every level with scalars it already contains returns it unchanged |
| ArrayMerge.MergeArraysSelf | src/DockerComposeFile.mjs:43 | a duplicate-free scalar list merged with itself is unchanged |
| ArrayMerge.MergeArraysIdempotent | src/DockerComposeFile.mjs:38-46 | merging the same scalar list in a second time changes nothing |
| ArrayMerge.MergeArraysUpToClone | src/DockerComposeFile.js:47-48 | cloning the target list or the source list before the merge makes no difference |
| DeepMerge.Merge | src/DockerComposeFile.js:41-51 | two mappings give the union of their keys; a key on one side only holds a clone of its value; a list merged into a non-list, or a mapping into a non-mapping, gives a clone of the source; an incoming scalar wins |
| DeepMerge.MergeDeduped | src/DockerComposeFile.js:41-51 | whatever the two values, the merge repeats no scalar in any list at any level |
| DeepMerge.MergeSelf | src/DockerComposeFile.js:41-51 | a value whose lists are duplicate-free scalar lists is unchanged by merging it with itself |
| DeepMerge.CloneFlat | src/DockerComposeFile.js:48 | a value whose lists are duplicate-free scalar lists is its own clone |
| DeepMerge.MergeIdempotent | src/DockerComposeFile.mjs:37-47 | merging the same flat source a second time changes nothing |
| DeepMerge.MergeUpToClone | src/DockerComposeFile.js:41-51 | cloning the target or the source before merging makes no difference |
| DeepMerge.CloneDropsRepeats | src/DockerComposeFile.js:48 | a new document built from `a: [x, x]` holds `a: [x]` |
| DeepMerge.MergeDisjointCommutes | src/DockerComposeFile.js:41-51 | two mapping sources with no key in common can be merged in either order |
| Text.Contains | src/DockerComposeFile.js:37 | definition: `includes` is `indexOf` from position 0 finding a match |
| Text.ContainsIff | src/DockerComposeFile.js:37 | `includes` holds exactly when the pattern occurs at some position |
| Text.IndexOfFrom | src/DockerComposeFile.js:37 | `indexOf` returns the first match at or after the start position, or none when there is no match |
| Text.SkipSpace | src/DockerComposeFile.js:38 | the leading white space ends at the first position that is not white space |
| Text.SkipSpaceBack | src/DockerComposeFile.js:38 | the trailing white space starts just after the last position that is not white space |
| Text.Trim | src/DockerComposeFile.js:38 | `trim` keeps one slice of the string: only white space lies outside it, and it neither starts nor ends with white space |
| Text.TrimUnique | src/DockerComposeFile.js:38 | any slice with only white space around it and none at its ends is the one `trim` returns |
| Text.Expand | src/DockerComposeFile.js:108 | definition: the replacement string with its `$$`, `$&`, `` $` `` and `$'` patterns expanded for one match |
| Text.ExpandPlain | src/DockerComposeFile.js:108 | a replacement string with no `$` pattern is inserted as it is |
| Text.ReplaceFrom | src/DockerComposeFile.js:108 | definition: `replaceAll` from a position: each match, searched left to right without overlap, is replaced by its expansion |
| Text.ReplaceAll | src/DockerComposeFile.js:108 | definition: `replaceAll` from the start of the string |
| Text.SplitPiecesClean | src/DockerComposeFile.js:108 | the pieces between the matches `replaceAll` finds contain no occurrence of the placeholder |
| Text.SplitJoin | src/DockerComposeFile.js:108 | those pieces joined with the placeholder give back the whole string |
| Text.ReplacePlain | src/DockerComposeFile.js:108 | with a plain replacement, `replaceAll` replaces every match by the replacement itself and changes nothing else |
| Text.ReplaceAbsent | src/DockerComposeFile.js:108 | a placeholder that does not occur leaves the text unchanged |
| Template.Token | src/DockerComposeFile.js:108 | the searched placeholder is `${`, then the name, then `}` |
| Template.Step | src/DockerComposeFile.js:104-108 | definition: slot `i` of one pair is the text with the placeholder replaced by the pair's `i`-th value, when the pair has one |
| Template.Slot | src/DockerComposeFile.js:102-108 | definition: the text of slot `i` after all pairs, the last pair applied first |
| Template.Longest | src/DockerComposeFile.js:104 | the longest value list: no list is longer, some list reaches it, and it is 0 when there are no pairs |
| Template.SlotBeyond | src/DockerComposeFile.js:105-107 | a slot that no list reaches holds the bare template |
| Template.ExpandTemplate | src/DockerComposeFile.js:99-110 | the loop yields one text per index of the longest list, and text `i` is `Slot(template, pairs, i)`; no pairs give no texts |
| Template.ApplyPair | src/DockerComposeFile.js:104-109 | one pass of the inner loop: the list grows to the longer of itself and the value list, slot `j` gets pair `j` applied, and a new slot starts from the template |
| Template.SlotLastFirst | src/DockerComposeFile.js:103 | the last pair given is applied to the template first |
| Template.SlotUsesReachingPairs | src/DockerComposeFile.js:104-108 | slot `i` is substituted by exactly the pairs whose list is longer than `i` |
| Template.ExpandUniform | src/DockerComposeFile.js:78-95 | with lists of one length `n`, there are `n` outputs and output `i` has every placeholder replaced by its `i`-th value |
| Template.SlotAbsentPlaceholder | src/DockerComposeFile.js:108 | a pair whose placeholder is not in the template changes nothing |
| ComposeFile.Dispatch | src/DockerComposeFile.js:35-39 | a document instance is a document source; a string is a path exactly when `.yml` occurs in it, and otherwise YAML text |
| ComposeFile.SourceText | src/DockerComposeFile.js:35-39 | definition: a document gives its `yaml`, a path the trimmed contents of its file or a read failure, and text itself |
| ComposeFile.Incoming | src/DockerComposeFile.js:35-41 | definition: the source's text parsed by `yaml.load`, or the error reading or parsing it |
| ComposeFile.Fold | src/DockerComposeFile.js:32-51 | definition: each source's value is merged into the document strictly left to right; the first failing source stops the loop and what was merged before it stays |
| ComposeFile.DocumentValue | src/DockerComposeFile.js:22-24 | a document built from one string holds that string's value, cloned, or fails as the string does |
| ComposeFile.BuildAll | src/DockerComposeFile.js:111 | wrapping texts as documents succeeds exactly when every text gives a value, with the value each document then holds, and otherwise fails with the error of some text |
| ComposeFile.DockerComposeFile.Empty | src/DockerComposeFile.mjs:11-13 | a document built from no sources holds the undefined value |
| ComposeFile.DockerComposeFile.New | src/DockerComposeFile.js:22-24 | the constructor gives a fresh document holding the left fold of merge over its sources, or the error of the first failing source |
| ComposeFile.DockerComposeFile.Yaml | src/DockerComposeFile.js:64-66 | the `yaml` getter text neither starts nor ends with white space |
| ComposeFile.DockerComposeFile.MergeValue | src/DockerComposeFile.mjs:36-48 | the ESM setter merges the given value into `yamlObject` and does not overwrite it |
| ComposeFile.DockerComposeFile.Add | src/DockerComposeFile.js:31-54 | `add` leaves `yamlObject` equal to the left fold of merge over its sources, each read when the loop reaches it, stopping at the first failure; on success it returns the new `yaml` |
| ComposeFile.DockerComposeFile.AssignYaml | src/DockerComposeFile.js:60-62 | the CommonJS setter is `add` with one source |
| ComposeFile.DockerComposeFile.MapTemplate | src/DockerComposeFile.js:99-112 | `mapTemplate` returns one fresh document per index of the longest list, each holding the value of its expanded text dispatched like a constructor argument, or the first error; the template document is not modified |
| ComposeFile.DockerComposeFile.WrapAll | src/DockerComposeFile.js:111 | wrapping the texts yields one fresh document per text holding that text's cloned value, or the first text's error |
| ComposeFile.DockerComposeFile.FromString | src/DockerComposeFile.js:22-24 | `new DockerComposeFile(s)` for one string succeeds exactly when the string yields a value, and then holds that value cloned |
| ComposeFile.IncomingIgnoresCurrent | src/DockerComposeFile.js:35-39 | a source other than the document itself contributes the same value whatever was merged so far |
| ComposeFile.FoldAppend | src/DockerComposeFile.js:32-52 | adding `a` then `b` in one call is adding `a` and then `b`, unless `a` fails; adding nothing changes nothing |
| ComposeFile.NewFromOneSource | src/DockerComposeFile.js:22-24 | a document built from one source holds that source's value cloned, so with its repeated scalars removed at every level, or the source's error |
| ComposeFile.DocumentsStandForSources | test/DockerComposeFile.test.js:39-43 | given the round trip, merging documents built one per source equals merging the sources |
| ComposeFile.AddItself | src/DockerComposeFile.js:35-36 | given the round trip, adding a flat document to itself leaves it unchanged |
| ComposeFile.AddTwice | src/DockerComposeFile.js:41-51 | adding the same flat source twice equals adding it once |
| ComposeFile.AddDisjointInEitherOrder | src/DockerComposeFile.js:41-51 | two mapping sources with disjoint keys can be added in either order |
| ComposeFile.FoldKeepsDeduped | src/DockerComposeFile.js:41-51 | a document free of repeated scalars stays free of them through `add`, whatever the sources |
| ComposeFile.PathMatchesInlineText | src/DockerComposeFile.js:37-38 | a path and the inline trimmed contents of its file give the same value |

## Left out

- `write(path)` and `fs.writeFileSync`: file output only, with no logic to model.
- js-yaml `load` and `dump`: their code is not part of this model. They are parameters,
  and the round trip is an explicit assumption (`RoundTrips`), not a proved fact.
- deepmerge internals: its code is not part of this model. `Merge` and `Clone` follow
  the object policy of deepmerge 4 (`mergeObject`, `cloneUnlessOtherwiseSpecified`,
  and `deepmerge([], v)` as the clone of a list).
- DeepMerge.Merge: a non-mapping source at the top level gives the source itself.
  The library would instead spread a top-level string into an object keyed by
  character positions, or throw on an undefined source. The keys `__proto__` and
  `constructor`, which deepmerge skips, are not treated specially.
- `cloneUnlessOtherwiseSpecified`: object identity is not modelled. A clone is a new
  object in JavaScript; here it is an equal value, and what cloning changes (lists
  losing repeated scalars) is modelled by `Clone`.
- Scalars are one kind holding text. The model does not capture the difference between
  numbers and strings under `===`, `NaN` (which `indexOf` never finds), or YAML
  anchors that put one object twice in a list.
- Exceptions become `Result`/`Option` values. An `undefined` or `null` argument
  (`composeFile?.includes`) is not modelled.
- Non-string substitution values, which `replaceAll` would convert to strings, are
  not modelled. The `$<` pattern and `$n` patterns are literal here, as they are for
  a string search pattern.
- The unused `SIGUNUSED` import of the ESM file, and the test assertions that depend
  on fixture files. The fixtures are not part of this model.
