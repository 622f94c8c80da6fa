# Game build steps: SVG layer splitting, per-file dispatch, favicon and HTML generation

This project models three steps of a game engine's incremental build in Dafny and
proves properties of them.

- **The SVG transformer** (`build/svg.ts`) does the following:
  - checks the parsed document's shape;
  - keeps the root's relevant children;
  - decides whether the file was drawn in Inkscape;
  - splits such a file into one document per layer, where each document holds the shared `defs` and that layer;
  - names each output after the layer's label, using the slash-suffix rule;
  - escapes every attribute value;
  - returns one `engineSvg` artifact per output name.
- **The per-file dispatch** (`build/file.ts`) handles three events for a source file: it is created, updated or deleted.
  - Deletion removes the file's temporary directory.
  - Creation makes that directory. It then runs the transformer registered for the file's extension (`svg` or `wav`) and writes the serialised result to the file's cache path.
  - For an unknown extension, creation warns and writes `{}`.
  - An update is a deletion followed by a creation.
- **The favicon and HTML step** (`build/generateHtml.ts`) first decides whether anything must be regenerated.
  - If so, it asks the favicon generator for the icon sets the build mode selects.
  - It writes every generated file, crushing PNGs in a one-off build, and counts the compressions and the writes.
  - Last, it writes `index.html`: the page shell around the title, the generator's head fragments and the body, minified in a one-off build.

Several things are parameters of the model, i.e. functions it receives rather than defines:
- the XML parser and serialiser, the SVG optimiser, the favicon generator, the PNG test, the PNG crusher and the HTML minifier;
- `path.join`, the build's path scheme and `JSON.stringify`.

The file system is a value: a set of directories and a map from paths to contents. In `build/file.ts` it is the field of a class whose methods change it. In `build/generateHtml.ts`, the destination directory is a class holding a file map and a log of writes.

Files:
- `common.dfy`: option and result types, an order-keeping filter, and overlaying a sequence of writes on a map.
- `svg_tree.dfy`: the element tree, `coerceToString`, attribute escaping and its inverse.
- `svg_layers.dfy`: validation, classification, naming and splitting.
- `svg_transform.dfy`: the output loop. It comes in two versions, as written and with both findings corrected, and the file includes the counterexample.
- `file_dispatch.dfy`: the per-file dispatch.
- `html_generation.dfy`: the favicon and HTML step.

## Model

| member | source | states |
|---|---|---|
| Common.Filter | build/svg.ts:121-127 | the result holds only elements of the input that pass the predicate, and every input element that passes |
| Common.FilterAppend | build/svg.ts:121-127 | filtering a concatenation is the concatenation of the filtered parts, so the kept elements stay in document order |
| Common.FilterFilter | build/svg.ts:121-125 | filtering by one predicate and then by another is filtering once by both |
| Common.DisjointFiltersCover | build/svg.ts:126-128 | for disjoint predicates the two kept counts add up to at most the length, and to exactly the length iff every element passes one of them |
| Common.OverlayLastWins | build/svg.ts:224-227 | after a sequence of key assignments a key is present iff it was present before or was assigned; the last assignment to it wins, and an unassigned key keeps its value |
| SvgTree.NatDigits | build/svg.ts:239 | a natural number renders as a non-empty string of decimal digits without a leading zero |
| SvgTree.DecimalRoundTrip | build/svg.ts:239 | a number's decimal rendering reads back as that number |
| SvgTree.CoerceToString | build/svg.ts:233-241 | undefined gives the empty string; a string is kept; a number gives a non-empty text that starts with `-` exactly when the number is negative; the result is empty only for undefined or the empty string |
| SvgTree.CoerceNumberRoundTrip | build/svg.ts:239 | the string form of a number attribute reads back as that number |
| SvgTree.EscapeChar | build/svg.ts:205-210 | each of `& < > " '` becomes its predefined entity (the result starts with `&` exactly for those five); no result contains a raw markup character |
| SvgTree.EscapeText | build/svg.ts:205-210 | escaping every occurrence leaves no raw `< > " '` in the value |
| SvgTree.UnescapeEscape | build/svg.ts:205-210 | decoding the entities after escaping every occurrence gives back the original value |
| SvgTree.IndexOf | build/svg.ts:206 | the position of the first occurrence of the character, or the length when it does not occur |
| SvgTree.ReplaceFirst | build/svg.ts:206 | a string `replace` leaves a string without the character unchanged, and otherwise replaces exactly its first occurrence |
| SvgTree.EscapeFirstOnly | build/svg.ts:205-210 | the chain as written, one first-occurrence `replace` per special character (each step as `ReplaceFirst` states): a value without special characters is kept, and the result is at most 19 characters longer than the value |
| SvgTree.FirstOnlyLeavesMarkup | build/svg.ts:205-210 | the chain as written turns `<<` into `&lt;<`, whose last character is still a raw `<` |
| SvgTree.EscapeEveryLt | build/svg.ts:205-210 | escaping every occurrence turns `<<` into `&lt;&lt;`, which decodes back to `<<` |
| SvgTree.EscapeTree | build/svg.ts:202-216 | every attribute value of the node becomes the escaped text of its coerced value, and every child is escaped the same way in turn; the keys, kind, name, text and number of children are kept |
| SvgTree.EscapeTreeEscapes | build/svg.ts:202-216 | after full escaping, every attribute of the node and of every descendant is a string without raw markup characters |
| SvgTree.UnescapeEscapeTree | build/svg.ts:202-216 | decoding a fully escaped tree gives the original tree with every attribute value coerced to a string |
| SvgLayers.FindRoot | build/svg.ts:112-114 | the index of the first child that is an element named `svg`, or none iff no child is one |
| SvgLayers.Validate | build/svg.ts:109-120 | fails with "no elements" iff the document has none; with "no root element" iff no child is an `svg` element; with "root has no elements" iff that root has none; otherwise yields the root and its children |
| SvgLayers.ConsideredChildren | build/svg.ts:121-125 | the chain of the three filters equals one filter by all three conditions; it keeps exactly the children passing them, and in document order |
| SvgLayers.InkscapeIffDefsOrLayers | build/svg.ts:126-128 | the count test holds iff every considered child is a `defs` or a `g` whose `inkscape:groupmode` is `layer` |
| SvgLayers.Label | build/svg.ts:160 | a layer without an `inkscape:label` attribute gets the empty label |
| SvgLayers.LabelSuffixRule | build/svg.ts:163-171 | the suffix is `//` iff the label ends in `/` and is `/` alone or has a slash or backslash before it; it is `/\` likewise for a final `\`; otherwise there is none |
| SvgLayers.WithoutStyle | build/svg.ts:143-144 | the layer loses its `style` attribute and nothing else: every other attribute and every other field is kept |
| SvgLayers.SplitEach | build/svg.ts:135-177 | the loop pushes one output per layer, in layer order, named by the suffix rule and holding the shared elements and that layer |
| SvgLayers.SplitLayers | build/svg.ts:129-188 | the outputs are exactly those of `EffectiveLayers`: one per layer when split, the file itself otherwise |
| SvgLayers.EffectiveLayersShape | build/svg.ts:133-188 | unsplit: one output, named after the file, holding the whole document; split: one output per layer in order, named by the suffix rule, each a copy of the document that differs only in the root's children, which are the shared `defs` followed by that layer without `style`; the document node, the root's other fields and the root's siblings are kept |
| SvgTransform.LayerArtifact | build/svg.ts:218-227 | an artifact has code `engineSvg` and as data the serialised children of the optimiser's parsed output after escaping; it fails, with the "should never happen" error, iff that output has no elements |
| SvgTransform.CollectKeepsError | build/svg.ts:197-228 | once a layer has failed, the later layers change nothing |
| SvgTransform.CollectIsOverlay | build/svg.ts:197-228 | the loop succeeds iff every layer's artifact does, and then yields the name/artifact assignments applied in order |
| SvgTransform.CollectEntry | build/svg.ts:224-227 | a name is a key iff some layer has it; its artifact, with code `engineSvg`, is that of the last layer with that name |
| SvgTransform.SerialiserInputsDecode | build/svg.ts:197-216 | with each document escaped once, what each serialiser receives decodes back to that layer's document |
| SvgTransform.Generate | build/svg.ts:197-228 | corrected (see ## Findings): with each layer's document escaped once and every occurrence escaped, the loop returns the result of collecting the layers in order |
| SvgTransform.Transform | build/svg.ts:92-231 | corrected (see ## Findings): the transformer returns the validation error or the collected artifacts of its effective layers |
| SvgTransform.TransformedOutputs | build/svg.ts:92-231 | corrected (see ## Findings): the transformer fails with the validation error or iff some layer's optimised output is empty; otherwise it has one `engineSvg` entry per distinct layer name, and only `fileName` when the file is not split |
| SvgTransform.GenerateAsWritten | build/svg.ts:197-228 | the loop as written hands layer i a document whose shared elements have been escaped in place i times before, and collects the artifacts in order |
| SvgTransform.TransformAsWritten | build/svg.ts:135-228 | the transformer as written returns the validation error, or the artifacts collected from those serialiser inputs |
| SvgTransform.SecondLayerInput | build/svg.ts:135-216 | as written, the second output's serialiser receives the shared elements after two escaping passes, while its own document holds them unescaped |
| SvgTransform.DefsAndTwoLayers | build/svg.ts:121-133 | a `defs` followed by two layers is split, with the `defs` shared by both layers |
| SvgTransform.EscapeLeadingAmp | build/svg.ts:205-210 | the chain as written turns a value whose only special character is a leading `&` into `&amp;` plus the rest, again of that form |
| SvgTransform.SharedDefsEscapedTwice | build/svg.ts:135-216 | with shared `defs` id="&" and two layers, as written the second serialiser receives `&amp;amp;`, which decodes to `&amp;` rather than `&`; with each document escaped once it receives `&amp;`, which decodes to the document |
| FileDispatch.Extensions | build/file.ts:14-34 | the registry has exactly the keys `svg` and `wav`, bound to their transformers |
| FileDispatch.OwnPropertyLookup | build/file.ts:90 | an extension is registered iff it is `svg` or `wav`; `FileDispatch.Create` tests exactly this membership, so any other name, inherited ones like `toString` included, takes the warning path |
| FileDispatch.MakeDirs | build/file.ts:89 | afterwards the directory and every directory above it exist; nothing else changes |
| FileDispatch.RemoveTree | build/file.ts:77 | removes exactly the directories and files inside the tree; the rest keep their contents |
| FileDispatch.Create | build/file.ts:80-104 | makes the temporary directory in every case; an unknown extension warns and gets `{}` at the cache path; a registered one gets its transformer's serialised result there; a failing transformer ends creation with no file written; no other file changes |
| FileDispatch.DeleteFrame | build/file.ts:69-78 | after deletion nothing is left in the temporary directory, and everything outside it is unchanged |
| FileDispatch.DeleteRemovesCache | build/file.ts:69-78 | assuming the cache path lies in the temporary directory, deletion removes the cache file |
| FileDispatch.DeleteIdempotent | build/file.ts:69-78 | deleting twice is deleting once |
| FileDispatch.CreateMakesTempDir | build/file.ts:88-89 | after creation the temporary directory and all directories above it exist |
| FileDispatch.CreateIdempotent | build/file.ts:80-104 | creating again with the same arguments changes nothing more |
| FileDispatch.UpdateForgetsEarlierOutput | build/file.ts:47-57 | assuming the cache path lies in the temporary directory, an update's result does not depend on what an earlier build left there |
| FileDispatch.FailedUpdateLeavesNoCache | build/file.ts:47-57 | assuming the cache path lies in the temporary directory, an update whose transformer fails leaves no stale cache file |
| FileDispatch.UpdateIdempotent | build/file.ts:47-57 | updating twice is updating once |
| FileDispatch.Workspace.constructor | build/file.ts:14-34 | a workspace dispatches through the `svg`/`wav` registry and starts with no warnings |
| FileDispatch.Workspace.PerformDeletion | build/file.ts:69-78 | the new file system is the deletion of the old one; no warning |
| FileDispatch.Workspace.PerformCreation | build/file.ts:80-104 | the new file system, the outcome and the warning are those of creation on the old file system |
| FileDispatch.Workspace.Created | build/file.ts:36-45 | the same as creation |
| FileDispatch.Workspace.Updated | build/file.ts:47-57 | the new state is creation applied to the deletion of the old state, with the same arguments |
| FileDispatch.Workspace.Deleted | build/file.ts:59-67 | the new file system is the deletion of the old one, and no audio formats are needed |
| HtmlGeneration.ShouldRegenerateIff | build/generateHtml.ts:36-41 | regeneration happens iff the icon is among the created or modified files or the metadata changed |
| HtmlGeneration.RequestedIcons | build/generateHtml.ts:56-65 | browser favicons are always requested; the android, apple icon, apple startup, coast, firefox, windows and yandex sets are requested iff the build is `oneOff` |
| HtmlGeneration.FaviconConfiguration | build/generateHtml.ts:43-66 | the generator is given the new title, description, developer name and URL, and the icon sets of the build mode |
| HtmlGeneration.Prepared | build/generateHtml.ts:74-82 | a file's contents are replaced by the crushed contents iff the build is `oneOff` and they are PNG; the name is kept |
| HtmlGeneration.FragmentsInOrder | build/generateHtml.ts:103 | each head fragment appears whole in the joined text, right after the fragments before it |
| HtmlGeneration.ShellLayout | build/generateHtml.ts:97-106 | the page is the fixed head, then the title, the viewport line, the head fragments, `</head>`, the body and `</html>`, each at a stated position |
| HtmlGeneration.TitleTags | build/generateHtml.ts:101 | the title sits right after `<title>` and right before `</title>` |
| HtmlGeneration.Page | build/generateHtml.ts:97-151 | the page is minified iff the build is `oneOff` |
| HtmlGeneration.WritesOrder | build/generateHtml.ts:36-160 | without regeneration nothing is written; otherwise every image and then every other file is written to `destination/<name>`, with crushed contents exactly for PNGs in a one-off build, and `index.html` is written last with the page |
| HtmlGeneration.Site.WriteFile | build/generateHtml.ts:84-87 | the write sets the path's contents and is appended to the log |
| HtmlGeneration.Site.WriteFavicons | build/generateHtml.ts:68-94 | every favicon file is written in order to `destination/<name>`, crushed exactly when it is a PNG in a one-off build; both counters end equal to the number of files |
| HtmlGeneration.Site.Generate | build/generateHtml.ts:36-160 | the step performs exactly the writes listed, in that order, or fails with the generator's error having written nothing; both counters end equal to the number of favicon files |
| HtmlGeneration.WrittenFiles | build/generateHtml.ts:153-157 | after regeneration `index.html` holds the page, whatever the favicon files are called |

## Left out

- Reading the SVG file (build/svg.ts:105-106): the transformer takes the file's text as an argument.
- Console output is not modelled, except for the warning about an unknown extension (build/file.ts:98). That warning is `FileDispatch.Creation.warned` and is recorded in `FileDispatch.Workspace.warnings`. The progress messages with the two favicon counters are not modelled; the counters themselves are returned.
- `XmlTools.fromXml` and `XmlTools.optimize` are total. A parse error on malformed text (build/svg.ts:108) and a rejected optimiser promise (build/svg.ts:218) are not modelled. So `SvgTransform.TransformedOutputs` lists only the validation failures and the empty-output failure.
- `build/svgo.ts` is not part of this model. It is only the optimiser's plugin configuration, and the optimiser is a parameter.
- `build/writeFilesStage.js` is not part of this model. Its behaviour lives in base classes that are not shown.
- The `wav` transformer is not part of this model. Both registered transformers are parameters of `FileDispatch.Extensions`.
  - The SVG transformer declares its parameters as (old state, new state, build name, game name, package name, file name).
  - The registry calls transformers with (build name, game name, package name, file name, audio formats).
  - So the model does not connect `FileDispatch` to `SvgTransform`.
- Numbers in attributes are whole numbers. How JavaScript renders fractions and exponents is not modelled.
- The `JSON.parse(JSON.stringify(...))` copy (build/svg.ts:137) is a value copy.
- In-place updates are modelled on values:
  - the removal of `style` (line 144);
  - the replacement of the root's children (line 158);
  - `escapeAttributes` (lines 202-216).

  The one effect of aliasing that shows in the output, shared `defs` being escaped once per earlier layer, is modelled explicitly by `SvgTransform.AsWrittenInputs`.
- The "should never happen" checks of build/svg.ts:139-156 are not modelled, because validation rules them out. The check of lines 221-223 is modelled as an error.
- Failures of `mkdirp`, `writeFile` and `rimraf` are not modelled. This includes writing a cache file whose directory does not exist: the path scheme is not visible.
- Failures of the PNG crusher and of the minifier are not modelled. A failure of the favicon generator is.
- The favicon files are written one after another in submission order. The source starts one task per file at once. In a one-off build a PNG's write starts only after its crush finishes, so the writes may start, and the counters advance, in another order. The tasks are awaited in submission order.
- `FileDispatch.DeleteRemovesCache`, `FileDispatch.UpdateForgetsEarlierOutput` and `FileDispatch.FailedUpdateLeavesNoCache` assume that the cache path lies in the temporary directory. The code does not show the path scheme.
- The build name is a string. Only its comparison with `oneOff` matters.

## Findings

| source | as written | input that shows it | evidently intended | confidence | as-written member | corrected member |
|---|---|---|---|---|---|---|
| build/svg.ts:205-210 | `replace` with a string pattern escapes only the first occurrence of each special character | an attribute value `<<` becomes `&lt;<`, still holding a raw `<` | every occurrence of each of the five characters is escaped | high; not executed | SvgTree.EscapeFirstOnly, shown by SvgTree.FirstOnlyLeavesMarkup | SvgTree.EscapeText, with SvgTree.EscapeEveryLt, SvgTree.UnescapeEscape and SvgTree.EscapeTreeEscapes |
| build/svg.ts:158-216 | every split document holds the same shared `defs` objects, and `escapeAttributes` rewrites them in place, so layer k receives them escaped k+1 times | two layers sharing a `defs` with id="&": the second layer's serialiser receives `&amp;amp;`, which decodes to `&amp;` | each document's attributes are escaped exactly once | medium (assumes the serialiser does not escape attribute values itself, as the workaround comment at line 199 implies); not executed | SvgTransform.TransformAsWritten, shown by SvgTransform.SharedDefsEscapedTwice | SvgTransform.Transform, with SvgTransform.SerialiserInputsDecode and SvgTransform.TransformedOutputs |
