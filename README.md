# Express Lane blocks, body classes, tag stripping and messages

A Dafny model of the core of Express Lane, a small CMS layer on top of
Express. It covers five things:

- **Registering blocks and menu items** (`Blocks.Registry`). `addBlock` fills in default
  fields and gives each block a fresh id. `addMenuItem` fills in menu defaults and then
  registers the item as a block.
- **The per-request block handler** (`Blocks.Request.RunBlockHandler`). When a block's
  route matches, the handler records the block's id once per request. It asks the block's
  filter, if the filter is a function. Unless the filter rejects the block, it attaches a
  `blocks:<region>` listener.
- **The `blocks_<region>` template helpers** (`Blocks.Request.BlocksFor`). A helper fires
  the region's listeners into a list of clones, merges each clone's content into it, and
  sorts the clones by weight in place.
- **`bodyClasses`** (`BodyClasses.BodyClasses`). It computes the body CSS classes from the
  URL pathname.
- **`strip_tags`, per tag** (`StripTags.StripTag`). It drops disallowed tags, lower-cases
  names, keeps only allowed quoted attributes, and neutralises `javascript:` links.

It also models the `Messages` accumulator (`Messages.Messages`), with its `reset`, `add`
and `render` operations.

Files:

- `wrappers.dfy`: `Option`.
- `strings.dfy`: the JavaScript string operations the code uses (`join`, `split` on one
  character, ASCII `toLowerCase`, `trim`, prefix test) and lemmas about them.
- `js_values.dfy`: JavaScript values, truthiness, the numeric conversion done by `-`, and
  `_.extend`.
- `blocks.dfy`, `body_classes.dfy`, `strip_tags.dfy`, `messages.dfy`: the core.

Inputs that come from the world outside the model are parameters:

- what a block's filter returns (`filterResult`);
- what the k-th clone's content function returns (`contentResults(k)`);
- what the `collect` listeners of `Messages` add (`collected`);
- the configured `block_regions` and the request's pathname.

Route matching is abstract. A call of `RunBlockHandler` stands for "this block's route
matched on this request and its loaders ran".

Four facts about the code shape the model:

- **Listeners persist.** The code attaches them with `req.on`, so calling a helper twice
  on a request collects the same blocks twice (`Blocks.Request.BlocksForTwice`).
- **The sort is not stable.** The code passes the comparator `a.weight - b.weight` to
  `Array.prototype.sort`, whose stability depends on the engine. The model promises a
  permutation, and ordering whenever every weight is numeric.
- **No error handling.** Nothing in the code catches an exception thrown by a filter or a
  content function.
- **No NaN coercion.** The code does not turn a NaN weight into 0. A NaN comparator result
  counts as "equal", as `Array.prototype.sort` treats it.

## Model

| member | source | states |
|---|---|---|
| JsValues.Get | lib/expresslane.js:77 | a property missing from an object reads as `undefined` |
| JsValues.ToNumber | lib/expresslane.js:81 | `-` turns a number into itself; `undefined`, objects and functions become NaN |
| JsValues.OwnEnumerable | lib/expresslane.js:76-78 | only a plain object contributes properties to `_.extend` |
| JsValues.Extend | lib/expresslane.js:76-78 | `_.extend` keeps the target's keys plus the source's; source properties win, the other target properties are unchanged |
| Blocks.BlockDefinition | lib/expresslane.js:399-406 | the stored definition has the caller's keys plus the six standard ones; supplied fields win; each missing one gets its default (`'*'`, `'right'`, `[]`, `null`, `0`, `{}`) |
| Blocks.MenuItem | lib/expresslane.js:429-435 | a menu item gets `_template` `'menuItem.jade'`, region `'menu'`, content `{}`, href and title `null` unless supplied; supplied fields win |
| Blocks.MenuItemDefinition | lib/expresslane.js:428-438 | what a menu item is registered as: the caller's fields unchanged, and the menu defaults for template, region, content, href and title |
| Blocks.MenuItemBlockDefaults | lib/expresslane.js:428-438 | a menu item gets `addBlock`'s path, loaders, filter and weight unless the caller supplied them |
| Blocks.Registry.constructor | lib/expresslane.js:408 | no block is registered and the id counter is at its start |
| Blocks.Registry.IdsAreDistinct | lib/expresslane.js:408 | in a valid registry no two blocks share an id |
| Blocks.Registry.AddBlock | lib/expresslane.js:398-426 | appends the defaulted definition under the counter's id; that id differs from every earlier block's; the registry invariant is kept |
| Blocks.Registry.AddMenuItem | lib/expresslane.js:428-438 | registers `MenuItem(item)` exactly as `addBlock` would, with a fresh id |
| Blocks.ListenersFor | lib/expresslane.js:73 | a region with no attached listener fires nothing |
| Blocks.Attach | lib/expresslane.js:420-422 | `req.on` adds the listener at the end of its own region's list and leaves every other region's list alone |
| Blocks.AttachKeepsHandlerState | lib/expresslane.js:411-422 | recording a new id and attaching its listener keeps the per-request invariant: ids recorded once, listeners only for recorded and unrejected blocks, each under its own region, at most one per block |
| Blocks.Request.constructor | lib/expresslane.js:411 | a request starts with no loaded blocks and no listeners |
| Blocks.DefaultFilterNeverRejects | lib/expresslane.js:417 | a block registered without a filter keeps `null` there, so no filter result rejects it and its handler always attaches a listener |
| Blocks.Request.RunBlockHandler | lib/expresslane.js:410-425 | afterwards the id is recorded. A second run on the same request changes nothing and calls no filter. Otherwise the id is appended before the filter runs. The filter is called exactly when it is a function. A falsy result from it attaches nothing. Any other outcome, including a non-function filter, attaches one listener under the block's own region |
| Blocks.Request.RunBlockHandlerTwice | lib/expresslane.js:411-419 | when a block's route matches twice on a request, the second run calls no filter |
| Blocks.Request.CollectedBelongToRegion | lib/expresslane.js:417-422 | every listener fired for a region belongs to a block whose handler ran, whose filter did not reject it, and whose region is that region |
| Blocks.Request.BlocksFor | lib/expresslane.js:70-85 | one result per attached listener. The result is a permutation of the clones after the content merge. It is ordered by weight whenever all weights are numeric. Nothing is modified |
| Blocks.Request.BlocksForTwice | lib/expresslane.js:70-85 | a second call of a helper on the same request collects the same blocks again |
| Blocks.Request.RegionHelper | lib/expresslane.js:68-87 | there is no helper for a region outside the configured list. For a configured region the helper returns a permutation of the merged blocks, ordered by weight whenever all weights are numeric |
| Blocks.Request.UnconfiguredRegionNeverCollected | lib/expresslane.js:68-87 | a block whose region is not among the configured regions is collected by no helper |
| Blocks.BlockRegions | lib/expresslane.js:68 | a configured region list, even an empty one, wins; otherwise `menu`, `header`, `footer`, `left`, `right`, `content`, in that order |
| Blocks.Clones | lib/expresslane.js:420-422 | the listeners push one clone each, in firing order, equal to the registered definition |
| Blocks.ContentSource | lib/expresslane.js:77-78 | a non-function content is used as it is; a truthy result of a content function replaces it; a falsy result leaves a function, which contributes no properties |
| Blocks.Resolve | lib/expresslane.js:76-78 | the merge keeps every clone field. A truthy content-function result or a non-function content overrides the fields it carries, such as `weight`. A falsy function result leaves the clone unchanged |
| Blocks.Collected | lib/expresslane.js:74-80 | the k-th merged block is the k-th clone resolved with the k-th content result |
| Blocks.SortBy | lib/expresslane.js:81 | the in-place sort yields a permutation, in non-decreasing key order when every key is numeric |
| Blocks.InsertLast | lib/expresslane.js:81 | one insertion step keeps the multiset and extends the sorted prefix by one |
| Blocks.MergeContents | lib/expresslane.js:74-80 | the in-place merge pass leaves exactly `Collected` in the array |
| BodyClasses.Compact | lib/expresslane.js:116 | `compact` keeps every non-empty part as often as it occurs and drops every empty one (multisets agree once `""` is removed) |
| BodyClasses.CompactDistributes | lib/expresslane.js:116 | `compact` works part by part, so the kept parts stay in their input order |
| BodyClasses.CompactNonEmpty | lib/expresslane.js:116 | compacting parts that are all non-empty changes nothing |
| BodyClasses.Segments | lib/expresslane.js:116 | the segments are non-empty and contain no `/` |
| BodyClasses.SegmentsOfJoinedPath | lib/expresslane.js:116 | a pathname `/s1/.../sn` of non-empty segments yields exactly `s1 .. sn` |
| BodyClasses.BodyClasses | lib/expresslane.js:114-124 | `'front'` exactly when there is no segment, and otherwise a string starting with a space |
| BodyClasses.PrefixClasses | lib/expresslane.js:121-123 | once a class has been added, the reduce result starts with a space |
| BodyClasses.PrefixesAt | lib/expresslane.js:122 | the k-th listed class joins the first k + 1 segments |
| BodyClasses.ClassExtendsPrevious | lib/expresslane.js:122 | each class is the previous one plus `-` plus the next segment |
| BodyClasses.SplitPrefixClasses | lib/expresslane.js:121-123 | splitting the reduce result on spaces gives an empty lead and then the prefix classes, shortest first |
| BodyClasses.BodyClassesListPrefixes | lib/expresslane.js:116-123 | for space-free segments, the classes are exactly the k-segment prefixes joined by `-`, for k = 1 to the number of segments, each after one space |
| BodyClasses.Examples | lib/expresslane.js:114-124 | `/a/b` gives `' a a-b'` and `/` gives `'front'` |
| StripTags.AllowedTags | lib/expresslane.js:326-329 | a missing or empty tag list means the default list |
| StripTags.AllowedAttributes | lib/expresslane.js:330-335 | any given attribute map, even an empty one, replaces the default map |
| StripTags.SafeValue | lib/expresslane.js:381-384 | an `href` whose trimmed value starts with `javascript:` gets the value `#`; every other value is kept |
| StripTags.AttrAllowedIgnoresListCase | lib/expresslane.js:341-346 | lower-casing every allow-list, as the conversion into patterns does, allows exactly the same names through the tag's list or `*` |
| StripTags.FilterPiece | lib/expresslane.js:376-391 | text passes unchanged; an attribute yields one attribute exactly when its lower-cased name is allowed, with that name and its own space and quote, and nothing otherwise |
| StripTags.FilterParams | lib/expresslane.js:376-391 | the replacement never adds pieces |
| StripTags.SafeValueSafe | lib/expresslane.js:381-384 | the value the filter keeps for an `href` never starts with `javascript:` after trimming |
| StripTags.StripTag | lib/expresslane.js:349-394 | the result is empty exactly when the lower-cased tag name is not allowed. Otherwise it starts with `<`, the closing slash if any and the lower-cased name. It ends with the self-closing `/` if there was one, then `>` |
| StripTags.StripTagParts | lib/expresslane.js:362-393 | for an allowed tag: `<`, the closing slash, the lower-cased name; then a space and the filtered parameter text when the tag or `*` has a list and the text is non-empty; then the self-closing slash and `>`. Every attribute left is safe, and they are exactly the allowed ones, in order |
| StripTags.FilteredAttrSafe | lib/expresslane.js:378-388 | a kept attribute is allowed, has a lower-case name and no `javascript:` href |
| StripTags.FilterPieceSafe | lib/expresslane.js:376-391 | every attribute one replacement yields is safe |
| StripTags.FilteredAttributesAreSafe | lib/expresslane.js:376-391 | every attribute left in the parameter text is allowed for the tag or `*`, lower-case, and not a `javascript:` href |
| StripTags.FilterKeepsAllowedAndText | lib/expresslane.js:376-391 | the attributes left are exactly the allowed ones, lower-cased, in order; all text between attributes is kept unchanged |
| StripTags.FilteredAttrStable | lib/expresslane.js:378-388 | an attribute the filter produced passes the filter unchanged |
| StripTags.FilterPieceIdempotent | lib/expresslane.js:376-391 | filtering the output of one replacement again changes nothing |
| StripTags.FilterIdempotent | lib/expresslane.js:376-391 | filtering filtered parameter text again changes nothing |
| StripTags.FilterDistributes | lib/expresslane.js:376-391 | the replacement works piece by piece: filtering a concatenation concatenates the filtered parts |
| StripTags.ExampleHrefRewritten | lib/expresslane.js:378-384 | `HREF` lower-cases to `href`, and `javascript:x` becomes `#` |
| StripTags.JavascriptHrefBecomesHash | lib/expresslane.js:378-388 | an allowed `href` attribute, in any case, with a `javascript:` value comes out as `href="#"` with its quote |
| StripTags.ExampleDisallowedTag | lib/expresslane.js:353-357 | a `b` tag is dropped when only `a` is allowed |
| Messages.Rendered | lib/messages.js:33 | no messages render as `''`, one as itself; more start with the first message and a comma |
| Messages.RenderedAppend | lib/messages.js:33 | one more message adds a comma (unless it is the first) and the message at the end of the rendering |
| Messages.RenderedExtends | lib/messages.js:33 | the rendering of a longer list starts with the rendering of its prefix |
| Messages.RenderedSplits | lib/messages.js:33 | messages without commas can be read back from the rendering, in insertion order |
| Messages.Messages.constructor | lib/messages.js:4-6 | a new accumulator holds no messages |
| Messages.Messages.Reset | lib/messages.js:17-19 | the list is empty whatever it held |
| Messages.Messages.Add | lib/messages.js:24-26 | the message goes at the end; earlier messages are unchanged and in order |
| Messages.Messages.Render | lib/messages.js:31-34 | the listeners' messages are appended first. The result is every message joined by `,`, in insertion order. The list is kept |
| Messages.RenderTwice | lib/messages.js:31-34 | two renders with no additions return the same string; a reset leaves nothing to render |

## Left out

- Server bootstrap and configuration (`configure`, `start`, settings, sessions, logging, static files): framework glue and I/O.
- Express routing and the `loaders` middleware: route matching is abstract, and a call of `RunBlockHandler` stands for a matched route.
- The Node `EventEmitter` machinery behind `req.on`/`req.emit` and `Messages.on`/`emit`: listeners are explicit per-region lists, and the `collect` listeners' effect is the `collected` parameter.
- The `template`, `link` and `flashMessage` helpers, the settings lookups and the error classes: they depend on foreign rendering, URL normalisation or `req.flash()`.
- The regular-expression tokenisation inside `strip_tags` (finding tags and quoted attributes, trimming the parameter text, removing a trailing `/`): tags arrive pre-tokenised as `TagToken`. Unquoted attributes are plain text to the model, as they are to the attribute pattern, and `FilterKeepsAllowedAndText` shows they are kept.
- `strip_tags` converting the caller's `allowedAttributes` values into `RegExp` objects in place, and its implicit globals: the model reads the lists and does not mutate them.
- StripTags.Matches: allow-lists are compared as `|`-separated names. Regular-expression metacharacters in configured lists are not interpreted.
- StripTags.StripTag: `tag in allowedAttributes` also sees inherited properties (such as `constructor`) in JavaScript; the model's maps have only their own keys.
- Strings.Lower: lower-cases ASCII letters only; JavaScript's full Unicode `toLowerCase` is not modelled.
- JsValues.ToNumber: strings and arrays as weights are taken as NaN, whereas JavaScript would parse them. Weights are integers, not floating-point numbers.
- JsValues.OwnEnumerable: strings and arrays used as content contribute no properties to `_.extend`, although JavaScript would copy their index properties.
- Blocks.Attach: listeners are keyed by the region value itself rather than by the string `'blocks:' + region`. Two different non-string regions that print the same are therefore kept apart.
- Blocks.SortBy: the engine's own sort algorithm is not modelled; insertion sort stands for it. Stability on equal weights is neither modelled nor promised by the source.
- Blocks.Registry.AddBlock: `_.uniqueId` is a counter shared with the rest of the program. The model gives the registry its own counter, which keeps ids distinct and increasing.
- Exceptions thrown by filters or content functions are not modelled; their results are inputs.
- Messages are modelled as strings; `join` of other values would first convert them to strings.
