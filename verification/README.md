# Magazine Blocks: modal, latest posts and frontend helpers in Dafny

This project models the core of the Magazine Blocks WordPress plugin and proves properties of it:

- **The modal block.** In the editor it is a two-state visibility machine, Closed or Open, driven by these events:
  - a click on the trigger;
  - a click on the close element;
  - the Escape key, when `escPress` allows it;
  - a click on the overlay, when `overlayClick` allows it.

  The editor's effect attaches two document listeners, and its cleanup removes them.
- **The modal's saved markup.** Every trigger points, through `data-micromodal-trigger`, at the one popup whose `id` is `mzb-modal-<clientId>`.
- **The modal trigger component.**
- **The latest-posts block's editor logic:**
  - the newest post of each category, with duplicate posts dropped;
  - word-limited excerpts;
  - which parts of a post are drawn;
  - the numbered page list.
- **The frontend helper library:** `getCookie`, `siblings`, `toArray`, `each`, `on` and `domReady`.
- **The slider options:** the frontend's `data-swiper` to Swiper options mapping, and the editor's merge of caller options over `DEFAULT_OPTIONS`.

JavaScript values are modelled explicitly, in module `Js`:

- An unset attribute is `None`.
- `Truthy` follows JavaScript truthiness.
- `??` is `Coalesce`, which replaces only undefined and null.
- A dynamic object is a map from property names to `Value`s.
- `split` and `join` take a one-character separator. `"".split(" ")` is `[""]`.
- `trim` removes the ECMAScript white-space set.
- `slice(0, end)` handles an undefined end and a negative end.

The modules follow the source files:

| module | file |
|---|---|
| `Js` | the JavaScript semantics the other modules rely on |
| `ModalAttrs` | the attribute derivations shared by the modal's editor and save views |
| `ModalEdit` | the modal's editor view and visibility machine |
| `ModalListeners` | the effect's document listeners over a mount / re-render / unmount lifecycle |
| `ModalSave` | the saved markup tree |
| `ModalTrigger` | the stand-alone trigger component |
| `LatestPosts` | the latest-posts editor and its data wrapper |
| `FrontendUtils` | the frontend helper library |
| `FrontendSlider` | the frontend slider script |
| `SliderDefaults` | the editor slider's `initSlider` |

In the editor, every run of the effect attaches both document listeners, whatever `isModalOpen` is, and the component owns them for as long as it is mounted. `ModalListeners.LifeKeepsListeners` proves the guarantee that matters, that no listener leaks. After any lifecycle the document holds the other code's listeners plus exactly this instance's current two, and none once the instance is unmounted.

## Model

| member | source | states |
|---|---|---|
| Js.Split | wp-content/plugins/magazine-blocks/src/blocks/blocks/latest-posts/Edit.tsx:160-161 | splitting always yields at least one piece, and no piece contains the separator |
| Js.CoalesceVersusOr | wp-content/plugins/magazine-blocks/src/frontend/blocks/slider.ts:34-43 | `a ?? d` and `a || d` disagree exactly when `a` is a defined falsy value (`false`, `0`, `""`) other than `d`. Applying the same default twice changes nothing, and a defined default always gives a defined result |
| Js.JoinSplit | wp-content/plugins/magazine-blocks/src/blocks/blocks/latest-posts/Edit.tsx:160-163 | joining the pieces of a split with the same separator gives back the original text |
| Js.SplitJoin | wp-content/plugins/magazine-blocks/src/blocks/blocks/latest-posts/Edit.tsx:160-163 | splitting a join of separator-free pieces gives back exactly those pieces |
| Js.Trim | wp-content/plugins/magazine-blocks/src/frontend/utils/index.ts:316 | the result is a contiguous slice of the input that neither starts nor ends with white space, and only white space was removed |
| ModalAttrs.KindOf | wp-content/plugins/magazine-blocks/src/blocks/blocks/modal/Edit.tsx:134-227 | each of "text", "icon", "image" and "button" selects its own trigger variant, and no other value selects any |
| ModalAttrs.PopupId | wp-content/plugins/magazine-blocks/src/blocks/blocks/modal/Save.tsx:58 | the popup id is "mzb-modal-" followed by the client id, and the client id can be read back from it |
| ModalAttrs.ButtonClasses | wp-content/plugins/magazine-blocks/src/blocks/blocks/modal/Edit.tsx:82-86 | "mzb-button-link" always comes first. `is-<size>` is added only when a size is set and the style is "filled" or "outline". `is-style-<style>` is added last whenever a style is set |
| ModalAttrs.Placement | wp-content/plugins/magazine-blocks/src/blocks/blocks/modal/Edit.tsx:192-223 | the button icon goes before the label iff the icon object exists, its icon is not "", it is enabled and the position is "before". The same holds for "after". It never appears on both sides |
| ModalAttrs.IconFor | wp-content/plugins/magazine-blocks/src/blocks/blocks/modal/Edit.tsx:161 | no icon is drawn for "". A named icon is drawn for a non-empty name. An empty icon is drawn when the name is unset |
| ModalAttrs.WithTypography | wp-content/plugins/magazine-blocks/src/blocks/blocks/modal/Edit.tsx:136-139 | the base classes are kept in order, and the typography class is appended only when it is truthy |
| ModalEdit.EditorImageSrc | wp-content/plugins/magazine-blocks/src/blocks/blocks/modal/Edit.tsx:173 | the image trigger's source is never empty: it is the computed URL when truthy, else the placeholder image |
| ModalEdit.View | wp-content/plugins/magazine-blocks/src/blocks/blocks/modal/Edit.tsx:123-233 | the wrapper has "modal-open" and the popup has "active" iff the state is Open. The wrapper carries the popup id class. The data flags read "enable" or "disable" from the two policy attributes |
| ModalEdit.EditorTriggerMatchesKind | wp-content/plugins/magazine-blocks/src/blocks/blocks/modal/Edit.tsx:134-227 | exactly one trigger of the selected variant is drawn, and none for an unknown `modalTrigger` |
| ModalEdit.EditorImageFallback | wp-content/plugins/magazine-blocks/src/blocks/blocks/modal/Edit.tsx:164-178 | the image trigger falls back to the placeholder for a missing image or an empty url |
| ModalEdit.EditorButtonIcon | wp-content/plugins/magazine-blocks/src/blocks/blocks/modal/Edit.tsx:192-223 | the editor's button icon sits before or after the label exactly under the block's gate |
| ModalEdit.Step | wp-content/plugins/magazine-blocks/src/blocks/blocks/modal/Edit.tsx:91-251 | a trigger click opens. A close click closes. Escape closes iff `escPress`. A click on an element classed "mzb-modal-popup" closes iff `overlayClick`. Any other event changes nothing |
| ModalEdit.RunOpenIff | wp-content/plugins/magazine-blocks/src/blocks/blocks/modal/Edit.tsx:88-113 | after any event trace the modal is open iff some opening event is followed by no closing one, or it started open and nothing closed it |
| ModalEdit.StaysClosedWithoutTrigger | wp-content/plugins/magazine-blocks/src/blocks/blocks/modal/Edit.tsx:88 | without a trigger click the modal never opens |
| ModalEdit.TriggerClickAlwaysOpens | wp-content/plugins/magazine-blocks/src/blocks/blocks/modal/Edit.tsx:140 | a trigger click as the last event leaves the modal open, whatever came before |
| ModalEdit.EscapeIgnoredWhenDisabled | wp-content/plugins/magazine-blocks/src/blocks/blocks/modal/Edit.tsx:100-104 | with `escPress` off, any number of Escape presses leaves an open modal open |
| ModalListeners.EffectListeners | wp-content/plugins/magazine-blocks/src/blocks/blocks/modal/Edit.tsx:106-107 | one effect run adds two distinct listeners: a keydown handler and a click handler, each capturing that render's flag |
| ModalListeners.Install | wp-content/plugins/magazine-blocks/src/blocks/blocks/modal/Edit.tsx:106-107 | installing only adds the run's two listeners |
| ModalListeners.Cleanup | wp-content/plugins/magazine-blocks/src/blocks/blocks/modal/Edit.tsx:109-112 | cleanup removes exactly the listeners the same run added, and nothing else |
| ModalListeners.CleanupUndoesInstall | wp-content/plugins/magazine-blocks/src/blocks/blocks/modal/Edit.tsx:106-112 | cleanup after install restores the document's listener set, and install adds exactly two |
| ModalListeners.LifeStep | wp-content/plugins/magazine-blocks/src/blocks/blocks/modal/Edit.tsx:90-113 | mount marks the instance mounted, unmount marks it unmounted, and a re-render keeps the mounted flag |
| ModalListeners.StepKeepsOwnership | wp-content/plugins/magazine-blocks/src/blocks/blocks/modal/Edit.tsx:90-113 | each lifecycle step keeps the document at the other code's listeners plus the instance's own |
| ModalListeners.LifeKeepsListeners | wp-content/plugins/magazine-blocks/src/blocks/blocks/modal/Edit.tsx:90-113 | after any mount / re-render / unmount trace the document holds the other code's listeners plus exactly the current two, or none of the instance's once unmounted, and every handler sees the current flags |
| ModalListeners.MountUnmountRestores | wp-content/plugins/magazine-blocks/src/blocks/blocks/modal/Edit.tsx:109-113 | mounting then unmounting leaves the document's listeners as they were |
| ModalSave.SavedImage | wp-content/plugins/magazine-blocks/src/blocks/blocks/modal/Save.tsx:27-41 | the saved image's src is the computed URL, present iff the URL is defined. Its alt is taken from `iconImage`, not `image` |
| ModalSave.ButtonChildren | wp-content/plugins/magazine-blocks/src/blocks/blocks/modal/Save.tsx:96-123 | the saved button holds the label, with the icon span before or after it exactly as the gate says |
| ModalSave.SavedTriggersValues | wp-content/plugins/magazine-blocks/src/blocks/blocks/modal/Save.tsx:52-126 | the trigger markup carries one `data-micromodal-trigger`, naming the popup id, for a known variant. It carries none otherwise, and no `id` or close marker |
| ModalSave.SavedPopupValues | wp-content/plugins/magazine-blocks/src/blocks/blocks/modal/Save.tsx:128-153 | the popup holds the one `id`, no trigger attribute, and a close marker on the overlay plus one on the close element when drawn |
| ModalSave.TriggersPointAtPopup | wp-content/plugins/magazine-blocks/src/blocks/blocks/modal/Save.tsx:49-158 | the saved tree has exactly one `id`, the popup id, and every trigger attribute names that id |
| ModalSave.CloseMarkers | wp-content/plugins/magazine-blocks/src/blocks/blocks/modal/Save.tsx:133-153 | there are two close markers when a close position is set, else one, on the overlay only |
| ModalSave.SavedImageTrigger | wp-content/plugins/magazine-blocks/src/blocks/blocks/modal/Save.tsx:74-84 | the saved image shows the editor's source when the URL is truthy. Otherwise it saves an empty source where the editor shows the placeholder |
| ModalSave.EditAndSaveAgree | wp-content/plugins/magazine-blocks/src/blocks/blocks/modal/Save.tsx:85-126 | editor and save use the same popup id. The saved button has the editor's button classes and icon placement |
| ModalSave.CloseAgrees | wp-content/plugins/magazine-blocks/src/blocks/blocks/modal/Save.tsx:138-153 | the saved close element exists exactly when the editor draws one. It has the editor's classes and the close marker. In the editor, a click on it always closes, and with no close element a close click changes nothing |
| ModalSave.AltSources | wp-content/plugins/magazine-blocks/src/blocks/blocks/modal/Save.tsx:27 | the saved alt text comes from `iconImage`, while the editor's (line 66 of the editor) comes from `image`. The two agree exactly when both attributes give the same alt text, so two different truthy alts give different markup |
| ModalTrigger.TriggerButtonClasses | wp-content/plugins/magazine-blocks/src/blocks/blocks/modal/components/ModalTrigger.tsx:68-72 | "blockart-button" comes first, `is-<size>` follows whenever a size is set, and `is-style-<style>` comes last whenever a style is set |
| ModalTrigger.TriggerFor | wp-content/plugins/magazine-blocks/src/blocks/blocks/modal/components/ModalTrigger.tsx:42-105 | each variant is chosen by its type, and any other type gives the button. Every variant opens on click. The image defaults to the placeholder only when no URL is passed. The button label defaults to "". The icon is never on both sides |
| ModalTrigger.GatesMatchBlockRule | wp-content/plugins/magazine-blocks/src/blocks/blocks/modal/components/ModalTrigger.tsx:74-95 | the optional-chaining "before" gate and the plain "after" gate agree with the block's icon placement |
| ModalTrigger.SizeClassIgnoresStyle | wp-content/plugins/magazine-blocks/src/blocks/blocks/modal/components/ModalTrigger.tsx:70 | the component adds the size class for any style, whereas the block adds it only for "filled" and "outline" |
| LatestPosts.ExcerptIsWordPrefix | wp-content/plugins/magazine-blocks/src/blocks/blocks/latest-posts/Edit.tsx:159-163 | the excerpt is a prefix of the text. It is the whole text without a limit and "" for a limit of 0. For a positive limit its words are the text's first `limit` words |
| LatestPosts.TotalPages | wp-content/plugins/magazine-blocks/src/blocks/blocks/latest-posts/Edit.tsx:133 | the page count is the least `t` with `4t >= numberOfPosts`, and NaN when the count is undefined |
| LatestPosts.NumberedPagination | wp-content/plugins/magazine-blocks/src/blocks/blocks/latest-posts/Edit.tsx:95-128 | nothing is drawn for fewer than two pages. Otherwise one button per page 1..total, in order, with the current page primary. NaN draws an empty list |
| LatestPosts.OnePrimaryPage | wp-content/plugins/magazine-blocks/src/blocks/blocks/latest-posts/Edit.tsx:116-119 | at most one button is primary, and the current page's button is primary when it is in range |
| LatestPosts.Pagination | wp-content/plugins/magazine-blocks/src/blocks/blocks/latest-posts/Edit.tsx:131-137 | with a post count supplied, there is a page list iff there are more than four posts, and it has ceil(count / 4) pages |
| LatestPosts.AsWiredShowsNoPages | wp-content/plugins/magazine-blocks/src/blocks/blocks/latest-posts/Edit.tsx:56-61 | as wired, the undefined props give an empty pagination container, while a supplied count over four gives at least two pages |
| LatestPosts.Parts | wp-content/plugins/magazine-blocks/src/blocks/blocks/latest-posts/Edit.tsx:181-364 | the content block is drawn iff date, author or title is enabled. The title, author and date follow `metaPosition`. Excerpt and read-more need the content block |
| LatestPosts.TopMetaHidesLoneTitle | wp-content/plugins/magazine-blocks/src/blocks/blocks/latest-posts/Edit.tsx:263-335 | with the meta on top and neither author nor date enabled, the title is not drawn |
| LatestPosts.DedupSnoc | wp-content/plugins/magazine-blocks/src/blocks/blocks/latest-posts/Edit.tsx:416-422 | a new post is kept iff its id has not been kept yet |
| LatestPosts.DedupDistinct | wp-content/plugins/magazine-blocks/src/blocks/blocks/latest-posts/Edit.tsx:405-423 | the kept posts have pairwise distinct ids |
| LatestPosts.DedupIdsAndElements | wp-content/plugins/magazine-blocks/src/blocks/blocks/latest-posts/Edit.tsx:416-422 | dropping duplicates loses no id, and every kept post comes from the input |
| LatestPosts.DedupKeepsFirsts | wp-content/plugins/magazine-blocks/src/blocks/blocks/latest-posts/Edit.tsx:418-421 | the first post with each id is the one kept |
| LatestPosts.DedupKeepsOrder | wp-content/plugins/magazine-blocks/src/blocks/blocks/latest-posts/Edit.tsx:407-423 | the kept posts keep the category order |
| LatestPosts.CollectLatestPosts | wp-content/plugins/magazine-blocks/src/blocks/blocks/latest-posts/Edit.tsx:400-428 | the loop with its id set computes the duplicate-free list of each category's first result, with distinct ids, and nothing when the categories are not loaded |
| LatestPosts.FirstsComeFromQueries | wp-content/plugins/magazine-blocks/src/blocks/blocks/latest-posts/Edit.tsx:407-417 | every collected post is the first result of some category's query |
| LatestPosts.FirstsContain | wp-content/plugins/magazine-blocks/src/blocks/blocks/latest-posts/Edit.tsx:416-419 | every category with a non-empty result contributes its first post |
| LatestPosts.LatestPostsCharacterized | wp-content/plugins/magazine-blocks/src/blocks/blocks/latest-posts/Edit.tsx:403-423 | every listed post is some category's latest. Every category with posts is represented by its latest post's id. Ids are distinct and category order is kept |
| LatestPosts.QueryPerCategory | wp-content/plugins/magazine-blocks/src/blocks/blocks/latest-posts/Edit.tsx:407-414 | two categories get the same query only if they are the same category. An empty exclusion string never reaches a query, and the exclusion rule applied twice is applied once |
| FrontendUtils.GetCookie | wp-content/plugins/magazine-blocks/src/frontend/utils/index.ts:313-322 | the result is null iff no trimmed `;`-segment starts with `name=`. Otherwise it is the text after `name=` in the first such segment |
| FrontendUtils.NoPrefixConfusion | wp-content/plugins/magazine-blocks/src/frontend/utils/index.ts:317 | a cookie name never matches another, longer or shorter, name (so "user" does not read "username=x") when neither contains "=" |
| FrontendUtils.Without | wp-content/plugins/magazine-blocks/src/frontend/utils/index.ts:77-79 | filtering keeps exactly the elements other than the given one |
| FrontendUtils.WithoutAppend | wp-content/plugins/magazine-blocks/src/frontend/utils/index.ts:77-79 | filtering distributes over concatenation, so the siblings keep document order |
| FrontendUtils.Siblings | wp-content/plugins/magazine-blocks/src/frontend/utils/index.ts:72-80 | a missing element or parent gives []. Otherwise the result holds exactly the parent's other children, never the element itself |
| FrontendUtils.ToArray | wp-content/plugins/magazine-blocks/src/frontend/utils/index.ts:220-222 | the array has the array-like's length and its items in index order |
| FrontendUtils.Each | wp-content/plugins/magazine-blocks/src/frontend/utils/index.ts:224-237 | an array calls back once per index in increasing order with (item, index). An object calls back once per key with (value, key) |
| FrontendUtils.OnArrayIsEach | wp-content/plugins/magazine-blocks/src/frontend/utils/index.ts:280-294 | attaching to an array at once gives the same registrations as attaching to its elements one at a time, in the order `each` walks them |
| FrontendUtils.OnTwiceIsOnce | wp-content/plugins/magazine-blocks/src/frontend/utils/index.ts:280-294 | calling `on` a second time with the same event, target, callback and options registers nothing new, whatever the target |
| FrontendUtils.DomReadyExactlyOnce | wp-content/plugins/magazine-blocks/src/frontend/utils/index.ts:48-57 | the callback is either run now or left registered, never both and never neither |
| FrontendSlider.SwiperOptions | wp-content/plugins/magazine-blocks/src/frontend/blocks/slider.ts:26-34 | the option keys are the same twelve whatever the configuration. `slidesPerView` comes from the configuration only for "style3" and is 1 otherwise. `speed` falls back to 500 exactly when the configured speed is undefined or null, and is the configured value otherwise |
| FrontendSlider.AutoplayOption | wp-content/plugins/magazine-blocks/src/frontend/blocks/slider.ts:35 | autoplay is the 5000 ms delay object iff the configured `autoplay` is truthy, and `false` iff it is not |
| FrontendSlider.ControlOptions | wp-content/plugins/magazine-blocks/src/frontend/blocks/slider.ts:36-43 | `navigation` and `createElements` follow `arrows` with defaults true and false. `pagination` follows `pagination` with default false. Each default applies only to undefined or null |
| FrontendSlider.RunSliderScript | wp-content/plugins/magazine-blocks/src/frontend/blocks/slider.ts:13-45 | the script's path through `toArray` and `each` creates one Swiper per slider element, in document order, each with the options of its own configuration. A page without sliders gets none |
| FrontendSlider.FixedOptions | wp-content/plugins/magazine-blocks/src/frontend/blocks/slider.ts:27-42 | modules, loop, spacing, keyboard, grab cursor and touch do not depend on the configuration |
| FrontendSlider.ExplicitFalseKept | wp-content/plugins/magazine-blocks/src/frontend/blocks/slider.ts:36-43 | an explicit `arrows: false` turns navigation and arrow creation off |
| FrontendSlider.ArrowsDefaultsDiverge | wp-content/plugins/magazine-blocks/src/frontend/blocks/slider.ts:36-43 | without `arrows`, navigation is on but arrow elements are not created |
| FrontendSlider.EmptyConfigSharesEditorDefaults | wp-content/plugins/magazine-blocks/src/frontend/blocks/slider.ts:24-44 | with no configuration the frontend uses the editor's default keys and values, except modules, autoplay, pagination and createElements |
| FrontendSlider.EmptyConfigDiffersFromEditorDefaults | wp-content/plugins/magazine-blocks/src/frontend/blocks/slider.ts:35-43 | with no configuration the frontend turns off the autoplay, pagination and arrow creation that the editor defaults turn on |
| FrontendSlider.ModulesRotated | wp-content/plugins/magazine-blocks/src/frontend/blocks/slider.ts:27 | the editor's module list is the frontend's rotated by two places. The two arrays differ but hold the same modules |
| SliderDefaults.Params | wp-content/plugins/magazine-blocks/src/blocks/blocks/slider/utils.ts:28-31 | the merged keys are the union of both key sets. Every caller key wins, even with an undefined value. Every other key keeps its default. A key type with one spelling per property makes a caller's known option replace the default of that option |
| SliderDefaults.KeyOfInjective | wp-content/plugins/magazine-blocks/src/blocks/blocks/slider/utils.ts:28-31 | distinct property names map to distinct option keys, so a property can only override the default of its own name |
| SliderDefaults.CallerLoopOverrides | wp-content/plugins/magazine-blocks/src/blocks/blocks/slider/utils.ts:28-31 | a caller's `{ loop: false }` turns looping off and adds no key |
| SliderDefaults.NoOptionsGivesDefaults | wp-content/plugins/magazine-blocks/src/blocks/blocks/slider/utils.ts:28-31 | no options, or empty options, give exactly the defaults |
| SliderDefaults.ShallowMerge | wp-content/plugins/magazine-blocks/src/blocks/blocks/slider/utils.ts:28-31 | the merge is shallow: overriding `autoplay` replaces the whole object, losing the default delay |
| SliderDefaults.SpreadTwice | wp-content/plugins/magazine-blocks/src/blocks/blocks/slider/utils.ts:28-31 | spreading options onto a base and then spreading later options onto the result equals spreading the combined options once |
| SliderDefaults.ParamsOfParams | wp-content/plugins/magazine-blocks/src/blocks/blocks/slider/utils.ts:28-31 | merging twice equals merging the later options over the earlier ones |
| SliderDefaults.DefaultsEnableControls | wp-content/plugins/magazine-blocks/src/blocks/blocks/slider/utils.ts:5-22 | the defaults enable navigation, pagination and arrow creation, autoplay after 5000 ms, and list four modules |

## Left out

- `escPress` and `overlayClick` are modelled as booleans, with unset read as false. React's dependency check tells unset and `false` apart, so a change between them re-runs the effect in React but not in `ModalListeners.LifeStep`. Both handlers treat the two values the same, so no behaviour differs.

- React rendering itself is not modelled. The views are modelled as records or trees of what the components decide: classes, attributes, children, handlers. The following are leaves:
  - RichText;
  - InnerBlocks;
  - Icon;
  - InspectorControls;
  - the copy/paste and style hooks.
- `useClientId` and `useDeviceType` are not modelled. The client id is an attribute, and the device type is a parameter that is already lower-cased, because `toLowerCase` is not modelled.
- Calls to `setAttributes` from editing (text changes, page changes) are not modelled.
- `$`, `$$`, `observeElementInView`, `parseHTML`, `find`, `findAll` and `setCookie` from the helper library are not modelled. They are browser APIs (selectors, IntersectionObserver, DOMParser, the clock). A selector that `siblings` receives is given already resolved.
- `on` is not modelled for a NodeList. The source sends only real arrays through `each`, so a NodeList would reach `addEventListener` and fail; the model's targets are null, one element, or an array.
- `each` over an object takes its entries in `for...in` order as input. Inherited enumerable properties are not modelled.
- `JSON.parse` of `data-swiper` is not modelled: the configuration is taken as already parsed. A malformed JSON string, which throws in the source, is not modelled.
- The Splide carousel mounted in the frontend slider script is not modelled. Nor is Swiper itself: the model stops at the options object.
- Numbers are integers. Fractional `speed` or `slidesPerView` values, and floating-point division in the page count, are not modelled; for integer post counts the ceiling is exact.
- The post's featured image, author image, links and `dateI18n` date formatting are not modelled. Display text, not structure, is out of scope.
- `getEntityRecords` is a parameter, a store from queries to results. The categories request with `per_page: -1` is modelled as the category list passed in, where `None` means not loaded.
- Attribute values that are `null`, as opposed to unset, are not modelled.
- `cn` / `classnames` are modelled as appending each truthy class name in order. Duplicate-class merging is not modelled.
- The modal's InspectorControls, the date-weather block, the DateTimePicker control, the block registration and the frontend modal script are not part of this model.

## Findings

| source | as written | input that shows it | evidently intended | confidence | as-written member | corrected member |
|---|---|---|---|---|---|---|
| wp-content/plugins/magazine-blocks/src/blocks/blocks/latest-posts/Edit.tsx:56-61 | `numberOfPosts` and `page` are read from the component's props. The data wrapper (lines 425-428) returns only `posts` and `categories`, so both are undefined, `Math.ceil(undefined / 4)` is NaN, and the pagination container is drawn empty | `enablePagination` on, with any number of posts | the page count comes from the number of posts, and the current page from the `page` attribute | medium, not executed | LatestPosts.AsWiredShowsNoPages | LatestPosts.Pagination |
