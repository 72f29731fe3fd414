# useStyleTag, modelled in Dafny

`useStyleTag(css, options)` is a React hook. It owns at most one `<style>` element in a document's head. It can load that element (adopt or create it, then fill it with the css), unload it (remove it from the head), and update the css it shows. Mounting loads the element unless the hook is `manual` or not `immediate`. Teardown unloads it when `deleteStyleOnUnmount` is set. Without React, the hook is a two-state controller, Unloaded and Loaded, whose operations are all guarded.

The project has four modules:

- `StyleTagSpec` (`style_tag_spec.dfy`) is the value-level specification. The head is a sequence of `StyleRecord(id, media, text)`, or `None` when there is no head. The controller is a `State`: which element is owned (its position in the head), the loaded flag, the buffered css, and how often `onLoad` and `onUnLoad` have fired. Each operation is a function from the old state to the new one: `LoadSpec`, `UnloadSpec`, `UpdateCssSpec`, `MountSpec` and `TeardownSpec`. `Run` and `Session` chain calls: mount, then any calls, then teardown. `Resolve` fills in the option defaults.
- `StyleTagProperties` (`style_tag_properties.dfy`) proves what the hook promises about those functions. It covers the guards and effects of each operation and the invariants every call keeps. It also proves what a whole session does to the head, and the shared-id behaviour described below.
- `StyleTag` (`style_tag.dfy`) is the imperative model. `Head` is a class whose child list `appendChild` and `removeChild` change in place. `Controller` is a class with the hook's fields `styleRef`, `isLoaded` and `changableCss`, plus counters for the two callbacks. Its methods are `Load`, `Unload`, `UpdateCss`, `Mount` and `Teardown`. Each method is proved against the matching `StyleTagSpec` function through `Abs()`, the controller and its head read as a `State`.
- `StyleTagScenarios` (`style_tag_scenarios.dfy`) is a set of client methods. They follow the behaviour the repository's tests check and the shared-id case, using only the contracts of the `StyleTag` methods and the `StyleTagProperties` lemmas.

Modelling decisions:

- The hook's input is the caller's options (`Options`, where `None` means undefined). `token` stands for the random part of a generated id. `head` is null, or `None`, when there is no document or it has no head.
- `onLoad` and `onUnLoad` are modelled as counters that count their calls.
- Every call takes full effect before the next one. React's deferred `setIsLoaded` and `setChangableCss` are therefore immediate field updates.
- `updateCss` writes into the element only when the value differs from the buffered one. This is because the sync effect depends on `changableCss` and runs only when it changes.
- `load` looks up the id among the head's children and takes the first match; the empty id matches nothing, as with the DOM's `getElementById("")`. A match is adopted as it is. Otherwise a new element is created, given the id and, when the `media` option is truthy, the media, and then appended.

## Shared ids

Two controllers given the same non-empty id share one element. The second `load` adopts the element the first created and overwrites its text. Its id and media are not reset. The second `unload` removes it from the head, and the first `unload` then makes `removeChild` throw a NotFoundError. `StyleTagScenarios.SharedId` shows this sequence on the imperative model. `StyleTagScenarios.StaleAfterReload` shows the same error after the second controller loads again: `createElement` hands out a new node, so the first controller's element stays removed. `StyleTagProperties.AdoptedElementRemoved` shows, at the value level, that unload removes an element the controller never created. The model keeps this behaviour as written: the code evidently does not intend it, but what it should do instead is not clear. The empty id is never shared, because `getElementById("")` finds no element. Each controller given `""` creates and appends its own element, and `StyleTagScenarios.EmptyIdNotShared` shows that each unload then removes only its own. With a head that holds no element of the controller's id, `StyleTagProperties.SessionRestoresHead` proves that a session that deletes on unmount leaves the head as it found it.

Three consequences of the hook's code that a reader might not expect:

- `unload` can throw. `removeChild` (useStyleTag.ts:71) throws a NotFoundError when another controller has already removed the owned element.
- `isLoaded` can be true while the owned element is no longer in the head. This happens in the shared case above: `Controller.Attached` is false while `isLoaded` is true.
- `updateCss` writes only a changed value into the element, because the sync effect depends on `changableCss`. While the owned element shows the buffered css, which `StyleTagSpec.Inv` keeps, this makes no difference.

## Model

| member | source | states |
|---|---|---|
| `StyleTagSpec.Resolve` | src/useStyleTag/useStyleTag.ts:30-39 | a given id is kept, a missing one becomes `head-style-id-` plus the token; `immediate` and `deleteStyleOnUnmount` default to true, `manual` to false; media is passed through |
| `StyleTagSpec.MediaAttribute` | src/useStyleTag/useStyleTag.ts:53-55 | a created element gets the media option when it is a non-empty string; the attribute is empty exactly when the option is undefined or empty |
| `StyleTagSpec.GetElementById` | src/useStyleTag/useStyleTag.ts:47-49 | the result is the position of the first head element carrying a non-empty id; it is the head's length exactly when the id is empty or no element carries it |
| `StyleTagSpec.Init` | src/useStyleTag/useStyleTag.ts:41-43 | a new controller owns nothing, is not loaded, buffers the given css and has fired no callback |
| `StyleTagSpec.LoadSpec` | src/useStyleTag/useStyleTag.ts:45-67 | load keeps the state well formed: loaded exactly when an element is owned, the owned element in the head, never loaded without a head |
| `StyleTagSpec.UnloadSpec` | src/useStyleTag/useStyleTag.ts:69-78 | unload keeps the state well formed |
| `StyleTagSpec.UpdateCssSpec` | src/useStyleTag/useStyleTag.ts:90-99 | updateCss keeps the state well formed |
| `StyleTagSpec.MountSpec` | src/useStyleTag/useStyleTag.ts:80-84 | mount keeps the state well formed |
| `StyleTagSpec.TeardownSpec` | src/useStyleTag/useStyleTag.ts:85-87 | teardown keeps the state well formed |
| `StyleTagProperties.LoadNoOp` | src/useStyleTag/useStyleTag.ts:46 | load changes nothing (head, flags, css, callback counts) when already loaded, when an element is owned, or when there is no head |
| `StyleTagProperties.LoadCreates` | src/useStyleTag/useStyleTag.ts:47-65 | when getElementById finds nothing (the id is empty or no element of the head carries it), load appends exactly one element with the id, the media and the buffered css, owns it, becomes loaded and fires onLoad once |
| `StyleTagProperties.LoadAdopts` | src/useStyleTag/useStyleTag.ts:47-65 | with an element of a non-empty id in the head, load adopts the first one: nothing is appended, its id and media are kept, only its text becomes the css; it is owned, loaded, and onLoad fires once |
| `StyleTagProperties.UnloadRemovesOwned` | src/useStyleTag/useStyleTag.ts:69-78 | unload removes exactly the owned element, keeps every other child in order, releases ownership, clears the flag and fires onUnLoad once |
| `StyleTagProperties.UnloadNoOp` | src/useStyleTag/useStyleTag.ts:70 | unload changes nothing when nothing is loaded |
| `StyleTagProperties.UnloadIdempotent` | src/useStyleTag/useStyleTag.ts:69-78 | a second unload changes nothing |
| `StyleTagProperties.UpdateCssWhileLoaded` | src/useStyleTag/useStyleTag.ts:90-99 | while loaded, updateCss stores the value and the owned element's text becomes it; no element is added or removed and the flags are kept |
| `StyleTagProperties.UpdateCssWhileUnloaded` | src/useStyleTag/useStyleTag.ts:99 | while unloaded, updateCss only buffers the value |
| `StyleTagProperties.UpdateThenLoad` | src/useStyleTag/useStyleTag.ts:60-65 | a value buffered while unloaded is the text the next successful load writes |
| `StyleTagProperties.StepKeepsInv` | src/useStyleTag/useStyleTag.ts:41-99 | every call keeps the invariant: loaded exactly when an element is owned, that element is in the head, carries the id and shows the css |
| `StyleTagProperties.RunKeepsInv` | src/useStyleTag/useStyleTag.ts:41-99 | any sequence of calls keeps that invariant |
| `StyleTagProperties.NoHeadNeverLoads` | src/useStyleTag/useStyleTag.ts:46 | without a head no sequence of calls loads, owns an element or fires a callback |
| `StyleTagProperties.RunKeepsBalanced` | src/useStyleTag/useStyleTag.ts:63-76 | over any sequence of calls onLoad has fired once more than onUnLoad exactly while loaded |
| `StyleTagProperties.SessionCallbacksMatch` | src/useStyleTag/useStyleTag.ts:80-88 | with deleteStyleOnUnmount, after teardown nothing is loaded and onLoad and onUnLoad have fired equally often |
| `StyleTagProperties.StepKeepsPristine` | src/useStyleTag/useStyleTag.ts:45-99 | when getElementById finds nothing in the first head, every call keeps it equal to its first contents, plus the controller's own element at the end while loaded |
| `StyleTagProperties.RunKeepsPristine` | src/useStyleTag/useStyleTag.ts:45-99 | the same over any sequence of calls |
| `StyleTagProperties.SessionRestoresHead` | src/useStyleTag/useStyleTag.ts:80-88 | when getElementById finds nothing in the first head, mount, any calls and a deleting teardown leave the head exactly as it was |
| `StyleTagProperties.AdoptedElementRemoved` | src/useStyleTag/useStyleTag.ts:47-71 | when the head already holds an element with the non-empty id, load then unload removes that element, although the controller never created it |
| `StyleTagProperties.ManualMountAttachesNothing` | src/useStyleTag/useStyleTag.ts:80-84 | with manual set, mounting leaves the controller and the head as they were |
| `StyleTagProperties.DefaultLifecycle` | src/useStyleTag/useStyleTag.test.ts:17-78 | default options on an empty head: mount attaches one element with the css, updateCss rewrites its text, unload leaves the head empty; each callback fires once |
| `StyleTagProperties.CustomIdUsed` | src/useStyleTag/useStyleTag.ts:34 | a supplied id is the configured id and, when getElementById finds nothing, the id of the element mount creates |
| `StyleTag.Head.CreateElement` | src/useStyleTag/useStyleTag.ts:49 | a created element is a node never handed out before (the document's node counter advances past it) and has empty id, media and text |
| `StyleTag.Head.AppendChild` | src/useStyleTag/useStyleTag.ts:57 | the element becomes the last child; the rest are unchanged |
| `StyleTag.Head.RemoveChild` | src/useStyleTag/useStyleTag.ts:71 | the child with that identity is removed and the rest are kept in order; a NotFoundError, with the head unchanged, exactly when there is none |
| `StyleTag.Head.ElementForId` | src/useStyleTag/useStyleTag.ts:47-58 | the element is the first child found by id, with the head unchanged; or, when lookup finds nothing, a new node with the id, the media attribute and no text, appended as the last child; a created node is one never handed out before |
| `StyleTag.Head.WriteStyle` | src/useStyleTag/useStyleTag.ts:47-60 | after the element is found or created and its text set to the css, the head is the one `LoadSpec` prescribes, with the element at the owned position; it is an old child or a node never handed out before, and existing children keep their identity and position |
| `StyleTag.Head.SetTextContent` | src/useStyleTag/useStyleTag.ts:92 | only the text of the child with that identity changes; every child keeps its identity and position |
| `StyleTag.LoadedHead` | src/useStyleTag/useStyleTag.ts:47-61 | adopting or creating the element, then writing the css into it, gives the head and owned position `LoadSpec` prescribes |
| `StyleTag.Controller.constructor` | src/useStyleTag/useStyleTag.ts:30-43 | the options are resolved and the controller starts in `Init` |
| `StyleTag.Controller.Id` | src/useStyleTag/useStyleTag.ts:34 | the returned id is the id option when it was given, and otherwise the generated prefix followed by the controller's random suffix |
| `StyleTag.Controller.Load` | src/useStyleTag/useStyleTag.ts:45-67 | the new controller and head are `LoadSpec` of the old ones; if the owned element is no longer in the head, nothing changes; existing children keep their identity and position; a newly owned element is an old child or a node never handed out before |
| `StyleTag.Controller.Unload` | src/useStyleTag/useStyleTag.ts:69-78 | completes with `UnloadSpec` of the old state, or, when the owned element is no longer in the head, throws NotFoundError and changes nothing; a completed unload leaves exactly the other children, in order; with nothing loaded, nothing changes |
| `StyleTag.Controller.UpdateCss` | src/useStyleTag/useStyleTag.ts:90-99 | the new state is `UpdateCssSpec` of the old one; with a detached element the value is only stored; the owned element and every child keep their identity |
| `StyleTag.Controller.Mount` | src/useStyleTag/useStyleTag.ts:80-84 | the new state is `MountSpec` of the old one; existing children keep their identity and position; a newly owned element is an old child or a node never handed out before |
| `StyleTag.Controller.Teardown` | src/useStyleTag/useStyleTag.ts:85-87 | the new state is `TeardownSpec` of the old one; NotFoundError exactly when it unloads a detached element; when it unloads, exactly the other children remain, in order; otherwise nothing changes |
| `StyleTagScenarios.MountUpdateUnload` | src/useStyleTag/useStyleTag.test.ts:51-78 | on the objects: mount shows the css, updateCss rewrites the same element, unload empties the head and clears the flag |
| `StyleTagScenarios.ManualThenLoad` | src/useStyleTag/useStyleTag.test.ts:30-49 | with manual, mount attaches nothing and an explicit load attaches the element |
| `StyleTagScenarios.CustomId` | src/useStyleTag/useStyleTag.test.ts:80-92 | the returned id and the element's id are the supplied one |
| `StyleTagScenarios.CallbackCounts` | src/useStyleTag/useStyleTag.test.ts:94-114 | onLoad fires once on mount, onUnLoad once on unload and not again on a second unload |
| `StyleTagScenarios.NoHead` | src/useStyleTag/useStyleTag.test.ts:116-130 | without a head, mount and load leave the controller unloaded and fire nothing |
| `StyleTagScenarios.SharedId` | src/useStyleTag/useStyleTag.ts:47-71 | two controllers with one non-empty id share one element; after the second unloads, the first's unload throws NotFoundError |
| `StyleTagScenarios.EmptyIdNotShared` | src/useStyleTag/useStyleTag.ts:47-71 | two controllers given the empty id each append their own element; each unload completes and removes only its own |
| `StyleTagScenarios.EmptyIdTeardown` | src/useStyleTag/useStyleTag.ts:69-87 | with the empty id, one controller's teardown leaves the other's element in the head, and the other's unload then completes |
| `StyleTagScenarios.SharedIdUpdate` | src/useStyleTag/useStyleTag.ts:69-99 | with a shared non-empty id, an update through one controller rewrites the shared element, and the other's unload then completes and removes it |
| `StyleTagScenarios.StaleAfterReload` | src/useStyleTag/useStyleTag.ts:45-78 | with a shared non-empty id, after one controller unloads and loads again with a new element, the other's unload throws NotFoundError, because it still holds the removed element |

## Left out

- React machinery is not modelled: render batching, `useRef`, effect scheduling and `useCallback` memoisation. The closures' captured `id`, `media` and `document` are fixed configuration. The mount effect is not re-run when `immediate` or `manual` change between renders.
- The `css` argument of later renders is not modelled. The hook reads it only as the initial state (`useState(css)`), and the model passes it once to the constructor.
- The random id is not modelled. `Math.random().toString(36).substring(2)` is replaced by the `token` parameter.
- The redrawn generated id is not modelled. Without an `id` option, the default on useStyleTag.ts:34 is evaluated on every render, so each render draws a new id. The model fixes a single draw per controller. In the hook, the id returned after the first render no longer names the element `load` created, and a `load` memoised in a later render looks up and creates with yet another id.
- The `window.document` default is not modelled: the head is passed in. A missing document and a missing head are the same case.
- Real DOM lookup is not modelled. `getElementById` searches the whole document, and the model searches only the head. Every element found is therefore connected, and `isConnected` reduces to "found in the head".
- Style elements are values in the head's child list, identified by a node number, not separate heap objects. The model does not keep the text written into an element after it has left the head.
- The callbacks' own effects are not modelled: `onLoad` and `onUnLoad` are counters. An exception thrown by a callback is not modelled either.
- Controller.Load: when the owned element has left the head, the contract only says nothing changes; there is no `LoadSpec` view of that state.
- Controller.UpdateCss: when the owned element has left the head, the contract says only that the value is stored and the head is unchanged.
