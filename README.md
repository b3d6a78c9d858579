# Listable presentation core, modelled in Dafny

This project models five small pieces of the Listable list engine and proves what
they promise:

- **Header/footer presentation state** (`HeaderFooterState.dfy`). A
  `HeaderFooterState` holds the current header/footer model and a size cache
  `map<SizeKey, Size>`. `SetNew` always replaces the model. It empties the cache
  unless the content type's equivalence says the new model is equivalent to the old
  one. `SizeFor` returns zero for an empty constraint. Otherwise it returns the
  cached size for the key (width, height, direction, sizing), or measures, stores
  and returns. A ghost invariant `Sound` says every cached size equals a fresh
  measurement of the model's content under the key's sizing policy. Lookups keep it
  when measurement depends only on the keyed parts of the request. A `setNew` keeps
  it whenever equivalent models measure alike under each sizing policy. `HeaderFooterViewStatePair` tracks the visible
  container. Assigning its `state` hands the new state on only when the object
  changed and a container is visible.
- **Visible-content tracker** (`VisibleContent.dfy`). `Update` takes the host's
  visible sets. It fires `isDisplayed = false` for each item handle that left and
  then `isDisplayed = true` for each handle that arrived. Then it stores the new
  sets. The transitions are returned as a log. Lemmas prove these facts about the
  log: which handles it names, that hiding comes first, that items visible before
  and after get nothing, and that repeating the same query fires nothing.
  Handles compare by index path and node identity. A node is a Dafny reference,
  so it compares by identity. Because the index path is part of the handle, a
  node that stays on screen but moves to another index path is hidden at its old
  path and then shown at its new one within a single update.
- **Key-path equivalence** (`KeyPathEquivalent.dfy`). This is an ordered list of
  comparisons. `IsEquivalent` is their short-circuit conjunction. Its ghost
  out-parameter counts the comparisons it evaluated. Lemmas prove that appending
  a comparison conjoins it and can only make the relation stricter.
- **Table-view builders** (`ContentBuilder.dfy`). These are `ContentBuilder`,
  `SectionBuilder` and `ContentBuilder.build`. `RemoveEmpty` is specified by the
  filter `NonEmpty`. Lemmas prove the filter keeps order, drops every empty
  section, is idempotent and keeps `isEmpty`.
- **List properties** (`ListProperties.dfy`). The constructor stores its
  arguments and starts from empty content. Then it runs the build block, which may
  assign any public field and append sections. The result is the block replayed
  over the arguments. Its sections are those of the last `content` the block
  assigns, or none, followed in order by the sections the later steps append. A
  block that only appends leaves every setting as passed in. The append
  operations add sections at the end and touch nothing else.

A `build`/`configure` block hands `inout Self` to caller code. Here such a block is
a sequence of the builder's own operations, replayed in order (`BuildStep`).
Swift structs with `mutating` methods are classes here.

Two behaviours of the code worth noting:

- The code's `setNew` does not re-apply a displayed view on a non-equivalent update.
  It only resets the size cache.
- A sizing-policy change does not clear the cache. The policy is part of the key,
  so entries for another policy are simply not used.

## Model

| member | source | states |
|---|---|---|
| HeaderFooterState.HeaderFooterState.constructor | ListableUI/Sources/Internal/PresentationState/PresentationState.HeaderFooterState.swift:91-95 | a new state holds the given model and flag, with an empty size cache |
| HeaderFooterState.HeaderFooterState.SetNew | ListableUI/Sources/Internal/PresentationState/PresentationState.HeaderFooterState.swift:150-161 | the model is always the supplied one; the cache is empty afterwards if the new model is not equivalent to the old, and unchanged if it is |
| HeaderFooterState.HeaderFooterState.ResetCachedSizes | ListableUI/Sources/Internal/PresentationState/PresentationState.HeaderFooterState.swift:163-168 | the cache is empty and the model untouched |
| HeaderFooterState.HeaderFooterState.SizeFor | ListableUI/Sources/Internal/PresentationState/PresentationState.HeaderFooterState.swift:170-212 | empty constraint: zero, cache untouched; hit: the stored size, cache untouched; miss: the measurement of the whole request, stored under (width, height, direction, sizing); a sound cache stays sound when measurement depends only on the keyed parts |
| HeaderFooterState.KeyForInjective | ListableUI/Sources/Internal/PresentationState/PresentationState.HeaderFooterState.swift:180-185 | two requests share a cache entry exactly when constraint, direction and sizing all agree; the rest of the request plays no part |
| HeaderFooterState.StoreKeepsSound | ListableUI/Sources/Internal/PresentationState/PresentationState.HeaderFooterState.swift:180-207 | storing a fresh measurement under its key keeps a sound cache sound, provided measurement depends only on the constraint and direction |
| HeaderFooterState.LookupIsTransparent | ListableUI/Sources/Internal/PresentationState/PresentationState.HeaderFooterState.swift:176-211 | with a sound cache, and measurement that depends only on the constraint and direction, a non-empty lookup returns exactly the fresh measurement and leaves the cache sound |
| HeaderFooterState.LookupRepeat | ListableUI/Sources/Internal/PresentationState/PresentationState.HeaderFooterState.swift:187-210 | an immediate repeat of a lookup returns the same size and changes nothing |
| HeaderFooterState.SetNewKeepsSound | ListableUI/Sources/Internal/PresentationState/PresentationState.HeaderFooterState.swift:150-160 | if equivalent models measure alike under each sizing policy, the cache left by setNew is still sound for the new model, even when its sizing changed, because the sizing is part of the key |
| HeaderFooterState.HeaderFooterViewStatePair.constructor | ListableUI/Sources/Internal/PresentationState/PresentationState.HeaderFooterState.swift:42-58 | a pair starts with no state and no visible container |
| HeaderFooterState.HeaderFooterViewStatePair.SetState | ListableUI/Sources/Internal/PresentationState/PresentationState.HeaderFooterState.swift:44-55 | the state is stored; a visible container receives it only if it is a different object; otherwise the container is untouched |
| HeaderFooterState.HeaderFooterViewStatePair.WillDisplay | ListableUI/Sources/Internal/PresentationState/PresentationState.HeaderFooterState.swift:60-63 | the visible container becomes the given view; the state is unchanged |
| HeaderFooterState.HeaderFooterViewStatePair.DidEndDisplay | ListableUI/Sources/Internal/PresentationState/PresentationState.HeaderFooterState.swift:65-68 | there is no visible container afterwards; the state is unchanged |
| HeaderFooterState.HeaderFooterViewStatePair.ApplyToVisibleView | ListableUI/Sources/Internal/PresentationState/PresentationState.HeaderFooterState.swift:70-81 | the state is applied, for reason wasUpdated, to the container's content view exactly when container, content view and state all exist; otherwise nothing happens |
| VisibleContent.ItemHandleIdentity | Listable/Sources/ListView/ListView.VisibleContent.swift:124-138 | item handles are equal exactly when index path and node identity agree; distinct nodes with equal identifiers give distinct handles |
| VisibleContent.HeaderFooterHandleIdentity | Listable/Sources/ListView/ListView.VisibleContent.swift:104-121 | header/footer handles are equal exactly when kind, index path and pair identity agree |
| VisibleContent.Announce | Listable/Sources/ListView/ListView.VisibleContent.swift:27-33 | one forEach over a set fires the given display flag exactly once per handle of the set and for nothing else |
| VisibleContent.UpdateLogHides | Listable/Sources/ListView/ListView.VisibleContent.swift:24-29 | a handle receives isDisplayed = false exactly when it was visible before and is not now |
| VisibleContent.UpdateLogShows | Listable/Sources/ListView/ListView.VisibleContent.swift:25-33 | a handle receives isDisplayed = true exactly when it is visible now and was not before |
| VisibleContent.UpdateLogSkipsSurvivors | Listable/Sources/ListView/ListView.VisibleContent.swift:24-33 | a handle visible before and after receives no transition |
| VisibleContent.UpdateLogHidesFirst | Listable/Sources/ListView/ListView.VisibleContent.swift:27-33 | all hiding transitions come first, then all showing ones |
| VisibleContent.UpdateLogMovedNode | Listable/Sources/ListView/ListView.VisibleContent.swift:24-33 | a node that stays visible but changes index path is hidden at the old path and afterwards shown at the new one |
| VisibleContent.UpdateLogRepeat | Listable/Sources/ListView/ListView.VisibleContent.swift:24-36 | an update whose visible set equals the stored one, as after a repeated query, fires nothing |
| VisibleContent.VisibleContent.constructor | Listable/Sources/ListView/ListView.VisibleContent.swift:15-16 | nothing is visible at first |
| VisibleContent.VisibleContent.Update | Listable/Sources/ListView/ListView.VisibleContent.swift:18-37 | the stored sets become the queried ones; the transition log hides old-minus-new and then shows new-minus-old; header/footer changes fire nothing |
| VisibleContent.VisibleContent.CurrentInfo | Listable/Sources/ListView/ListView.VisibleContent.swift:39-48 | info lists exactly the (identifier, index path) of visible items and the (kind, index path) of visible headers/footers |
| KeyPathEquivalent.AllAcceptIffEvery | ListableUI/Sources/IsEquivalent/KeyPathEquivalent.swift:51-59 | the short-circuit evaluation accepts exactly when every comparison accepts |
| KeyPathEquivalent.AllAcceptAppend | ListableUI/Sources/IsEquivalent/KeyPathEquivalent.swift:46-58 | appending a comparison conjoins it with the existing ones |
| KeyPathEquivalent.AddingIsStricter | ListableUI/Sources/IsEquivalent/KeyPathEquivalent.swift:42-58 | adding comparisons never turns a non-equivalent pair into an equivalent one |
| KeyPathEquivalent.NoComparisonsAllEquivalent | ListableUI/Sources/IsEquivalent/KeyPathEquivalent.swift:15-21 | with no comparisons every pair is equivalent |
| KeyPathEquivalent.KeyPathEquivalent.constructor | ListableUI/Sources/IsEquivalent/KeyPathEquivalent.swift:15-21 | starts from no comparisons and holds, in order, those the configure block adds |
| KeyPathEquivalent.KeyPathEquivalent.Add | ListableUI/Sources/IsEquivalent/KeyPathEquivalent.swift:42-49 | exactly one comparison is appended, on the key-path projections of both values; the relation becomes the old one conjoined with it |
| KeyPathEquivalent.KeyPathEquivalent.AddEquatable | ListableUI/Sources/IsEquivalent/KeyPathEquivalent.swift:23-27 | appends a comparison that holds exactly when the projections are equal |
| KeyPathEquivalent.KeyPathEquivalent.AddIdentical | ListableUI/Sources/IsEquivalent/KeyPathEquivalent.swift:29-33 | appends a comparison that holds exactly when the projections are the same object |
| KeyPathEquivalent.KeyPathEquivalent.IsEquivalent | ListableUI/Sources/IsEquivalent/KeyPathEquivalent.swift:51-59 | true exactly when every comparison holds; on false, the last comparison evaluated is the first failing one and none after it is evaluated |
| ContentBuilder.FirstNonEmpty | ListableTableView/Sources/ContentBuilder.swift:38-40 | the index found is the first section with rows; none is found exactly when no section has rows |
| ContentBuilder.NonEmptyAppend | ListableTableView/Sources/ContentBuilder.swift:42-47 | removing empty sections commutes with concatenation, so relative order is kept |
| ContentBuilder.NonEmptyMembers | ListableTableView/Sources/ContentBuilder.swift:42-47 | a section remains exactly when it was present and has rows |
| ContentBuilder.NonEmptyHasNoEmpty | ListableTableView/Sources/ContentBuilder.swift:42-47 | after removing empty sections no remaining section is empty |
| ContentBuilder.NonEmptyKeepsFull | ListableTableView/Sources/ContentBuilder.swift:42-47 | sections that all have rows are left unchanged |
| ContentBuilder.NonEmptyIdempotent | ListableTableView/Sources/ContentBuilder.swift:42-47 | removing empty sections twice equals removing them once |
| ContentBuilder.NonEmptyKeepsEmptiness | ListableTableView/Sources/ContentBuilder.swift:38-47 | removing empty sections does not change isEmpty |
| ContentBuilder.ContentBuilder.constructor | ListableTableView/Sources/ContentBuilder.swift:31-36 | a new builder has no refresh control, header, footer or sections |
| ContentBuilder.ContentBuilder.CurrentContent | ListableTableView/Sources/ContentBuilder.swift:22-29 | content carries refresh control, header, footer and sections over unchanged |
| ContentBuilder.ContentBuilder.IsEmpty | ListableTableView/Sources/ContentBuilder.swift:38-40 | true exactly when no section has rows, including zero sections |
| ContentBuilder.ContentBuilder.RemoveEmpty | ListableTableView/Sources/ContentBuilder.swift:42-47 | the sections become the non-empty ones in their original order; the other fields are unchanged |
| ContentBuilder.ContentBuilder.AppendSection | ListableTableView/Sources/ContentBuilder.swift:49-52 | one section is appended at the end; nothing else changes |
| ContentBuilder.ContentBuilder.AppendSections | ListableTableView/Sources/ContentBuilder.swift:54-57 | the sections are appended at the end in order; nothing else changes |
| ContentBuilder.ReplaySnoc | ListableTableView/Sources/ContentBuilder.swift:15-20 | each step of a build block acts on the content the earlier steps produced |
| ContentBuilder.BlockEndingInRemoveEmpty | ListableTableView/Sources/ContentBuilder.swift:15-20 | a build block whose last step is removeEmpty yields no empty section |
| ContentBuilder.ReplayAppends | ListableTableView/Sources/ContentBuilder.swift:49-57 | a block of appends adds exactly its sections, in order, after the existing ones and changes nothing else |
| ContentBuilder.Build | ListableTableView/Sources/ContentBuilder.swift:15-20 | build runs the block on a fresh, empty builder and returns its content |
| ContentBuilder.SectionBuilder.constructor | ListableTableView/Sources/ContentBuilder.swift:62 | a new section builder has no rows |
| ContentBuilder.SectionBuilder.IsEmpty | ListableTableView/Sources/ContentBuilder.swift:64-66 | true exactly when there are no rows |
| ContentBuilder.SectionBuilder.AppendRow | ListableTableView/Sources/ContentBuilder.swift:69-72 | the row is appended at the end |
| ContentBuilder.SectionBuilder.AppendElement | ListableTableView/Sources/ContentBuilder.swift:75-80 | a row wrapping the element is appended at the end |
| ContentBuilder.SectionBuilder.AppendRows | ListableTableView/Sources/ContentBuilder.swift:83-92 | the rows are appended at the end in order |
| ContentBuilder.SectionBuilder.AppendElements | ListableTableView/Sources/ContentBuilder.swift:95-102 | one wrapping row per element is appended, in the elements' order, after the existing rows |
| ListProperties.StepSections | Listable/Sources/ListProperties.swift:73-91 | add and callAsFunction each contribute exactly one section; a field assignment contributes none |
| ListProperties.ReplaySnoc | Listable/Sources/ListProperties.swift:70 | each step of the build block acts on the properties the earlier steps produced |
| ListProperties.FinalSectionsAppend | Listable/Sources/ListProperties.swift:73-86 | steps that do not assign content append their sections, in order, after those the earlier steps leave behind |
| ListProperties.FinalSectionsWithoutReset | Listable/Sources/ListProperties.swift:73-86 | a block that never assigns content leaves the starting sections followed by its own in order |
| ListProperties.FinalSectionsAfterReset | Listable/Sources/ListProperties.swift:26-86 | after the last assignment of content, the sections are that content's followed by those the later steps append |
| ListProperties.ReplaySections | Listable/Sources/ListProperties.swift:68-91 | the resulting sections are those of the last content the block assigns, or the starting ones, followed in order by the sections the later steps append |
| ListProperties.BlockWithoutResetSections | Listable/Sources/ListProperties.swift:68-91 | a block that never assigns content leaves the starting sections followed by its own sections in order |
| ListProperties.ReplayKeepsSettings | Listable/Sources/ListProperties.swift:56-70 | a block that only appends sections leaves every setting as it was passed in |
| ListProperties.ReplaySettingsIgnoreContent | Listable/Sources/ListProperties.swift:56-70 | the settings a block leaves behind do not depend on the content it started from |
| ListProperties.BlockSectionsSnoc | Listable/Sources/ListProperties.swift:68-70 | each step of the build block appends after the sections of the earlier steps |
| ListProperties.BlockSectionsCount | Listable/Sources/ListProperties.swift:73-91 | a block of single-section steps appends exactly one section per step |
| ListProperties.ListProperties.Current | Listable/Sources/ListProperties.swift:13-26 | the snapshot holds each of the nine stored fields unchanged |
| ListProperties.ListProperties.constructor | Listable/Sources/ListProperties.swift:44-71 | the fields are the arguments and the content is empty before the block runs; afterwards the properties are the block replayed over them; the sections are those of the last content the block assigns followed by the later steps' sections, and exactly the block's sections when it never assigns content |
| ListProperties.ListProperties.Perform | Listable/Sources/ListProperties.swift:70 | one step of the build block assigns one field or appends that step's sections, and leaves everything else alone |
| ListProperties.ListProperties.AddSection | Listable/Sources/ListProperties.swift:73-76 | the section is appended, the count grows by one, earlier sections and all other fields are unchanged |
| ListProperties.ListProperties.AppendSection | Listable/Sources/ListProperties.swift:78-81 | behaves exactly like add |
| ListProperties.ListProperties.AppendSections | Listable/Sources/ListProperties.swift:83-86 | the array's sections are appended in order; other fields are unchanged |
| ListProperties.ListProperties.CallAsFunction | Listable/Sources/ListProperties.swift:88-91 | exactly one section is appended, built from an empty section with the given identifier |

## Left out

- `calculateVisibleContent` (ListView.VisibleContent.swift:65-98) queries the host's layout attributes. Its result is the `VisibleQuery` parameter of `Update`. The `.decorationView` fatal error and the unknown-category assertion belong to that query.
- `updateVisibleViews` is not modelled. For each header/footer it calls `applyToVisibleView`, which is modelled as `HeaderFooterViewStatePair.ApplyToVisibleView`. For each item it calls `applyToVisibleCell`, and the item state is not part of this model.
- `setAndPerform(isDisplayed:)` is recorded as a `SetDisplayed` transition in the returned log. Its effect on the item node is not shown, so it is not modelled.
- Sets have no iteration order. `Announce` may fire a set's handles in any order, and the lemmas hold for every order.
- View dequeue and enqueue, `applyTo`, the `onTap` and `onPrepareForReuse` closures, `ReusableViewCache`, `HeaderFooterContentView` and `SignpostLogger` are not modelled. They are UIKit plumbing and logging.
- `anyModel` is not modelled separately. It only exposes the `model` field.
- HeaderFooterState.HeaderFooterState.SizeFor: measuring is a parameter, `measure(model, info)`. It stands in for laying out a reusable view with the environment. `sizeConstraint.isEmpty` is the parameter `isEmpty`, because its definition is not part of this model.
- `Sizing.MeasureInfo` is the constraint, the direction and an opaque remainder. The measurement receives the whole request, but the key holds only the constraint and the direction.
- HeaderFooterState.LookupIsTransparent: a cache hit returns a measurement made for another request with the same key. So the lemma, `StoreKeepsSound` and the soundness clause of `SizeFor` assume that measurement depends only on the constraint and the direction (`KeyedOnly`). The source relies on this without stating it.
- Sizes are reals. CGFloat rounding is not modelled.
- `anyIsEquivalent` is the content type's comparator, a constant field of the state. Its internals are not shown.
- The `as!` downcasts are not modelled. The typed model makes a type mismatch impossible.
- HeaderFooterState.SetNewKeepsSound assumes that equivalent models measure alike under each sizing policy (`RespectsEquivalence`). The source does not state this. It is the reason the cache is kept for an equivalent model.
- `SupplementaryContainerView` is not one of the modelled files. Its `headerFooter` is a plain stored field here, and `SetState` leaves the container's content view alone. Any work the real container does when its `headerFooter` changes, such as swapping its content view, is not captured.
- `ListProperties.default` is not modelled. It reads `UIView.inheritedAnimationDuration`, and the default values of the layout, appearance and behavior types are not part of this model.
- ListProperties.ListProperties.constructor: the build block is a sequence of field assignments (including `content`), `add`, `+=` and `callAsFunction`. A block that reads the properties to decide what to do, or mutates a field's value in place (such as `content.sections.removeAll()` or one property of `layout`), is modelled only through the values it finally assigns.
- ContentBuilder.Build: the block is limited to the builder's own operations and to setting its refresh control, header and footer.
- KeyPathEquivalent.KeyPathEquivalent.constructor: the configure block is given as the list of comparisons its `add` calls append, in order.
- The `AnyObject & Equatable` overload of `add` (KeyPathEquivalent.swift:35-40) behaves exactly like the `Equatable` one, so `AddEquatable` covers it.
- The two array-of-rows overloads of `SectionBuilder.+=` differ only in static row type. One method, `AppendRows`, models both.
- Comparisons are total functions without side effects. "Not consulted" is therefore observable only through the ghost count `consulted` that `IsEquivalent` returns.
- The Swift builders, `KeyPathEquivalent` and `VisibleContent` are structs with value semantics. They are classes here, and copying on assignment is not modelled.
- Listable's `Content` has more fields than `sections`. These operations touch only `sections`, so only `sections` is modelled.
- The section/item reconciler is not part of this model. None of the modelled files contains it.
