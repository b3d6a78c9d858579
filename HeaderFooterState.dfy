// Model of ListableUI/Sources/Internal/PresentationState/PresentationState.HeaderFooterState.swift:
// the presentation state of one header or footer (its current model and its
// memoized measurements) and the pair that links that state to the container
// view showing it.

module HeaderFooterState {
  import opened Wrappers

  /** The header/footer content and its sizing policy are opaque here. */
  type Content(!new)
  type Sizing(==, !new)

  datatype LayoutDirection = Vertical | Horizontal

  /** A `CGSize`; floating-point rounding is not modelled. */
  datatype Size = Size(width: real, height: real)

  const Zero := Size(0.0, 0.0)

  /** Everything in `Sizing.MeasureInfo` besides the constraint and the direction. */
  type MeasureExtras(==, !new)

  /** `Sizing.MeasureInfo`: the constraint and direction this code reads, and the rest,
      which only the measurement sees. */
  datatype MeasureInfo = MeasureInfo(sizeConstraint: Size, direction: LayoutDirection, extras: MeasureExtras)

  /** Cache key: the constraint's width and height, the direction and the sizing policy. */
  datatype SizeKey = SizeKey(width: real, height: real, layoutDirection: LayoutDirection, sizing: Sizing)

  /** `HeaderFooter<Content>`: the model a state node presents. */
  datatype HeaderFooter = HeaderFooter(content: Content, sizing: Sizing)

  /** Why a model is applied to a view. */
  datatype ApplyReason = WillDisplay | WasUpdated

  /** The key under which a measurement for `info` with policy `sizing` is stored. */
  function KeyFor(info: MeasureInfo, sizing: Sizing): (k: SizeKey)
  {
    SizeKey(info.sizeConstraint.width, info.sizeConstraint.height, info.direction, sizing)
  }

  /** Two requests share a cache entry exactly when they agree on constraint,
      direction and policy; the rest of the request plays no part. */
  lemma KeyForInjective(a: MeasureInfo, s: Sizing, b: MeasureInfo, t: Sizing)
    ensures KeyFor(a, s) == KeyFor(b, t) <==>
      a.sizeConstraint == b.sizeConstraint && a.direction == b.direction && s == t
  {
    if KeyFor(a, s) == KeyFor(b, t) {
      assert a.sizeConstraint == Size(KeyFor(a, s).width, KeyFor(a, s).height);
      assert b.sizeConstraint == Size(KeyFor(b, t).width, KeyFor(b, t).height);
    }
  }

  /** The assumption the cache rests on: a measurement depends on the request only
      through the constraint and the direction, the parts of the key. */
  ghost predicate KeyedOnly(measure: (HeaderFooter, MeasureInfo) -> Size)
  {
    forall m: HeaderFooter, a: MeasureInfo, b: MeasureInfo :: a.sizeConstraint == b.sizeConstraint && a.direction == b.direction ==>
      measure(m, a) == measure(m, b)
  }

  /** The model with another sizing policy. */
  function WithSizing(model: HeaderFooter, sizing: Sizing): (m: HeaderFooter)
    ensures m.content == model.content && m.sizing == sizing
  {
    model.(sizing := sizing)
  }

  /** Every cached size is what measuring `model`'s content under the key's sizing
      policy would give, for every request that maps to that key. */
  ghost predicate Sound(cache: map<SizeKey, Size>, model: HeaderFooter, measure: (HeaderFooter, MeasureInfo) -> Size)
  {
    forall info, sizing :: KeyFor(info, sizing) in cache ==>
      cache[KeyFor(info, sizing)] == measure(WithSizing(model, sizing), info)
  }

  /** Equivalent models measure alike under any one sizing policy: equivalence is
      about the content, and the policy is compared through the key. */
  ghost predicate RespectsEquivalence(
    measure: (HeaderFooter, MeasureInfo) -> Size, isEquivalent: (HeaderFooter, HeaderFooter) -> bool)
  {
    forall a, b, sizing, info :: isEquivalent(a, b) ==>
      measure(WithSizing(a, sizing), info) == measure(WithSizing(b, sizing), info)
  }

  /** The cache `setNew` leaves behind: kept for an equivalent model, emptied otherwise. */
  function CacheAfterSetNew(
    isEquivalent: (HeaderFooter, HeaderFooter) -> bool, oldModel: HeaderFooter,
    newModel: HeaderFooter, cache: map<SizeKey, Size>): map<SizeKey, Size>
  {
    if isEquivalent(newModel, oldModel) then cache else map[]
  }

  /** The result of `size(for:)` and the cache after it, for a given emptiness verdict. */
  function Lookup(
    cache: map<SizeKey, Size>, model: HeaderFooter, info: MeasureInfo, constraintIsEmpty: bool,
    measure: (HeaderFooter, MeasureInfo) -> Size): (Size, map<SizeKey, Size>)
  {
    if constraintIsEmpty then (Zero, cache)
    else
      var key := KeyFor(info, model.sizing);
      if key in cache then (cache[key], cache)
      else (measure(model, info), cache[key := measure(model, info)])
  }

  /** A miss stores the fresh measurement under its key; when measurement depends only
      on the keyed fields, the cache stays sound. */
  lemma StoreKeepsSound(
    cache: map<SizeKey, Size>, model: HeaderFooter, info: MeasureInfo,
    measure: (HeaderFooter, MeasureInfo) -> Size)
    requires KeyedOnly(measure)
    requires Sound(cache, model, measure)
    ensures Sound(cache[KeyFor(info, model.sizing) := measure(model, info)], model, measure)
  {
    var key := KeyFor(info, model.sizing);
    var cache' := cache[key := measure(model, info)];
    forall info', sizing | KeyFor(info', sizing) in cache'
      ensures cache'[KeyFor(info', sizing)] == measure(WithSizing(model, sizing), info')
    {
      if KeyFor(info', sizing) == key {
        KeyForInjective(info', sizing, info, model.sizing);
        assert WithSizing(model, sizing) == model;
      }
    }
  }

  /** With a sound cache, and measurement that depends only on the keyed fields, a
      lookup answers exactly what measuring would, and the cache stays sound. */
  lemma LookupIsTransparent(
    cache: map<SizeKey, Size>, model: HeaderFooter, info: MeasureInfo,
    measure: (HeaderFooter, MeasureInfo) -> Size)
    requires KeyedOnly(measure)
    requires Sound(cache, model, measure)
    ensures Lookup(cache, model, info, false, measure).0 == measure(model, info)
    ensures Sound(Lookup(cache, model, info, false, measure).1, model, measure)
  {
    var key := KeyFor(info, model.sizing);
    if key in cache {
      assert WithSizing(model, model.sizing) == model;
      assert cache[key] == measure(model, info);
    } else {
      StoreKeepsSound(cache, model, info, measure);
    }
  }

  /** Asking again for the same request returns the same size and leaves the cache alone. */
  lemma LookupRepeat(
    cache: map<SizeKey, Size>, model: HeaderFooter, info: MeasureInfo, constraintIsEmpty: bool,
    measure: (HeaderFooter, MeasureInfo) -> Size)
    ensures var (size, cache') := Lookup(cache, model, info, constraintIsEmpty, measure);
      Lookup(cache', model, info, constraintIsEmpty, measure) == (size, cache')
  {
  }

  /** An equivalent `setNew` keeps a sound cache sound when equivalent models measure
      alike under each sizing policy, even when the new model has another policy; a
      non-equivalent one leaves an empty, hence sound, cache. */
  lemma SetNewKeepsSound(
    isEquivalent: (HeaderFooter, HeaderFooter) -> bool, measure: (HeaderFooter, MeasureInfo) -> Size,
    oldModel: HeaderFooter, newModel: HeaderFooter, cache: map<SizeKey, Size>)
    requires RespectsEquivalence(measure, isEquivalent)
    requires Sound(cache, oldModel, measure)
    ensures Sound(CacheAfterSetNew(isEquivalent, oldModel, newModel, cache), newModel, measure)
  {
    if isEquivalent(newModel, oldModel) {
      forall info, sizing | KeyFor(info, sizing) in cache
        ensures cache[KeyFor(info, sizing)] == measure(WithSizing(newModel, sizing), info)
      {
        assert measure(WithSizing(newModel, sizing), info) == measure(WithSizing(oldModel, sizing), info);
      }
    }
  }

  /** `HeaderFooterState<Content>`: one header/footer's model and size cache. */
  class HeaderFooterState {
    var model: HeaderFooter
    const performsContentCallbacks: bool
    /** The content type's `isEquivalent(to:)`, as `anyIsEquivalent` uses it. */
    const isEquivalent: (HeaderFooter, HeaderFooter) -> bool
    var cachedSizes: map<SizeKey, Size>

    constructor(model: HeaderFooter, performsContentCallbacks: bool,
      isEquivalent: (HeaderFooter, HeaderFooter) -> bool)
      ensures this.model == model && this.performsContentCallbacks == performsContentCallbacks
      ensures this.isEquivalent == isEquivalent && cachedSizes == map[]
    {
      this.model := model;
      this.performsContentCallbacks := performsContentCallbacks;
      this.isEquivalent := isEquivalent;
      cachedSizes := map[];
    }

    /** `setNew(headerFooter:)`: always take the new model; drop every cached size
        unless the new model is equivalent to the old one. */
    method SetNew(headerFooter: HeaderFooter)
      modifies this
      ensures model == headerFooter
      ensures !isEquivalent(headerFooter, old(model)) ==> cachedSizes == map[]
      ensures isEquivalent(headerFooter, old(model)) ==> cachedSizes == old(cachedSizes)
      ensures cachedSizes == CacheAfterSetNew(isEquivalent, old(model), headerFooter, old(cachedSizes))
    {
      var oldModel := model;
      model := headerFooter;
      var equivalent := isEquivalent(model, oldModel);
      if !equivalent {
        ResetCachedSizes();
      }
    }

    /** `resetCachedSizes()`: forget every measurement. */
    method ResetCachedSizes()
      modifies this
      ensures cachedSizes == map[] && model == old(model)
    {
      cachedSizes := map[];
    }

    /** `size(for:cache:environment:)`: zero for an empty constraint; otherwise the
        cached size for the key, or a fresh measurement that is then cached.
        `isEmpty` is the host's `sizeConstraint.isEmpty`; `measure` stands for laying
        out a view with the model's content and sizing. */
    method SizeFor(info: MeasureInfo, isEmpty: Size -> bool, measure: (HeaderFooter, MeasureInfo) -> Size)
      returns (size: Size)
      modifies this
      ensures model == old(model)
      ensures isEmpty(info.sizeConstraint) ==> size == Zero && cachedSizes == old(cachedSizes)
      ensures !isEmpty(info.sizeConstraint) && KeyFor(info, model.sizing) in old(cachedSizes) ==>
        size == old(cachedSizes)[KeyFor(info, model.sizing)] && cachedSizes == old(cachedSizes)
      ensures !isEmpty(info.sizeConstraint) && KeyFor(info, model.sizing) !in old(cachedSizes) ==>
        size == measure(model, info) && cachedSizes == old(cachedSizes)[KeyFor(info, model.sizing) := size]
      ensures (size, cachedSizes) == Lookup(old(cachedSizes), model, info, isEmpty(info.sizeConstraint), measure)
      ensures KeyedOnly(measure) && Sound(old(cachedSizes), model, measure) ==> Sound(cachedSizes, model, measure)
    {
      if isEmpty(info.sizeConstraint) {
        return Zero;
      }
      var key := KeyFor(info, model.sizing);
      if key in cachedSizes {
        size := cachedSizes[key];
      } else {
        size := measure(model, info);
        if KeyedOnly(measure) && Sound(cachedSizes, model, measure) {
          StoreKeepsSound(cachedSizes, model, info, measure);
        }
        cachedSizes := cachedSizes[key := size];
      }
    }
  }

  /** The view that hosts a header/footer's content once it is on screen. */
  class ContentView {
    constructor()
    {
    }
  }

  /** `SupplementaryContainerView`: the container for a header or footer. */
  class SupplementaryContainerView {
    var headerFooter: HeaderFooterState?
    var content: ContentView?

    constructor(content: ContentView?)
      ensures headerFooter == null && this.content == content
    {
      headerFooter := null;
      this.content := content;
    }
  }

  /** A call of `applyTo(view:for:with:)` on a state. */
  datatype Application = Application(state: HeaderFooterState, view: ContentView, reason: ApplyReason)

  /** `HeaderFooterViewStatePair`: a header/footer's state and, while it is on
      screen, the container that shows it. */
  class HeaderFooterViewStatePair {
    var state: HeaderFooterState?
    var visibleContainer: SupplementaryContainerView?

    constructor()
      ensures state == null && visibleContainer == null
    {
      state := null;
      visibleContainer := null;
    }

    /** Assigning `state` (with its `didSet`): the new state is stored; only a different
        object is handed on, and only to a visible container. */
    method SetState(newState: HeaderFooterState?)
      modifies this, visibleContainer
      ensures state == newState && visibleContainer == old(visibleContainer)
      ensures visibleContainer != null && old(state) != newState ==> visibleContainer.headerFooter == newState
      ensures visibleContainer != null && old(state) == newState ==>
        visibleContainer.headerFooter == old(visibleContainer.headerFooter)
      ensures visibleContainer != null ==> visibleContainer.content == old(visibleContainer.content)
    {
      var oldValue := state;
      state := newState;
      if oldValue == state {
        return;
      }
      if visibleContainer == null {
        return;
      }
      visibleContainer.headerFooter := state;
    }

    /** `willDisplay(view:)`: remember the container now showing this header/footer. */
    method WillDisplay(view: SupplementaryContainerView)
      modifies this
      ensures visibleContainer == view && state == old(state)
    {
      visibleContainer := view;
    }

    /** `didEndDisplay()`: the header/footer is no longer on screen. */
    method DidEndDisplay()
      modifies this
      ensures visibleContainer == null && state == old(state)
    {
      visibleContainer := null;
    }

    /** `applyToVisibleView(with:)`: re-apply the state to the visible content view,
        for reason `wasUpdated`; nothing happens without a container, a content view
        or a state. */
    method ApplyToVisibleView() returns (applied: Option<Application>)
      ensures applied.Some? <==> visibleContainer != null && visibleContainer.content != null && state != null
      ensures applied.Some? ==> applied.value.state == state && applied.value.reason == WasUpdated
      ensures applied.Some? ==> applied.value.view == visibleContainer.content
    {
      if visibleContainer == null || visibleContainer.content == null || state == null {
        return None;
      }
      applied := Some(Application(state, visibleContainer.content, WasUpdated));
    }
  }
}
