// Model of Listable/Sources/ListView/ListView.VisibleContent.swift: the sets of
// items and headers/footers on screen, and the display transitions fired when
// those sets change.

module VisibleContent {
  import HF = HeaderFooterState

  /** An item's identifier (`AnyIdentifier`). */
  type Identifier(==)

  datatype IndexPath = IndexPath(section: int, item: int)

  /** `SupplementaryKind`, a string-backed enumeration. */
  datatype SupplementaryKind = SupplementaryKind(rawValue: string)

  /** The presentation state of one item. Only its object identity and the
      identifier of its model are used here; a node lives only as long as its
      identifier, so the identifier is fixed. */
  class ItemState {
    const identifier: Identifier

    constructor(identifier: Identifier)
      ensures this.identifier == identifier
    {
      this.identifier := identifier;
    }
  }

  /** `VisibleContent.Item`: an index path and an item node. Equality compares the
      index path and the node's identity (a Dafny reference compares by identity),
      never its model. */
  datatype ItemHandle = ItemHandle(indexPath: IndexPath, item: ItemState)

  /** `VisibleContent.HeaderFooter`: kind, index path and header/footer pair, the
      pair compared by identity. */
  datatype HeaderFooterHandle =
    HeaderFooterHandle(kind: SupplementaryKind, indexPath: IndexPath, headerFooter: HF.HeaderFooterViewStatePair)

  /** What the host reports as visible (the result of `calculateVisibleContent`). */
  datatype VisibleQuery = VisibleQuery(items: set<ItemHandle>, headerFooters: set<HeaderFooterHandle>)

  /** A call of `setAndPerform(isDisplayed:)` on the node of `target`. */
  datatype Transition = SetDisplayed(target: ItemHandle, isDisplayed: bool)

  /** `VisibleContent.Info`: index paths with kinds or identifiers, no nodes. */
  datatype InfoHeaderFooter = InfoHeaderFooter(kind: SupplementaryKind, indexPath: IndexPath)
  datatype InfoItem = InfoItem(identifier: Identifier, indexPath: IndexPath)
  datatype Info = Info(headerFooters: set<InfoHeaderFooter>, items: set<InfoItem>)

  /** Item handles are equal exactly when index path and node identity agree; two
      distinct nodes with the same identifier give distinct handles. */
  lemma ItemHandleIdentity(a: ItemHandle, b: ItemHandle)
    ensures a == b <==> a.indexPath == b.indexPath && a.item == b.item
    ensures a.indexPath == b.indexPath && a.item != b.item && a.item.identifier == b.item.identifier ==> a != b
  {
  }

  /** Header/footer handles are equal exactly when kind, index path and pair identity agree. */
  lemma HeaderFooterHandleIdentity(a: HeaderFooterHandle, b: HeaderFooterHandle)
    ensures a == b <==> a.kind == b.kind && a.indexPath == b.indexPath && a.headerFooter == b.headerFooter
  {
  }

  /** The handles a transition log is about. */
  function Targets(t: seq<Transition>): set<ItemHandle>
  {
    if t == [] then {} else Targets(t[..|t| - 1]) + {t[|t| - 1].target}
  }

  /** `t` fires `isDisplayed == displayed` once for every handle of `hs`, and for nothing else. */
  ghost predicate Announces(t: seq<Transition>, hs: set<ItemHandle>, displayed: bool)
  {
    && |t| == |hs|
    && Targets(t) == hs
    && forall i :: 0 <= i < |t| ==> t[i].isDisplayed == displayed
  }

  /** The log `update` produces when the visible items go from `before` to `after`:
      first `isDisplayed = false` for each handle that left, then `isDisplayed = true`
      for each handle that arrived. */
  ghost predicate UpdateLog(t: seq<Transition>, before: set<ItemHandle>, after: set<ItemHandle>)
  {
    var hidden := |before - after|;
    && hidden <= |t|
    && Announces(t[..hidden], before - after, false)
    && Announces(t[hidden..], after - before, true)
  }

  lemma TargetsSnoc(t: seq<Transition>, e: Transition)
    ensures Targets(t + [e]) == Targets(t) + {e.target}
  {
    assert (t + [e])[..|t|] == t;
  }

  /** A handle is a target exactly when some transition of the log names it. */
  lemma {:induction false} TargetsAre(t: seq<Transition>, h: ItemHandle)
    ensures h in Targets(t) <==> exists i :: 0 <= i < |t| && t[i].target == h
  {
    if t != [] {
      var init := t[..|t| - 1];
      TargetsAre(init, h);
      if exists i :: 0 <= i < |init| && init[i].target == h {
        var i :| 0 <= i < |init| && init[i].target == h;
        assert t[i].target == h;
      }
      if exists i :: 0 <= i < |t| && t[i].target == h {
        var i :| 0 <= i < |t| && t[i].target == h;
        if i < |t| - 1 {
          assert init[i].target == h;
        }
      }
    }
  }

  /** Where a transition about `h` can be found in an announcing log. */
  lemma AnnouncedAt(t: seq<Transition>, hs: set<ItemHandle>, displayed: bool, h: ItemHandle)
    requires Announces(t, hs, displayed)
    ensures SetDisplayed(h, displayed) in t <==> h in hs
    ensures SetDisplayed(h, !displayed) !in t
  {
    TargetsAre(t, h);
    if h in hs {
      var i :| 0 <= i < |t| && t[i].target == h;
      assert t[i] == SetDisplayed(h, displayed);
    }
    if SetDisplayed(h, displayed) in t {
      var i :| 0 <= i < |t| && t[i] == SetDisplayed(h, displayed);
      assert t[i].target == h;
    }
  }

  /** Exactly the handles that left the visible set receive `isDisplayed = false`. */
  lemma UpdateLogHides(t: seq<Transition>, before: set<ItemHandle>, after: set<ItemHandle>, h: ItemHandle)
    requires UpdateLog(t, before, after)
    ensures SetDisplayed(h, false) in t <==> h in before && h !in after
  {
    var k := |before - after|;
    assert t == t[..k] + t[k..];
    AnnouncedAt(t[..k], before - after, false, h);
    AnnouncedAt(t[k..], after - before, true, h);
  }

  /** Exactly the handles that joined the visible set receive `isDisplayed = true`. */
  lemma UpdateLogShows(t: seq<Transition>, before: set<ItemHandle>, after: set<ItemHandle>, h: ItemHandle)
    requires UpdateLog(t, before, after)
    ensures SetDisplayed(h, true) in t <==> h in after && h !in before
  {
    var k := |before - after|;
    assert t == t[..k] + t[k..];
    AnnouncedAt(t[..k], before - after, false, h);
    AnnouncedAt(t[k..], after - before, true, h);
  }

  /** A handle visible before and after receives no transition at all. */
  lemma UpdateLogSkipsSurvivors(t: seq<Transition>, before: set<ItemHandle>, after: set<ItemHandle>, h: ItemHandle)
    requires UpdateLog(t, before, after)
    requires h in before && h in after
    ensures forall i :: 0 <= i < |t| ==> t[i].target != h
  {
    UpdateLogHides(t, before, after, h);
    UpdateLogShows(t, before, after, h);
    forall i | 0 <= i < |t| ensures t[i].target != h {
      assert t[i] == SetDisplayed(t[i].target, t[i].isDisplayed);
    }
  }

  /** The hiding transitions are exactly the first `|before - after|` ones, so every
      hiding transition comes before every showing one. */
  lemma UpdateLogHidesFirst(t: seq<Transition>, before: set<ItemHandle>, after: set<ItemHandle>)
    requires UpdateLog(t, before, after)
    ensures forall i :: 0 <= i < |t| ==> (t[i].isDisplayed <==> i >= |before - after|)
  {
    var k := |before - after|;
    forall i | 0 <= i < |t| ensures t[i].isDisplayed <==> i >= k {
      if i < k {
        assert t[..k][i] == t[i];
      } else {
        assert t[k..][i - k] == t[i];
      }
    }
  }

  /** A node that stays on screen but moves to another index path is a different
      handle: it is first hidden at its old path, then shown at its new one. */
  lemma UpdateLogMovedNode(
    t: seq<Transition>, before: set<ItemHandle>, after: set<ItemHandle>,
    node: ItemState, from: IndexPath, to: IndexPath)
    requires UpdateLog(t, before, after)
    requires ItemHandle(from, node) in before && ItemHandle(from, node) !in after
    requires ItemHandle(to, node) in after && ItemHandle(to, node) !in before
    ensures SetDisplayed(ItemHandle(from, node), false) in t
    ensures SetDisplayed(ItemHandle(to, node), true) in t
    ensures forall i, j ::
      && 0 <= i < |t| && 0 <= j < |t|
      && t[i] == SetDisplayed(ItemHandle(from, node), false)
      && t[j] == SetDisplayed(ItemHandle(to, node), true)
      ==> i < j
  {
    UpdateLogHides(t, before, after, ItemHandle(from, node));
    UpdateLogShows(t, before, after, ItemHandle(to, node));
    UpdateLogHidesFirst(t, before, after);
  }

  /** Reporting the same visible set again fires nothing. */
  lemma UpdateLogRepeat(t: seq<Transition>, visible: set<ItemHandle>)
    requires UpdateLog(t, visible, visible)
    ensures t == []
  {
    assert visible - visible == {};
  }

  /** One `forEach { $0.item.setAndPerform(isDisplayed: displayed) }` over `hs`, in
      whatever order the set yields its handles. */
  method Announce(hs: set<ItemHandle>, displayed: bool) returns (t: seq<Transition>)
    ensures Announces(t, hs, displayed)
  {
    t := [];
    var pending := hs;
    while pending != {}
      invariant pending <= hs
      invariant Announces(t, hs - pending, displayed)
      decreases |pending|
    {
      var h :| h in pending;
      TargetsSnoc(t, SetDisplayed(h, displayed));
      assert hs - (pending - {h}) == (hs - pending) + {h};
      t := t + [SetDisplayed(h, displayed)];
      pending := pending - {h};
    }
    assert hs - {} == hs;
  }

  /** `ListView.VisibleContent`. */
  class VisibleContent {
    var headerFooters: set<HeaderFooterHandle>
    var items: set<ItemHandle>

    constructor()
      ensures headerFooters == {} && items == {}
    {
      headerFooters, items := {}, {};
    }

    /** `update(with:)`: hide the items that left, show the items that arrived, then
        store the new sets. Header/footer changes fire no transitions. */
    method Update(visible: VisibleQuery) returns (transitions: seq<Transition>)
      modifies this
      ensures items == visible.items && headerFooters == visible.headerFooters
      ensures UpdateLog(transitions, old(items), visible.items)
    {
      var removed := items - visible.items;
      var added := visible.items - items;

      var hidden := Announce(removed, false);
      var shown := Announce(added, true);
      transitions := hidden + shown;
      assert transitions[..|hidden|] == hidden && transitions[|hidden|..] == shown;
      items := visible.items;
      headerFooters := visible.headerFooters;
    }

    /** `info`: each visible item as (identifier, index path), each visible
        header/footer as (kind, index path). */
    function CurrentInfo(): (info: Info)
      reads this
      ensures forall h :: h in items ==> InfoItem(h.item.identifier, h.indexPath) in info.items
      ensures forall x :: x in info.items ==>
        exists h :: h in items && x == InfoItem(h.item.identifier, h.indexPath)
      ensures forall h :: h in headerFooters ==> InfoHeaderFooter(h.kind, h.indexPath) in info.headerFooters
      ensures forall x :: x in info.headerFooters ==>
        exists h :: h in headerFooters && x == InfoHeaderFooter(h.kind, h.indexPath)
    {
      Info(
        set h | h in headerFooters :: InfoHeaderFooter(h.kind, h.indexPath),
        set h | h in items :: InfoItem(h.item.identifier, h.indexPath))
    }
  }
}
