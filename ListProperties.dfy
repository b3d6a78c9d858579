// Model of Listable/Sources/ListProperties.swift: the properties a list is
// configured with, built by appending sections to their `content`.

module ListProperties {
  import opened Wrappers

  /** Types whose values the properties only store. */
  type LayoutDescription
  type Appearance
  type Behavior
  type AutoScrollAction
  type ScrollInsets
  type Identifier(==)
  type Item

  /** A list section: its identifier and its items. */
  datatype Section = Section(identifier: Identifier, items: seq<Item>)

  /** `Section(identifier, build:)`: a section that starts out with the identifier and
      no items, then is handed to its build block. */
  function MakeSection(identifier: Identifier, build: Section -> Section): Section
  {
    build(Section(identifier, []))
  }

  /** The list content; of its fields only `sections` is touched here. */
  datatype Content = Content(sections: seq<Section>)

  /** Every stored property of a `ListProperties` value. */
  datatype Snapshot = Snapshot(
    animatesChanges: bool, layout: LayoutDescription, appearance: Appearance,
    behavior: Behavior, autoScrollAction: AutoScrollAction, scrollInsets: ScrollInsets,
    accessibilityIdentifier: Option<string>, debuggingIdentifier: Option<string>,
    content: Content)

  /** One thing a `build` block does with the properties it is handed: assign one of
      the public fields (an in-place edit of `content` is the assignment of the
      edited value), or append sections. */
  datatype BuildStep =
    | SetAnimatesChanges(animatesChanges: bool)
    | SetLayout(layout: LayoutDescription)
    | SetAppearance(appearance: Appearance)
    | SetBehavior(behavior: Behavior)
    | SetAutoScrollAction(autoScrollAction: AutoScrollAction)
    | SetScrollInsets(scrollInsets: ScrollInsets)
    | SetAccessibilityIdentifier(accessibilityIdentifier: Option<string>)
    | SetDebuggingIdentifier(debuggingIdentifier: Option<string>)
    | SetContent(content: Content)
    | Add(section: Section)
    | AddAll(sections: seq<Section>)
    | Call(identifier: Identifier, build: Section -> Section)
  {
    /** The steps that append sections rather than assign a setting. */
    predicate Appends()
    {
      Add? || AddAll? || Call?
    }
  }

  /** The sections a step appends, in order. */
  function StepSections(step: BuildStep): (r: seq<Section>)
    ensures step.Add? || step.Call? ==> |r| == 1
    ensures !step.Appends() ==> r == []
  {
    match step
    case Add(s) => [s]
    case AddAll(ss) => ss
    case Call(id, build) => [MakeSection(id, build)]
    case _ => []
  }

  /** The properties after one step. */
  function Step(step: BuildStep, p: Snapshot): Snapshot
  {
    match step
    case SetAnimatesChanges(v) => p.(animatesChanges := v)
    case SetLayout(v) => p.(layout := v)
    case SetAppearance(v) => p.(appearance := v)
    case SetBehavior(v) => p.(behavior := v)
    case SetAutoScrollAction(v) => p.(autoScrollAction := v)
    case SetScrollInsets(v) => p.(scrollInsets := v)
    case SetAccessibilityIdentifier(v) => p.(accessibilityIdentifier := v)
    case SetDebuggingIdentifier(v) => p.(debuggingIdentifier := v)
    case SetContent(c) => p.(content := c)
    case _ => p.(content := Content(p.content.sections + StepSections(step)))
  }

  /** The properties that result from applying `steps`, in order, to `p`. */
  function Replay(steps: seq<BuildStep>, p: Snapshot): Snapshot
  {
    if steps == [] then p else Replay(steps[1..], Step(steps[0], p))
  }

  /** The sections a whole block appends, in order. */
  function BlockSections(steps: seq<BuildStep>): seq<Section>
  {
    if steps == [] then [] else BlockSections(steps[..|steps| - 1]) + StepSections(steps[|steps| - 1])
  }

  /** The sections a block leaves behind, starting from `start`, read from its end:
      the last step that assigns `content` decides them, and every step after it
      appends its own. */
  function FinalSections(steps: seq<BuildStep>, start: seq<Section>): seq<Section>
  {
    if steps == [] then start
    else
      var last := steps[|steps| - 1];
      if last.SetContent? then last.content.sections
      else FinalSections(steps[..|steps| - 1], start) + StepSections(last)
  }

  /** One more step acts on the properties the earlier steps produced. */
  lemma {:induction false} ReplaySnoc(steps: seq<BuildStep>, step: BuildStep, p: Snapshot)
    ensures Replay(steps + [step], p) == Step(step, Replay(steps, p))
  {
    if steps == [] {
      assert steps + [step] == [step];
    } else {
      assert (steps + [step])[0] == steps[0];
      assert (steps + [step])[1..] == steps[1..] + [step];
      ReplaySnoc(steps[1..], step, Step(steps[0], p));
    }
  }

  /** The sections after one step: the assigned content's, or the earlier ones
      followed by what the step appends. */
  lemma StepContent(step: BuildStep, p: Snapshot)
    ensures Step(step, p).content.sections ==
      if step.SetContent? then step.content.sections else p.content.sections + StepSections(step)
  {
  }

  /** `FinalSections` of a block that ends in `last`. */
  lemma FinalSectionsUnfold(init: seq<BuildStep>, last: BuildStep, start: seq<Section>)
    ensures FinalSections(init + [last], start) ==
      if last.SetContent? then last.content.sections else FinalSections(init, start) + StepSections(last)
  {
    assert (init + [last])[..|init|] == init;
  }

  /** Steps that do not assign `content` append their sections after those the
      earlier steps leave behind. */
  lemma {:induction false} FinalSectionsAppend(a: seq<BuildStep>, b: seq<BuildStep>, start: seq<Section>)
    requires forall j :: 0 <= j < |b| ==> !b[j].SetContent?
    ensures FinalSections(a + b, start) == FinalSections(a, start) + BlockSections(b)
  {
    if b == [] {
      assert a + b == a;
    } else {
      var init, last := b[..|b| - 1], b[|b| - 1];
      assert FinalSections(a + b, start) == FinalSections(a + init, start) + StepSections(last) by {
        assert a + b == (a + init) + [last];
        FinalSectionsUnfold(a + init, last, start);
      }
      assert BlockSections(b) == BlockSections(init) + StepSections(last) by {
        assert b == init + [last];
        BlockSectionsSnoc(init, last);
      }
      FinalSectionsAppend(a, init, start);
    }
  }

  /** A block that never assigns `content` leaves the starting sections followed by
      its own, in order. */
  lemma FinalSectionsWithoutReset(steps: seq<BuildStep>, start: seq<Section>)
    requires forall j :: 0 <= j < |steps| ==> !steps[j].SetContent?
    ensures FinalSections(steps, start) == start + BlockSections(steps)
  {
    FinalSectionsAppend([], steps, start);
    assert [] + steps == steps;
  }

  /** When `SetContent(c)` is followed only by steps that do not assign `content`,
      the sections are `c`'s followed by those the later steps append. */
  lemma FinalSectionsAfterReset(pre: seq<BuildStep>, c: Content, post: seq<BuildStep>, start: seq<Section>)
    requires forall j :: 0 <= j < |post| ==> !post[j].SetContent?
    ensures FinalSections(pre + [SetContent(c)] + post, start) == c.sections + BlockSections(post)
  {
    FinalSectionsAppend(pre + [SetContent(c)], post, start);
    FinalSectionsUnfold(pre, SetContent(c), start);
  }

  /** The sections after a block are those of the last content it assigns, or the
      starting ones, followed by the sections of the steps after that. */
  lemma {:induction false} ReplaySections(steps: seq<BuildStep>, p: Snapshot)
    ensures Replay(steps, p).content.sections == FinalSections(steps, p.content.sections)
  {
    if steps != [] {
      var init, last := steps[..|steps| - 1], steps[|steps| - 1];
      assert steps == init + [last];
      ReplaySnoc(init, last, p);
      ReplaySections(init, p);
      StepContent(last, Replay(init, p));
      FinalSectionsUnfold(init, last, p.content.sections);
    }
  }

  /** A block that never assigns `content` appends its sections after the starting ones. */
  lemma BlockWithoutResetSections(steps: seq<BuildStep>, p: Snapshot)
    requires forall j :: 0 <= j < |steps| ==> !steps[j].SetContent?
    ensures Replay(steps, p).content.sections == p.content.sections + BlockSections(steps)
  {
    ReplaySections(steps, p);
    FinalSectionsWithoutReset(steps, p.content.sections);
  }

  /** A block that only appends sections leaves every setting as it was. */
  lemma {:induction false} ReplayKeepsSettings(steps: seq<BuildStep>, p: Snapshot)
    requires forall i :: 0 <= i < |steps| ==> steps[i].Appends()
    ensures Replay(steps, p).(content := p.content) == p
  {
    if steps != [] {
      ReplayKeepsSettings(steps[1..], Step(steps[0], p));
    }
  }

  /** The settings a block leaves behind do not depend on the content it started from. */
  lemma {:induction false} ReplaySettingsIgnoreContent(steps: seq<BuildStep>, p: Snapshot, c: Content)
    ensures Replay(steps, p.(content := c)).(content := c) == Replay(steps, p).(content := c)
  {
    if steps != [] {
      var q, q' := Step(steps[0], p), Step(steps[0], p.(content := c));
      assert q' == q.(content := q'.content);
      ReplaySettingsIgnoreContent(steps[1..], q, q'.content);
    }
  }

  /** Running one more step appends that step's sections after the earlier ones. */
  lemma BlockSectionsSnoc(steps: seq<BuildStep>, step: BuildStep)
    ensures BlockSections(steps + [step]) == BlockSections(steps) + StepSections(step)
  {
    assert (steps + [step])[..|steps|] == steps;
  }

  /** A block of single-section steps appends exactly one section per step. */
  lemma {:induction false} BlockSectionsCount(steps: seq<BuildStep>)
    requires forall i :: 0 <= i < |steps| ==> steps[i].Add? || steps[i].Call?
    ensures |BlockSections(steps)| == |steps|
  {
    if steps != [] {
      BlockSectionsCount(steps[..|steps| - 1]);
    }
  }

  class ListProperties {
    var animatesChanges: bool
    var layout: LayoutDescription
    var appearance: Appearance
    var behavior: Behavior
    var autoScrollAction: AutoScrollAction
    var scrollInsets: ScrollInsets
    var accessibilityIdentifier: Option<string>
    var debuggingIdentifier: Option<string>
    var content: Content

    /** All stored properties, as one value. */
    function Current(): (p: Snapshot)
      reads this
      ensures p.animatesChanges == animatesChanges && p.layout == layout && p.appearance == appearance
      ensures p.behavior == behavior && p.autoScrollAction == autoScrollAction && p.scrollInsets == scrollInsets
      ensures p.accessibilityIdentifier == accessibilityIdentifier && p.debuggingIdentifier == debuggingIdentifier
      ensures p.content == content
    {
      Snapshot(animatesChanges, layout, appearance, behavior, autoScrollAction, scrollInsets,
        accessibilityIdentifier, debuggingIdentifier, content)
    }

    /** `init(...)`: store every argument, start from empty content, then run the
        build block on the result. */
    constructor(
      animatesChanges: bool, layout: LayoutDescription, appearance: Appearance,
      behavior: Behavior, autoScrollAction: AutoScrollAction, scrollInsets: ScrollInsets,
      accessibilityIdentifier: Option<string>, debuggingIdentifier: Option<string>,
      build: seq<BuildStep>)
      ensures Current() == Replay(build, Snapshot(animatesChanges, layout, appearance, behavior,
        autoScrollAction, scrollInsets, accessibilityIdentifier, debuggingIdentifier, Content([])))
      ensures content.sections == FinalSections(build, [])
      ensures (forall j :: 0 <= j < |build| ==> !build[j].SetContent?) ==> content.sections == BlockSections(build)
    {
      this.animatesChanges := animatesChanges;
      this.layout := layout;
      this.appearance := appearance;
      this.behavior := behavior;
      this.autoScrollAction := autoScrollAction;
      this.scrollInsets := scrollInsets;
      this.accessibilityIdentifier := accessibilityIdentifier;
      this.debuggingIdentifier := debuggingIdentifier;
      this.content := Content([]);
      new;
      ghost var initial := Current();
      var i := 0;
      while i < |build|
        invariant 0 <= i <= |build|
        invariant Current() == Replay(build[..i], initial)
      {
        ReplaySnoc(build[..i], build[i], initial);
        assert build[..i + 1] == build[..i] + [build[i]];
        Perform(build[i]);
        i := i + 1;
      }
      assert build[..i] == build;
      ReplaySections(build, initial);
      if forall j :: 0 <= j < |build| ==> !build[j].SetContent? {
        FinalSectionsWithoutReset(build, []);
      }
    }

    /** Run one step of a build block. */
    method Perform(step: BuildStep)
      modifies this
      ensures Current() == Step(step, old(Current()))
    {
      match step {
        case SetAnimatesChanges(v) => animatesChanges := v;
        case SetLayout(v) => layout := v;
        case SetAppearance(v) => appearance := v;
        case SetBehavior(v) => behavior := v;
        case SetAutoScrollAction(v) => autoScrollAction := v;
        case SetScrollInsets(v) => scrollInsets := v;
        case SetAccessibilityIdentifier(v) => accessibilityIdentifier := v;
        case SetDebuggingIdentifier(v) => debuggingIdentifier := v;
        case SetContent(c) => content := c;
        case Add(s) => AddSection(s);
        case AddAll(ss) => AppendSections(ss);
        case Call(id, build) => CallAsFunction(id, build);
      }
    }

    /** `add(_:)`: append one section; earlier sections and every other field stay. */
    method AddSection(section: Section)
      modifies this
      ensures content.sections == old(content.sections) + [section]
      ensures |content.sections| == |old(content.sections)| + 1
      ensures Current() == old(Current()).(content := content)
    {
      content := content.(sections := content.sections + [section]);
    }

    /** `properties += section`: the same as `add(_:)`. */
    method AppendSection(section: Section)
      modifies this
      ensures content.sections == old(content.sections) + [section]
      ensures Current() == old(Current()).(content := content)
    {
      AddSection(section);
    }

    /** `properties += [section]`: append the sections in order. */
    method AppendSections(sections: seq<Section>)
      modifies this
      ensures content.sections == old(content.sections) + sections
      ensures Current() == old(Current()).(content := content)
    {
      content := content.(sections := content.sections + sections);
    }

    /** `properties(identifier) { section in ... }`: build one section that starts with
        the identifier and append it. */
    method CallAsFunction(identifier: Identifier, build: Section -> Section)
      modifies this
      ensures content.sections == old(content.sections) + [MakeSection(identifier, build)]
      ensures Current() == old(Current()).(content := content)
    {
      AppendSection(MakeSection(identifier, build));
    }
  }
}
