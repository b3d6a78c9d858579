// Model of ListableTableView/Sources/ContentBuilder.swift: the table-view
// builders that accumulate sections and rows before a `Content` value is made.

module ContentBuilder {
  import opened Wrappers

  /** Types the builders only carry around. */
  type RefreshControl(==)
  type AnyHeaderFooter(==)
  type SectionIdentifier(==)
  type RowElement(==)

  /** A row wrapping one element (`Row(element)`); `AnyRow` is the same value. */
  datatype Row = Row(element: RowElement)

  datatype Section = Section(identifier: SectionIdentifier, rows: seq<Row>)

  /** The value `ContentBuilder.content` produces. */
  datatype Content = Content(
    refreshControl: Option<RefreshControl>,
    header: Option<AnyHeaderFooter>,
    footer: Option<AnyHeaderFooter>,
    sections: seq<Section>)

  /** Position of the first section that has rows (`firstIndex { !$0.rows.isEmpty }`). */
  function FirstNonEmpty(sections: seq<Section>): (r: Option<nat>)
    ensures r.Some? ==> r.value < |sections| && sections[r.value].rows != []
    ensures r.Some? ==> forall i :: 0 <= i < r.value ==> sections[i].rows == []
    ensures r.None? <==> forall i :: 0 <= i < |sections| ==> sections[i].rows == []
  {
    if sections == [] then None
    else if sections[0].rows != [] then Some(0)
    else match FirstNonEmpty(sections[1..])
      case None => None
      case Some(i) => Some(i + 1)
  }

  /** The sections that have rows, in their original order (`removeAll { $0.rows.isEmpty }`). */
  function NonEmpty(sections: seq<Section>): seq<Section>
  {
    if sections == [] then []
    else (if sections[0].rows == [] then [] else [sections[0]]) + NonEmpty(sections[1..])
  }

  /** Filtering distributes over concatenation, so relative order is kept. */
  lemma {:induction false} NonEmptyAppend(a: seq<Section>, b: seq<Section>)
    ensures NonEmpty(a + b) == NonEmpty(a) + NonEmpty(b)
  {
    if a == [] {
      assert a + b == b;
    } else {
      assert (a + b)[0] == a[0];
      assert (a + b)[1..] == a[1..] + b;
      NonEmptyAppend(a[1..], b);
    }
  }

  /** A section survives the filter exactly when it is in the input and has rows. */
  lemma {:induction false} NonEmptyMembers(sections: seq<Section>)
    ensures forall s :: s in NonEmpty(sections) <==> s in sections && s.rows != []
  {
    if sections != [] {
      NonEmptyMembers(sections[1..]);
      assert sections == [sections[0]] + sections[1..];
    }
  }

  /** After the filter, no remaining section is empty. */
  lemma NonEmptyHasNoEmpty(sections: seq<Section>)
    ensures forall i :: 0 <= i < |NonEmpty(sections)| ==> NonEmpty(sections)[i].rows != []
  {
    NonEmptyMembers(sections);
    forall i | 0 <= i < |NonEmpty(sections)| ensures NonEmpty(sections)[i].rows != [] {
      assert NonEmpty(sections)[i] in NonEmpty(sections);
    }
  }

  /** Sections that all have rows are left as they are. */
  lemma {:induction false} NonEmptyKeepsFull(sections: seq<Section>)
    requires forall i :: 0 <= i < |sections| ==> sections[i].rows != []
    ensures NonEmpty(sections) == sections
  {
    if sections != [] {
      NonEmptyKeepsFull(sections[1..]);
    }
  }

  /** Removing empty sections twice is the same as removing them once. */
  lemma NonEmptyIdempotent(sections: seq<Section>)
    ensures NonEmpty(NonEmpty(sections)) == NonEmpty(sections)
  {
    NonEmptyHasNoEmpty(sections);
    NonEmptyKeepsFull(NonEmpty(sections));
  }

  /** Removing empty sections never changes whether the content is empty. */
  lemma NonEmptyKeepsEmptiness(sections: seq<Section>)
    ensures FirstNonEmpty(NonEmpty(sections)).None? <==> FirstNonEmpty(sections).None?
  {
    NonEmptyMembers(sections);
    NonEmptyHasNoEmpty(sections);
    if FirstNonEmpty(sections).Some? {
      var i := FirstNonEmpty(sections).value;
      assert sections[i] in NonEmpty(sections);
    }
  }

  class ContentBuilder {
    var refreshControl: Option<RefreshControl>
    var header: Option<AnyHeaderFooter>
    var footer: Option<AnyHeaderFooter>
    var sections: seq<Section>

    /** `ContentBuilder()`: nothing set, no sections. */
    constructor()
      ensures refreshControl == None && header == None && footer == None && sections == []
    {
      refreshControl, header, footer, sections := None, None, None, [];
    }

    /** `content`: the four builder fields, carried over unchanged. */
    function CurrentContent(): (c: Content)
      reads this
      ensures c.refreshControl == refreshControl && c.header == header && c.footer == footer
      ensures c.sections == sections
    {
      Content(refreshControl, header, footer, sections)
    }

    /** `isEmpty`: no section has any rows (true for zero sections). */
    function IsEmpty(): (r: bool)
      reads this
      ensures r <==> forall i :: 0 <= i < |sections| ==> sections[i].rows == []
    {
      FirstNonEmpty(sections) == None
    }

    /** `removeEmpty()`: drop, in place, every section without rows. */
    method RemoveEmpty()
      modifies this
      ensures sections == NonEmpty(old(sections))
      ensures refreshControl == old(refreshControl) && header == old(header) && footer == old(footer)
    {
      var all := sections;
      var kept := [];
      var i := 0;
      while i < |all|
        invariant 0 <= i <= |all|
        invariant kept == NonEmpty(all[..i])
        invariant unchanged(this)
      {
        NonEmptyAppend(all[..i], [all[i]]);
        assert all[..i + 1] == all[..i] + [all[i]];
        if all[i].rows != [] {
          kept := kept + [all[i]];
        }
        i := i + 1;
      }
      assert all[..i] == all;
      sections := kept;
    }

    /** `builder += section`: append one section at the end. */
    method AppendSection(section: Section)
      modifies this
      ensures sections == old(sections) + [section]
      ensures refreshControl == old(refreshControl) && header == old(header) && footer == old(footer)
    {
      sections := sections + [section];
    }

    /** `builder += [section]`: append the sections at the end, in order. */
    method AppendSections(more: seq<Section>)
      modifies this
      ensures sections == old(sections) + more
      ensures refreshControl == old(refreshControl) && header == old(header) && footer == old(footer)
    {
      sections := sections + more;
    }
  }

  /** One thing a `build` block does with the builder it is handed. */
  datatype BuildStep =
    | SetRefreshControl(refreshControl: Option<RefreshControl>)
    | SetHeader(header: Option<AnyHeaderFooter>)
    | SetFooter(footer: Option<AnyHeaderFooter>)
    | AppendSection(section: Section)
    | AppendSections(sections: seq<Section>)
    | RemoveEmpty

  /** The content after one step. */
  function Step(step: BuildStep, c: Content): Content
  {
    match step
    case SetRefreshControl(r) => c.(refreshControl := r)
    case SetHeader(h) => c.(header := h)
    case SetFooter(f) => c.(footer := f)
    case AppendSection(s) => c.(sections := c.sections + [s])
    case AppendSections(ss) => c.(sections := c.sections + ss)
    case RemoveEmpty => c.(sections := NonEmpty(c.sections))
  }

  /** The content that results from applying `steps`, in order, to `c`. */
  function Replay(steps: seq<BuildStep>, c: Content): Content
  {
    if steps == [] then c else Replay(steps[1..], Step(steps[0], c))
  }

  /** One more step acts on the content the earlier steps produced. */
  lemma {:induction false} ReplaySnoc(steps: seq<BuildStep>, step: BuildStep, c: Content)
    ensures Replay(steps + [step], c) == Step(step, Replay(steps, c))
  {
    if steps == [] {
      assert steps + [step] == [step];
    } else {
      assert (steps + [step])[0] == steps[0];
      assert (steps + [step])[1..] == steps[1..] + [step];
      ReplaySnoc(steps[1..], step, Step(steps[0], c));
    }
  }

  /** A block whose last step is `removeEmpty()` yields no empty section. */
  lemma BlockEndingInRemoveEmpty(steps: seq<BuildStep>, c: Content)
    ensures var r := Replay(steps + [RemoveEmpty], c);
      forall i :: 0 <= i < |r.sections| ==> r.sections[i].rows != []
  {
    ReplaySnoc(steps, RemoveEmpty, c);
    NonEmptyHasNoEmpty(Replay(steps, c).sections);
  }

  /** Blocks that only append sections. */
  ghost predicate OnlyAppends(steps: seq<BuildStep>)
  {
    forall i :: 0 <= i < |steps| ==> steps[i].AppendSection? || steps[i].AppendSections?
  }

  /** The sections such a block appends, in order. */
  function Appended(steps: seq<BuildStep>): seq<Section>
    requires OnlyAppends(steps)
  {
    if steps == [] then []
    else (if steps[0].AppendSection? then [steps[0].section] else steps[0].sections) + Appended(steps[1..])
  }

  /** A block that only appends sections adds exactly those sections, in order,
      after the existing ones, and changes nothing else. */
  lemma {:induction false} ReplayAppends(steps: seq<BuildStep>, c: Content)
    requires OnlyAppends(steps)
    ensures Replay(steps, c) == c.(sections := c.sections + Appended(steps))
  {
    if steps != [] {
      ReplayAppends(steps[1..], Step(steps[0], c));
    }
  }

  /** `ContentBuilder.build(with:)`: run the block on a fresh builder and return its content. */
  method Build(block: seq<BuildStep>) returns (content: Content)
    ensures content == Replay(block, Content(None, None, None, []))
  {
    var builder := new ContentBuilder();
    var i := 0;
    while i < |block|
      invariant 0 <= i <= |block|
      decreases |block| - i
      invariant Replay(block[i..], builder.CurrentContent()) == Replay(block, Content(None, None, None, []))
    {
      assert block[i..][1..] == block[i + 1..];
      match block[i] {
        case SetRefreshControl(r) => builder.refreshControl := r;
        case SetHeader(h) => builder.header := h;
        case SetFooter(f) => builder.footer := f;
        case AppendSection(s) => builder.AppendSection(s);
        case AppendSections(ss) => builder.AppendSections(ss);
        case RemoveEmpty => builder.RemoveEmpty();
      }
      i := i + 1;
    }
    content := builder.CurrentContent();
  }

  class SectionBuilder {
    var rows: seq<Row>

    constructor()
      ensures rows == []
    {
      rows := [];
    }

    /** `isEmpty`: no rows. */
    function IsEmpty(): (r: bool)
      reads this
      ensures r <==> |rows| == 0
    {
      rows == []
    }

    /** `builder += row`. */
    method AppendRow(row: Row)
      modifies this
      ensures rows == old(rows) + [row]
    {
      rows := rows + [row];
    }

    /** `builder += element`: wrap the element in a row and append it. */
    method AppendElement(element: RowElement)
      modifies this
      ensures rows == old(rows) + [Row(element)]
    {
      rows := rows + [Row(element)];
    }

    /** `builder += [row]` (both the `[AnyRow]` and the `[Row<Element>]` overloads). */
    method AppendRows(more: seq<Row>)
      modifies this
      ensures rows == old(rows) + more
    {
      rows := rows + more;
    }

    /** `builder += [element]`: wrap each element in a row, keep their order, append. */
    method AppendElements(elements: seq<RowElement>)
      modifies this
      ensures |rows| == |old(rows)| + |elements|
      ensures rows[..|old(rows)|] == old(rows)
      ensures forall i :: 0 <= i < |elements| ==> rows[|old(rows)| + i] == Row(elements[i])
    {
      var wrapped := seq(|elements|, i requires 0 <= i < |elements| => Row(elements[i]));
      rows := rows + wrapped;
    }
  }
}
