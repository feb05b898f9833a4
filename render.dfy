/**
 * The composite document, modelled by its structure: a root header carrying
 * the displayed size and the viewBox, and one translated group per icon.
 */
module SvgDocument {
  import opened GridLayout
  import opened GridPlacement

  /** The viewBox attribute "minX minY width height". */
  datatype ViewBox = ViewBox(minX: int, minY: int, width: int, height: int)

  /** The attributes of the root element that depend on the icons. */
  datatype Header = Header(width: real, height: real, viewBox: ViewBox)

  /** A group element translated by (x, y) and holding one icon's markup unchanged. */
  datatype Group = Group(x: int, y: int, content: string)

  datatype Document = Document(header: Header, groups: seq<Group>)

  function HeaderFor(l: Layout): (h: Header)
    ensures h.viewBox.minX == 0 && h.viewBox.minY == 0
    ensures h.viewBox.width == l.rawWidth && h.viewBox.height == l.rawHeight
    ensures h.width == l.width && h.height == l.height
  {
    Header(l.width, l.height, ViewBox(0, 0, l.rawWidth, l.rawHeight))
  }

  /** Wraps the icon at position `index` in a group placed at its cell. */
  function WrapIcon(index: nat, icon: string, p: PerLine): (g: Group)
    ensures g.content == icon
    ensures Offset(g.x, g.y) == OffsetOf(index, p)
  {
    var o := OffsetOf(index, p);
    Group(o.x, o.y, icon)
  }

  /** The group of every icon, in input order. */
  function Groups(icons: seq<string>, p: PerLine): (gs: seq<Group>)
    ensures |gs| == |icons|
    ensures forall k :: 0 <= k < |icons| ==> gs[k] == WrapIcon(k, icons[k], p)
  {
    seq(|icons|, k requires 0 <= k < |icons| => WrapIcon(k, icons[k], p))
  }

  /** The icon markup carried by a sequence of groups, in order. */
  function Contents(gs: seq<Group>): (cs: seq<string>)
    ensures |cs| == |gs|
    ensures forall k :: 0 <= k < |gs| ==> cs[k] == gs[k].content
  {
    seq(|gs|, k requires 0 <= k < |gs| => gs[k].content)
  }

  /** The whole document for the given icons, p to a row. */
  function Render(icons: seq<string>, p: PerLine): (doc: Document)
    ensures Contents(doc.groups) == icons
    ensures doc.header.viewBox == ViewBox(0, 0, RawWidth(|icons|, p), RawHeight(|icons|, p))
    ensures 16.0 * doc.header.width == 3.0 * doc.header.viewBox.width as real
    ensures 16.0 * doc.header.height == 3.0 * doc.header.viewBox.height as real
  {
    Document(HeaderFor(ComputeLayout(|icons|, p)), Groups(icons, p))
  }

  /** Every group's visible 256 by 256 area lies inside the document's viewBox. */
  predicate InsideViewBox(g: Group, vb: ViewBox)
  {
    vb.minX <= g.x && g.x + IconExtent <= vb.minX + vb.width &&
    vb.minY <= g.y && g.y + IconExtent <= vb.minY + vb.height
  }

  /**
   * What a rendered document promises: all groups inside the viewBox, no two
   * groups at the same place, and groups listed in reading order.
   */
  predicate WellPlaced(doc: Document)
  {
    && (forall k :: 0 <= k < |doc.groups| ==> InsideViewBox(doc.groups[k], doc.header.viewBox))
    && (forall k, l :: 0 <= k < l < |doc.groups| ==>
          doc.groups[k].y < doc.groups[l].y ||
          (doc.groups[k].y == doc.groups[l].y && doc.groups[k].x < doc.groups[l].x))
  }

  /** Groups listed in reading order sit at pairwise distinct translations. */
  lemma WellPlacedDistinct(doc: Document, k: nat, l: nat)
    requires WellPlaced(doc)
    requires k < |doc.groups| && l < |doc.groups| && k != l
    ensures (doc.groups[k].x, doc.groups[k].y) != (doc.groups[l].x, doc.groups[l].y)
  {
  }

  /** Every rendered document is well placed. */
  lemma {:induction false} RenderWellPlaced(icons: seq<string>, p: PerLine)
    ensures WellPlaced(Render(icons, p))
  {
    var doc := Render(icons, p);
    var n := |icons|;
    forall k | 0 <= k < |doc.groups|
      ensures InsideViewBox(doc.groups[k], doc.header.viewBox)
    {
      OffsetInViewBox(k, n, p);
    }
    forall k, l | 0 <= k < l < |doc.groups|
      ensures doc.groups[k].y < doc.groups[l].y ||
              (doc.groups[k].y == doc.groups[l].y && doc.groups[k].x < doc.groups[l].x)
    {
      OffsetsRowMajor(k, l, p);
    }
  }

  /** Group k of the document holds icon k unchanged, translated to its cell. */
  lemma RenderGroupAt(icons: seq<string>, p: PerLine, k: nat)
    requires k < |icons|
    ensures k < |Render(icons, p).groups|
    ensures Render(icons, p).groups[k] ==
      Group((k % p) * GridSize, (k / p) * GridSize, icons[k])
  {
  }

  /** Rendering two icon lists one after the other equals rendering their concatenation. */
  lemma {:induction false} RenderGroupsAppend(a: seq<string>, b: seq<string>, p: PerLine)
    ensures Groups(a + b, p)[..|a|] == Groups(a, p)
    ensures forall k :: 0 <= k < |b| ==>
      Groups(a + b, p)[|a| + k] == WrapIcon(|a| + k, b[k], p)
  {
  }
}
