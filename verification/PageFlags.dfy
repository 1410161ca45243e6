/**
  The fields packed into page->flags: section, node and zone above the flag bits,
  for every choice of widths the configuration can make.
 */
module PageFlags {
  import opened BitFields

  // ----- layouts -----

  /** size: bits of a long; nrFlags: flag bits kept free at the bottom; sparse: sparsemem without
      vmemmap; the shifts are the widths the configuration asks for. */
  datatype Layout = Layout(size: nat, nrFlags: nat, sparse: bool, vmemmap: bool,
                           sectionsShift: nat, zonesShift: nat, nodesShift: nat)
  {
    function SectionsWidth(): nat {
      if sparse then sectionsShift else 0
    }

    function ZonesWidth(): nat {
      zonesShift
    }

    /** Nodes go in if there is room for them. */
    predicate NodesFit() {
      SectionsWidth() + ZonesWidth() + nodesShift <= size - nrFlags
    }

    function NodesWidth(): nat {
      if NodesFit() then nodesShift else 0
    }

    /** Neither #error fires. */
    predicate Compiles() {
      && (vmemmap ==> !sparse && NodesFit())
      && SectionsWidth() + NodesWidth() + ZonesWidth() <= size - nrFlags
    }

    function SectionsPgoff(): int {
      size - SectionsWidth()
    }

    function NodesPgoff(): int {
      SectionsPgoff() - NodesWidth()
    }

    function ZonesPgoff(): int {
      NodesPgoff() - ZonesWidth()
    }

    function Shift(pgoff: int, width: nat): nat
      requires 0 <= pgoff
    {
      if width != 0 then pgoff else 0
    }

    /** The node cannot be read from the flags. */
    predicate NodeNotInPageFlags() {
      !(NodesWidth() > 0 || nodesShift == 0)
    }
  }

  // ----- the page -----

  class Page {
    const l: Layout
    var flags: Bits

    ghost predicate Valid()
      reads this
    {
      l.Compiles() && |flags| == l.size
    }

    constructor (l: Layout, flags: Bits)
      requires l.Compiles() && |flags| == l.size
      ensures Valid() && this.l == l && this.flags == flags
    {
      this.l, this.flags := l, flags;
    }

    function PageZonenum(): Bits
      requires Valid()
      reads this
    {
      And(Shr(flags, l.Shift(l.ZonesPgoff(), l.ZonesWidth())), Mask(l.size, l.ZonesWidth()))
    }

    function PageToNid(): Bits
      requires Valid()
      reads this
    {
      And(Shr(flags, l.Shift(l.NodesPgoff(), l.NodesWidth())), Mask(l.size, l.NodesWidth()))
    }

    function PageToSection(): Bits
      requires Valid()
      reads this
    {
      And(Shr(flags, l.Shift(l.SectionsPgoff(), l.SectionsWidth())), Mask(l.size, l.SectionsWidth()))
    }

    method SetPageZone(zone: Bits)
      requires Valid() && |zone| == l.size
      modifies this
      ensures Valid() && flags == PutField(old(flags), l.Shift(l.ZonesPgoff(), l.ZonesWidth()), l.ZonesWidth(), zone)
    {
      var shift := l.Shift(l.ZonesPgoff(), l.ZonesWidth());
      flags := And(flags, Not(Shl(Mask(l.size, l.ZonesWidth()), shift)));
      flags := Or(flags, Shl(And(zone, Mask(l.size, l.ZonesWidth())), shift));
    }

    method SetPageNode(node: Bits)
      requires Valid() && |node| == l.size
      modifies this
      ensures Valid() && flags == PutField(old(flags), l.Shift(l.NodesPgoff(), l.NodesWidth()), l.NodesWidth(), node)
    {
      var shift := l.Shift(l.NodesPgoff(), l.NodesWidth());
      flags := And(flags, Not(Shl(Mask(l.size, l.NodesWidth()), shift)));
      flags := Or(flags, Shl(And(node, Mask(l.size, l.NodesWidth())), shift));
    }

    method SetPageSection(section: Bits)
      requires Valid() && |section| == l.size
      modifies this
      ensures Valid()
      ensures flags == PutField(old(flags), l.Shift(l.SectionsPgoff(), l.SectionsWidth()), l.SectionsWidth(), section)
    {
      var shift := l.Shift(l.SectionsPgoff(), l.SectionsWidth());
      flags := And(flags, Not(Shl(Mask(l.size, l.SectionsWidth()), shift)));
      flags := Or(flags, Shl(And(section, Mask(l.size, l.SectionsWidth())), shift));
    }

    /** After setting all three, each reader returns what was set, and the bits below the fields are
        what they were, whatever the flags held before. */
    method SetPageLinks(zone: Bits, node: Bits, section: Bits)
      requires Valid() && |zone| == |node| == |section| == l.size
      requires Fits(zone, l.zonesShift) && Fits(node, l.nodesShift) && (l.sparse ==> Fits(section, l.sectionsShift))
      modifies this
      ensures Valid()
      ensures PageZonenum() == zone
      ensures !l.NodeNotInPageFlags() ==> PageToNid() == node
      ensures l.sparse ==> PageToSection() == section
      ensures forall i :: 0 <= i < l.ZonesPgoff() ==> flags[i] == old(flags)[i]
      ensures l.nrFlags <= l.ZonesPgoff()
      ensures Placed(l, flags, zone, node, section)
    {
      ghost var f0 := flags;
      SetPageZone(zone);
      ghost var f1 := flags;
      SetPageNode(node);
      ghost var f2 := flags;
      SetPageSection(section);
      LinksKept(l, f0, f1, f2, flags, zone, node, section);
      LinksPlaced(l, f0, f1, f2, flags, zone, node, section);
    }
  }

  /** Where the three fields lie: the section at the top, the node below it if there is room for one, the zone
      below that. */
  lemma LinksPlaced(l: Layout, f0: Bits, f1: Bits, f2: Bits, f3: Bits, zone: Bits, node: Bits, section: Bits)
    requires l.Compiles() && |f0| == |zone| == |node| == |section| == l.size
    requires f1 == PutField(f0, l.Shift(l.ZonesPgoff(), l.ZonesWidth()), l.ZonesWidth(), zone)
    requires |f1| == l.size && f2 == PutField(f1, l.Shift(l.NodesPgoff(), l.NodesWidth()), l.NodesWidth(), node)
    requires |f2| == l.size
    requires f3 == PutField(f2, l.Shift(l.SectionsPgoff(), l.SectionsWidth()), l.SectionsWidth(), section)
    ensures Placed(l, f3, zone, node, section)
  {
    FieldsApart(l);
    var zs, ns, ss := l.Shift(l.ZonesPgoff(), l.ZonesWidth()), l.Shift(l.NodesPgoff(), l.NodesWidth()),
                      l.Shift(l.SectionsPgoff(), l.SectionsWidth());
    var zw, nw, sw := l.ZonesWidth(), l.NodesWidth(), l.SectionsWidth();
    assert zw > 0 ==> zs == l.ZonesPgoff();
    assert nw > 0 ==> ns == l.NodesPgoff();
    assert sw > 0 ==> ss == l.SectionsPgoff();
    ThreeFields(f0, f1, f2, f3, zs, zw, zone, ns, nw, node, ss, sw, section);
    PlacedHere(l, f3, zone, node, section);
  }

  lemma PlacedHere(l: Layout, flags: Bits, zone: Bits, node: Bits, section: Bits)
    requires l.Compiles()
    requires l.SectionsWidth() > 0 ==> HeldAt(flags, l.SectionsPgoff(), l.SectionsWidth(), section)
    requires l.NodesWidth() > 0 ==> HeldAt(flags, l.NodesPgoff(), l.NodesWidth(), node)
    requires l.ZonesWidth() > 0 ==> HeldAt(flags, l.ZonesPgoff(), l.ZonesWidth(), zone)
    ensures Placed(l, flags, zone, node, section)
  {
    FieldsApart(l);
  }

  /** The fields of a layout that compiles lie inside the word, one below the other. */
  lemma FieldsApart(l: Layout)
    requires l.Compiles()
    ensures 0 <= l.ZonesPgoff() && l.ZonesPgoff() + l.ZonesWidth() == l.NodesPgoff()
    ensures l.NodesPgoff() + l.NodesWidth() == l.SectionsPgoff() && l.SectionsPgoff() + l.SectionsWidth() == l.size
    ensures l.SectionsWidth() == if l.sparse then l.sectionsShift else 0
    ensures l.NodesWidth() == if l.SectionsWidth() + l.zonesShift + l.nodesShift <= l.size - l.nrFlags then l.nodesShift
                              else 0
    ensures l.ZonesWidth() == l.zonesShift
  {
  }

  ghost predicate Placed(l: Layout, flags: Bits, zone: Bits, node: Bits, section: Bits) {
    var sections := if l.sparse then l.sectionsShift else 0;
    var nodes := if sections + l.zonesShift + l.nodesShift <= l.size - l.nrFlags then l.nodesShift else 0;
    && (sections > 0 ==> HeldAt(flags, l.size - sections, sections, section))
    && (nodes > 0 ==> HeldAt(flags, l.size - sections - nodes, nodes, node))
    && (l.zonesShift > 0 ==> HeldAt(flags, l.size - sections - nodes - l.zonesShift, l.zonesShift, zone))
  }

  lemma LinksKept(l: Layout, f0: Bits, f1: Bits, f2: Bits, f3: Bits, zone: Bits, node: Bits, section: Bits)
    requires l.Compiles() && |f0| == |zone| == |node| == |section| == l.size
    requires Fits(zone, l.zonesShift) && Fits(node, l.nodesShift) && (l.sparse ==> Fits(section, l.sectionsShift))
    requires f1 == PutField(f0, l.Shift(l.ZonesPgoff(), l.ZonesWidth()), l.ZonesWidth(), zone)
    requires |f1| == l.size && f2 == PutField(f1, l.Shift(l.NodesPgoff(), l.NodesWidth()), l.NodesWidth(), node)
    requires |f2| == l.size
    requires f3 == PutField(f2, l.Shift(l.SectionsPgoff(), l.SectionsWidth()), l.SectionsWidth(), section)
    ensures GetField(f3, l.Shift(l.ZonesPgoff(), l.ZonesWidth()), l.ZonesWidth()) == zone
    ensures !l.NodeNotInPageFlags() ==> GetField(f3, l.Shift(l.NodesPgoff(), l.NodesWidth()), l.NodesWidth()) == node
    ensures l.sparse ==> GetField(f3, l.Shift(l.SectionsPgoff(), l.SectionsWidth()), l.SectionsWidth()) == section
    ensures |f3| == l.size && forall i :: 0 <= i < l.ZonesPgoff() ==> f3[i] == f0[i]
  {
    var zs, ns, ss := l.Shift(l.ZonesPgoff(), l.ZonesWidth()), l.Shift(l.NodesPgoff(), l.NodesWidth()),
                      l.Shift(l.SectionsPgoff(), l.SectionsWidth());
    var zw, nw, sw := l.ZonesWidth(), l.NodesWidth(), l.SectionsWidth();
    GetPut(f0, zs, zw, zone);
    GetPutOther(f1, ns, nw, node, zs, zw);
    GetPutOther(f2, ss, sw, section, zs, zw);
    if !l.NodeNotInPageFlags() {
      GetPut(f1, ns, nw, node);
      GetPutOther(f2, ss, sw, section, ns, nw);
    }
    if l.sparse {
      GetPut(f2, ss, sw, section);
    }
    forall i | 0 <= i < l.ZonesPgoff() ensures f3[i] == f0[i] {
      PutBit(f0, zs, zw, zone, i);
      PutBit(f1, ns, nw, node, i);
      PutBit(f2, ss, sw, section, i);
    }
  }
}
