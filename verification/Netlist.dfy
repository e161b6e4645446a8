/** What the product model must be, as a function of the parsed file model. */
module NetlistSpec {
  import opened Basics

  type u32 = x: int | 0 <= x < 0x1_0000_0000

  /** A toeprint with this net number (-1 as unsigned) is not connected. */
  const NO_NET: u32 := 0xFFFF_FFFF

  datatype Side = Top | Bottom

  datatype NetRecord = NetRecord(name: string, index: u32)
  datatype PackageRecord = PackageRecord(name: string, index: u32, pinNames: seq<string>)
  datatype ToeprintRecord = ToeprintRecord(name: string, pinNumber: u32, netNumber: u32)
  datatype ComponentRecord = ComponentRecord(
    compName: string, partName: string, pkgRef: u32, index: u32, toeprints: seq<ToeprintRecord>)
  datatype ComponentsFile = ComponentsFile(side: Side, records: seq<ComponentRecord>)
  datatype Step = Step(
    nets: seq<NetRecord>, packages: seq<PackageRecord>, top: Option<ComponentsFile>, bottom: Option<ComponentsFile>)

  /** Product-model values. A pointer to a package, part or component is the
      position of its target in the design's list. */
  datatype Pin = Pin(name: string, index: nat)
  datatype Component = Component(refDes: string, partName: string, package: nat, index: u32, side: Side, part: nat)
  datatype Connection = Connection(component: nat, pin: Pin)

  // ----------------------------------------------------------- Name indexes

  /** A by-name index filled in list order: a later entry replaces an earlier. */
  function ByName(names: seq<string>): (m: map<string, nat>) {
    if names == [] then map[]
    else ByName(names[..|names| - 1])[names[|names| - 1] := |names| - 1]
  }

  lemma ByNameGrows(names: seq<string>, x: string)
    ensures ByName(names + [x]) == ByName(names)[x := |names|]
  {
    assert (names + [x])[..|names|] == names;
  }

  /** The index leads to the last entry of that name, and misses no name. */
  lemma {:induction false} ByNameIsTheLast(names: seq<string>, x: string)
    ensures x in ByName(names) <==> x in names
    ensures x in names ==>
              var k := ByName(names)[x];
              k < |names| && names[k] == x && forall m :: k < m < |names| ==> names[m] != x
  {
    if names != [] {
      var n := |names| - 1;
      ByNameIsTheLast(names[..n], x);
      assert names == names[..n] + [names[n]];
    }
  }

  /** Names in the order in which they are first seen. */
  function FirstSeen(names: seq<string>): (r: seq<string>) {
    if names == [] then []
    else
      var n := |names| - 1;
      if names[n] in names[..n] then FirstSeen(names[..n]) else FirstSeen(names[..n]) + [names[n]]
  }

  predicate Distinct(s: seq<string>) {
    forall i, j :: 0 <= i < j < |s| ==> s[i] != s[j]
  }

  lemma {:induction false} FirstSeenNames(names: seq<string>)
    ensures forall x :: x in FirstSeen(names) <==> x in names
    ensures Distinct(FirstSeen(names))
  {
    if names != [] {
      var n := |names| - 1;
      FirstSeenNames(names[..n]);
      assert names == names[..n] + [names[n]];
    }
  }

  lemma FirstSeenOfOneMore(all: seq<string>, x: string)
    ensures FirstSeen(all + [x]) == if x in all then FirstSeen(all) else FirstSeen(all) + [x]
  {
    assert (all + [x])[..|all|] == all;
  }

  lemma FirstSeenGrows(before: seq<string>, names: seq<string>, i: nat, seen: seq<string>)
    requires i < |names| && seen == FirstSeen(before + names[..i])
    ensures names[i] in ByName(seen) ==> FirstSeen(before + names[..i + 1]) == seen
    ensures names[i] !in ByName(seen) ==>
              && FirstSeen(before + names[..i + 1]) == seen + [names[i]]
              && ByName(seen + [names[i]]) == ByName(seen)[names[i] := |seen|]
  {
    var all, x := before + names[..i], names[i];
    assert before + names[..i + 1] == all + [x];
    FirstSeenOfOneMore(all, x);
    assert x in ByName(seen) <==> x in all by {
      FirstSeenNames(all);
      ByNameIsTheLast(seen, x);
    }
    ByNameGrows(seen, x);
  }

  /** Where a name is first seen. */
  function FirstAt(names: seq<string>, x: string): (k: nat)
    requires x in names
    ensures k < |names| && names[k] == x && forall m :: 0 <= m < k ==> names[m] != x
  {
    if names[0] == x then 0 else 1 + FirstAt(names[1..], x)
  }

  /** The list keeps the order of first sight. */
  lemma {:induction false} FirstSeenInOrder(names: seq<string>, i: nat, j: nat)
    requires i < j < |FirstSeen(names)|
    ensures FirstSeen(names)[i] in names && FirstSeen(names)[j] in names
    ensures FirstAt(names, FirstSeen(names)[i]) < FirstAt(names, FirstSeen(names)[j])
  {
    FirstSeenNames(names);
    var n := |names| - 1;
    var before := names[..n];
    var x, y := FirstSeen(names)[i], FirstSeen(names)[j];
    FirstSeenNames(before);
    FirstAtPrefix(names, n, x);
    if j < |FirstSeen(before)| {
      FirstSeenInOrder(before, i, j);
      FirstAtPrefix(names, n, y);
    }
  }

  lemma FirstAtPrefix(names: seq<string>, n: nat, x: string)
    requires n <= |names| && x in names[..n]
    ensures x in names && FirstAt(names, x) == FirstAt(names[..n], x)
  {
    var k := FirstAt(names[..n], x);
    assert names[k] == x && forall m :: 0 <= m < k ==> names[m] == names[..n][m];
  }

  // -------------------------------------------------------------- Toeprints

  /** A toeprint with the reference designator of its component. */
  datatype Entry = Entry(refDes: string, pin: u32, net: u32)

  function EntriesOf(r: ComponentRecord): (es: seq<Entry>)
    ensures |es| == |r.toeprints|
  {
    seq(|r.toeprints|, j requires 0 <= j < |r.toeprints| =>
      Entry(r.compName, r.toeprints[j].pinNumber, r.toeprints[j].netNumber))
  }

  function Entries(rs: seq<ComponentRecord>): (es: seq<Entry>) {
    if rs == [] then [] else Entries(rs[..|rs| - 1]) + EntriesOf(rs[|rs| - 1])
  }

  predicate HasFiles(s: Step) {
    s.top.Some? && s.bottom.Some?
  }

  function Records(s: Step): (rs: seq<ComponentRecord>)
    requires HasFiles(s)
  {
    s.top.value.records + s.bottom.value.records
  }

  function PartNames(rs: seq<ComponentRecord>): (r: seq<string>)
    ensures |r| == |rs|
  {
    seq(|rs|, i requires 0 <= i < |rs| => rs[i].partName)
  }

  function RefDes(cs: seq<Component>): (r: seq<string>)
    ensures |r| == |cs|
  {
    seq(|cs|, i requires 0 <= i < |cs| => cs[i].refDes)
  }

  lemma IndexGrows(cs: seq<Component>, c: Component)
    ensures ByName(RefDes(cs + [c])) == ByName(RefDes(cs))[c.refDes := |cs|]
  {
    assert RefDes(cs + [c]) == RefDes(cs) + [c.refDes];
    ByNameGrows(RefDes(cs), c.refDes);
  }

  function PinsOf(names: seq<string>): (r: seq<Pin>)
    ensures |r| == |names|
  {
    seq(|names|, i requires 0 <= i < |names| => Pin(names[i], i))
  }

  function NetNames(rs: seq<NetRecord>): (r: seq<string>)
    ensures |r| == |rs|
  {
    seq(|rs|, i requires 0 <= i < |rs| => rs[i].name)
  }

  function PackageNames(rs: seq<PackageRecord>): (r: seq<string>)
    ensures |r| == |rs|
  {
    seq(|rs|, i requires 0 <= i < |rs| => rs[i].name)
  }

  function AllPins(rs: seq<PackageRecord>): (r: seq<seq<Pin>>)
    ensures |r| == |rs|
  {
    seq(|rs|, i requires 0 <= i < |rs| => PinsOf(rs[i].pinNames))
  }

  /** The packages a component can be mounted in are those of the file; the code
      reads past the list otherwise. */
  predicate PackagesInRange(s: Step) {
    HasFiles(s) ==> forall i :: 0 <= i < |Records(s)| ==> Records(s)[i].pkgRef < |s.packages|
  }

  lemma EntriesGrow(rs: seq<ComponentRecord>, i: nat)
    requires i < |rs|
    ensures Entries(rs[..i + 1]) == Entries(rs[..i]) + EntriesOf(rs[i])
  {
    assert rs[..i + 1][..i] == rs[..i];
  }

  // ------------------------------------------------------------- The netlist

  /** What a pin connection is looked up in. */
  datatype Board = Board(netCount: nat, pins: seq<seq<Pin>>, components: seq<Component>, byRefDes: map<string, nat>)

  /** No lookup leads outside the lists. */
  ghost predicate InRange(b: Board) {
    && (forall n :: n in b.byRefDes ==> b.byRefDes[n] < |b.components|)
    && (forall i :: 0 <= i < |b.components| ==> b.components[i].package < |b.pins|)
  }

  /** The component recorded last under the name, and that package's pin. */
  predicate Resolves(b: Board, e: Entry) {
    && e.net < b.netCount
    && e.refDes in b.byRefDes
    && b.byRefDes[e.refDes] < |b.components|
    && b.components[b.byRefDes[e.refDes]].package < |b.pins|
    && e.pin < |b.pins[b.components[b.byRefDes[e.refDes]].package]|
  }

  function Joined(b: Board, e: Entry): (c: Connection)
    requires Resolves(b, e)
  {
    var k := b.byRefDes[e.refDes];
    Connection(k, b.pins[b.components[k].package][e.pin])
  }

  predicate Connects(b: Board, e: Entry) {
    e.net == NO_NET || Resolves(b, e)
  }

  predicate AllConnect(b: Board, es: seq<Entry>) {
    forall i :: 0 <= i < |es| ==> Connects(b, es[i])
  }

  lemma AllConnectConcat(b: Board, x: seq<Entry>, y: seq<Entry>)
    ensures AllConnect(b, x + y) <==> AllConnect(b, x) && AllConnect(b, y)
  {
    assert forall i :: 0 <= i < |x| ==> (x + y)[i] == x[i];
    assert forall i :: 0 <= i < |y| ==> (x + y)[|x| + i] == y[i];
  }

  lemma {:induction false} RecordConnects(b: Board, rs: seq<ComponentRecord>, i: nat)
    requires i < |rs| && AllConnect(b, Entries(rs))
    ensures AllConnect(b, EntriesOf(rs[i]))
    decreases |rs|
  {
    var n := |rs| - 1;
    var before, es := Entries(rs[..n]), EntriesOf(rs[n]);
    AllConnectConcat(b, before, es);
    if i < n {
      RecordConnects(b, rs[..n], i);
    }
  }

  /** The connections of net k: its toeprints, in order. */
  function Wires(b: Board, es: seq<Entry>, k: nat): (ws: seq<Connection>) {
    if es == [] then []
    else
      var n := |es| - 1;
      if es[n].net == k && k != NO_NET && Resolves(b, es[n]) then Wires(b, es[..n], k) + [Joined(b, es[n])]
      else Wires(b, es[..n], k)
  }

  lemma WiresOfOneMore(b: Board, es: seq<Entry>, e: Entry, k: nat)
    ensures Wires(b, es + [e], k) ==
            Wires(b, es, k) + if e.net == k && k != NO_NET && Resolves(b, e) then [Joined(b, e)] else []
  {
    assert (es + [e])[..|es|] == es;
  }

  function TotalWires(b: Board, es: seq<Entry>, n: nat): (t: nat) {
    if n == 0 then 0 else TotalWires(b, es, n - 1) + |Wires(b, es, n - 1)|
  }

  function Connected(es: seq<Entry>): (n: nat) {
    if es == [] then 0
    else Connected(es[..|es| - 1]) + if es[|es| - 1].net == NO_NET then 0 else 1
  }

  lemma {:induction false} OneMoreWire(b: Board, es: seq<Entry>, n: nat)
    requires es != [] && Connects(b, es[|es| - 1])
    ensures TotalWires(b, es, n) ==
            TotalWires(b, es[..|es| - 1], n) +
            if es[|es| - 1].net != NO_NET && es[|es| - 1].net < n then 1 else 0
    decreases n
  {
    if n > 0 {
      OneMoreWire(b, es, n - 1);
    }
  }

  lemma {:induction false} NoWires(b: Board, n: nat)
    ensures TotalWires(b, [], n) == 0
  {
    if n > 0 {
      NoWires(b, n - 1);
    }
  }

  /** Conservation: the nets together hold one connection per connected toeprint. */
  lemma {:induction false} ConnectionsAreConserved(b: Board, es: seq<Entry>)
    requires AllConnect(b, es)
    ensures TotalWires(b, es, b.netCount) == Connected(es)
  {
    if es == [] {
      NoWires(b, b.netCount);
    } else {
      OneMoreWire(b, es, b.netCount);
      ConnectionsAreConserved(b, es[..|es| - 1]);
    }
  }

  // -------------------------------------------------------- The whole design

  function PartOf(parts: map<string, nat>, name: string): nat {
    if name in parts then parts[name] else 0
  }

  function ComponentsOf(f: ComponentsFile, parts: map<string, nat>): (cs: seq<Component>)
    ensures |cs| == |f.records|
  {
    seq(|f.records|, i requires 0 <= i < |f.records| =>
      var r := f.records[i];
      Component(r.compName, r.partName, r.pkgRef, r.index, f.side, PartOf(parts, r.partName)))
  }

  function Parts(s: Step): (parts: seq<string>)
    requires HasFiles(s)
  {
    FirstSeen(PartNames(s.top.value.records) + PartNames(s.bottom.value.records))
  }

  function Components(s: Step): (cs: seq<Component>)
    requires HasFiles(s)
    ensures |cs| == |Records(s)|
  {
    var parts := ByName(Parts(s));
    ComponentsOf(s.top.value, parts) + ComponentsOf(s.bottom.value, parts)
  }

  function BoardOf(s: Step): Board
    requires HasFiles(s)
  {
    Board(|s.nets|, AllPins(s.packages), Components(s), ByName(RefDes(Components(s))))
  }

  lemma PackagesInBothFiles(s: Step)
    requires HasFiles(s) && PackagesInRange(s)
    ensures forall i :: 0 <= i < |s.top.value.records| ==> s.top.value.records[i].pkgRef < |s.packages|
    ensures forall i :: 0 <= i < |s.bottom.value.records| ==> s.bottom.value.records[i].pkgRef < |s.packages|
  {
    var top, bottom := s.top.value.records, s.bottom.value.records;
    assert forall i :: 0 <= i < |top| ==> top[i] == Records(s)[i];
    assert forall i :: 0 <= i < |bottom| ==> bottom[i] == Records(s)[|top| + i];
  }

  lemma PartsAreKnown(s: Step)
    requires HasFiles(s)
    ensures forall i :: 0 <= i < |s.top.value.records| ==> s.top.value.records[i].partName in ByName(Parts(s))
    ensures forall i :: 0 <= i < |s.bottom.value.records| ==> s.bottom.value.records[i].partName in ByName(Parts(s))
  {
    var top, bottom := s.top.value.records, s.bottom.value.records;
    var names := PartNames(top) + PartNames(bottom);
    FirstSeenNames(names);
    forall x | x in names
      ensures x in ByName(Parts(s))
    {
      ByNameIsTheLast(Parts(s), x);
    }
    assert forall i :: 0 <= i < |top| ==> top[i].partName == names[i];
    assert forall i :: 0 <= i < |bottom| ==> bottom[i].partName == names[|top| + i];
  }

  lemma BoardIsInRange(s: Step)
    requires HasFiles(s) && PackagesInRange(s)
    ensures InRange(BoardOf(s))
  {
    var b := BoardOf(s);
    forall n | n in b.byRefDes
      ensures b.byRefDes[n] < |b.components|
    {
      ByNameIsTheLast(RefDes(b.components), n);
    }
    forall i | 0 <= i < |b.components|
      ensures b.components[i].package < |b.pins|
    {
      assert b.components[i].package == Records(s)[i].pkgRef;
    }
  }

  function Toeprints(s: Step): seq<Entry>
    requires HasFiles(s)
  {
    Entries(s.top.value.records) + Entries(s.bottom.value.records)
  }

  lemma {:induction false} EntryIsOfARecord(rs: seq<ComponentRecord>, i: nat) returns (r: nat)
    requires i < |Entries(rs)|
    ensures r < |rs| && Entries(rs)[i].refDes == rs[r].compName
  {
    var n := |rs| - 1;
    if i < |Entries(rs[..n])| {
      r := EntryIsOfARecord(rs[..n], i);
    } else {
      r := n;
    }
  }

  lemma ToeprintIsOfARecord(s: Step, i: nat) returns (r: nat)
    requires HasFiles(s) && i < |Toeprints(s)|
    ensures r < |Records(s)| && Toeprints(s)[i].refDes == Records(s)[r].compName
  {
    var top := s.top.value.records;
    if i < |Entries(top)| {
      r := EntryIsOfARecord(top, i);
    } else {
      r := EntryIsOfARecord(s.bottom.value.records, i - |Entries(top)|);
      r := |top| + r;
    }
  }

  lemma RefDesAreTheNames(s: Step)
    requires HasFiles(s)
    ensures forall m :: 0 <= m < |Records(s)| ==>
              && RefDes(Components(s))[m] == Records(s)[m].compName
              && Components(s)[m].package == Records(s)[m].pkgRef
  {
  }

  /** The record that a name leads to: the last of that name. */
  ghost predicate IsLastNamed(rs: seq<ComponentRecord>, k: nat, name: string) {
    && k < |rs| && rs[k].compName == name
    && forall m :: k < m < |rs| ==> rs[m].compName != name
  }

  lemma NameLeadsToTheLast(s: Step, name: string, r: nat)
    requires HasFiles(s) && r < |Records(s)| && Records(s)[r].compName == name
    ensures name in BoardOf(s).byRefDes
    ensures IsLastNamed(Records(s), BoardOf(s).byRefDes[name], name)
  {
    RefDesAreTheNames(s);
    var names := RefDes(Components(s));
    assert names[r] == name;
    ByNameIsTheLast(names, name);
  }

  lemma NamesAreKnown(s: Step)
    requires HasFiles(s)
    ensures var known := BoardOf(s).byRefDes;
      && (forall i :: 0 <= i < |s.top.value.records| ==> s.top.value.records[i].compName in known)
      && (forall i :: 0 <= i < |s.bottom.value.records| ==> s.bottom.value.records[i].compName in known)
  {
    var top, bottom := s.top.value.records, s.bottom.value.records;
    forall i | 0 <= i < |top|
      ensures top[i].compName in BoardOf(s).byRefDes
    {
      NameLeadsToTheLast(s, top[i].compName, i);
    }
    forall i | 0 <= i < |bottom|
      ensures bottom[i].compName in BoardOf(s).byRefDes
    {
      NameLeadsToTheLast(s, bottom[i].compName, |top| + i);
    }
  }

  lemma ResolvesMeans(s: Step, e: Entry, k: nat)
    requires HasFiles(s) && PackagesInRange(s) && k < |Records(s)|
    requires e.refDes in BoardOf(s).byRefDes && BoardOf(s).byRefDes[e.refDes] == k
    ensures Records(s)[k].pkgRef < |s.packages|
    ensures var pins := s.packages[Records(s)[k].pkgRef].pinNames;
            && (Resolves(BoardOf(s), e) <==> e.net < |s.nets| && e.pin < |pins|)
            && (Resolves(BoardOf(s), e) ==> Joined(BoardOf(s), e) == Connection(k, Pin(pins[e.pin], e.pin)))
  {
    RefDesAreTheNames(s);
  }

  /** In terms of the file alone: a toeprint always finds the component recorded
      last under its name, and is wired to the pin of that number in that
      component's package; only a net or a pin out of range can stop it. */
  lemma ToeprintFindsItsComponent(s: Step, i: nat) returns (k: nat)
    requires HasFiles(s) && PackagesInRange(s) && i < |Toeprints(s)|
    ensures IsLastNamed(Records(s), k, Toeprints(s)[i].refDes) && Records(s)[k].pkgRef < |s.packages|
    ensures var e, pins := Toeprints(s)[i], s.packages[Records(s)[k].pkgRef].pinNames;
            && (Resolves(BoardOf(s), e) <==> e.net < |s.nets| && e.pin < |pins|)
            && (Resolves(BoardOf(s), e) ==> Joined(BoardOf(s), e) == Connection(k, Pin(pins[e.pin], e.pin)))
  {
    var e := Toeprints(s)[i];
    var r := ToeprintIsOfARecord(s, i);
    NameLeadsToTheLast(s, e.refDes, r);
    k := BoardOf(s).byRefDes[e.refDes];
    ResolvesMeans(s, e, k);
  }

  /** The build succeeds exactly on these file models. */
  predicate Buildable(steps: seq<Step>) {
    |steps| > 0 && HasFiles(steps[0]) && AllConnect(BoardOf(steps[0]), Toeprints(steps[0]))
  }
}

/** The classes that Design::Build fills in. */
module ProductModel {
  import opened Basics
  import opened NetlistSpec
  import opened NetlistLaw

  class Package {
    const name: string
    const index: u32
    var pins: seq<Pin>
    var pinsByName: map<string, nat>

    constructor (name: string, index: u32)
      ensures this.name == name && this.index == index && pins == [] && pinsByName == map[]
    {
      this.name, this.index, pins, pinsByName := name, index, [], map[];
    }

    method AddPin(name: string)
      modifies this
      ensures pins == old(pins) + [Pin(name, |old(pins)|)]
      ensures pinsByName == old(pinsByName)[name := |old(pins)|]
    {
      var index := |pins|;
      pins := pins + [Pin(name, index)];
      pinsByName := pinsByName[name := index];
    }

    function GetPin(i: u32): (r: Option<Pin>)
      reads this
      ensures r.Some? <==> i < |pins|
      ensures r.Some? ==> r.value == pins[i]
    {
      if i < |pins| then Some(pins[i]) else None
    }
  }

  class Net {
    const name: string
    const index: u32
    var connections: seq<Connection>

    constructor (name: string, index: u32)
      ensures this.name == name && this.index == index && connections == []
    {
      this.name, this.index, connections := name, index, [];
    }

    method AddPinConnection(component: nat, pin: Pin)
      modifies this
      ensures connections == old(connections) + [Connection(component, pin)]
    {
      connections := connections + [Connection(component, pin)];
    }
  }

  class Design {
    var nets: seq<Net>
    var netsByName: map<string, nat>
    var packages: seq<Package>
    var packagesByName: map<string, nat>
    var parts: seq<string>
    var partsByName: map<string, nat>
    var components: seq<Component>
    var componentsByName: map<string, nat>

    /** The reference designators that a failed lookup has entered with a null pointer. */
    var nullNames: set<string>

    constructor ()
      ensures IsEmpty()
    {
      nets, netsByName, packages, packagesByName := [], map[], [], map[];
      parts, partsByName, components, componentsByName, nullNames := [], map[], [], map[], {};
    }

    ghost predicate IsEmpty()
      reads this
    {
      && nets == [] && netsByName == map[] && packages == [] && packagesByName == map[]
      && parts == [] && partsByName == map[] && components == [] && componentsByName == map[] && nullNames == {}
    }

    /** The lists hold different objects, so filling one leaves the others alone. */
    ghost predicate Separate()
      reads this
    {
      forall i, j :: 0 <= i < j < |nets| ==> nets[i] != nets[j]
    }

    ghost predicate NetsMatch(rs: seq<NetRecord>)
      reads this, nets
    {
      && |nets| == |rs|
      && (forall k :: 0 <= k < |rs| ==> nets[k].name == rs[k].name && nets[k].index == rs[k].index)
      && netsByName == ByName(NetNames(rs))
    }

    ghost predicate PackagesMatch(rs: seq<PackageRecord>)
      reads this, packages
    {
      && |packages| == |rs|
      && (forall k :: 0 <= k < |rs| ==> Packs(packages[k], rs[k]))
      && packagesByName == ByName(PackageNames(rs))
    }

    /** The lists a connection is looked up in, as values. */
    ghost predicate Shows(b: Board)
      reads this, packages
    {
      && |nets| == b.netCount
      && |packages| == |b.pins|
      && (forall k :: 0 <= k < |packages| ==> packages[k].pins == b.pins[k])
      && components == b.components
      && componentsByName == b.byRefDes
    }

    /** Every net holds the connections of the toeprints seen so far. */
    ghost predicate Wired(b: Board, es: seq<Entry>)
      reads this, nets
    {
      forall k :: 0 <= k < |nets| ==> nets[k].connections == Wires(b, es, k)
    }

    method BuildNets(rs: seq<NetRecord>)
      requires nets == [] && netsByName == map[]
      modifies this`nets, this`netsByName
      ensures NetsMatch(rs) && Separate() && fresh(nets)
      ensures forall k :: 0 <= k < |nets| ==> nets[k].connections == []
    {
      for i := 0 to |rs|
        invariant fresh(nets) && Separate()
        invariant NetsMatch(rs[..i])
        invariant forall k :: 0 <= k < |nets| ==> nets[k].connections == []
      {
        var net := new Net(rs[i].name, rs[i].index);
        assert NetNames(rs[..i + 1]) == NetNames(rs[..i]) + [net.name];
        ByNameGrows(NetNames(rs[..i]), net.name);
        nets := nets + [net];
        netsByName := netsByName[net.name := i];
      }
      assert rs[..|rs|] == rs;
    }

    method BuildPackages(rs: seq<PackageRecord>)
      requires packages == [] && packagesByName == map[]
      modifies this`packages, this`packagesByName
      ensures PackagesMatch(rs) && fresh(packages)
    {
      for i := 0 to |rs|
        invariant fresh(packages) && PackagesMatch(rs[..i])
      {
        var package := BuildPackage(rs[i]);
        assert PackageNames(rs[..i + 1]) == PackageNames(rs[..i]) + [package.name];
        ByNameGrows(PackageNames(rs[..i]), package.name);
        packages := packages + [package];
        packagesByName := packagesByName[package.name := i];
      }
      assert rs[..|rs|] == rs;
    }

    method BuildParts(f: ComponentsFile, ghost before: seq<string>)
      requires parts == FirstSeen(before) && partsByName == ByName(parts)
      modifies this`parts, this`partsByName
      ensures parts == FirstSeen(before + PartNames(f.records)) && partsByName == ByName(parts)
    {
      ghost var names := PartNames(f.records);
      assert before + names[..0] == before;
      for i := 0 to |f.records|
        invariant parts == FirstSeen(before + names[..i])
        invariant partsByName == ByName(parts)
      {
        var name := f.records[i].partName;
        assert name == names[i];
        FirstSeenGrows(before, names, i, parts);
        if name !in partsByName {
          partsByName := partsByName[name := |parts|];
          parts := parts + [name];
        }
      }
      assert names[..|names|] == names;
    }

    method BuildComponents(f: ComponentsFile)
      requires componentsByName == ByName(RefDes(components))
      requires forall i :: 0 <= i < |f.records| ==> f.records[i].pkgRef < |packages|
      requires forall i :: 0 <= i < |f.records| ==> f.records[i].partName in partsByName
      modifies this`components, this`componentsByName
      ensures components == old(components) + ComponentsOf(f, partsByName)
      ensures componentsByName == ByName(RefDes(components))
    {
      ghost var all := ComponentsOf(f, partsByName);
      for i := 0 to |f.records|
        invariant components == old(components) + all[..i]
        invariant componentsByName == ByName(RefDes(components))
      {
        var r := f.records[i];
        var c := Component(r.compName, r.partName, r.pkgRef, r.index, f.side, partsByName[r.partName]);
        IndexGrows(components, c);
        assert all[..i + 1] == all[..i] + [c];
        components := components + [c];
        componentsByName := componentsByName[c.refDes := |components| - 1];
      }
    }

    method CreatePinConnection(refDes: string, netNumber: u32, pinNumber: u32, ghost b: Board) returns (ok: bool)
      requires Shows(b) && Separate() && InRange(b)
      modifies nets, this`nullNames
      ensures ok <==> Resolves(b, Entry(refDes, pinNumber, netNumber))
      ensures nullNames == old(nullNames) + if netNumber < |nets| && refDes !in componentsByName then {refDes} else {}
      ensures forall k :: 0 <= k < |nets| && !(ok && k == netNumber) ==>
                            nets[k].connections == old(nets[k].connections)
      ensures ok ==> nets[netNumber].connections ==
                     old(nets[netNumber].connections) + [Joined(b, Entry(refDes, pinNumber, netNumber))]
    {
      if netNumber < |nets| {
        if refDes !in componentsByName {
          nullNames := nullNames + {refDes};
          return false;
        }
        var k := componentsByName[refDes];
        var pin := packages[components[k].package].GetPin(pinNumber);
        if pin.None? {
          return false;
        }
        nets[netNumber].AddPinConnection(k, pin.value);
        return true;
      }
      return false;
    }

    /** One toeprint: skipped if it has no net, else connected. */
    method PlaceToeprint(refDes: string, t: ToeprintRecord, ghost b: Board, ghost seen: seq<Entry>) returns (ok: bool)
      requires Shows(b) && Separate() && InRange(b) && Wired(b, seen) && refDes in b.byRefDes
      modifies nets, this`nullNames
      ensures ok <==> Connects(b, Entry(refDes, t.pinNumber, t.netNumber))
      ensures ok ==> Wired(b, seen + [Entry(refDes, t.pinNumber, t.netNumber)])
      ensures nullNames == old(nullNames)
    {
      ghost var e := Entry(refDes, t.pinNumber, t.netNumber);
      forall k: nat | k < |nets|
        ensures Wires(b, seen + [e], k) ==
                Wires(b, seen, k) + if e.net == k && k != NO_NET && Resolves(b, e) then [Joined(b, e)] else []
      {
        WiresOfOneMore(b, seen, e, k);
      }
      if t.netNumber == NO_NET {
        return true;
      }
      ok := CreatePinConnection(refDes, t.netNumber, t.pinNumber, b);
    }

    method BuildPlacementsOfRecord(r: ComponentRecord, ghost b: Board, ghost done: seq<Entry>) returns (ok: bool)
      requires Shows(b) && Separate() && InRange(b) && Wired(b, done) && r.compName in b.byRefDes
      modifies nets, this`nullNames
      ensures ok <==> AllConnect(b, EntriesOf(r))
      ensures ok ==> Wired(b, done + EntriesOf(r))
      ensures nullNames == old(nullNames)
    {
      ghost var es := EntriesOf(r);
      assert done + es[..0] == done;
      for j := 0 to |r.toeprints|
        invariant AllConnect(b, es[..j]) && nullNames == old(nullNames)
        invariant Wired(b, done + es[..j])
      {
        assert done + es[..j + 1] == done + es[..j] + [es[j]];
        ok := PlaceToeprint(r.compName, r.toeprints[j], b, done + es[..j]);
        if !ok {
          return false;
        }
      }
      assert es[..|es|] == es;
      return true;
    }

    method BuildPlacementsFromComponentsFile(f: ComponentsFile, ghost b: Board, ghost done: seq<Entry>)
      returns (ok: bool)
      requires Shows(b) && Separate() && InRange(b) && Wired(b, done)
      requires forall i :: 0 <= i < |f.records| ==> f.records[i].compName in b.byRefDes
      modifies nets, this`nullNames
      ensures ok <==> AllConnect(b, Entries(f.records))
      ensures ok ==> Wired(b, done + Entries(f.records))
      ensures nullNames == old(nullNames)
    {
      assert done + Entries(f.records[..0]) == done;
      for i := 0 to |f.records|
        invariant AllConnect(b, Entries(f.records[..i])) && nullNames == old(nullNames)
        invariant Wired(b, done + Entries(f.records[..i]))
      {
        ghost var before, es := Entries(f.records[..i]), EntriesOf(f.records[i]);
        EntriesGrow(f.records, i);
        assert done + before + es == done + (before + es);
        ok := BuildPlacementsOfRecord(f.records[i], b, done + before);
        if !ok {
          if AllConnect(b, Entries(f.records)) {
            RecordConnects(b, f.records, i);
          }
          return false;
        }
      }
      assert f.records[..|f.records|] == f.records;
      return true;
    }

    /** Everything the build promises about the lists it fills. */
    ghost predicate Built(s: Step)
      reads this, nets, packages
      requires HasFiles(s)
    {
      && NetsMatch(s.nets) && PackagesMatch(s.packages)
      && parts == Parts(s) && partsByName == ByName(parts)
      && components == Components(s) && componentsByName == ByName(RefDes(components))
      && Wired(BoardOf(s), Toeprints(s))
    }

    /** The same in terms of the file's records alone. A net whose position is the mark for
        "no net" is never connected. */
    ghost predicate Netlisted(s: Step)
      reads this, nets
      requires HasFiles(s)
    {
      && |nets| == |s.nets|
      && (forall k: nat :: k < |nets| && k != 0xFFFF_FFFF ==> Listed(s, k, nets[k].connections))
      && ComponentsFollow(s, components, parts)
      && exists at :: FirstNamedBy(s.top.value.records + s.bottom.value.records, parts, at)
    }

    lemma BuiltIsNetlisted(s: Step)
      requires HasFiles(s) && PackagesInRange(s) && AllConnect(BoardOf(s), Toeprints(s)) && Built(s)
      ensures Netlisted(s)
    {
      NetsAreListed(s);
      ComponentsFollowTheirRecords(s);
      var at := PartsFollowTheRecords(s);
    }

    method BuildAllParts(s: Step)
      requires HasFiles(s) && parts == [] && partsByName == map[]
      modifies this`parts, this`partsByName
      ensures parts == Parts(s) && partsByName == ByName(parts)
    {
      ghost var top := PartNames(s.top.value.records);
      assert [] + top == top;
      BuildParts(s.top.value, []);
      BuildParts(s.bottom.value, top);
    }

    method BuildAllComponents(s: Step)
      requires HasFiles(s) && PackagesInRange(s) && |packages| == |s.packages|
      requires components == [] && componentsByName == map[]
      requires partsByName == ByName(Parts(s))
      modifies this`components, this`componentsByName
      ensures components == Components(s) && componentsByName == ByName(RefDes(components))
    {
      ghost var known := partsByName;
      PartsAreKnown(s);
      PackagesInBothFiles(s);
      BuildComponents(s.top.value);
      assert components == ComponentsOf(s.top.value, known);
      BuildComponents(s.bottom.value);
    }

    method BuildPartsAndComponents(s: Step)
      requires HasFiles(s) && PackagesInRange(s) && |packages| == |s.packages|
      requires parts == [] && partsByName == map[] && components == [] && componentsByName == map[]
      modifies this`parts, this`partsByName, this`components, this`componentsByName
      ensures parts == Parts(s) && partsByName == ByName(parts)
      ensures components == Components(s) && componentsByName == ByName(RefDes(components))
    {
      BuildAllParts(s);
      BuildAllComponents(s);
    }

    method BuildLists(s: Step)
      requires IsEmpty() && HasFiles(s) && PackagesInRange(s)
      modifies this
      ensures NetsMatch(s.nets) && Separate() && fresh(nets) && PackagesMatch(s.packages)
      ensures forall k :: 0 <= k < |nets| ==> nets[k].connections == []
      ensures parts == Parts(s) && partsByName == ByName(parts)
      ensures components == Components(s) && componentsByName == ByName(RefDes(components))
      ensures nullNames == {}
    {
      BuildNets(s.nets);
      BuildPackages(s.packages);
      BuildPartsAndComponents(s);
    }

    method BuildPlacements(s: Step) returns (ok: bool)
      requires HasFiles(s) && Shows(BoardOf(s)) && InRange(BoardOf(s)) && Separate()
      requires forall k :: 0 <= k < |nets| ==> nets[k].connections == []
      modifies nets, this`nullNames
      ensures ok <==> AllConnect(BoardOf(s), Toeprints(s))
      ensures ok ==> Wired(BoardOf(s), Toeprints(s))
      ensures nullNames == old(nullNames)
    {
      NamesAreKnown(s);
      ghost var b := BoardOf(s);
      ghost var top, bottom := Entries(s.top.value.records), Entries(s.bottom.value.records);
      AllConnectConcat(b, top, bottom);
      assert [] + top == top;
      ok := BuildPlacementsFromComponentsFile(s.top.value, b, []);
      if ok {
        ok := BuildPlacementsFromComponentsFile(s.bottom.value, b, top);
      }
    }

    method Build(model: Option<seq<Step>>) returns (ok: bool)
      requires IsEmpty()
      requires model.Some? && |model.value| > 0 ==> PackagesInRange(model.value[0])
      modifies this
      ensures ok <==> model.Some? && Buildable(model.value)
      ensures nullNames == {}
      ensures ok ==> Built(model.value[0])
      ensures ok ==> Netlisted(model.value[0])
    {
      if model.None? || |model.value| == 0 {
        return false;
      }
      var s := model.value[0];
      if !HasFiles(s) {
        BuildNets(s.nets);
        BuildPackages(s.packages);
        if s.top.Some? {
          BuildParts(s.top.value, []);
        }
        return false;
      }
      BuildLists(s);
      BoardIsInRange(s);
      ok := BuildPlacements(s);
      if ok {
        BuiltIsNetlisted(s);
      }
    }
  }

  ghost predicate Packs(p: Package, r: PackageRecord)
    reads p
  {
    && p.name == r.name && p.index == r.index
    && p.pins == PinsOf(r.pinNames)
    && p.pinsByName == ByName(r.pinNames)
  }

  method BuildPackage(r: PackageRecord) returns (p: Package)
    ensures fresh(p) && Packs(p, r)
  {
    p := new Package(r.name, r.index);
    for j := 0 to |r.pinNames|
      invariant fresh(p) && p.name == r.name && p.index == r.index
      invariant p.pins == PinsOf(r.pinNames[..j])
      invariant p.pinsByName == ByName(r.pinNames[..j])
    {
      assert r.pinNames[..j + 1][..j] == r.pinNames[..j];
      p.AddPin(r.pinNames[j]);
    }
    assert r.pinNames[..|r.pinNames|] == r.pinNames;
  }
}
