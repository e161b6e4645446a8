/** The netlist in terms of the file's records alone: which toeprints a net's connections
    are, in which order, and what they are joined to. */
module NetlistLaw {
  import opened Basics
  import opened NetlistSpec

  /** A toeprint of the file: its record, and its position in the record. */
  datatype Place = Place(record: nat, toeprint: nat)

  predicate IsPlace(rs: seq<ComponentRecord>, p: Place) {
    p.record < |rs| && p.toeprint < |rs[p.record].toeprints|
  }

  function ToeprintAt(rs: seq<ComponentRecord>, p: Place): ToeprintRecord
    requires IsPlace(rs, p)
  {
    rs[p.record].toeprints[p.toeprint]
  }

  /** Record order, then toeprint order. */
  predicate Before(p: Place, q: Place) {
    p.record < q.record || (p.record == q.record && p.toeprint < q.toeprint)
  }

  predicate Increasing(ps: seq<Place>) {
    forall i, j :: 0 <= i < j < |ps| ==> Before(ps[i], ps[j])
  }

  /** ws are the connections of net k: exactly the toeprints with that net number, in file
      order, top file before bottom, each joined to the component recorded last under
      its record's name and to that package's pin of its pin number. */
  ghost predicate Lists(s: Step, k: nat, ws: seq<Connection>, ps: seq<Place>)
    requires HasFiles(s)
  {
    var rs := s.top.value.records + s.bottom.value.records;
    && |ps| == |ws| && Increasing(ps)
    && (forall p :: IsPlace(rs, p) && ToeprintAt(rs, p).netNumber == k ==> p in ps)
    && (forall i :: 0 <= i < |ps| ==> IsPlace(rs, ps[i]) && ToeprintAt(rs, ps[i]).netNumber == k)
    && (forall i :: 0 <= i < |ps| && IsPlace(rs, ps[i]) ==>
          JoinedTo(s, rs[ps[i].record].compName, ToeprintAt(rs, ps[i]).pinNumber, ws[i]))
  }

  ghost predicate Listed(s: Step, k: nat, ws: seq<Connection>)
    requires HasFiles(s)
  {
    exists ps :: Lists(s, k, ws, ps)
  }

  ghost predicate JoinedTo(s: Step, name: string, pin: u32, c: Connection)
    requires HasFiles(s)
  {
    var rs := s.top.value.records + s.bottom.value.records;
    && IsLastNamed(rs, c.component, name)
    && rs[c.component].pkgRef < |s.packages|
    && var pins := s.packages[rs[c.component].pkgRef].pinNames;
       pin < |pins| && c.pin == Pin(pins[pin], pin)
  }

  // ---- where the entries come from ----

  function PlacesOf(rs: seq<ComponentRecord>): (ps: seq<Place>) {
    if rs == [] then []
    else
      var n := |rs| - 1;
      PlacesOf(rs[..n]) + seq(|rs[n].toeprints|, j requires 0 <= j => Place(n, j))
  }

  /** The entry is what the record says at the place. */
  predicate Says(rs: seq<ComponentRecord>, p: Place, e: Entry) {
    && IsPlace(rs, p)
    && e.refDes == rs[p.record].compName
    && e.pin == rs[p.record].toeprints[p.toeprint].pinNumber
    && e.net == rs[p.record].toeprints[p.toeprint].netNumber
  }

  lemma {:induction false} PlacesMatch(rs: seq<ComponentRecord>)
    ensures |PlacesOf(rs)| == |Entries(rs)|
    ensures forall i :: 0 <= i < |PlacesOf(rs)| ==> Says(rs, PlacesOf(rs)[i], Entries(rs)[i])
  {
    if rs != [] {
      var n := |rs| - 1;
      PlacesMatch(rs[..n]);
      var m := |PlacesOf(rs[..n])|;
      forall i | 0 <= i < |PlacesOf(rs)|
        ensures Says(rs, PlacesOf(rs)[i], Entries(rs)[i])
      {
        if i < m {
          assert Says(rs[..n], PlacesOf(rs[..n])[i], Entries(rs[..n])[i]);
        } else {
          assert Entries(rs)[i] == EntriesOf(rs[n])[i - m];
          assert PlacesOf(rs)[i] == Place(n, i - m);
        }
      }
    }
  }

  lemma {:induction false} PlacesIncrease(rs: seq<ComponentRecord>)
    ensures Increasing(PlacesOf(rs))
    ensures forall i :: 0 <= i < |PlacesOf(rs)| ==> PlacesOf(rs)[i].record < |rs|
  {
    if rs != [] {
      PlacesIncrease(rs[..|rs| - 1]);
    }
  }

  lemma {:induction false} PlacesAreAll(rs: seq<ComponentRecord>, p: Place) returns (i: nat)
    requires IsPlace(rs, p)
    ensures i < |PlacesOf(rs)| && PlacesOf(rs)[i] == p
  {
    var n := |rs| - 1;
    if p.record < n {
      i := PlacesAreAll(rs[..n], p);
    } else {
      i := |PlacesOf(rs[..n])| + p.toeprint;
    }
  }

  lemma EntriesOfOneMore(rs: seq<ComponentRecord>, r: ComponentRecord)
    ensures Entries(rs + [r]) == Entries(rs) + EntriesOf(r)
  {
    assert (rs + [r])[..|rs|] == rs;
  }

  lemma {:induction false} EntriesConcat(a: seq<ComponentRecord>, b: seq<ComponentRecord>)
    ensures Entries(a + b) == Entries(a) + Entries(b)
    decreases |b|
  {
    if b == [] {
      assert a + b == a;
    } else {
      var n := |b| - 1;
      var c, r := b[..n], b[n];
      EntriesConcat(a, c);
      assert a + b == a + c + [r];
      EntriesOfOneMore(a + c, r);
      Associate(Entries(a), Entries(c), EntriesOf(r));
    }
  }

  // ---- which of them a net keeps ----

  /** The positions of the toeprints that net k keeps. */
  function Kept(b: Board, es: seq<Entry>, k: nat): (ms: seq<nat>) {
    if es == [] then []
    else
      var n := |es| - 1;
      if es[n].net == k && k != NO_NET && Resolves(b, es[n]) then Kept(b, es[..n], k) + [n] else Kept(b, es[..n], k)
  }

  lemma {:induction false} KeptAreTheWires(b: Board, es: seq<Entry>, k: nat)
    ensures |Kept(b, es, k)| == |Wires(b, es, k)|
    ensures forall i :: 0 <= i < |Kept(b, es, k)| ==>
              && Kept(b, es, k)[i] < |es|
              && var e := es[Kept(b, es, k)[i]];
                 e.net == k && Resolves(b, e) && Wires(b, es, k)[i] == Joined(b, e)
    ensures forall i, j :: 0 <= i < j < |Kept(b, es, k)| ==> Kept(b, es, k)[i] < Kept(b, es, k)[j]
  {
    if es != [] {
      KeptAreTheWires(b, es[..|es| - 1], k);
    }
  }

  lemma {:induction false} KeptAreAll(b: Board, es: seq<Entry>, k: nat, m: nat)
    requires m < |es| && es[m].net == k && k != NO_NET && Resolves(b, es[m])
    ensures m in Kept(b, es, k)
  {
    var n := |es| - 1;
    if m < n {
      KeptAreAll(b, es[..n], k, m);
    }
  }

  // ---- the law ----

  function Pick(all: seq<Place>, ms: seq<nat>): (ps: seq<Place>)
    requires forall i :: 0 <= i < |ms| ==> ms[i] < |all|
    ensures |ps| == |ms| && forall i :: 0 <= i < |ms| ==> ps[i] == all[ms[i]]
  {
    seq(|ms|, i requires 0 <= i < |ms| => all[ms[i]])
  }

  lemma PlaceIsKept(s: Step, k: nat, p: Place)
    requires HasFiles(s) && AllConnect(BoardOf(s), Toeprints(s)) && k != NO_NET
    requires IsPlace(Records(s), p) && ToeprintAt(Records(s), p).netNumber == k
    ensures exists i :: 0 <= i < |Kept(BoardOf(s), Toeprints(s), k)| &&
                        var m := Kept(BoardOf(s), Toeprints(s), k)[i];
                        m < |PlacesOf(Records(s))| && PlacesOf(Records(s))[m] == p
  {
    EntriesConcat(s.top.value.records, s.bottom.value.records);
    PlacesMatch(Records(s));
    var m := PlacesAreAll(Records(s), p);
    assert Says(Records(s), p, Toeprints(s)[m]) && Connects(BoardOf(s), Toeprints(s)[m]);
    KeptAreAll(BoardOf(s), Toeprints(s), k, m);
  }

  /** On a file model that builds, every net lists its toeprints. */
  lemma NetsListTheirToeprints(s: Step, k: nat) returns (ps: seq<Place>)
    requires HasFiles(s) && PackagesInRange(s) && AllConnect(BoardOf(s), Toeprints(s)) && k != NO_NET
    ensures Lists(s, k, Wires(BoardOf(s), Toeprints(s), k), ps)
  {
    var rs, ms := Records(s), Kept(BoardOf(s), Toeprints(s), k);
    PlacesIncrease(rs);
    KeptAreTheWires(BoardOf(s), Toeprints(s), k);
    forall i | 0 <= i < |ms|
      ensures ms[i] < |PlacesOf(rs)|
    {
      KeptIsJoined(s, k, ms[i]);
    }
    ps := Pick(PlacesOf(rs), ms);
    forall p | IsPlace(rs, p) && ToeprintAt(rs, p).netNumber == k
      ensures p in ps
    {
      PlaceIsKept(s, k, p);
    }
    forall i | 0 <= i < |ps|
      ensures IsPlace(rs, ps[i]) && ToeprintAt(rs, ps[i]).netNumber == k
      ensures JoinedTo(s, rs[ps[i].record].compName, ToeprintAt(rs, ps[i]).pinNumber,
                       Wires(BoardOf(s), Toeprints(s), k)[i])
    {
      KeptIsJoined(s, k, ms[i]);
    }
  }

  lemma NetsAreListed(s: Step)
    requires HasFiles(s) && PackagesInRange(s) && AllConnect(BoardOf(s), Toeprints(s))
    ensures forall k: nat :: k != NO_NET ==> Listed(s, k, Wires(BoardOf(s), Toeprints(s), k))
  {
    forall k: nat | k != NO_NET
      ensures Listed(s, k, Wires(BoardOf(s), Toeprints(s), k))
    {
      var ps := NetsListTheirToeprints(s, k);
    }
  }

  lemma KeptIsJoined(s: Step, k: nat, m: nat)
    requires HasFiles(s) && PackagesInRange(s) && m < |Toeprints(s)| && Resolves(BoardOf(s), Toeprints(s)[m])
    ensures m < |PlacesOf(Records(s))| && Says(Records(s), PlacesOf(Records(s))[m], Toeprints(s)[m])
    ensures JoinedTo(s, Toeprints(s)[m].refDes, Toeprints(s)[m].pin, Joined(BoardOf(s), Toeprints(s)[m]))
  {
    EntriesConcat(s.top.value.records, s.bottom.value.records);
    PlacesMatch(Records(s));
    var c := ToeprintFindsItsComponent(s, m);
  }

  // ---- when it builds ----

  /** The component and the pin that the toeprint at p names exist, and so does its net. */
  ghost predicate CanConnect(s: Step, p: Place)
    requires HasFiles(s) && IsPlace(s.top.value.records + s.bottom.value.records, p)
  {
    var rs := s.top.value.records + s.bottom.value.records;
    var t := ToeprintAt(rs, p);
    t.netNumber < |s.nets| &&
    exists k: nat ::
      && IsLastNamed(rs, k, rs[p.record].compName) && rs[k].pkgRef < |s.packages|
      && t.pinNumber < |s.packages[rs[k].pkgRef].pinNames|
  }

  lemma LastNamedIsOne(rs: seq<ComponentRecord>, k: nat, m: nat, name: string)
    requires IsLastNamed(rs, k, name) && IsLastNamed(rs, m, name)
    ensures k == m
  {
  }

  lemma ConnectsIff(s: Step, m: nat)
    requires HasFiles(s) && PackagesInRange(s) && m < |Toeprints(s)|
    ensures m < |PlacesOf(Records(s))| && Says(Records(s), PlacesOf(Records(s))[m], Toeprints(s)[m])
    ensures Resolves(BoardOf(s), Toeprints(s)[m]) <==> CanConnect(s, PlacesOf(Records(s))[m])
  {
    EntriesConcat(s.top.value.records, s.bottom.value.records);
    var rs := Records(s);
    PlacesMatch(rs);
    var k := ToeprintFindsItsComponent(s, m);
    var p := PlacesOf(rs)[m];
    if CanConnect(s, p) {
      var j: nat :|
        && IsLastNamed(rs, j, rs[p.record].compName) && rs[j].pkgRef < |s.packages|
        && ToeprintAt(rs, p).pinNumber < |s.packages[rs[j].pkgRef].pinNames|;
      LastNamedIsOne(rs, j, k, rs[p.record].compName);
    }
  }

  /** The build succeeds exactly if every toeprint has no net (net number -1 as unsigned)
      or names a net, a component and a pin that exist. */
  lemma BuildableIff(s: Step)
    requires HasFiles(s) && PackagesInRange(s)
    ensures var rs := s.top.value.records + s.bottom.value.records;
            AllConnect(BoardOf(s), Toeprints(s)) <==>
            forall p :: IsPlace(rs, p) ==> ToeprintAt(rs, p).netNumber == 0xFFFF_FFFF || CanConnect(s, p)
  {
    var rs, b, es := Records(s), BoardOf(s), Toeprints(s);
    EntriesConcat(s.top.value.records, s.bottom.value.records);
    PlacesMatch(rs);
    if AllConnect(b, es) {
      forall p | IsPlace(rs, p)
        ensures ToeprintAt(rs, p).netNumber == 0xFFFF_FFFF || CanConnect(s, p)
      {
        var m := PlacesAreAll(rs, p);
        ConnectsIff(s, m);
        assert Connects(b, es[m]);
      }
    }
    if forall p :: IsPlace(rs, p) ==> ToeprintAt(rs, p).netNumber == 0xFFFF_FFFF || CanConnect(s, p) {
      forall m | 0 <= m < |es|
        ensures Connects(b, es[m])
      {
        ConnectsIff(s, m);
        assert IsPlace(rs, PlacesOf(rs)[m]);
      }
    }
  }

  // ---- parts and components ----

  /** One component per record, top file before bottom, each as its record says and
      pointing at the part of its part name. */
  ghost predicate ComponentsFollow(s: Step, cs: seq<Component>, parts: seq<string>)
    requires HasFiles(s)
  {
    var rs := s.top.value.records + s.bottom.value.records;
    && |cs| == |rs|
    && forall i :: 0 <= i < |rs| ==>
         && cs[i].refDes == rs[i].compName && cs[i].partName == rs[i].partName
         && cs[i].package == rs[i].pkgRef && cs[i].index == rs[i].index
         && cs[i].side == (if i < |s.top.value.records| then s.top.value.side else s.bottom.value.side)
         && cs[i].part < |parts| && parts[cs[i].part] == rs[i].partName
  }

  lemma ComponentsFollowTheirRecords(s: Step)
    requires HasFiles(s)
    ensures ComponentsFollow(s, Components(s), Parts(s))
  {
    var rs, cs, parts := Records(s), Components(s), Parts(s);
    PartsAreKnown(s);
    forall i | 0 <= i < |rs|
      ensures cs[i].part < |parts| && parts[cs[i].part] == rs[i].partName
    {
      ByNameIsTheLast(parts, rs[i].partName);
    }
  }

  /** The parts are the part names of the records in the order of first sight: part p is
      first named by record at[p]. */
  ghost predicate FirstNamedBy(rs: seq<ComponentRecord>, parts: seq<string>, at: seq<nat>) {
    && |at| == |parts|
    && (forall p, q :: 0 <= p < q < |at| ==> at[p] < at[q])
    && (forall p :: 0 <= p < |at| ==> at[p] < |rs| && rs[at[p]].partName == parts[p])
    && (forall p, i :: 0 <= p < |at| && 0 <= i < at[p] && i < |rs| ==> rs[i].partName != parts[p])
    && (forall i :: 0 <= i < |rs| ==> rs[i].partName in parts)
  }

  lemma PartsFollowTheRecords(s: Step) returns (at: seq<nat>)
    requires HasFiles(s)
    ensures FirstNamedBy(s.top.value.records + s.bottom.value.records, Parts(s), at)
  {
    var names := PartNames(s.top.value.records) + PartNames(s.bottom.value.records);
    var rs, parts := Records(s), Parts(s);
    assert forall i :: 0 <= i < |rs| ==> rs[i].partName == names[i];
    FirstSeenNames(names);
    assert forall p :: 0 <= p < |parts| ==> parts[p] in names;
    at := seq(|parts|, p requires 0 <= p < |parts| => FirstAt(names, parts[p]));
    forall p, q | 0 <= p < q < |at|
      ensures at[p] < at[q]
    {
      FirstSeenInOrder(names, p, q);
    }
  }

  // ---- the indexes by name ----

  /** A net is found by its name: the last record of that name. */
  lemma NetNamesLead(rs: seq<NetRecord>, x: string)
    ensures var m := ByName(NetNames(rs));
            if x in m then m[x] < |rs| && rs[m[x]].name == x && forall j :: m[x] < j < |rs| ==> rs[j].name != x
            else forall j :: 0 <= j < |rs| ==> rs[j].name != x
  {
    ByNameIsTheLast(NetNames(rs), x);
    assert forall j :: 0 <= j < |rs| ==> NetNames(rs)[j] == rs[j].name;
  }

  /** So is a package... */
  lemma PackageNamesLead(rs: seq<PackageRecord>, x: string)
    ensures var m := ByName(PackageNames(rs));
            if x in m then m[x] < |rs| && rs[m[x]].name == x && forall j :: m[x] < j < |rs| ==> rs[j].name != x
            else forall j :: 0 <= j < |rs| ==> rs[j].name != x
  {
    ByNameIsTheLast(PackageNames(rs), x);
    assert forall j :: 0 <= j < |rs| ==> PackageNames(rs)[j] == rs[j].name;
  }

  /** ...and a component, over both files. */
  lemma ComponentNamesLead(s: Step, x: string)
    requires HasFiles(s)
    ensures var m, rs := ByName(RefDes(Components(s))), s.top.value.records + s.bottom.value.records;
            if x in m then IsLastNamed(rs, m[x], x) else forall j :: 0 <= j < |rs| ==> rs[j].compName != x
  {
    RefDesAreTheNames(s);
    ByNameIsTheLast(RefDes(Components(s)), x);
    assert forall j :: 0 <= j < |Records(s)| ==> RefDes(Components(s))[j] == Records(s)[j].compName;
  }
}
