/**
 * The document of the repository's constructor tests, as the tokenizer delivers it, with
 * stand-in conversions for plain decimal text: one node (id 1 at (12.34, 56.78), tagged
 * `name=TestNode`) and one way (id 101 through node 1, tagged `highway=residential`).
 */
module SampleDocument {
  import opened Wrappers
  import opened Attributes
  import opened Entities
  import opened MapStore
  import opened MapBuilder
  import opened BuilderTheorems

  predicate IsDigit(c: char) { '0' <= c <= '9' }

  predicate AllDigits(s: string) { forall i :: 0 <= i < |s| ==> IsDigit(s[i]) }

  /** The value of a string of decimal digits. */
  function DigitsValue(s: string): nat
    requires AllDigits(s)
    decreases |s|
  {
    if s == [] then 0 else DigitsValue(s[..|s| - 1]) * 10 + ((s[|s| - 1] as int) - ('0' as int))
  }

  function Pow10(n: nat): (r: nat)
    ensures r >= 1
  {
    if n == 0 then 1 else 10 * Pow10(n - 1)
  }

  /** The index of the first `.` in `s`, or `|s|` when there is none. */
  function DotIndex(s: string): (r: nat)
    ensures r <= |s|
    ensures forall i :: 0 <= i < r ==> s[i] != '.'
    ensures r < |s| ==> s[r] == '.'
    decreases |s|
  {
    if s == [] then 0 else if s[0] == '.' then 0 else 1 + DotIndex(s[1..])
  }

  /** Unsigned decimal text that fits in 64 bits (a stand-in for `std::stoull` on such text). */
  function DecimalId(s: string): (r: Option<u64>)
    ensures r.Some? ==> s != [] && AllDigits(s)
  {
    if s != [] && AllDigits(s) && DigitsValue(s) < 0x1_0000_0000_0000_0000 then Some(DigitsValue(s)) else None
  }

  /** Decimal text with an optional fraction: `12`, `12.34` (a stand-in for `std::stod` on such text). */
  function UnsignedDecimal(s: string): Option<real>
  {
    var dot := DotIndex(s);
    var whole := s[..dot];
    var frac := if dot < |s| then s[dot + 1..] else "";
    if whole != [] && AllDigits(whole) && AllDigits(frac) && (dot < |s| ==> frac != []) then
      Some(DecimalValue(whole, frac))
    else None
  }

  /** The number written `whole.frac`. */
  function DecimalValue(whole: string, frac: string): real
    requires AllDigits(whole) && AllDigits(frac)
  {
    DigitsValue(whole) as real + DigitsValue(frac) as real / Pow10(|frac|) as real
  }

  /** Decimal text with an optional leading minus sign. */
  function DecimalCoord(s: string): Option<real>
  {
    if s != [] && s[0] == '-' then
      match UnsignedDecimal(s[1..])
      case Some(x) => Some(-x)
      case None => None
    else UnsignedDecimal(s)
  }

  function DecimalParsers(): Parsers { Parsers(DecimalId, DecimalCoord) }

  const NodeAttrsText: seq<Attr> := [("id", "1"), ("lat", "12.34"), ("lon", "56.78")]
  const NodeChildren: seq<Event> := [Start("tag", [("k", "name"), ("v", "TestNode")]), End("tag")]
  const WayAttrsText: seq<Attr> := [("id", "101")]
  const WayChildren: seq<Event> :=
    [Start("nd", [("ref", "1")]), End("nd"), Start("tag", [("k", "highway"), ("v", "residential")]), End("tag")]

  /** The test document, element by element. */
  const SampleElements: seq<Element> := [
    Stray(Start("osm", [])),
    NodeElement(NodeAttrsText, NodeChildren),
    WayElement(WayAttrsText, WayChildren),
    Stray(End("osm"))
  ]

  /**
   * The test document as the tokenizer's event stream. The whitespace between elements is
   * left out everywhere: character data changes nothing (`StepIgnored`).
   */
  const SampleEvents: seq<Event> := [
    Start("osm", []),
    Start("node", NodeAttrsText)] + NodeChildren + [End("node"),
    Start("way", WayAttrsText)] + WayChildren + [End("way"),
    End("osm")
  ]

  const SampleNode := Node(1, Location(12.34, 56.78), map["name" := "TestNode"])
  const SampleWay := Way(101, [1], map["highway" := "residential"])

  lemma DictSingle(k: string, v: string)
    ensures Dict([(k, v)]) == map[k := v]
  {
    var e: seq<Attr> := [(k, v)];
    assert e[0].0 == k;
    assert KeysOf(e) == {k};
    assert LastValue(e, k) == Some(v) by { assert e[1..] == []; }
  }

  lemma IdNumbers()
    ensures DecimalId("1") == Some(1) && DecimalId("101") == Some(101)
  {
    assert DigitsValue("1") == 1;
    assert DigitsValue("10") == 10 by { assert "10"[..1] == "1"; }
    assert DigitsValue("101") == 101 by { assert "101"[..2] == "10"; }
  }

  lemma {:induction false} DotAfterDigits(whole: string, rest: string)
    requires AllDigits(whole) && rest != [] && rest[0] == '.'
    ensures DotIndex(whole + rest) == |whole|
    decreases |whole|
  {
    if whole == [] {
      assert whole + rest == rest;
    } else {
      assert (whole + rest)[0] == whole[0];
      assert (whole + rest)[1..] == whole[1..] + rest;
      DotAfterDigits(whole[1..], rest);
    }
  }

  lemma Fraction(whole: string, frac: string)
    requires whole != [] && frac != [] && AllDigits(whole) && AllDigits(frac)
    ensures UnsignedDecimal(whole + ['.'] + frac) == Some(DecimalValue(whole, frac))
  {
    var rest := ['.'] + frac;
    var s := whole + rest;
    assert whole + ['.'] + frac == s;
    DotAfterDigits(whole, rest);
    assert s[..|whole|] == whole;
    assert s[|whole| + 1..] == frac;
  }

  lemma TwoDigits(s: string)
    requires |s| == 2 && AllDigits(s)
    ensures DigitsValue(s) == ((s[0] as int) - ('0' as int)) * 10 + ((s[1] as int) - ('0' as int))
  {
    var first := s[..1];
    assert first[..0] == [] && first[0] == s[0];
    assert DigitsValue(first) == (s[0] as int) - ('0' as int);
  }

  lemma LatitudeNumber()
    ensures DecimalCoord("12.34") == Some(12.34)
  {
    assert DigitsValue("12") == 12 by { TwoDigits("12"); }
    assert DigitsValue("34") == 34 by { TwoDigits("34"); }
    assert Pow10(|"34"|) == 100;
    assert DecimalValue("12", "34") == 12.0 + 34.0 / 100.0;
    assert "12" + ['.'] + "34" == "12.34";
    Fraction("12", "34");
  }

  lemma LongitudeNumber()
    ensures DecimalCoord("56.78") == Some(56.78)
  {
    assert DigitsValue("56") == 56 by { TwoDigits("56"); }
    assert DigitsValue("78") == 78 by { TwoDigits("78"); }
    assert Pow10(|"78"|) == 100;
    assert DecimalValue("56", "78") == 56.0 + 78.0 / 100.0;
    assert "56" + ['.'] + "78" == "56.78";
    Fraction("56", "78");
  }

  lemma NodeFieldsFound()
    ensures LastValue(NodeAttrsText, "id") == Some("1")
    ensures LastValue(NodeAttrsText, "lat") == Some("12.34")
    ensures LastValue(NodeAttrsText, "lon") == Some("56.78")
    ensures Without(NodeAttrsText, NodeFields) == []
  {
    assert NodeAttrsText[1..] == [("lat", "12.34"), ("lon", "56.78")];
    assert NodeAttrsText[1..][1..] == [("lon", "56.78")];
  }

  lemma NodeTags()
    ensures TagPairs(NodeChildren) == [("name", "TestNode")]
  {
    var tag: seq<Attr> := [("k", "name"), ("v", "TestNode")];
    assert TagEntry("", "", tag) == ("name", "TestNode") by {
      assert tag[1..] == [("v", "TestNode")];
    }
    assert NodeChildren[1..] == [End("tag")];
    assert NodeChildren[1..][1..] == [];
    assert TagPairs(NodeChildren[1..]) == [];
  }

  lemma SampleNodeExpected()
    ensures ExpectedNode(NodeAttrsText, NodeChildren, DecimalParsers()) == SampleNode
  {
    IdNumbers();
    LatitudeNumber();
    LongitudeNumber();
    NodeFieldsFound();
    NodeTags();
    assert [] + [("name", "TestNode")] == [("name", "TestNode")];
    DictSingle("name", "TestNode");
  }

  lemma WayChildrenRead()
    ensures NdTexts(WayChildren) == ["1"]
    ensures TagPairs(WayChildren) == [("highway", "residential")]
  {
    var tag: seq<Attr> := [("k", "highway"), ("v", "residential")];
    assert RefTexts([("ref", "1")]) == ["1"];
    assert TagEntry("", "", tag) == ("highway", "residential") by {
      assert tag[1..] == [("v", "residential")];
    }
    assert WayChildren[1..] == [End("nd"), Start("tag", tag), End("tag")];
    assert WayChildren[1..][1..] == [Start("tag", tag), End("tag")];
    assert WayChildren[1..][1..][1..] == [End("tag")];
    assert WayChildren[1..][1..][1..][1..] == [];
    assert NdTexts(WayChildren[1..][1..][1..]) == [];
    assert NdTexts(WayChildren[1..][1..]) == [];
    assert TagPairs(WayChildren[1..][1..][1..]) == [];
  }

  lemma SampleWayExpected()
    ensures ExpectedWay(WayAttrsText, WayChildren, DecimalParsers()) == SampleWay
  {
    var p := DecimalParsers();
    IdNumbers();
    WayChildrenRead();
    assert LastValue(WayAttrsText, "id") == Some("101");
    assert Without(WayAttrsText, WayFields) == [];
    assert ParseAll(["1"], p.id) == [1];
    assert [] + [("highway", "residential")] == [("highway", "residential")];
    DictSingle("highway", "residential");
  }

  lemma NodeNumbers()
    ensures NodeNumbersParse(NodeAttrsText, DecimalParsers())
  {
    var p := DecimalParsers();
    IdNumbers();
    LatitudeNumber();
    LongitudeNumber();
    forall i | 0 <= i < |NodeAttrsText|
      ensures NodeAttrsText[i].0 == "id" ==> p.id(NodeAttrsText[i].1).Some?
      ensures NodeAttrsText[i].0 == "lat" || NodeAttrsText[i].0 == "lon" ==> p.coord(NodeAttrsText[i].1).Some?
    {
      assert i == 0 || i == 1 || i == 2;
    }
  }

  lemma NodeWellFormed()
    ensures WellFormed(NodeElement(NodeAttrsText, NodeChildren), DecimalParsers())
  {
    NodeNumbers();
    forall i | 0 <= i < |NodeChildren|
      ensures NodeBodyEvent(NodeChildren[i])
    {
      assert i == 0 || i == 1;
    }
  }

  lemma WayWellFormed()
    ensures WellFormed(WayElement(WayAttrsText, WayChildren), DecimalParsers())
  {
    var p := DecimalParsers();
    IdNumbers();
    WayChildrenRead();
    assert KeyParses(WayAttrsText, "id", p.id);
    assert AllParse(["1"], p.id);
    forall i | 0 <= i < |WayChildren|
      ensures WayBodyEvent(WayChildren[i])
    {
      assert i == 0 || i == 1 || i == 2 || i == 3;
    }
  }

  lemma SampleWellFormed()
    ensures forall i :: 0 <= i < |SampleElements| ==> WellFormed(SampleElements[i], DecimalParsers())
  {
    NodeWellFormed();
    WayWellFormed();
  }

  lemma SampleEventsAre()
    ensures Events(SampleElements) == SampleEvents
  {
    var e := SampleElements;
    var nodeEvents := [Start("node", NodeAttrsText)] + NodeChildren + [End("node")];
    var wayEvents := [Start("way", WayAttrsText)] + WayChildren + [End("way")];
    assert e[1..][1..][1..][1..] == [];
    assert Events(e[1..][1..][1..]) == [End("osm")];
    assert ElementEvents(e[1..][1..][0]) == wayEvents;
    assert Events(e[1..][1..]) == wayEvents + [End("osm")];
    assert ElementEvents(e[1..][0]) == nodeEvents;
    assert Events(e[1..]) == nodeEvents + (wayEvents + [End("osm")]);
    assert Events(e) == [Start("osm", [])] + (nodeEvents + (wayEvents + [End("osm")]));
  }

  lemma SampleNodes()
    ensures NodesOf(SampleElements, DecimalParsers()) == [SampleNode]
  {
    var p := DecimalParsers();
    var e := SampleElements;
    assert e[1..][1..][1..][1..] == [];
    assert NodesOf(e[1..][1..][1..], p) == [];
    assert NodesOf(e[1..][1..], p) == [];
    assert NodesOf(e[1..], p) == [ExpectedNode(NodeAttrsText, NodeChildren, p)];
    SampleNodeExpected();
  }

  lemma SampleWays()
    ensures WaysOf(SampleElements, DecimalParsers()) == [SampleWay]
  {
    var p := DecimalParsers();
    var e := SampleElements;
    assert e[1..][1..][1..][1..] == [];
    assert WaysOf(e[1..][1..][1..], p) == [];
    assert WaysOf(e[1..][1..], p) == [ExpectedWay(WayAttrsText, WayChildren, p)];
    assert WaysOf(e[1..], p) == WaysOf(e[1..][1..], p);
    SampleWayExpected();
  }

  /**
   * The parsing tests: one node with id 1 at (12.34, 56.78) carrying `name=TestNode`, one way
   * with id 101 referencing node 1 and carrying `highway=residential`.
   */
  lemma SampleLoads()
    ensures Load(SampleEvents, DecimalParsers()) == Success(StreetMap([SampleNode], [SampleWay]))
    ensures var m := StreetMap([SampleNode], [SampleWay]);
      && m.NodeCount() == 1 && m.NodeByIndex(0) == Some(SampleNode)
      && SampleNode.id == 1 && SampleNode.location == Location(12.34, 56.78)
      && SampleNode.HasAttribute("name") && SampleNode.GetAttribute("name") == "TestNode"
      && m.WayCount() == 1 && m.WayByIndex(0) == Some(SampleWay)
      && SampleWay.id == 101 && SampleWay.NodeCount() == 1 && SampleWay.GetNodeID(0) == 1
      && SampleWay.HasAttribute("highway") && SampleWay.GetAttribute("highway") == "residential"
  {
    var p := DecimalParsers();
    SampleEventsAre();
    SampleWellFormed();
    Document(SampleElements, p);
    SampleNodes();
    SampleWays();
  }

  /** The invalid-lookup tests: id 999 and index 10 find nothing, for nodes and for ways. */
  method InvalidLookups() returns (byNodeId: Option<Node>, byWayId: Option<Way>, byNodeIndex: Option<Node>, byWayIndex: Option<Way>)
    ensures byNodeId.None? && byWayId.None? && byNodeIndex.None? && byWayIndex.None?
  {
    SampleLoads();
    var loaded := BuildMap(SampleEvents, DecimalParsers());
    var m := loaded.value;
    byNodeId := m.NodeByID(999);
    byWayId := m.WayByID(999);
    byNodeIndex := m.NodeByIndex(10);
    byWayIndex := m.WayByIndex(10);
  }

  /** The malformed-field scenario: a node whose `id` is `abc` makes the whole load fail. */
  lemma MalformedIdFails()
    ensures Load([Start("osm", []), Start("node", [("id", "abc")]), End("node"), End("osm")], DecimalParsers()).Failure?
  {
    var p := DecimalParsers();
    assert !IsDigit('a');
    assert DecimalId("abc") == None;
    assert !NodeNumbersParse([("id", "abc")], p) by {
      assert [("id", "abc")][0].0 == "id";
    }
    MalformedNodeAborts([Start("osm", [])], [("id", "abc")], [End("node"), End("osm")], p);
    assert [Start("osm", [])] + [Start("node", [("id", "abc")])] + [End("node"), End("osm")] ==
      [Start("osm", []), Start("node", [("id", "abc")]), End("node"), End("osm")];
  }
}
