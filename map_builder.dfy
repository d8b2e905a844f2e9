/**
 * The `COpenStreetMap` constructor: one forward pass over the tokenizer's entities that
 * rebuilds the nodes and ways.
 *
 * `Step` and `Run` are the specification (one event; the whole pass, aborting on the first
 * malformed number); `BuildMap` is the constructor's loop with its `currNode` / `currWay`
 * cursors, and the `Read…` methods are its inner loops over an element's attributes. Each
 * method is proved equal to the function that specifies it.
 */
module MapBuilder {
  import opened Wrappers
  import opened Attributes
  import opened Entities
  import opened MapStore

  /** One entity of the tokenizer: a start element with its attributes, an end element, or character data. */
  datatype Event = Start(name: string, attrs: seq<Attr>) | End(name: string) | CharData(text: string)

  /**
   * The numeric conversions, which the model does not define: `id` and `ref` texts go through
   * `id` (`std::stoull`), `lat` and `lon` texts through `coord` (`std::stod`). `None` is the
   * exception the conversion throws.
   */
  datatype Parsers = Parsers(id: string -> Option<u64>, coord: string -> Option<real>)

  /** The conversion exception that escapes the constructor: the element, the attribute and its text. */
  datatype ParseError = BadNumber(element: string, attribute: string, text: string)

  /** The constructor's state: the two cursors and the two lists filled so far. */
  datatype BuildState = BuildState(currNode: Option<Node>, currWay: Option<Way>, nodes: seq<Node>, ways: seq<Way>)
  {
    /** Opening one entity clears the other, so at most one is open. */
    predicate Exclusive() { currNode.None? || currWay.None? }
  }

  /** The state before the first event. */
  const Idle := BuildState(None, None, [], [])

  /** A freshly made node or way: value-initialised fields, so id 0 and location (0, 0). */
  const FreshNode := Node(0, Location(0.0, 0.0), map[])
  const FreshWay := Way(0, [], map[])

  /** Inline attributes of a `node` start element that are consumed structurally. */
  const NodeFields: set<string> := {"id", "lat", "lon"}

  /** Inline attributes of a `way` start element that are consumed structurally. */
  const WayFields: set<string> := {"id"}

  /** Applies a `node` element's inline attributes to `n`, in order. */
  function NodeAttrs(n: Node, attrs: seq<Attr>, p: Parsers): Result<Node, ParseError>
    decreases |attrs|
  {
    if attrs == [] then Success(n)
    else
      var (k, v) := attrs[0];
      if k == "id" then
        match p.id(v)
        case None => Failure(BadNumber("node", k, v))
        case Some(x) => NodeAttrs(n.(id := x), attrs[1..], p)
      else if k == "lat" then
        match p.coord(v)
        case None => Failure(BadNumber("node", k, v))
        case Some(c) => NodeAttrs(n.(location := n.location.(lat := c)), attrs[1..], p)
      else if k == "lon" then
        match p.coord(v)
        case None => Failure(BadNumber("node", k, v))
        case Some(c) => NodeAttrs(n.(location := n.location.(lon := c)), attrs[1..], p)
      else NodeAttrs(n.(attributes := n.attributes[k := v]), attrs[1..], p)
  }

  /** Applies a `way` element's inline attributes to `w`, in order. */
  function WayAttrs(w: Way, attrs: seq<Attr>, p: Parsers): Result<Way, ParseError>
    decreases |attrs|
  {
    if attrs == [] then Success(w)
    else
      var (k, v) := attrs[0];
      if k == "id" then
        match p.id(v)
        case None => Failure(BadNumber("way", k, v))
        case Some(x) => WayAttrs(w.(id := x), attrs[1..], p)
      else WayAttrs(w.(attributes := w.attributes[k := v]), attrs[1..], p)
  }

  /** Appends the value of every `ref` attribute of an `nd` element to `refs`, in order. */
  function Refs(refs: seq<NodeId>, attrs: seq<Attr>, p: Parsers): Result<seq<NodeId>, ParseError>
    decreases |attrs|
  {
    if attrs == [] then Success(refs)
    else
      var (k, v) := attrs[0];
      if k == "ref" then
        match p.id(v)
        case None => Failure(BadNumber("nd", k, v))
        case Some(x) => Refs(refs + [x], attrs[1..], p)
      else Refs(refs, attrs[1..], p)
  }

  /** The (`k`, `v`) pair of a `tag` element, starting from (`key`, `value`); later attributes win. */
  function TagEntry(key: string, value: string, attrs: seq<Attr>): Attr
    decreases |attrs|
  {
    if attrs == [] then (key, value)
    else
      var (k, v) := attrs[0];
      if k == "k" then TagEntry(v, value, attrs[1..])
      else if k == "v" then TagEntry(key, v, attrs[1..])
      else TagEntry(key, value, attrs[1..])
  }

  /** The effect of one event. Each event publishes at most one entity and never alters what is published. */
  function Step(s: BuildState, e: Event, p: Parsers): (r: Result<BuildState, ParseError>)
    ensures r.Success? ==> s.nodes <= r.value.nodes && |r.value.nodes| <= |s.nodes| + 1
    ensures r.Success? ==> s.ways <= r.value.ways && |r.value.ways| <= |s.ways| + 1
    ensures r.Success? ==> |r.value.nodes| + |r.value.ways| <= |s.nodes| + |s.ways| + 1
    ensures r.Success? && s.Exclusive() ==> r.value.Exclusive()
  {
    match e
    case Start(name, attrs) =>
      if name == "node" then
        match NodeAttrs(FreshNode, attrs, p)
        case Failure(err) => Failure(err)
        case Success(n) => Success(s.(currNode := Some(n), currWay := None))
      else if name == "way" then
        match WayAttrs(FreshWay, attrs, p)
        case Failure(err) => Failure(err)
        case Success(w) => Success(s.(currWay := Some(w), currNode := None))
      else if name == "nd" && s.currWay.Some? then
        var w := s.currWay.value;
        match Refs(w.refs, attrs, p)
        case Failure(err) => Failure(err)
        case Success(rs) => Success(s.(currWay := Some(w.(refs := rs))))
      else if name == "tag" then
        var (k, v) := TagEntry("", "", attrs);
        if k == "" then Success(s)
        else if s.currNode.Some? then
          var n := s.currNode.value;
          Success(s.(currNode := Some(n.(attributes := n.attributes[k := v]))))
        else if s.currWay.Some? then
          var w := s.currWay.value;
          Success(s.(currWay := Some(w.(attributes := w.attributes[k := v]))))
        else Success(s)
      else Success(s)
    case End(name) =>
      if name == "node" && s.currNode.Some? then
        Success(s.(nodes := s.nodes + [s.currNode.value], currNode := None))
      else if name == "way" && s.currWay.Some? then
        Success(s.(ways := s.ways + [s.currWay.value], currWay := None))
      else Success(s)
    case CharData(_) => Success(s)
  }

  /**
   * The whole pass from state `s`: the first failure aborts it. What was published before
   * stays published, unchanged and in place, and at most one entity is ever open.
   */
  function Run(s: BuildState, events: seq<Event>, p: Parsers): (r: Result<BuildState, ParseError>)
    ensures r.Success? ==> s.nodes <= r.value.nodes && s.ways <= r.value.ways
    ensures r.Success? ==> |r.value.nodes| + |r.value.ways| <= |s.nodes| + |s.ways| + |events|
    ensures r.Success? && s.Exclusive() ==> r.value.Exclusive()
    decreases |events|
  {
    if events == [] then Success(s)
    else
      match Step(s, events[0], p)
      case Failure(err) => Failure(err)
      case Success(t) => Run(t, events[1..], p)
  }

  /** The constructed map: the two lists once the stream is exhausted; entities still open are dropped. */
  function Load(events: seq<Event>, p: Parsers): Result<StreetMap, ParseError>
  {
    match Run(Idle, events, p)
    case Failure(err) => Failure(err)
    case Success(s) => Success(StreetMap(s.nodes, s.ways))
  }

  /** The attribute loop of a `node` start element, on a freshly made node. */
  method ReadNode(attrs: seq<Attr>, p: Parsers) returns (r: Result<Node, ParseError>)
    ensures r == NodeAttrs(FreshNode, attrs, p)
  {
    var node := FreshNode;
    var i := 0;
    while i < |attrs|
      invariant i <= |attrs|
      invariant NodeAttrs(node, attrs[i..], p) == NodeAttrs(FreshNode, attrs, p)
    {
      assert attrs[i..][1..] == attrs[i + 1..];
      var (k, v) := attrs[i];
      if k == "id" {
        var x := p.id(v);
        if x.None? { return Failure(BadNumber("node", k, v)); }
        node := node.(id := x.value);
      } else if k == "lat" {
        var c := p.coord(v);
        if c.None? { return Failure(BadNumber("node", k, v)); }
        node := node.(location := node.location.(lat := c.value));
      } else if k == "lon" {
        var c := p.coord(v);
        if c.None? { return Failure(BadNumber("node", k, v)); }
        node := node.(location := node.location.(lon := c.value));
      } else {
        node := node.(attributes := node.attributes[k := v]);
      }
      i := i + 1;
    }
    return Success(node);
  }

  /** The attribute loop of a `way` start element, on a freshly made way. */
  method ReadWay(attrs: seq<Attr>, p: Parsers) returns (r: Result<Way, ParseError>)
    ensures r == WayAttrs(FreshWay, attrs, p)
  {
    var way := FreshWay;
    var i := 0;
    while i < |attrs|
      invariant i <= |attrs|
      invariant WayAttrs(way, attrs[i..], p) == WayAttrs(FreshWay, attrs, p)
    {
      assert attrs[i..][1..] == attrs[i + 1..];
      var (k, v) := attrs[i];
      if k == "id" {
        var x := p.id(v);
        if x.None? { return Failure(BadNumber("way", k, v)); }
        way := way.(id := x.value);
      } else {
        way := way.(attributes := way.attributes[k := v]);
      }
      i := i + 1;
    }
    return Success(way);
  }

  /** The attribute loop of an `nd` element: `push_back` of every `ref` value onto `refs`. */
  method ReadRefs(refs: seq<NodeId>, attrs: seq<Attr>, p: Parsers) returns (r: Result<seq<NodeId>, ParseError>)
    ensures r == Refs(refs, attrs, p)
  {
    var nodeIDs := refs;
    var i := 0;
    while i < |attrs|
      invariant i <= |attrs|
      invariant Refs(nodeIDs, attrs[i..], p) == Refs(refs, attrs, p)
    {
      assert attrs[i..][1..] == attrs[i + 1..];
      var (k, v) := attrs[i];
      if k == "ref" {
        var x := p.id(v);
        if x.None? { return Failure(BadNumber("nd", k, v)); }
        nodeIDs := nodeIDs + [x.value];
      }
      i := i + 1;
    }
    return Success(nodeIDs);
  }

  /** The attribute loop of a `tag` element: the last `k` and the last `v`, each `""` when absent. */
  method ReadTag(attrs: seq<Attr>) returns (key: string, value: string)
    ensures (key, value) == TagEntry("", "", attrs)
  {
    key, value := "", "";
    var i := 0;
    while i < |attrs|
      invariant i <= |attrs|
      invariant TagEntry(key, value, attrs[i..]) == TagEntry("", "", attrs)
    {
      assert attrs[i..][1..] == attrs[i + 1..];
      var (k, v) := attrs[i];
      if k == "k" {
        key := v;
      } else if k == "v" {
        value := v;
      }
      i := i + 1;
    }
  }

  /** The constructor: the event loop with its two cursors; a conversion failure aborts it. */
  method BuildMap(events: seq<Event>, p: Parsers) returns (r: Result<StreetMap, ParseError>)
    ensures r == Load(events, p)
  {
    var currNode: Option<Node> := None;
    var currWay: Option<Way> := None;
    var nodeList: seq<Node> := [];
    var wayList: seq<Way> := [];
    var i := 0;
    while i < |events|
      invariant i <= |events|
      invariant Run(BuildState(currNode, currWay, nodeList, wayList), events[i..], p) == Run(Idle, events, p)
    {
      ghost var before := BuildState(currNode, currWay, nodeList, wayList);
      assert events[i..][0] == events[i] && events[i..][1..] == events[i + 1..];
      match events[i] {
        case Start(name, attrs) =>
          if name == "node" {
            var n := ReadNode(attrs, p);
            if n.Failure? { return Failure(n.error); }
            currNode, currWay := Some(n.value), None;
          } else if name == "way" {
            var w := ReadWay(attrs, p);
            if w.Failure? { return Failure(w.error); }
            currWay, currNode := Some(w.value), None;
          } else if name == "nd" && currWay.Some? {
            var refs := ReadRefs(currWay.value.refs, attrs, p);
            if refs.Failure? { return Failure(refs.error); }
            currWay := Some(currWay.value.(refs := refs.value));
          } else if name == "tag" {
            var key, value := ReadTag(attrs);
            if key != "" {
              if currNode.Some? {
                currNode := Some(currNode.value.(attributes := currNode.value.attributes[key := value]));
              } else if currWay.Some? {
                currWay := Some(currWay.value.(attributes := currWay.value.attributes[key := value]));
              }
            }
          }
        case End(name) =>
          if name == "node" && currNode.Some? {
            nodeList := nodeList + [currNode.value];
            currNode := None;
          } else if name == "way" && currWay.Some? {
            wayList := wayList + [currWay.value];
            currWay := None;
          }
        case CharData(_) =>
      }
      assert Step(before, events[i], p) == Success(BuildState(currNode, currWay, nodeList, wayList));
      i := i + 1;
    }
    return Success(StreetMap(nodeList, wayList));
  }
}
