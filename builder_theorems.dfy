/**
 * What the constructor promises, proved about its specification `Step` / `Run` / `Load`
 * (and so, through `BuildMap`'s postcondition, about the loop itself).
 *
 * The central statement is `Document`: for a stream made of well-formed node and way
 * elements and stray markup, the constructed map holds exactly one entity per element, in
 * closing order, each described declaratively by `ExpectedNode` / `ExpectedWay`.
 */
module BuilderTheorems {
  import opened Wrappers
  import opened Attributes
  import opened Entities
  import opened MapStore
  import opened MapBuilder

  // ---------------------------------------------------------------------------------------
  // Numeric fields

  /** Every pair with key `key` converts. */
  predicate KeyParses<T>(attrs: seq<Attr>, key: string, parse: string -> Option<T>)
  {
    forall i :: 0 <= i < |attrs| && attrs[i].0 == key ==> parse(attrs[i].1).Some?
  }

  /** All numeric inline attributes of a `node` start element convert. */
  predicate NodeNumbersParse(attrs: seq<Attr>, p: Parsers)
  {
    KeyParses(attrs, "id", p.id) && KeyParses(attrs, "lat", p.coord) && KeyParses(attrs, "lon", p.coord)
  }

  /** The numeric inline attribute of a `way` start element converts. */
  predicate WayNumbersParse(attrs: seq<Attr>, p: Parsers)
  {
    KeyParses(attrs, "id", p.id)
  }

  /** The converted value of `text`, or `default` when there is no text (or it does not convert). */
  function ParsedOr<T>(parse: string -> Option<T>, text: Option<string>, default: T): T
  {
    match text
    case None => default
    case Some(t) => parse(t).GetOr(default)
  }

  /** The values of an element's `ref` attributes, in order. */
  function RefTexts(attrs: seq<Attr>): seq<string>
    decreases |attrs|
  {
    if attrs == [] then []
    else (if attrs[0].0 == "ref" then [attrs[0].1] else []) + RefTexts(attrs[1..])
  }

  predicate AllParse(texts: seq<string>, parse: string -> Option<u64>)
  {
    forall i :: 0 <= i < |texts| ==> parse(texts[i]).Some?
  }

  /** The converted values of `texts`, in order. */
  function ParseAll(texts: seq<string>, parse: string -> Option<u64>): (r: seq<u64>)
    ensures |r| == |texts|
    ensures forall i :: 0 <= i < |texts| && parse(texts[i]).Some? ==> r[i] == parse(texts[i]).value
    decreases |texts|
  {
    if texts == [] then [] else [parse(texts[0]).GetOr(0)] + ParseAll(texts[1..], parse)
  }

  lemma KeyParsesCons<T>(attrs: seq<Attr>, key: string, parse: string -> Option<T>)
    requires attrs != []
    ensures KeyParses(attrs, key, parse) <==>
      (attrs[0].0 == key ==> parse(attrs[0].1).Some?) && KeyParses(attrs[1..], key, parse)
  {
    if (attrs[0].0 == key ==> parse(attrs[0].1).Some?) && KeyParses(attrs[1..], key, parse) {
      forall i | 0 <= i < |attrs| && attrs[i].0 == key ensures parse(attrs[i].1).Some? {
        if i > 0 { assert attrs[i] == attrs[1..][i - 1]; }
      }
    }
    if KeyParses(attrs, key, parse) {
      forall i | 0 <= i < |attrs[1..]| && attrs[1..][i].0 == key ensures parse(attrs[1..][i].1).Some? {
        assert attrs[1..][i] == attrs[i + 1];
      }
    }
  }

  /** When every pair of `key` converts, the last one does, so the default is never used. */
  lemma LastParses<T>(attrs: seq<Attr>, key: string, parse: string -> Option<T>)
    requires KeyParses(attrs, key, parse)
    ensures LastValue(attrs, key).Some? ==> parse(LastValue(attrs, key).value).Some?
  {
    LastValueFound(attrs, key);
  }

  lemma AllParseAppend(a: seq<string>, b: seq<string>, parse: string -> Option<u64>)
    ensures AllParse(a + b, parse) <==> AllParse(a, parse) && AllParse(b, parse)
  {
    if AllParse(a + b, parse) {
      forall i | 0 <= i < |a| ensures parse(a[i]).Some? { assert (a + b)[i] == a[i]; }
      forall i | 0 <= i < |b| ensures parse(b[i]).Some? { assert (a + b)[|a| + i] == b[i]; }
    }
  }

  lemma ParseAllAppend(a: seq<string>, b: seq<string>, parse: string -> Option<u64>)
    ensures ParseAll(a + b, parse) == ParseAll(a, parse) + ParseAll(b, parse)
  {
    var l, r := ParseAll(a + b, parse), ParseAll(a, parse) + ParseAll(b, parse);
    forall i | 0 <= i < |l| ensures l[i] == r[i] {
      if i < |a| {
        assert (a + b)[i] == a[i];
        assert ParseAll(a + b, parse)[i] == parse(a[i]).GetOr(0) by { ParseAllAt(a + b, parse, i); }
        ParseAllAt(a, parse, i);
      } else {
        assert (a + b)[i] == b[i - |a|];
        ParseAllAt(a + b, parse, i);
        ParseAllAt(b, parse, i - |a|);
      }
    }
  }

  lemma AppendAssoc<T>(a: seq<T>, b: seq<T>, c: seq<T>)
    ensures (a + b) + c == a + (b + c)
  {
  }

  lemma {:induction false} ParseAllAt(texts: seq<string>, parse: string -> Option<u64>, i: nat)
    requires i < |texts|
    ensures ParseAll(texts, parse)[i] == parse(texts[i]).GetOr(0)
    decreases i
  {
    if i > 0 {
      ParseAllAt(texts[1..], parse, i - 1);
    }
  }

  // ---------------------------------------------------------------------------------------
  // The attribute loops of one start element

  /**
   * A `node` start element: the construction survives exactly when every `id`, `lat` and `lon`
   * converts; the last of each then sets the field, and every other inline attribute is
   * stored under its own name (later duplicates overwrite).
   */
  lemma {:induction false} NodeAttrsSpec(n: Node, attrs: seq<Attr>, p: Parsers)
    ensures NodeAttrs(n, attrs, p).Success? <==> NodeNumbersParse(attrs, p)
    ensures NodeAttrs(n, attrs, p).Success? ==>
      var m := NodeAttrs(n, attrs, p).value;
      && m.id == ParsedOr(p.id, LastValue(attrs, "id"), n.id)
      && m.location.lat == ParsedOr(p.coord, LastValue(attrs, "lat"), n.location.lat)
      && m.location.lon == ParsedOr(p.coord, LastValue(attrs, "lon"), n.location.lon)
      && m.attributes == Put(n.attributes, Without(attrs, NodeFields))
    decreases |attrs|
  {
    if attrs != [] {
      var (k, v) := attrs[0];
      var rest := attrs[1..];
      KeyParsesCons(attrs, "id", p.id);
      KeyParsesCons(attrs, "lat", p.coord);
      KeyParsesCons(attrs, "lon", p.coord);
      var next :=
        if k == "id" then n.(id := p.id(v).GetOr(0))
        else if k == "lat" then n.(location := n.location.(lat := p.coord(v).GetOr(0.0)))
        else if k == "lon" then n.(location := n.location.(lon := p.coord(v).GetOr(0.0)))
        else n.(attributes := n.attributes[k := v]);
      if (k == "id" ==> p.id(v).Some?) && (k in {"lat", "lon"} ==> p.coord(v).Some?) {
        assert NodeAttrs(n, attrs, p) == NodeAttrs(next, rest, p);
        NodeAttrsSpec(next, rest, p);
        if NodeNumbersParse(rest, p) {
          LastParses(rest, "id", p.id);
          LastParses(rest, "lat", p.coord);
          LastParses(rest, "lon", p.coord);
        }
      }
    }
  }

  /** A `way` start element: survives exactly when every `id` converts; other attributes are stored. */
  lemma {:induction false} WayAttrsSpec(w: Way, attrs: seq<Attr>, p: Parsers)
    ensures WayAttrs(w, attrs, p).Success? <==> WayNumbersParse(attrs, p)
    ensures WayAttrs(w, attrs, p).Success? ==>
      var m := WayAttrs(w, attrs, p).value;
      && m.id == ParsedOr(p.id, LastValue(attrs, "id"), w.id)
      && m.refs == w.refs
      && m.attributes == Put(w.attributes, Without(attrs, WayFields))
    decreases |attrs|
  {
    if attrs != [] {
      var (k, v) := attrs[0];
      var rest := attrs[1..];
      KeyParsesCons(attrs, "id", p.id);
      var next := if k == "id" then w.(id := p.id(v).GetOr(0)) else w.(attributes := w.attributes[k := v]);
      if k == "id" ==> p.id(v).Some? {
        assert WayAttrs(w, attrs, p) == WayAttrs(next, rest, p);
        WayAttrsSpec(next, rest, p);
        if WayNumbersParse(rest, p) {
          LastParses(rest, "id", p.id);
        }
      }
    }
  }

  /** An `nd` element: survives exactly when every `ref` converts, and appends them all, in order. */
  lemma {:induction false} RefsSpec(refs: seq<NodeId>, attrs: seq<Attr>, p: Parsers)
    ensures Refs(refs, attrs, p).Success? <==> AllParse(RefTexts(attrs), p.id)
    ensures Refs(refs, attrs, p).Success? ==> Refs(refs, attrs, p).value == refs + ParseAll(RefTexts(attrs), p.id)
    decreases |attrs|
  {
    if attrs != [] {
      var (k, v) := attrs[0];
      var here := if k == "ref" then [v] else [];
      assert RefTexts(attrs) == here + RefTexts(attrs[1..]);
      AllParseAppend(here, RefTexts(attrs[1..]), p.id);
      ParseAllAppend(here, RefTexts(attrs[1..]), p.id);
      if k == "ref" {
        if p.id(v).Some? {
          var x := p.id(v).value;
          RefsSpec(refs + [x], attrs[1..], p);
          assert ParseAll(here, p.id) == [x];
          AppendAssoc(refs, [x], ParseAll(RefTexts(attrs[1..]), p.id));
        } else {
          assert !AllParse(here, p.id);
        }
      } else {
        RefsSpec(refs, attrs[1..], p);
      }
    }
  }

  /** A `tag` element yields its last `k` and last `v` (whatever their order), each defaulting to `""`. */
  lemma {:induction false} TagEntrySpec(key: string, value: string, attrs: seq<Attr>)
    ensures TagEntry(key, value, attrs) == (LastValue(attrs, "k").GetOr(key), LastValue(attrs, "v").GetOr(value))
    decreases |attrs|
  {
    if attrs != [] {
      var (k, v) := attrs[0];
      TagEntrySpec(if k == "k" then v else key, if k == "v" then v else value, attrs[1..]);
    }
  }

  // ---------------------------------------------------------------------------------------
  // Single events

  /** The only fatal events: a `node`, `way` or (open-way) `nd` start whose numbers do not convert. */
  lemma StepFailure(s: BuildState, e: Event, p: Parsers)
    ensures Step(s, e, p).Failure? <==>
      e.Start? && (
        || (e.name == "node" && !NodeNumbersParse(e.attrs, p))
        || (e.name == "way" && !WayNumbersParse(e.attrs, p))
        || (e.name == "nd" && s.currWay.Some? && !AllParse(RefTexts(e.attrs), p.id)))
  {
    if e.Start? {
      NodeAttrsSpec(FreshNode, e.attrs, p);
      WayAttrsSpec(FreshWay, e.attrs, p);
      if s.currWay.Some? {
        RefsSpec(s.currWay.value.refs, e.attrs, p);
      }
    }
  }

  /**
   * Start of `node`: a fresh node becomes current and any current way is dropped. Its id and
   * location come from the last `id` / `lat` / `lon` (0 when absent) and every other inline
   * attribute goes into its dictionary. Nothing is published.
   */
  lemma StepStartNode(s: BuildState, attrs: seq<Attr>, p: Parsers)
    requires NodeNumbersParse(attrs, p)
    ensures Step(s, Start("node", attrs), p) == Success(s.(currNode := Some(Node(
      ParsedOr(p.id, LastValue(attrs, "id"), 0),
      Location(ParsedOr(p.coord, LastValue(attrs, "lat"), 0.0), ParsedOr(p.coord, LastValue(attrs, "lon"), 0.0)),
      Dict(Without(attrs, NodeFields)))), currWay := None))
  {
    NodeAttrsSpec(FreshNode, attrs, p);
    PutIsDict(Without(attrs, NodeFields));
  }

  /** Start of `way`: a fresh way (no references) becomes current and any current node is dropped. */
  lemma StepStartWay(s: BuildState, attrs: seq<Attr>, p: Parsers)
    requires WayNumbersParse(attrs, p)
    ensures Step(s, Start("way", attrs), p) == Success(s.(currWay := Some(Way(
      ParsedOr(p.id, LastValue(attrs, "id"), 0), [], Dict(Without(attrs, WayFields)))), currNode := None))
  {
    WayAttrsSpec(FreshWay, attrs, p);
    PutIsDict(Without(attrs, WayFields));
  }

  /** `nd` while a way is open: its `ref` values go on the end of that way's references. */
  lemma StepNd(s: BuildState, attrs: seq<Attr>, p: Parsers)
    requires s.currWay.Some? && AllParse(RefTexts(attrs), p.id)
    ensures Step(s, Start("nd", attrs), p) ==
      Success(s.(currWay := Some(s.currWay.value.(refs := s.currWay.value.refs + ParseAll(RefTexts(attrs), p.id)))))
  {
    RefsSpec(s.currWay.value.refs, attrs, p);
  }

  /**
   * `tag` with a non-empty key: the current node (else the current way) maps the key to the
   * value, and nothing else changes. A key already present keeps the attribute count; a new one raises it by one.
   */
  lemma StepTag(s: BuildState, attrs: seq<Attr>, p: Parsers)
    requires LastValue(attrs, "k").GetOr("") != ""
    requires s.currNode.Some? || s.currWay.Some?
    ensures Step(s, Start("tag", attrs), p).Success?
    ensures
      var t := Step(s, Start("tag", attrs), p).value;
      var (k, v) := (LastValue(attrs, "k").value, LastValue(attrs, "v").GetOr(""));
      if s.currNode.Some? then
        var n := s.currNode.value;
        && t == s.(currNode := Some(n.(attributes := n.attributes[k := v])))
        && t.currNode.value.GetAttribute(k) == v
        && t.currNode.value.AttributeCount() == n.AttributeCount() + (if n.HasAttribute(k) then 0 else 1)
      else
        var w := s.currWay.value;
        && t == s.(currWay := Some(w.(attributes := w.attributes[k := v])))
        && t.currWay.value.GetAttribute(k) == v
        && t.currWay.value.AttributeCount() == w.AttributeCount() + (if w.HasAttribute(k) then 0 else 1)
  {
    TagEntrySpec("", "", attrs);
    var (k, v) := (LastValue(attrs, "k").value, LastValue(attrs, "v").GetOr(""));
    var m := if s.currNode.Some? then s.currNode.value.attributes else s.currWay.value.attributes;
    if k in m {
      assert m[k := v].Keys == m.Keys;
    } else {
      assert m[k := v].Keys == m.Keys + {k};
    }
  }

  /**
   * Structural mismatches are never fatal and change nothing: character data, unknown
   * elements, `nd` with no open way, `tag` with an empty key or no open entity, and end
   * markers that do not close the open entity.
   */
  lemma StepIgnored(s: BuildState, e: Event, p: Parsers)
    requires
      || e.CharData?
      || (e.Start? && e.name != "node" && e.name != "way" && e.name != "nd" && e.name != "tag")
      || (e.Start? && e.name == "nd" && s.currWay.None?)
      || (e.Start? && e.name == "tag" && (LastValue(e.attrs, "k").GetOr("") == "" || (s.currNode.None? && s.currWay.None?)))
      || (e.End? && !(e.name == "node" && s.currNode.Some?) && !(e.name == "way" && s.currWay.Some?))
    ensures Step(s, e, p) == Success(s)
  {
    if e.Start? {
      TagEntrySpec("", "", e.attrs);
    }
  }

  /** End of `node` / `way` with that entity open: it goes on the end of its list exactly once and the cursor clears. */
  lemma StepEnd(s: BuildState, name: string, p: Parsers)
    requires (name == "node" && s.currNode.Some?) || (name == "way" && s.currWay.Some?)
    ensures name == "node" ==> Step(s, End(name), p) == Success(s.(nodes := s.nodes + [s.currNode.value], currNode := None))
    ensures name == "way" ==> Step(s, End(name), p) == Success(s.(ways := s.ways + [s.currWay.value], currWay := None))
  {
  }

  // ---------------------------------------------------------------------------------------
  // Streams

  /** Running `a + b` is running `a`, then `b` from where `a` left off; a failure in `a` is final. */
  lemma {:induction false} RunAppend(s: BuildState, a: seq<Event>, b: seq<Event>, p: Parsers)
    ensures Run(s, a + b, p) ==
      match Run(s, a, p)
      case Failure(err) => Failure(err)
      case Success(t) => Run(t, b, p)
    decreases |a|
  {
    if a == [] {
      assert a + b == b;
    } else {
      assert (a + b)[0] == a[0];
      assert (a + b)[1..] == a[1..] + b;
      match Step(s, a[0], p)
      case Failure(_) =>
      case Success(t) => RunAppend(t, a[1..], b, p);
    }
  }

  /** Can markup inside an open node's element leave it open? (anything but a new node/way or its own end) */
  predicate NodeBodyEvent(e: Event)
  {
    !(e.Start? && (e.name == "node" || e.name == "way")) && !(e.End? && e.name == "node")
  }

  predicate WayBodyEvent(e: Event)
  {
    !(e.Start? && (e.name == "node" || e.name == "way")) && !(e.End? && e.name == "way")
  }

  /** The (key, value) a `tag` event contributes, if its key is non-empty. */
  function TagPairsOf(e: Event): seq<Attr>
  {
    if e.Start? && e.name == "tag" && TagEntry("", "", e.attrs).0 != "" then [TagEntry("", "", e.attrs)] else []
  }

  /** The tag pairs of a stretch of events, in stream order. */
  function TagPairs(body: seq<Event>): seq<Attr>
    decreases |body|
  {
    if body == [] then [] else TagPairsOf(body[0]) + TagPairs(body[1..])
  }

  /** The `ref` texts of the `nd` elements in a stretch of events, in stream order. */
  function NdTexts(body: seq<Event>): seq<string>
    decreases |body|
  {
    if body == [] then []
    else (if body[0].Start? && body[0].name == "nd" then RefTexts(body[0].attrs) else []) + NdTexts(body[1..])
  }

  /** One child event of an open node: it stores its tag pair, if any, and changes nothing else. */
  lemma NodeBodyStep(t: BuildState, e: Event, p: Parsers)
    requires t.currNode.Some? && t.currWay.None? && NodeBodyEvent(e)
    ensures Step(t, e, p) ==
      Success(t.(currNode := Some(t.currNode.value.(attributes := Put(t.currNode.value.attributes, TagPairsOf(e))))))
  {
    var m := t.currNode.value.attributes;
    if e.Start? && e.name == "tag" && TagEntry("", "", e.attrs).0 != "" {
      var (k, v) := TagEntry("", "", e.attrs);
      assert Put(m, [(k, v)]) == Put(m[k := v], []);
    } else {
      assert Put(m, TagPairsOf(e)) == m;
    }
  }

  /** One child event of an open way: it appends its `nd` references and stores its tag pair, if any. */
  lemma WayBodyStep(t: BuildState, e: Event, p: Parsers)
    requires t.currWay.Some? && t.currNode.None? && WayBodyEvent(e)
    requires e.Start? && e.name == "nd" ==> AllParse(RefTexts(e.attrs), p.id)
    ensures
      var w := t.currWay.value;
      var here := if e.Start? && e.name == "nd" then RefTexts(e.attrs) else [];
      Step(t, e, p) ==
        Success(t.(currWay := Some(w.(refs := w.refs + ParseAll(here, p.id), attributes := Put(w.attributes, TagPairsOf(e))))))
  {
    var w := t.currWay.value;
    if e.Start? && e.name == "nd" {
      RefsSpec(w.refs, e.attrs, p);
      assert Put(w.attributes, TagPairsOf(e)) == w.attributes;
    } else if e.Start? && e.name == "tag" && TagEntry("", "", e.attrs).0 != "" {
      var (k, v) := TagEntry("", "", e.attrs);
      assert Put(w.attributes, [(k, v)]) == Put(w.attributes[k := v], []);
      assert w.refs + ParseAll([], p.id) == w.refs;
    } else {
      assert Put(w.attributes, TagPairsOf(e)) == w.attributes;
      assert w.refs + ParseAll([], p.id) == w.refs;
    }
  }

  /** Inside an open node, the only effect of the children is that their tags are stored on the node. */
  lemma {:induction false} NodeBody(t: BuildState, body: seq<Event>, p: Parsers)
    requires t.currNode.Some? && t.currWay.None?
    requires forall i :: 0 <= i < |body| ==> NodeBodyEvent(body[i])
    ensures Run(t, body, p) ==
      Success(t.(currNode := Some(t.currNode.value.(attributes := Put(t.currNode.value.attributes, TagPairs(body))))))
    decreases |body|
  {
    if body != [] {
      var n := t.currNode.value;
      var e := body[0];
      var t1 := t.(currNode := Some(n.(attributes := Put(n.attributes, TagPairsOf(e)))));
      NodeBodyStep(t, e, p);
      assert forall i :: 0 <= i < |body[1..]| ==> NodeBodyEvent(body[1..][i]) by {
        forall i | 0 <= i < |body[1..]| ensures NodeBodyEvent(body[1..][i]) { assert body[1..][i] == body[i + 1]; }
      }
      NodeBody(t1, body[1..], p);
      PutAppend(n.attributes, TagPairsOf(e), TagPairs(body[1..]));
    }
  }

  /**
   * Inside an open way, the children append their `nd` references in stream order (repeats
   * kept) and store their tags on the way.
   */
  lemma {:induction false} WayBody(t: BuildState, body: seq<Event>, p: Parsers)
    requires t.currWay.Some? && t.currNode.None?
    requires forall i :: 0 <= i < |body| ==> WayBodyEvent(body[i])
    requires AllParse(NdTexts(body), p.id)
    ensures Run(t, body, p) ==
      Success(t.(currWay := Some(t.currWay.value.(
        refs := t.currWay.value.refs + ParseAll(NdTexts(body), p.id),
        attributes := Put(t.currWay.value.attributes, TagPairs(body))))))
    decreases |body|
  {
    var w := t.currWay.value;
    if body == [] {
      assert w.refs + ParseAll([], p.id) == w.refs;
    } else {
      var e := body[0];
      var rest := body[1..];
      var here := if e.Start? && e.name == "nd" then RefTexts(e.attrs) else [];
      assert NdTexts(body) == here + NdTexts(rest);
      AllParseAppend(here, NdTexts(rest), p.id);
      ParseAllAppend(here, NdTexts(rest), p.id);
      var t1 := t.(currWay := Some(w.(refs := w.refs + ParseAll(here, p.id), attributes := Put(w.attributes, TagPairsOf(e)))));
      WayBodyStep(t, e, p);
      assert Run(t, body, p) == Run(t1, rest, p);
      forall i | 0 <= i < |rest| ensures WayBodyEvent(rest[i]) {
        assert rest[i] == body[i + 1];
      }
      WayBody(t1, rest, p);
      var pHere, pRest, pBody := ParseAll(here, p.id), ParseAll(NdTexts(rest), p.id), ParseAll(NdTexts(body), p.id);
      assert pBody == pHere + pRest;
      AppendAssoc(w.refs, pHere, pRest);
      assert TagPairs(body) == TagPairsOf(e) + TagPairs(rest);
      PutAppend(w.attributes, TagPairsOf(e), TagPairs(rest));
    }
  }

  // ---------------------------------------------------------------------------------------
  // Documents

  /** A piece of a document: a node element, a way element (each an opening attribute list and the children), or stray markup. */
  datatype Element = NodeElement(attrs: seq<Attr>, body: seq<Event>) | WayElement(attrs: seq<Attr>, body: seq<Event>) | Stray(event: Event)

  /** The events of an element up to, not including, its end marker. */
  function Opening(el: Element): seq<Event>
  {
    match el
    case NodeElement(attrs, body) => [Start("node", attrs)] + body
    case WayElement(attrs, body) => [Start("way", attrs)] + body
    case Stray(e) => [e]
  }

  function ElementEvents(el: Element): seq<Event>
  {
    match el
    case NodeElement(_, _) => Opening(el) + [End("node")]
    case WayElement(_, _) => Opening(el) + [End("way")]
    case Stray(_) => Opening(el)
  }

  function Events(elems: seq<Element>): seq<Event>
    decreases |elems|
  {
    if elems == [] then [] else ElementEvents(elems[0]) + Events(elems[1..])
  }

  /** Its numbers convert, its children do not close or replace it, and stray markup opens nothing. */
  predicate WellFormed(el: Element, p: Parsers)
  {
    match el
    case NodeElement(attrs, body) =>
      NodeNumbersParse(attrs, p) && forall i :: 0 <= i < |body| ==> NodeBodyEvent(body[i])
    case WayElement(attrs, body) =>
      WayNumbersParse(attrs, p) && (forall i :: 0 <= i < |body| ==> WayBodyEvent(body[i])) && AllParse(NdTexts(body), p.id)
    case Stray(e) => !(e.Start? && (e.name == "node" || e.name == "way"))
  }

  /**
   * The node a node element describes: id and location from its last `id` / `lat` / `lon`
   * (0 when absent), and one attribute per distinct key among its other inline attributes and
   * its non-empty tags, valued by the last occurrence.
   */
  function ExpectedNode(attrs: seq<Attr>, body: seq<Event>, p: Parsers): Node
  {
    Node(ParsedOr(p.id, LastValue(attrs, "id"), 0),
         Location(ParsedOr(p.coord, LastValue(attrs, "lat"), 0.0), ParsedOr(p.coord, LastValue(attrs, "lon"), 0.0)),
         Dict(Without(attrs, NodeFields) + TagPairs(body)))
  }

  /** The way a way element describes: its id, its `nd` references in stream order, its attributes. */
  function ExpectedWay(attrs: seq<Attr>, body: seq<Event>, p: Parsers): Way
  {
    Way(ParsedOr(p.id, LastValue(attrs, "id"), 0),
        ParseAll(NdTexts(body), p.id),
        Dict(Without(attrs, WayFields) + TagPairs(body)))
  }

  function NodeOf(el: Element, p: Parsers): seq<Node>
  {
    if el.NodeElement? then [ExpectedNode(el.attrs, el.body, p)] else []
  }

  function WayOf(el: Element, p: Parsers): seq<Way>
  {
    if el.WayElement? then [ExpectedWay(el.attrs, el.body, p)] else []
  }

  function NodesOf(elems: seq<Element>, p: Parsers): seq<Node>
    decreases |elems|
  {
    if elems == [] then [] else NodeOf(elems[0], p) + NodesOf(elems[1..], p)
  }

  function WaysOf(elems: seq<Element>, p: Parsers): seq<Way>
    decreases |elems|
  {
    if elems == [] then [] else WayOf(elems[0], p) + WaysOf(elems[1..], p)
  }

  /** From no open entity, the opening of an element leaves exactly its expected entity open and publishes nothing. */
  lemma OpeningRun(ns: seq<Node>, ws: seq<Way>, el: Element, p: Parsers)
    requires WellFormed(el, p)
    ensures Run(BuildState(None, None, ns, ws), Opening(el), p) == Success(BuildState(
      if el.NodeElement? then Some(ExpectedNode(el.attrs, el.body, p)) else None,
      if el.WayElement? then Some(ExpectedWay(el.attrs, el.body, p)) else None,
      ns, ws))
  {
    var s := BuildState(None, None, ns, ws);
    match el
    case NodeElement(attrs, body) =>
      RunAppend(s, [Start("node", attrs)], body, p);
      StepStartNode(s, attrs, p);
      var n0 := Node(ParsedOr(p.id, LastValue(attrs, "id"), 0),
                     Location(ParsedOr(p.coord, LastValue(attrs, "lat"), 0.0), ParsedOr(p.coord, LastValue(attrs, "lon"), 0.0)),
                     Dict(Without(attrs, NodeFields)));
      NodeBody(s.(currNode := Some(n0)), body, p);
      PutIsDict(Without(attrs, NodeFields));
      PutAppend(map[], Without(attrs, NodeFields), TagPairs(body));
      PutIsDict(Without(attrs, NodeFields) + TagPairs(body));
    case WayElement(attrs, body) =>
      RunAppend(s, [Start("way", attrs)], body, p);
      StepStartWay(s, attrs, p);
      var w0 := Way(ParsedOr(p.id, LastValue(attrs, "id"), 0), [], Dict(Without(attrs, WayFields)));
      WayBody(s.(currWay := Some(w0)), body, p);
      PutIsDict(Without(attrs, WayFields));
      PutAppend(map[], Without(attrs, WayFields), TagPairs(body));
      PutIsDict(Without(attrs, WayFields) + TagPairs(body));
      assert [] + ParseAll(NdTexts(body), p.id) == ParseAll(NdTexts(body), p.id);
    case Stray(e) =>
      StepIgnored(s, e, p);
  }

  /** A well-formed element publishes exactly its expected entity, on the end of its list, and leaves nothing open. */
  lemma ElementRun(ns: seq<Node>, ws: seq<Way>, el: Element, p: Parsers)
    requires WellFormed(el, p)
    ensures Run(BuildState(None, None, ns, ws), ElementEvents(el), p) ==
      Success(BuildState(None, None, ns + NodeOf(el, p), ws + WayOf(el, p)))
  {
    OpeningRun(ns, ws, el, p);
    var s := BuildState(None, None, ns, ws);
    match el
    case NodeElement(attrs, body) =>
      var n := ExpectedNode(attrs, body, p);
      RunAppend(s, Opening(el), [End("node")], p);
      assert Run(BuildState(Some(n), None, ns, ws), [End("node")], p) == Success(BuildState(None, None, ns + [n], ws));
      assert NodeOf(el, p) == [n] && ws + WayOf(el, p) == ws;
    case WayElement(attrs, body) =>
      var w := ExpectedWay(attrs, body, p);
      RunAppend(s, Opening(el), [End("way")], p);
      assert Run(BuildState(None, Some(w), ns, ws), [End("way")], p) == Success(BuildState(None, None, ns, ws + [w]));
      assert WayOf(el, p) == [w] && ns + NodeOf(el, p) == ns;
    case Stray(_) => assert ns + [] == ns && ws + [] == ws;
  }

  lemma {:induction false} DocumentRun(ns: seq<Node>, ws: seq<Way>, elems: seq<Element>, p: Parsers)
    requires forall i :: 0 <= i < |elems| ==> WellFormed(elems[i], p)
    ensures Run(BuildState(None, None, ns, ws), Events(elems), p) ==
      Success(BuildState(None, None, ns + NodesOf(elems, p), ws + WaysOf(elems, p)))
    decreases |elems|
  {
    if elems == [] {
      assert ns + [] == ns && ws + [] == ws;
    } else {
      var el := elems[0];
      ElementRun(ns, ws, el, p);
      assert Events(elems) == ElementEvents(el) + Events(elems[1..]);
      RunAppend(BuildState(None, None, ns, ws), ElementEvents(el), Events(elems[1..]), p);
      forall i | 0 <= i < |elems[1..]| ensures WellFormed(elems[1..][i], p) {
        assert elems[1..][i] == elems[i + 1];
      }
      DocumentRun(ns + NodeOf(el, p), ws + WayOf(el, p), elems[1..], p);
      AppendAssoc(ns, NodeOf(el, p), NodesOf(elems[1..], p));
      AppendAssoc(ws, WayOf(el, p), WaysOf(elems[1..], p));
    }
  }

  /**
   * A well-formed document yields one stored entity per node / way element, in the order the
   * elements close, each as its element describes it.
   */
  lemma Document(elems: seq<Element>, p: Parsers)
    requires forall i :: 0 <= i < |elems| ==> WellFormed(elems[i], p)
    ensures Load(Events(elems), p) == Success(StreetMap(NodesOf(elems, p), WaysOf(elems, p)))
  {
    DocumentFromIdle(elems, p);
  }

  lemma DocumentFromIdle(elems: seq<Element>, p: Parsers)
    requires forall i :: 0 <= i < |elems| ==> WellFormed(elems[i], p)
    ensures Run(Idle, Events(elems), p) == Success(BuildState(None, None, NodesOf(elems, p), WaysOf(elems, p)))
  {
    DocumentRun([], [], elems, p);
    assert [] + NodesOf(elems, p) == NodesOf(elems, p) && [] + WaysOf(elems, p) == WaysOf(elems, p);
  }

  /** A node or way still open when the stream ends is never published: the map is as if its element were absent. */
  lemma Truncated(elems: seq<Element>, open: Element, p: Parsers)
    requires forall i :: 0 <= i < |elems| ==> WellFormed(elems[i], p)
    requires !open.Stray? && WellFormed(open, p)
    ensures Load(Events(elems) + Opening(open), p) == Success(StreetMap(NodesOf(elems, p), WaysOf(elems, p)))
  {
    DocumentFromIdle(elems, p);
    RunAppend(Idle, Events(elems), Opening(open), p);
    OpeningRun(NodesOf(elems, p), WaysOf(elems, p), open, p);
  }

  /** A stream whose first event fails aborts, whatever follows. */
  lemma FailingHead(s: BuildState, e: Event, rest: seq<Event>, p: Parsers)
    requires Step(s, e, p).Failure?
    ensures Run(s, [e] + rest, p).Failure?
  {
    assert ([e] + rest)[0] == e;
  }

  /**
   * A `node` start element with a malformed `id`, `lat` or `lon` makes the whole construction
   * fail, whatever came before or follows it: no map is produced.
   */
  lemma MalformedNodeAborts(pre: seq<Event>, attrs: seq<Attr>, rest: seq<Event>, p: Parsers)
    requires !NodeNumbersParse(attrs, p)
    ensures Load(pre + [Start("node", attrs)] + rest, p).Failure?
  {
    var e := Start("node", attrs);
    AppendAssoc(pre, [e], rest);
    RunAppend(Idle, pre, [e] + rest, p);
    match Run(Idle, pre, p)
    case Failure(_) =>
    case Success(s) =>
      StepFailure(s, e, p);
      FailingHead(s, e, rest, p);
  }
}
