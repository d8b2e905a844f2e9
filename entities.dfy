/**
 * The two entity kinds of the map: nodes (`SNodeImpl`) and ways (`SWayImpl`), with the
 * read-only accessors they expose. `ID()` and `Location()` are the record fields `id` and
 * `location`; the other accessors are member functions.
 */
module Entities {
  import opened Attributes

  /** `TNodeID` / `TWayID`: 64-bit unsigned identities (`std::stoull` yields `unsigned long long`). */
  type u64 = x: int | 0 <= x < 0x1_0000_0000_0000_0000
  type NodeId = u64
  type WayId = u64

  /** `CStreetMap::InvalidNodeID`, the sentinel of `GetNodeID` (the largest `TNodeID`). */
  const InvalidNodeID: NodeId := 0xFFFF_FFFF_FFFF_FFFF

  /** `TLocation`: (latitude, longitude) as the coordinate parser produced them. */
  datatype Location = Location(lat: real, lon: real)

  datatype Node = Node(id: NodeId, location: Location, attributes: map<string, string>)
  {
    function AttributeCount(): (n: nat)
      ensures n == |attributes.Keys|
    {
      |attributes|
    }

    /** The key at `index` in the dictionary's (unspecified, fixed) enumeration order; `""` out of range. */
    ghost function GetAttributeKey(index: nat): (k: string)
      ensures index < AttributeCount() ==> HasAttribute(k)
      ensures index >= AttributeCount() ==> k == ""
    {
      KeyAt(attributes, index)
    }

    function HasAttribute(key: string): (b: bool)
      ensures b <==> key in attributes.Keys
    {
      key in attributes
    }

    function GetAttribute(key: string): (v: string)
      ensures HasAttribute(key) ==> v == attributes[key]
      ensures !HasAttribute(key) ==> v == ""
    {
      ValueOr(attributes, key)
    }
  }

  datatype Way = Way(id: WayId, refs: seq<NodeId>, attributes: map<string, string>)
  {
    /** Number of node references (`nodeIDs.size()`). */
    function NodeCount(): (n: nat)
      ensures n == |refs|
    {
      |refs|
    }

    /** The `index`-th referenced node id, or `InvalidNodeID` when `index >= NodeCount()`. */
    function GetNodeID(index: nat): (r: NodeId)
      ensures index < NodeCount() ==> r == refs[index]
      ensures index >= NodeCount() ==> r == InvalidNodeID
    {
      if index < |refs| then refs[index] else InvalidNodeID
    }

    function AttributeCount(): (n: nat)
      ensures n == |attributes.Keys|
    {
      |attributes|
    }

    ghost function GetAttributeKey(index: nat): (k: string)
      ensures index < AttributeCount() ==> HasAttribute(k)
      ensures index >= AttributeCount() ==> k == ""
    {
      KeyAt(attributes, index)
    }

    function HasAttribute(key: string): (b: bool)
      ensures b <==> key in attributes.Keys
    {
      key in attributes
    }

    function GetAttribute(key: string): (v: string)
      ensures HasAttribute(key) ==> v == attributes[key]
      ensures !HasAttribute(key) ==> v == ""
    {
      ValueOr(attributes, key)
    }
  }

}
