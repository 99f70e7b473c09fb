/** The data of the older gateway (src/structs.rs): components, services,
    and the routing trie that the configuration loader fills in place. */
module Structs {
  import opened Wrappers
  import opened Json
  import Text

  /** `ChainComponentPlace`: which kinds a chain rule reads its value from
      and writes it into ("header", "body", "store"), each with its key. */
  datatype Place = Place(from: map<string, string>, into: map<string, string>)

  datatype ProxyComponent = ProxyComponent(serviceName: string)

  datatype ExposedComponent = ExposedComponent(host: string, port: int)

  datatype ChainComponent = ChainComponent(from: Component, to: Component, place: seq<Place>)

  /** A component is a record of three optional parts; each constructor fills exactly one. */
  datatype Component = Component(
    proxy: Option<ProxyComponent>,
    exposed: Option<ExposedComponent>,
    chain: Option<ChainComponent>)

  datatype ServiceRun = ServiceRun(way: string, tag: string)

  /** The defaults a service substitutes for the caller's path, headers and body. */
  datatype ServiceSets = ServiceSets(headers: map<string, string>, path: string, body: Json)

  type U16 = x: int | 0 <= x < Text.U16_LIMIT

  datatype Service = Service(
    server: string,
    port: U16,
    uses: seq<string>,
    sets: ServiceSets,
    run: Option<ServiceRun>)

  /** How many of the three parts of a component are present. */
  function Kinds(c: Component): nat {
    (if c.proxy.Some? then 1 else 0) + (if c.exposed.Some? then 1 else 0) + (if c.chain.Some? then 1 else 0)
  }

  /** `ChainComponentPlace::new` */
  function NewPlace(from: map<string, string>, into: map<string, string>): (p: Place)
    ensures p.from == from && p.into == into
  {
    Place(from, into)
  }

  /** `Component::new_proxy` */
  function NewProxy(serviceName: string): (c: Component)
    ensures Kinds(c) == 1 && c.proxy == Some(ProxyComponent(serviceName))
  {
    Component(Some(ProxyComponent(serviceName)), None, None)
  }

  /** `Component::new_exposed` */
  function NewExposed(host: string, port: int): (c: Component)
    ensures Kinds(c) == 1 && c.exposed == Some(ExposedComponent(host, port))
  {
    Component(None, Some(ExposedComponent(host, port)), None)
  }

  /** `Component::new_chain` */
  function NewChain(from: Component, to: Component, place: seq<Place>): (c: Component)
    ensures Kinds(c) == 1 && c.chain == Some(ChainComponent(from, to, place))
  {
    Component(None, None, Some(ChainComponent(from, to, place)))
  }

  /** `ServiceSets::new` */
  function NewServiceSets(): (s: ServiceSets)
    ensures s.headers == map[] && s.path == "" && s.body == Str("")
  {
    ServiceSets(map[], "", Str(""))
  }

  /** `Service::new` */
  function NewService(server: string, port: U16, run: Option<ServiceRun>): (s: Service)
    ensures s.server == server && s.port == port && s.run == run
    ensures s.uses == [] && s.sets == NewServiceSets()
  {
    Service(server, port, [], NewServiceSets(), run)
  }

  // ---------------------------------------------------------------------
  // The routing trie

  /** `Node`: a routing trie node, keyed by path segment. Each node owns its
      children outright, so the tree is modelled as a value and an insertion
      returns the updated tree. */
  datatype Node = Node(next: map<string, Node>, value: Option<Component>)

  /** The node reached by following every segment of `parts`, if there is one. */
  function Follow(n: Node, parts: seq<string>): Option<Node>
    decreases |parts|
  {
    if parts == [] then Some(n)
    else if parts[0] in n.next then Follow(n.next[parts[0]], parts[1..])
    else None
  }

  /** The value stored at exactly `parts` (none when there is no such node). */
  function ValueAt(n: Node, parts: seq<string>): Option<Component> {
    match Follow(n, parts)
    case Some(m) => m.value
    case None => None
  }

  /** `Node::new`: no children and no value, so nothing is stored anywhere. */
  function NewNode(): (n: Node)
    ensures forall parts :: ValueAt(n, parts) == None
  {
    Node(map[], None)
  }

  /** `Node::insert`: the empty path sets this node's value; any other path
      goes on in the child for its first segment (created empty when
      missing) with the remaining segments joined again by "/". A non-empty
      path without segments, such as "/", would index an empty list. The
      result holds `v` at the path's segments and is unchanged everywhere else. */
  function Insert(n: Node, path: string, v: Option<Component>): (r: Node)
    requires path != "" ==> Text.SplitPath(path) != []
    ensures ValueAt(r, Text.SplitPath(path)) == v
    ensures forall q | q != Text.SplitPath(path) :: ValueAt(r, q) == ValueAt(n, q)
    ensures path == "" ==> r.next == n.next && r.value == v
    ensures path != "" ==>
      && r.value == n.value
      && r.next.Keys == n.next.Keys + {Text.SplitPath(path)[0]}
      && forall k | k in n.next && k != Text.SplitPath(path)[0] :: r.next[k] == n.next[k]
    decreases |Text.SplitPath(path)|
  {
    if path == "" then
      assert Text.Split("", '/') == [""];
      Node(n.next, v)
    else
      var parts := Text.SplitPath(path);
      var child := if parts[0] in n.next then n.next[parts[0]] else NewNode();
      Text.SplitPathRest(path);
      var rest := Text.Join(parts[1..], "/");
      var below := Insert(child, rest, v);
      InsertStep(n, parts, child, below, v);
      Node(n.next[parts[0] := below], n.value)
  }

  /** One level of `Insert`: the child under the first segment, updated
      below it, is put back. */
  lemma InsertStep(n: Node, parts: seq<string>, child: Node, below: Node, v: Option<Component>)
    requires parts != []
    requires child == if parts[0] in n.next then n.next[parts[0]] else NewNode()
    requires ValueAt(below, parts[1..]) == v
    requires forall q | q != parts[1..] :: ValueAt(below, q) == ValueAt(child, q)
    ensures var r := Node(n.next[parts[0] := below], n.value);
      && ValueAt(r, parts) == v
      && (forall q | q != parts :: ValueAt(r, q) == ValueAt(n, q))
      && r.next.Keys == n.next.Keys + {parts[0]}
      && forall k | k in n.next && k != parts[0] :: r.next[k] == n.next[k]
  {
    assert parts == [parts[0]] + parts[1..];
    InsertAbove(n, parts[0], child, below, parts[1..], v);
  }

  /** Replacing the child under `head` by one that differs from it only at
      `rest` makes the node differ from before only at `[head] + rest`. */
  lemma InsertAbove(n: Node, head: string, child: Node, below: Node, rest: seq<string>, v: Option<Component>)
    requires child == if head in n.next then n.next[head] else NewNode()
    requires ValueAt(below, rest) == v
    requires forall q | q != rest :: ValueAt(below, q) == ValueAt(child, q)
    ensures ValueAt(Node(n.next[head := below], n.value), [head] + rest) == v
    ensures forall q | q != [head] + rest :: ValueAt(Node(n.next[head := below], n.value), q) == ValueAt(n, q)
  {
    var r := Node(n.next[head := below], n.value);
    assert ([head] + rest)[1..] == rest;
    forall q | q != [head] + rest
      ensures ValueAt(r, q) == ValueAt(n, q)
    {
      if q != [] && q[0] == head {
        assert q == [head] + q[1..];
        assert ValueAt(below, q[1..]) == ValueAt(child, q[1..]);
      }
    }
  }
}
