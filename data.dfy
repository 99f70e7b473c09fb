/** The data of the newer gateway (src/structs/data.rs): the listening
    address, service declarations with their defaults, the global state and
    the routing trie over components. Components are trait objects there;
    here the trie is generic in the component type `C`. */
module Data {
  import opened Wrappers
  import opened Json
  import Text

  // ---------------------------------------------------------------------
  // The listening address

  datatype Exposed = Exposed(host: string, port: int)

  /** `Exposed::stringify`: `format!("{}:{}", host, port)`. */
  function Stringify(e: Exposed): string {
    e.host + ":" + Text.IntToString(e.port)
  }

  /** The address splits back at its last colon into the host and the port. */
  lemma StringifySplits(e: Exposed)
    requires Text.I64_MIN <= e.port <= Text.I64_MAX
    ensures var s := Stringify(e);
      && Text.RFind(s, ':') == Some(|e.host|)
      && s[..|e.host|] == e.host
      && Text.ParseI64(s[|e.host| + 1..]) == Some(e.port)
  {
    var s := Stringify(e);
    Text.IntToStringOneWord(e.port);
    Text.RFindLast(e.host, ':', Text.IntToString(e.port));
    assert s[|e.host| + 1..] == Text.IntToString(e.port);
    Text.ParseI64OfInt(e.port);
  }

  /** The field `key` of `value` is present but does not have the right type. */
  predicate Mistyped(value: Json, key: string, ok: Json -> bool) {
    Get(value, key).Some? && !ok(Get(value, key).value)
  }

  predicate IsStr(j: Json) {
    AsStr(j).Some?
  }

  predicate IsI64(j: Json) {
    AsI64(j).Some?
  }

  /** `Exposed::from_json`: starts from 0.0.0.0:3000 and overwrites the host
      and the port with the fields present; a present host that is not a
      string, or a present port that is not a 64-bit integer, is an error
      (checked in that order). A value that is not an object has no fields,
      so it gives the defaults. */
  method ExposedFromJson(value: Json) returns (r: Result<Exposed, string>)
    ensures r.Err? <==> Mistyped(value, "host", IsStr) || Mistyped(value, "port", IsI64)
    ensures r.Err? ==> r.error == if Mistyped(value, "host", IsStr) then "Host must be string" else "Port must be string"
    ensures r.Ok? ==> r.value.host == if "host" in AsObjectOrEmpty(value) then value.fields["host"].s else "0.0.0.0"
    ensures r.Ok? ==> r.value.port == if "port" in AsObjectOrEmpty(value) then value.fields["port"].n else 3000
  {
    var result := Exposed("0.0.0.0", 3000);
    var host := Get(value, "host");
    if host.Some? {
      if AsStr(host.value).Some? {
        result := result.(host := AsStr(host.value).value);
      } else {
        return Err("Host must be string");
      }
    }
    var port := Get(value, "port");
    if port.Some? {
      if AsI64(port.value).Some? {
        result := result.(port := AsI64(port.value).value);
      } else {
        return Err("Port must be string");
      }
    }
    return Ok(result);
  }

  /** The fields of an object; none for any other value. */
  function AsObjectOrEmpty(value: Json): map<string, Json> {
    if value.Obj? then value.fields else map[]
  }

  // ---------------------------------------------------------------------
  // Services

  datatype Service = Service(host: string, port: int)

  /** `Service::from_val`: an object whose "host" is a string (default
      "localhost") and whose "port" is a 64-bit integer (default 3000). */
  function ServiceFromVal(val: Json): (r: Result<Service, string>)
    ensures !val.Obj? ==> r == Err("Service must be an object")
    ensures val.Obj? && "host" in val.fields && !val.fields["host"].Str? ==> r == Err("Service host must be type of string")
    ensures r.Err? <==> !val.Obj? || Mistyped(val, "host", IsStr) || Mistyped(val, "port", IsI64)
    ensures r.Ok? ==>
      && ("host" in val.fields ==> val.fields["host"] == Str(r.value.host))
      && ("host" !in val.fields ==> r.value.host == "localhost")
      && ("port" in val.fields ==> val.fields["port"] == Num(r.value.port))
      && ("port" !in val.fields ==> r.value.port == 3000)
  {
    match AsObject(val)
    case None => Err("Service must be an object")
    case Some(data) =>
      var host :=
        match Get(val, "host")
        case Some(h) => (match AsStr(h) case Some(s) => Ok(s) case None => Err("Service host must be type of string"))
        case None => Ok("localhost");
      if host.Err? then Err(host.error)
      else
        var port :=
          match Get(val, "port")
          case Some(p) => (match AsI64(p) case Some(n) => Ok(n) case None => Err("Service port must be type of number"))
          case None => Ok(3000);
        if port.Err? then Err(port.error)
        else Ok(Service(host.value, port.value))
  }

  // ---------------------------------------------------------------------
  // The global state

  datatype GlobalState = GlobalState(services: map<string, Service>, exposed: Option<Exposed>)

  /** `GlobalState::blank`: no services and no address. */
  function Blank(): (g: GlobalState)
    ensures g.services == map[] && g.exposed == None
  {
    GlobalState(map[], None)
  }

  /** `GlobalState::empty`: the same state as `blank`. */
  function Empty(): (g: GlobalState)
    ensures g == Blank()
  {
    GlobalState(map[], None)
  }

  // ---------------------------------------------------------------------
  // The routing trie

  /** `Node`: a trie node keyed by path segment; each node owns its children,
      so the tree is a value and an insertion returns the updated tree. */
  datatype Node<C> = Node(next: map<string, Node<C>>, value: Option<C>)

  /** The node reached by following every segment of `parts`, if there is one. */
  function Follow<C>(n: Node<C>, parts: seq<string>): Option<Node<C>>
    decreases |parts|
  {
    if parts == [] then Some(n)
    else if parts[0] in n.next then Follow(n.next[parts[0]], parts[1..])
    else None
  }

  /** The value stored at exactly `parts`. */
  function ValueAt<C>(n: Node<C>, parts: seq<string>): Option<C> {
    match Follow(n, parts)
    case Some(m) => m.value
    case None => None
  }

  /** `Node::new`: nothing is stored anywhere. */
  function NewNode<C>(): (n: Node<C>)
    ensures forall parts :: ValueAt(n, parts) == None
    ensures n.next == map[]
  {
    Node(map[], None)
  }

  /** `Node::raw_insert`: the empty list sets this node's value; otherwise the
      rest of the list goes into the child for the first segment, created
      empty when missing. Afterwards `c` is stored at `parts` and every other
      path holds what it held before. */
  function RawInsert<C>(n: Node<C>, parts: seq<string>, c: C): (r: Node<C>)
    ensures ValueAt(r, parts) == Some(c)
    ensures forall q | q != parts :: ValueAt(r, q) == ValueAt(n, q)
    ensures parts == [] ==> r.next == n.next
    ensures parts != [] ==> r.value == n.value && r.next.Keys == n.next.Keys + {parts[0]}
    decreases |parts|
  {
    if parts == [] then Node(n.next, Some(c))
    else
      var child := if parts[0] in n.next then n.next[parts[0]] else NewNode();
      var below := RawInsert(child, parts[1..], c);
      InsertAbove(n, parts[0], child, below, parts[1..], Some(c));
      assert parts == [parts[0]] + parts[1..];
      Node(n.next[parts[0] := below], n.value)
  }

  /** Replacing the child under `head` by one that differs from it only at
      `rest` makes the node differ from before only at `[head] + rest`. */
  lemma InsertAbove<C>(n: Node<C>, head: string, child: Node<C>, below: Node<C>, rest: seq<string>, v: Option<C>)
    requires child == if head in n.next then n.next[head] else NewNode()
    requires ValueAt(below, rest) == v
    requires forall q | q != rest :: ValueAt(below, q) == ValueAt(child, q)
    ensures ValueAt(Node(n.next[head := below], n.value), [head] + rest) == v
    ensures forall q | q != [head] + rest :: ValueAt(Node(n.next[head := below], n.value), q) == ValueAt(n, q)
  {
    var r := Node(n.next[head := below], n.value);
    assert ([head] + rest)[1..] == rest;
    forall q | q != [head] + rest
      ensures ValueAt(r, q) == ValueAt(n, q)
    {
      if q != [] && q[0] == head {
        assert q == [head] + q[1..];
        assert ValueAt(below, q[1..]) == ValueAt(child, q[1..]);
      }
    }
  }

  /** `Node::insert`: the path's non-empty segments. */
  function Insert<C>(n: Node<C>, path: string, c: C): (r: Node<C>)
    ensures ValueAt(r, Text.SplitPath(path)) == Some(c)
    ensures forall q | q != Text.SplitPath(path) :: ValueAt(r, q) == ValueAt(n, q)
  {
    RawInsert(n, Text.SplitPath(path), c)
  }

  /** How many leading segments of `parts` have a child to follow. */
  function MatchDepth<C>(n: Node<C>, parts: seq<string>): (k: nat)
    ensures k <= |parts|
    decreases |parts|
  {
    if parts == [] || parts[0] !in n.next then 0 else 1 + MatchDepth(n.next[parts[0]], parts[1..])
  }

  /** `Node::raw_search`: follows segments while a child matches and stops
      at the first that has none, returning the node reached and the
      segments not consumed, joined by "/". */
  function RawSearch<C>(n: Node<C>, parts: seq<string>): (r: (Node<C>, string))
    ensures var k := MatchDepth(n, parts);
      && Follow(n, parts[..k]) == Some(r.0)
      && (k < |parts| ==> parts[k] !in r.0.next)
      && r.1 == Text.Join(parts[k..], "/")
    decreases |parts|
  {
    if parts == [] then (n, "")
    else if parts[0] in n.next then
      var r := RawSearch(n.next[parts[0]], parts[1..]);
      ghost var k := MatchDepth(n.next[parts[0]], parts[1..]);
      assert parts[..k + 1] == [parts[0]] + parts[1..][..k];
      assert parts[k + 1..] == parts[1..][k..];
      r
    else
      assert parts[..0] == [] && parts[0..] == parts;
      (n, Text.Join(parts, "/"))
  }

  /** `Node::search`: the search over the path's non-empty segments. */
  function Search<C>(n: Node<C>, path: string): (r: (Node<C>, string))
    ensures var parts := Text.SplitPath(path);
      var k := MatchDepth(n, parts);
      && Follow(n, parts[..k]) == Some(r.0)
      && (k < |parts| ==> parts[k] !in r.0.next)
      && Text.SplitPath(r.1) == parts[k..]
  {
    var parts := Text.SplitPath(path);
    Text.SplitPathSegments(path);
    var k := MatchDepth(n, parts);
    assert Text.Segments(parts[k..]);
    Text.SplitPathJoin(parts[k..]);
    RawSearch(n, parts)
  }

  /** The depth the search stops at is the longest prefix that can be
      followed: one more segment cannot be. */
  lemma {:induction false} MatchDepthIsLongest<C>(n: Node<C>, parts: seq<string>)
    ensures Follow(n, parts[..MatchDepth(n, parts)]).Some?
    ensures forall j | MatchDepth(n, parts) < j <= |parts| :: Follow(n, parts[..j]).None?
    decreases |parts|
  {
    if parts != [] && parts[0] in n.next {
      var child := n.next[parts[0]];
      MatchDepthIsLongest(child, parts[1..]);
      var k := MatchDepth(child, parts[1..]);
      assert parts[..k + 1][1..] == parts[1..][..k];
      forall j | k + 1 < j <= |parts|
        ensures Follow(n, parts[..j]).None?
      {
        assert parts[..j][1..] == parts[1..][..j - 1];
      }
    } else if parts != [] {
      forall j | 0 < j <= |parts|
        ensures Follow(n, parts[..j]).None?
      {
        assert parts[..j][0] == parts[0];
      }
    }
  }

  /** A path that can be followed all the way is matched all the way. */
  lemma {:induction false} FollowedFully<C>(n: Node<C>, parts: seq<string>)
    requires Follow(n, parts).Some?
    ensures MatchDepth(n, parts) == |parts|
    decreases |parts|
  {
    if parts != [] {
      FollowedFully(n.next[parts[0]], parts[1..]);
    }
  }

  /** After `insert(p, c)`, `search(p)` finds the node holding `c` with
      nothing left over. */
  lemma InsertThenSearch<C>(n: Node<C>, path: string, c: C)
    ensures Search(Insert(n, path, c), path).0.value == Some(c)
    ensures Search(Insert(n, path, c), path).1 == ""
  {
    var parts := Text.SplitPath(path);
    var t := Insert(n, path, c);
    assert Follow(t, parts).Some?;
    FollowedFully(t, parts);
    assert parts[..|parts|] == parts;
  }

  /** A path without non-empty segments, such as "" or "/", sets the root's
      value and keeps its children. */
  lemma InsertWithoutSegments<C>(n: Node<C>, path: string, c: C)
    requires Text.SplitPath(path) == []
    ensures Insert(n, path, c) == Node(n.next, Some(c))
  {
  }

  lemma RootPaths()
    ensures Text.SplitPath("") == []
    ensures Text.SplitPath("/") == []
  {
    assert Text.Split("", '/') == [""];
    assert "/"[1..] == "";
    assert Text.Split("/", '/') == ["", ""];
  }

  /** With a route at /a/b, a request for /a/b/c/d ends at that route with
      the remainder "c/d". */
  lemma SearchExample<C>(c: C)
    ensures var t := RawInsert(NewNode(), ["a", "b"], c);
      var r := RawSearch(t, ["a", "b", "c", "d"]);
      r.0.value == Some(c) && r.1 == "c/d"
  {
    var t := RawInsert(NewNode(), ["a", "b"], c);
    assert ["a", "b"][1..] == ["b"] && ["b"][1..] == [];
    var b := t.next["a"].next["b"];
    assert b.next == map[];
    assert ["a", "b", "c", "d"][1..] == ["b", "c", "d"] && ["b", "c", "d"][1..] == ["c", "d"];
    assert RawSearch(b, ["c", "d"]) == (b, Text.Join(["c", "d"], "/"));
    assert ["c", "d"][1..] == ["d"];
  }
}
