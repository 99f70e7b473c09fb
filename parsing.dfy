/** The older gateway's configuration decoder (src/parsing.rs):
    `parse_component` walks a JSON component description recursively,
    files proxies and chains in the routing tree under their "uri", sets
    the root to the endpoint's address and registers services on the way. */
module Parsing {
  import opened Wrappers
  import opened Json
  import Text
  import opened Structs
  import opened Services

  datatype ParseError = ParseConfigError | FileNotFoundError | ParseFileError

  /** What `parse_component` changes in place: the routing tree and the
      service registry. `ids` counts the fresh ids handed to `add_service`
      so far; the uuid generator is the function `uuid`, given by the caller. */
  datatype Config = Config(tree: Node, services: map<string, Service>, ids: nat)

  /** A parse either panics (an `unwrap` or an indexing fails) or returns
      `Ok(Some(component))`, `Ok(None)` for an endpoint, or an error. */
  type Outcome = Run<Result<Option<Component>, ParseError>>

  /** The four ways a parse can end, in the order of `Outcome`'s cases. */
  datatype Verdict = Rejected | Aborted | Exposed | Routed

  function VerdictOf(r: Outcome): Verdict {
    match r
    case Panicked => Aborted
    case Done(Err(_)) => Rejected
    case Done(Ok(None)) => Exposed
    case Done(Ok(Some(_))) => Routed
  }

  /** A component a parse hands back: a proxy, or a chain of such components. */
  predicate Routable(c: Component)
    decreases c
  {
    && Kinds(c) == 1
    && c.exposed.None?
    && (c.chain.Some? ==> Routable(c.chain.value.from) && Routable(c.chain.value.to))
  }

  /** A path `Node::insert` accepts: the empty path, or one with a segment. */
  predicate Insertable(uri: string) {
    uri == "" || Text.SplitPath(uri) != []
  }

  // ---------------------------------------------------------------------
  // Place rules

  /** A place rule with objects of strings under "from" and "into". */
  predicate PlaceOk(el: Json) {
    && el.Obj?
    && "from" in el.fields && el.fields["from"].Obj? && StringValued(el.fields["from"].fields)
    && "into" in el.fields && el.fields["into"].Obj? && StringValued(el.fields["into"].fields)
  }

  /** One place rule, its two key maps copied; none where an `unwrap` would fail. */
  function PlaceOf(el: Json): (r: Option<Place>)
    ensures r.Some? <==> PlaceOk(el)
    ensures r.Some? ==>
      && r.value.from.Keys == el.fields["from"].fields.Keys
      && (forall k | k in r.value.from :: el.fields["from"].fields[k] == Str(r.value.from[k]))
      && r.value.into.Keys == el.fields["into"].fields.Keys
      && (forall k | k in r.value.into :: el.fields["into"].fields[k] == Str(r.value.into[k]))
  {
    if PlaceOk(el) then
      Some(NewPlace(StringMap(el.fields["from"].fields), StringMap(el.fields["into"].fields)))
    else None
  }

  /** The place rules of a list, in order; none if any of them is malformed. */
  function PlaceList(items: seq<Json>): (r: Option<seq<Place>>)
    ensures r.Some? <==> forall i | 0 <= i < |items| :: PlaceOf(items[i]).Some?
    ensures r.Some? ==> |r.value| == |items| && forall i | 0 <= i < |items| :: PlaceOf(items[i]) == Some(r.value[i])
  {
    if items == [] then Some([])
    else
      match (PlaceOf(items[0]), PlaceList(items[1..]))
      case (Some(p), Some(ps)) =>
        assert forall i | 1 <= i < |items| :: items[i] == items[1..][i - 1];
        Some([p] + ps)
      case (None, _) => None
      case (_, None) =>
        assert forall i | 0 <= i < |items| - 1 :: items[1..][i] == items[i + 1];
        None
  }

  /** A chain's "place": an array of place rules. */
  function Places(j: Json): Option<seq<Place>> {
    if j.Arr? then PlaceList(j.items) else None
  }

  // ---------------------------------------------------------------------
  // How each parse ends

  /** How a parse ends, judged from the description alone. */
  function Decide(decl: Json): Verdict
    decreases decl, 2
  {
    if !decl.Obj? || "type" !in decl.fields then Rejected
    else if !decl.fields["type"].Str? then Aborted
    else if decl.fields["type"].s == "proxy" then DecideProxy(decl.fields)
    else if decl.fields["type"].s == "chain" then DecideChain(decl)
    else if decl.fields["type"].s == "endpoint" then DecideEndpoint(decl)
    else Rejected
  }

  /** A present "uri" must be a string that `Node::insert` accepts. */
  function DecideUri(f: map<string, Json>): Verdict {
    if "uri" in f && !(f["uri"].Str? && Insertable(f["uri"].s)) then Aborted else Routed
  }

  function DecideProxy(f: map<string, Json>): Verdict {
    if "service" !in f then Rejected
    else if !f["service"].Str? && !Declares(f["service"]) then Aborted
    else DecideUri(f)
  }

  /** A sub-component that failed fails the chain; one that is an endpoint is rejected. */
  function Settle(v: Verdict): Verdict {
    if v == Exposed then Rejected else v
  }

  function DecideChain(decl: Json): Verdict
    requires decl.Obj?
    decreases decl, 1
  {
    var f := decl.fields;
    if "from" !in f then Rejected
    else if Decide(f["from"]) != Routed then Settle(Decide(f["from"]))
    else if "into" !in f then Rejected
    else if Decide(f["into"]) != Routed then Settle(Decide(f["into"]))
    else if "place" !in f then Rejected
    else if Places(f["place"]).None? then Aborted
    else DecideUri(f)
  }

  /** "exposed" is an object with a "host" and a "port". */
  predicate ExposedGiven(f: map<string, Json>) {
    "exposed" in f && f["exposed"].Obj? && "host" in f["exposed"].fields && "port" in f["exposed"].fields
  }

  /** ... and the host is a string and the port a 64-bit signed integer. */
  predicate ExposedOk(f: map<string, Json>) {
    && ExposedGiven(f)
    && f["exposed"].fields["host"].Str?
    && AsI64(f["exposed"].fields["port"]).Some?
  }

  /** The component an endpoint puts at the root of the tree. */
  function ExposedOf(f: map<string, Json>): (c: Component)
    requires ExposedOk(f)
    ensures c.exposed == Some(ExposedComponent(f["exposed"].fields["host"].s, f["exposed"].fields["port"].n))
  {
    NewExposed(f["exposed"].fields["host"].s, f["exposed"].fields["port"].n)
  }

  /** The endpoint's "requests" is an array. */
  predicate HasRequests(f: map<string, Json>) {
    "requests" in f && f["requests"].Arr?
  }

  function DecideEndpoint(decl: Json): Verdict
    requires decl.Obj?
    decreases decl, 1
  {
    var f := decl.fields;
    if !ExposedGiven(f) then Rejected
    else if !ExposedOk(f) then Aborted
    else if !HasRequests(f) then Rejected
    else if "services" in f && !f["services"].Arr? then Rejected
    else if "services" in f && exists i | 0 <= i < |f["services"].items| :: !Declares(f["services"].items[i]) then Aborted
    else DecideRequests(decl, 0)
  }

  /** The requests from the `i`-th on are parsed in order; the first failure ends the endpoint. */
  function DecideRequests(decl: Json, i: nat): Verdict
    requires decl.Obj? && HasRequests(decl.fields)
    decreases decl, 0, |decl.fields["requests"].items| - i
  {
    var reqs := decl.fields["requests"].items;
    if i >= |reqs| then Exposed
    else if Decide(reqs[i]) == Rejected || Decide(reqs[i]) == Aborted then Decide(reqs[i])
    else DecideRequests(decl, i + 1)
  }

  // ---------------------------------------------------------------------
  // What each parse changes

  /** The registry only gains names and the id supply only moves on. */
  predicate Grows(cfg: Config, cfg': Config) {
    cfg.services.Keys <= cfg'.services.Keys && cfg.ids <= cfg'.ids
  }

  /** A proxy names its service (registering it first when it is declared
      inline) and, with a "uri", is filed at that path. */
  predicate ProxyEffect(f: map<string, Json>, uuid: nat -> string, cfg: Config, r: Outcome, cfg': Config) {
    && ("service" !in f ==> cfg' == cfg)
    && (r.Done? && r.value.Ok? ==>
          && "service" in f
          && r.value.value.Some?
          && var c := r.value.value.value;
          && Kinds(c) == 1 && c.proxy.Some?
          && var name := c.proxy.value.serviceName;
          && (if f["service"].Str? then
                name == f["service"].s && cfg'.services == cfg.services && cfg'.ids == cfg.ids
              else
                Added(f["service"], cfg.services, uuid(cfg.ids), name, cfg'.services) && cfg'.ids == cfg.ids + 1)
          && (if "uri" in f then
                f["uri"].Str? && Insertable(f["uri"].s) && cfg'.tree == Insert(cfg.tree, f["uri"].s, Some(c))
              else cfg'.tree == cfg.tree))
  }

  /** A chain's component `c` is built from the components its "from" and
      "into" parse to, one after the other (the first from `cfg` to
      `afterFrom`, the second from there to `afterInto`), and its place
      rules; with a "uri" it is then filed at that path, and without one the
      tree is left as the parts left it. */
  ghost predicate ChainBuilt(decl: Json, cfg: Config, uuid: nat -> string, afterFrom: Config, afterInto: Config,
                       from: Component, to: Component, c: Component, cfg': Config)
    requires decl.Obj?
    decreases decl, 1
  {
    var f := decl.fields;
    && "from" in f && "into" in f && "place" in f && Places(f["place"]).Some?
    && Parsed(f["from"], cfg, uuid, Done(Ok(Some(from))), afterFrom)
    && Parsed(f["into"], afterFrom, uuid, Done(Ok(Some(to))), afterInto)
    && c == NewChain(from, to, Places(f["place"]).value)
    && cfg'.services == afterInto.services && cfg'.ids == afterInto.ids
    && (if "uri" in f then
          f["uri"].Str? && Insertable(f["uri"].s) && cfg'.tree == Insert(afterInto.tree, f["uri"].s, Some(c))
        else cfg'.tree == afterInto.tree)
  }

  /** A chain without "from" changes nothing; a chain that succeeds is built
      as `ChainBuilt` says. */
  ghost predicate ChainEffect(decl: Json, cfg: Config, uuid: nat -> string, r: Outcome, cfg': Config)
    requires decl.Obj?
    decreases decl, 2
  {
    && ("from" !in decl.fields ==> cfg' == cfg)
    && (r.Done? && r.value.Ok? ==>
          && r.value.value.Some?
          && exists afterFrom: Config, afterInto: Config, from: Component, to: Component ::
               ChainBuilt(decl, cfg, uuid, afterFrom, afterInto, from, to, r.value.value.value, cfg'))
  }

  /** One turn of the services loop: `add_service` files `decl` under its
      name with the next fresh id, the tree untouched. */
  predicate Filed(decl: Json, uuid: nat -> string, c: Config, c': Config) {
    && c'.tree == c.tree
    && c'.ids == c.ids + 1
    && Added(decl, c.services, uuid(c.ids), ServiceName(decl, uuid(c.ids)), c'.services)
  }

  /** `cs` is the run of configurations the services loop goes through:
      one `Filed` step per declaration, in order. */
  predicate ServicesFiled(decls: seq<Json>, uuid: nat -> string, cs: seq<Config>) {
    && |cs| == |decls| + 1
    && forall j | 0 <= j < |decls| :: Filed(decls[j], uuid, cs[j], cs[j + 1])
  }

  /** The requests loop went through the configurations `cs`: the `j`-th
      request parsed from `cs[j]` to `cs[j + 1]` with the successful
      outcome `rs[j]`. */
  ghost predicate RequestsParsed(decl: Json, uuid: nat -> string, cs: seq<Config>, rs: seq<Outcome>)
    requires decl.Obj? && HasRequests(decl.fields)
    decreases decl, 0
  {
    var reqs := decl.fields["requests"].items;
    && |rs| + 1 == |cs|
    && |rs| <= |reqs|
    && forall j | 0 <= j < |rs| :: rs[j].Done? && rs[j].value.Ok? && Parsed(reqs[j], cs[j], uuid, rs[j], cs[j + 1])
  }

  /** A successful endpoint: the root is set to its exposed address, the
      services are filed one after the other from there (`ds`), and every
      request is then parsed in order (`cs`, `rs`), ending in `cfg'`. */
  ghost predicate EndpointBuilt(decl: Json, cfg: Config, uuid: nat -> string,
                                ds: seq<Config>, cs: seq<Config>, rs: seq<Outcome>, cfg': Config)
    requires decl.Obj?
    decreases decl, 1
  {
    var f := decl.fields;
    && ExposedOk(f) && HasRequests(f)
    && var rooted := cfg.(tree := Node(cfg.tree.next, Some(ExposedOf(f))));
    && (if "services" in f then
          f["services"].Arr? && ServicesFiled(f["services"].items, uuid, ds) && ds[0] == rooted
        else ds == [rooted])
    && RequestsParsed(decl, uuid, cs, rs)
    && |rs| == |f["requests"].items|
    && cs[0] == ds[|ds| - 1] && cs[|cs| - 1] == cfg'
  }

  /** An endpoint sets the root's value before it looks at "requests", so a
      missing request list is rejected with the root already changed; every
      service it declares with a name is registered afterwards, and a
      successful endpoint is built as `EndpointBuilt` says. */
  ghost predicate EndpointEffect(decl: Json, cfg: Config, uuid: nat -> string, r: Outcome, cfg': Config)
    requires decl.Obj?
    decreases decl, 2
  {
    var f := decl.fields;
    && (!ExposedGiven(f) ==> cfg' == cfg)
    && (ExposedOk(f) && !HasRequests(f) ==>
          cfg' == Config(Node(cfg.tree.next, Some(ExposedOf(f))), cfg.services, cfg.ids))
    && (r.Done? && r.value.Ok? && "services" in f && f["services"].Arr? ==>
          forall i | 0 <= i < |f["services"].items| && Declares(f["services"].items[i]) && "name" in f["services"].items[i].fields ::
            f["services"].items[i].fields["name"].s in cfg'.services)
    && (r.Done? && r.value.Ok? ==>
          exists ds: seq<Config>, cs: seq<Config>, rs: seq<Outcome> :: EndpointBuilt(decl, cfg, uuid, ds, cs, rs, cfg'))
  }

  /** How `parse_component(decl, tree, services)` may end, from `cfg` to
      `cfg'`: as the description decides, a returned component is a proxy
      or a chain of them, the registry only gains names, descriptions
      rejected before dispatch change nothing, and each kind has the effect
      stated for its branch. */
  ghost predicate Parsed(decl: Json, cfg: Config, uuid: nat -> string, r: Outcome, cfg': Config)
    decreases decl, 3
  {
    && VerdictOf(r) == Decide(decl)
    && (r.Done? && r.value.Ok? && r.value.value.Some? ==> Routable(r.value.value.value))
    && Grows(cfg, cfg')
    && (!decl.Obj? || "type" !in decl.fields ==> cfg' == cfg)
    && (decl.Obj? && "type" in decl.fields && decl.fields["type"].Str? ==>
          var kind := decl.fields["type"].s;
          && (kind == "proxy" ==> ProxyEffect(decl.fields, uuid, cfg, r, cfg'))
          && (kind == "chain" ==> ChainEffect(decl, cfg, uuid, r, cfg'))
          && (kind == "endpoint" ==> EndpointEffect(decl, cfg, uuid, r, cfg'))
          && (kind !in {"proxy", "chain", "endpoint"} ==> cfg' == cfg))
  }

  // ---------------------------------------------------------------------
  // The decoder

  /** `parse_component(component, tree, services)`: the updated tree and
      registry are returned in `cfg'`. */
  method ParseComponent(decl: Json, cfg: Config, uuid: nat -> string) returns (r: Outcome, cfg': Config)
    ensures Parsed(decl, cfg, uuid, r, cfg')
    decreases decl, 2
  {
    cfg' := cfg;
    if !decl.Obj? || "type" !in decl.fields {
      return Done(Err(ParseConfigError)), cfg';
    }
    var f := decl.fields;
    if !f["type"].Str? {
      return Panicked, cfg';
    }
    var kind := f["type"].s;
    if kind == "proxy" {
      r, cfg' := ParseProxy(f, cfg, uuid);
    } else if kind == "chain" {
      r, cfg' := ParseChain(decl, cfg, uuid);
    } else if kind == "endpoint" {
      r, cfg' := ParseEndpoint(decl, cfg, uuid);
    } else {
      r := Done(Err(ParseConfigError));
    }
  }

  /** Files `c` at `uri` in the tree; a path `Node::insert` cannot take panics. */
  method FileAt(uri: Json, c: Component, cfg: Config) returns (ok: bool, cfg': Config)
    ensures ok <==> uri.Str? && Insertable(uri.s)
    ensures ok ==> cfg' == cfg.(tree := Insert(cfg.tree, uri.s, Some(c)))
    ensures !ok ==> cfg' == cfg
  {
    if !uri.Str? || !Insertable(uri.s) {
      return false, cfg;
    }
    return true, cfg.(tree := Insert(cfg.tree, uri.s, Some(c)));
  }

  /** The "proxy" arm. */
  method ParseProxy(f: map<string, Json>, cfg: Config, uuid: nat -> string) returns (r: Outcome, cfg': Config)
    ensures VerdictOf(r) == DecideProxy(f)
    ensures r.Done? && r.value.Ok? && r.value.value.Some? ==> Routable(r.value.value.value)
    ensures Grows(cfg, cfg')
    ensures ProxyEffect(f, uuid, cfg, r, cfg')
  {
    cfg' := cfg;
    if "service" !in f {
      return Done(Err(ParseConfigError)), cfg';
    }
    var name: string;
    if f["service"].Str? {
      name := f["service"].s;
    } else {
      var added, registry := AddService(f["service"], cfg.services, uuid(cfg.ids));
      if added.Panicked? {
        return Panicked, cfg';
      }
      name := added.value;
      cfg' := Config(cfg.tree, registry, cfg.ids + 1);
    }
    var c := NewProxy(name);
    if "uri" in f {
      var ok;
      ok, cfg' := FileAt(f["uri"], c, cfg');
      if !ok {
        return Panicked, cfg';
      }
    }
    return Done(Ok(Some(c))), cfg';
  }

  /** The "chain" arm: parse "from", then "into", then read the place rules. */
  method ParseChain(decl: Json, cfg: Config, uuid: nat -> string) returns (r: Outcome, cfg': Config)
    requires decl.Obj?
    ensures VerdictOf(r) == DecideChain(decl)
    ensures r.Done? && r.value.Ok? && r.value.value.Some? ==> Routable(r.value.value.value)
    ensures Grows(cfg, cfg')
    ensures ChainEffect(decl, cfg, uuid, r, cfg')
    decreases decl, 1
  {
    var f := decl.fields;
    cfg' := cfg;
    if "from" !in f {
      return Done(Err(ParseConfigError)), cfg';
    }
    var a;
    a, cfg' := ParsePart(f["from"], cfg', uuid);
    if !(a.Done? && a.value.Ok?) {
      return a, cfg';
    }
    var from := a.value.value.value;
    if "into" !in f {
      return Done(Err(ParseConfigError)), cfg';
    }
    ghost var afterFrom := cfg';
    var b;
    b, cfg' := ParsePart(f["into"], cfg', uuid);
    if !(b.Done? && b.value.Ok?) {
      return b, cfg';
    }
    var to := b.value.value.value;
    ghost var afterInto := cfg';
    r, cfg' := FinishChain(f, from, to, cfg');
    if r.Done? && r.value.Ok? {
      assert ChainBuilt(decl, cfg, uuid, afterFrom, afterInto, from, to, r.value.value.value, cfg');
    }
  }

  /** One part of a chain ("from" or "into"): it must parse to a component;
      a part that parses to an endpoint is a configuration error. */
  method ParsePart(part: Json, cfg: Config, uuid: nat -> string) returns (r: Outcome, cfg': Config)
    ensures VerdictOf(r) == Settle(Decide(part))
    ensures r.Done? && r.value.Ok? ==> r.value.value.Some? && Parsed(part, cfg, uuid, r, cfg')
    ensures Grows(cfg, cfg')
    decreases part, 3
  {
    r, cfg' := ParseComponent(part, cfg, uuid);
    if r.Done? && r.value.Ok? && r.value.value.None? {
      r := Done(Err(ParseConfigError));
    }
  }

  /** The end of the "chain" arm, once both parts are parsed: read the place
      rules, build the chain and file it at "uri" when there is one. */
  method FinishChain(f: map<string, Json>, from: Component, to: Component, cfg: Config) returns (r: Outcome, cfg': Config)
    requires Routable(from) && Routable(to)
    ensures VerdictOf(r) == if "place" !in f then Rejected else if Places(f["place"]).None? then Aborted else DecideUri(f)
    ensures r.Done? && r.value.Ok? ==>
      && "place" in f && Places(f["place"]).Some?
      && r.value.value == Some(NewChain(from, to, Places(f["place"]).value))
      && Routable(r.value.value.value)
      && ("uri" in f ==> f["uri"].Str? && Insertable(f["uri"].s))
      && cfg' == cfg.(tree := if "uri" in f then Insert(cfg.tree, f["uri"].s, r.value.value) else cfg.tree)
    ensures !(r.Done? && r.value.Ok?) ==> cfg' == cfg
  {
    cfg' := cfg;
    if "place" !in f {
      return Done(Err(ParseConfigError)), cfg';
    }
    var place := Places(f["place"]);
    if place.None? {
      return Panicked, cfg';
    }
    var c := NewChain(from, to, place.value);
    if "uri" in f {
      var ok;
      ok, cfg' := FileAt(f["uri"], c, cfg');
      if !ok {
        return Panicked, cfg;
      }
    }
    return Done(Ok(Some(c))), cfg';
  }

  /** After filing `c` at `uri`, the tree holds `c` at the path's segments. */
  lemma InsertThenValueAt(t: Node, uri: string, c: Component)
    requires Insertable(uri)
    ensures ValueAt(Insert(t, uri, Some(c)), Text.SplitPath(uri)) == Some(c)
  {
  }

  /** The names the first `n` declarations are filed under, fresh ids drawn from `first` on. */
  function NamesOf(decls: seq<Json>, uuid: nat -> string, first: nat, n: nat): set<string>
    requires n <= |decls|
  {
    if n == 0 then {} else NamesOf(decls, uuid, first, n - 1) + {ServiceName(decls[n - 1], uuid(first + n - 1))}
  }

  /** Each of the first `n` names is among them. */
  lemma {:induction false} NamesOfHolds(decls: seq<Json>, uuid: nat -> string, first: nat, n: nat, i: nat)
    requires i < n <= |decls|
    ensures ServiceName(decls[i], uuid(first + i)) in NamesOf(decls, uuid, first, n)
    decreases n
  {
    if i < n - 1 {
      NamesOfHolds(decls, uuid, first, n - 1, i);
    }
  }

  /** What one turn of the services loop does to the tree, the ids and the
      registry's names. */
  predicate KeysGrow(decl: Json, uuid: nat -> string, c: Config, c': Config) {
    && c'.tree == c.tree && c'.ids == c.ids + 1
    && c'.services.Keys == c.services.Keys + {ServiceName(decl, uuid(c.ids))}
  }

  /** Filing the declarations one by one adds exactly their names to the
      registry, leaves the tree alone and takes one fresh id each. */
  lemma FiledKeys(decls: seq<Json>, uuid: nat -> string, ds: seq<Config>)
    requires ServicesFiled(decls, uuid, ds)
    ensures ds[|decls|].tree == ds[0].tree && ds[|decls|].ids == ds[0].ids + |decls|
    ensures ds[|decls|].services.Keys == ds[0].services.Keys + NamesOf(decls, uuid, ds[0].ids, |decls|)
  {
    forall j | 0 <= j < |decls|
      ensures KeysGrow(decls[j], uuid, ds[j], ds[j + 1])
    {
      assert Filed(decls[j], uuid, ds[j], ds[j + 1]);
    }
    KeysAdd(decls, uuid, ds, |decls|);
  }

  /** The names that the first `n` turns add, by induction on `n`. */
  lemma {:induction false} KeysAdd(decls: seq<Json>, uuid: nat -> string, ds: seq<Config>, n: nat)
    requires n <= |decls| < |ds|
    requires forall j | 0 <= j < n :: KeysGrow(decls[j], uuid, ds[j], ds[j + 1])
    ensures ds[n].tree == ds[0].tree && ds[n].ids == ds[0].ids + n
    ensures ds[n].services.Keys == ds[0].services.Keys + NamesOf(decls, uuid, ds[0].ids, n)
    decreases n
  {
    if n > 0 {
      KeysAdd(decls, uuid, ds, n - 1);
      assert KeysGrow(decls[n - 1], uuid, ds[n - 1], ds[n]);
      assert ds[n - 1].ids == ds[0].ids + (n - 1);
    }
  }

  /** `for service_component in service_components { add_service(...) }`;
      `ds` is the run of configurations the loop goes through. */
  method RegisterServices(decls: seq<Json>, cfg: Config, uuid: nat -> string) returns (ok: bool, cfg': Config, ghost ds: seq<Config>)
    ensures ok <==> forall i | 0 <= i < |decls| :: Declares(decls[i])
    ensures ok ==>
      && cfg'.tree == cfg.tree
      && cfg'.ids == cfg.ids + |decls|
      && cfg'.services.Keys == cfg.services.Keys + NamesOf(decls, uuid, cfg.ids, |decls|)
      && ServicesFiled(decls, uuid, ds) && ds[0] == cfg && ds[|decls|] == cfg'
    ensures Grows(cfg, cfg')
  {
    cfg' := cfg;
    ds := [cfg];
    var i := 0;
    while i < |decls|
      invariant 0 <= i <= |decls|
      invariant forall j | 0 <= j < i :: Declares(decls[j])
      invariant ServicesFiled(decls[..i], uuid, ds) && ds[0] == cfg && ds[i] == cfg'
      invariant Grows(cfg, cfg')
    {
      var added, next := Register(decls[i], cfg', uuid);
      if !added {
        return false, cfg', ds;
      }
      FiledExtend(decls, i, uuid, ds, next);
      cfg', ds := next, ds + [next];
      i := i + 1;
    }
    assert decls[..i] == decls;
    FiledKeys(decls, uuid, ds);
    return true, cfg', ds;
  }

  /** A run of filed declarations extends by one more `Filed` step. */
  lemma FiledExtend(decls: seq<Json>, i: nat, uuid: nat -> string, ds: seq<Config>, next: Config)
    requires i < |decls|
    requires ServicesFiled(decls[..i], uuid, ds)
    requires Filed(decls[i], uuid, ds[i], next)
    ensures ServicesFiled(decls[..i + 1], uuid, ds + [next])
  {
    var ds' := ds + [next];
    forall j | 0 <= j < i + 1
      ensures Filed(decls[..i + 1][j], uuid, ds'[j], ds'[j + 1])
    {
      if j < i {
        assert decls[..i + 1][j] == decls[..i][j];
        assert ds'[j] == ds[j] && ds'[j + 1] == ds[j + 1];
      }
    }
  }

  /** One turn of the services loop: `add_service` files the declared
      service under its name with the next fresh id, overwriting that entry
      and keeping all others. */
  method Register(decl: Json, cfg: Config, uuid: nat -> string) returns (ok: bool, cfg': Config)
    ensures ok <==> Declares(decl)
    ensures ok ==> cfg'.services.Keys == cfg.services.Keys + {ServiceName(decl, uuid(cfg.ids))}
    ensures ok ==> Filed(decl, uuid, cfg, cfg')
    ensures !ok ==> cfg' == cfg
  {
    var name, registry := AddService(decl, cfg.services, uuid(cfg.ids));
    ok := name.Done?;
    cfg' := if ok then Config(cfg.tree, registry, cfg.ids + 1) else cfg;
  }

  /** The "endpoint" arm: set the root, check "requests", register the
      services, then parse every request in order. */
  method ParseEndpoint(decl: Json, cfg: Config, uuid: nat -> string) returns (r: Outcome, cfg': Config)
    requires decl.Obj?
    ensures VerdictOf(r) == DecideEndpoint(decl)
    ensures r.Done? && r.value.Ok? ==> r.value.value.None?
    ensures Grows(cfg, cfg')
    ensures EndpointEffect(decl, cfg, uuid, r, cfg')
    decreases decl, 1
  {
    var f := decl.fields;
    cfg' := cfg;
    if !ExposedGiven(f) {
      return Done(Err(ParseConfigError)), cfg';
    }
    if !ExposedOk(f) {
      return Panicked, cfg';
    }
    cfg' := cfg'.(tree := Node(cfg'.tree.next, Some(ExposedOf(f))));
    if !HasRequests(f) {
      return Done(Err(ParseConfigError)), cfg';
    }
    ghost var ds := [cfg'];
    if "services" in f {
      if !f["services"].Arr? {
        return Done(Err(ParseConfigError)), cfg';
      }
      var ok;
      var first := cfg'.ids;
      ok, cfg', ds := RegisterServices(f["services"].items, cfg', uuid);
      if !ok {
        return Panicked, cfg';
      }
      NamedServicesRegistered(f["services"].items, uuid, first, cfg'.services.Keys);
    }
    ghost var cs, rs;
    r, cfg', cs, rs := ParseRequests(decl, cfg', uuid);
    if r.Done? && r.value.Ok? {
      assert EndpointBuilt(decl, cfg, uuid, ds, cs, rs, cfg');
    }
  }

  /** The "requests" loop of the "endpoint" arm: each request is parsed in
      order and the first error or panic ends the loop. `cs` and `rs` are
      the configurations and outcomes of the requests that succeeded. */
  method ParseRequests(decl: Json, cfg: Config, uuid: nat -> string)
    returns (r: Outcome, cfg': Config, ghost cs: seq<Config>, ghost rs: seq<Outcome>)
    requires decl.Obj? && HasRequests(decl.fields)
    ensures VerdictOf(r) == DecideRequests(decl, 0)
    ensures r.Done? && r.value.Ok? ==> r.value.value.None?
    ensures Grows(cfg, cfg')
    ensures RequestsParsed(decl, uuid, cs, rs) && cs[0] == cfg
    ensures r.Done? && r.value.Ok? ==> |rs| == |decl.fields["requests"].items| && cs[|rs|] == cfg'
    ensures !(r.Done? && r.value.Ok?) ==>
      |rs| < |decl.fields["requests"].items| && Parsed(decl.fields["requests"].items[|rs|], cs[|rs|], uuid, r, cfg')
    decreases decl, 0
  {
    var reqs := decl.fields["requests"].items;
    cfg' := cfg;
    cs, rs := [cfg], [];
    var i := 0;
    while i < |reqs|
      invariant 0 <= i <= |reqs|
      invariant DecideRequests(decl, i) == DecideRequests(decl, 0)
      invariant Grows(cfg, cfg')
      invariant RequestsParsed(decl, uuid, cs, rs)
      invariant |rs| == i && cs[0] == cfg && cs[i] == cfg'
      decreases |reqs| - i
    {
      var q;
      ghost var before := cfg';
      q, cfg' := ParseComponent(reqs[i], cfg', uuid);
      if q.Panicked? || q.value.Err? {
        return q, cfg', cs, rs;
      }
      rs, cs := rs + [q], cs + [cfg'];
      assert Parsed(reqs[i], cs[i], uuid, rs[i], cs[i + 1]);
      i := i + 1;
    }
    return Done(Ok(None)), cfg', cs, rs;
  }

  /** Every declaration that carries its own name is registered under it. */
  lemma NamedServicesRegistered(decls: seq<Json>, uuid: nat -> string, first: nat, keys: set<string>)
    requires forall i | 0 <= i < |decls| :: Declares(decls[i])
    requires NamesOf(decls, uuid, first, |decls|) <= keys
    ensures forall i | 0 <= i < |decls| && Declares(decls[i]) && "name" in decls[i].fields :: decls[i].fields["name"].s in keys
  {
    forall i | 0 <= i < |decls| && Declares(decls[i]) && "name" in decls[i].fields
      ensures decls[i].fields["name"].s in keys
    {
      NamesOfHolds(decls, uuid, first, |decls|, i);
    }
  }
}
