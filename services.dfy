/** The older gateway's service registry (src/services.rs): `add_service`
    turns a JSON service declaration into a `Service` and files it under
    its name. */
module Services {
  import opened Wrappers
  import opened Json
  import Text
  import opened Structs

  /** `k` is the last of `keys` in the order a `serde_json::Map` keeps them
      (ascending byte order, the same as code-point order). */
  predicate IsLast(k: string, keys: set<string>) {
    k in keys && forall x | x in keys && x != k :: Text.StrLess(x, k)
  }

  /** At most one key is last. */
  lemma LastIsUnique(k: string, k': string, keys: set<string>)
    requires IsLast(k, keys) && IsLast(k', keys)
    ensures k == k'
  {
    if k != k' {
      Text.StrLessAsymmetric(k, k');
    }
  }

  /** `map.keys().collect::<Vec<_>>().last()`: the greatest key, if any. */
  method LastKey(keys: set<string>) returns (last: Option<string>)
    ensures last.None? <==> keys == {}
    ensures last.Some? ==> IsLast(last.value, keys)
  {
    last := None;
    var todo := keys;
    while todo != {}
      invariant todo <= keys
      invariant last.None? <==> todo == keys
      invariant last.Some? ==> IsLast(last.value, keys - todo)
      decreases |todo|
    {
      var k :| k in todo;
      if last.None? {
        last := Some(k);
      } else if Text.StrLess(last.value, k) {
        forall x | x in keys - todo && x != last.value
          ensures Text.StrLess(x, k)
        {
          Text.StrLessTransitive(x, last.value, k);
        }
        last := Some(k);
      } else {
        Text.StrLessTotal(last.value, k);
      }
      todo := todo - {k};
    }
  }

  /** The "use" list is an array of strings. */
  predicate StringArray(j: Json) {
    j.Arr? && forall i | 0 <= i < |j.items| :: j.items[i].Str?
  }

  /** The "set" object has a string "url" and an object of strings "headers", when present. */
  predicate SetsOk(j: Json) {
    && j.Obj?
    && ("url" in j.fields ==> j.fields["url"].Str?)
    && ("headers" in j.fields ==> j.fields["headers"].Obj? && StringValued(j.fields["headers"].fields))
  }

  /** The "run" object's last entry, if any, is a string. */
  predicate RunOk(j: Json) {
    j.Obj? && forall k | k in j.fields && IsLast(k, j.fields.Keys) :: j.fields[k].Str?
  }

  /** A declaration `add_service` accepts without panicking: every `unwrap`
      and the `todo!()`s for a non-object and a missing server are passed. */
  predicate Declares(decl: Json) {
    && decl.Obj?
    && var f := decl.fields;
    && ("name" in f ==> f["name"].Str?)
    && "server" in f && f["server"].Str?
    && ("port" in f ==> AsU64(f["port"]).Some?)
    && ("run" in f ==> RunOk(f["run"]))
    && ("use" in f ==> StringArray(f["use"]))
    && ("set" in f ==> SetsOk(f["set"]))
  }

  /** `run` is the last entry of the declaration's "run" object, none when it is absent or empty. */
  predicate RunDeclared(f: map<string, Json>, run: Option<ServiceRun>) {
    && (run.Some? <==> "run" in f && f["run"].Obj? && f["run"].fields != map[])
    && (run.Some? ==>
          IsLast(run.value.way, f["run"].fields.Keys) && f["run"].fields[run.value.way] == Str(run.value.tag))
  }

  /** `uses` is the "use" list's strings in order, empty when it is absent. */
  predicate UsesDeclared(f: map<string, Json>, uses: seq<string>) {
    if "use" in f then
      f["use"].Arr? && |uses| == |f["use"].items| && forall i | 0 <= i < |uses| :: f["use"].items[i] == Str(uses[i])
    else uses == []
  }

  /** `sets` holds the "set" object's url, body and headers, each with its default when absent. */
  predicate SetsDeclared(f: map<string, Json>, sets: ServiceSets) {
    var given := if "set" in f && f["set"].Obj? then f["set"].fields else map[];
    && sets.path == (if "url" in given && given["url"].Str? then given["url"].s else "")
    && sets.body == (if "body" in given then given["body"] else Str(""))
    && (if "headers" in given && given["headers"].Obj? then
          && sets.headers.Keys == given["headers"].fields.Keys
          && forall k | k in sets.headers :: given["headers"].fields[k] == Str(sets.headers[k])
        else sets.headers == map[])
  }

  /** The "run" part of `add_service`: the last key of the object and its string. */
  method ReadRun(f: map<string, Json>) returns (run: Run<Option<ServiceRun>>)
    ensures run.Panicked? <==> "run" in f && !RunOk(f["run"])
    ensures run.Done? ==> RunDeclared(f, run.value)
  {
    var runObject: map<string, Json> := map[];
    if "run" in f {
      if !f["run"].Obj? {
        return Panicked;
      }
      runObject := f["run"].fields;
    }
    var way := LastKey(runObject.Keys);
    if way.None? {
      return Done(None);
    }
    if !runObject[way.value].Str? {
      return Panicked;
    }
    forall k | k in runObject && IsLast(k, runObject.Keys)
      ensures runObject[k].Str?
    {
      LastIsUnique(k, way.value, runObject.Keys);
    }
    return Done(Some(ServiceRun(way.value, runObject[way.value].s)));
  }

  /** The "use" part of `add_service`: the strings of the array, in order. */
  method ReadUses(f: map<string, Json>) returns (uses: Run<seq<string>>)
    ensures uses.Panicked? <==> "use" in f && !StringArray(f["use"])
    ensures uses.Done? ==> UsesDeclared(f, uses.value)
  {
    if "use" !in f {
      return Done([]);
    }
    if !f["use"].Arr? {
      return Panicked;
    }
    var items := f["use"].items;
    var acc: seq<string> := [];
    var i := 0;
    while i < |items|
      invariant 0 <= i <= |items| && |acc| == i
      invariant forall j | 0 <= j < i :: items[j] == Str(acc[j])
    {
      if !items[i].Str? {
        return Panicked;
      }
      acc := acc + [items[i].s];
      i := i + 1;
    }
    return Done(acc);
  }

  /** The "set" part of `add_service`: url, body and headers over the defaults of `ServiceSets::new`. */
  method ReadSets(f: map<string, Json>) returns (sets: Run<ServiceSets>)
    ensures sets.Panicked? <==> "set" in f && !SetsOk(f["set"])
    ensures sets.Done? ==> SetsDeclared(f, sets.value)
  {
    var given: map<string, Json> := map[];
    if "set" in f {
      if !f["set"].Obj? {
        return Panicked;
      }
      given := f["set"].fields;
    }
    var result := NewServiceSets();
    if "url" in given {
      if !given["url"].Str? {
        return Panicked;
      }
      result := result.(path := given["url"].s);
    }
    if "body" in given {
      result := result.(body := given["body"]);
    }
    if "headers" in given {
      if !given["headers"].Obj? || !StringValued(given["headers"].fields) {
        return Panicked;
      }
      result := result.(headers := StringMap(given["headers"].fields));
    }
    return Done(result);
  }

  /** The "server" and "port" part of `add_service`: "self" stands for the
      loopback address and the port defaults to 80. */
  method ReadAddress(f: map<string, Json>) returns (address: Run<(string, nat)>)
    ensures address.Panicked? <==> !("server" in f && f["server"].Str?) || ("port" in f && AsU64(f["port"]).None?)
    ensures address.Done? ==> address.value.0 == (if f["server"].s == "self" then "127.0.0.1" else f["server"].s)
    ensures address.Done? ==> address.value.1 == if "port" in f then f["port"].n else 80
  {
    if "server" !in f || !f["server"].Str? {
      return Panicked;
    }
    var server := if f["server"].s == "self" then "127.0.0.1" else f["server"].s;
    var port: nat := 80;
    if "port" in f {
      if AsU64(f["port"]).None? {
        return Panicked;
      }
      port := AsU64(f["port"]).value;
    }
    return Done((server, port));
  }

  /** The name `add_service` files a declaration under: its "name", else the fresh id. */
  function ServiceName(decl: Json, freshId: string): string {
    if decl.Obj? && "name" in decl.fields && decl.fields["name"].Str? then decl.fields["name"].s else freshId
  }

  /** `registry` is `services` with the service that `decl` declares filed under
      `name`, overwriting any earlier entry of that name and keeping every other. */
  predicate Added(decl: Json, services: map<string, Service>, freshId: string, name: string, registry: map<string, Service>) {
    && Declares(decl)
    && var f := decl.fields;
    && name == ServiceName(decl, freshId)
    && registry.Keys == services.Keys + {name}
    && (forall k | k in services && k != name :: registry[k] == services[k])
    && var s := registry[name];
    && s.server == (if f["server"].s == "self" then "127.0.0.1" else f["server"].s)
    && s.port == (if "port" in f then f["port"].n else 80) % Text.U16_LIMIT
    && RunDeclared(f, s.run)
    && UsesDeclared(f, s.uses)
    && SetsDeclared(f, s.sets)
  }

  /** `add_service(decl, services)`, with the fresh uuid handed in as
      `freshId`. It builds the service field by field, files it under the
      returned name and returns the updated registry. */
  method AddService(decl: Json, services: map<string, Service>, freshId: string)
    returns (name: Run<string>, registry: map<string, Service>)
    ensures name.Panicked? <==> !Declares(decl)
    ensures name.Panicked? ==> registry == services
    ensures name.Done? ==> registry.Keys == services.Keys + {ServiceName(decl, freshId)}
    ensures name.Done? ==> Added(decl, services, freshId, name.value, registry)
  {
    registry := services;
    if !decl.Obj? {
      return Panicked, registry;
    }
    var f := decl.fields;

    var serviceName: string;
    if "name" in f {
      if !f["name"].Str? {
        return Panicked, registry;
      }
      serviceName := f["name"].s;
    } else {
      serviceName := freshId;
    }

    var address := ReadAddress(f);
    if address.Panicked? {
      return Panicked, registry;
    }

    var run := ReadRun(f);
    if run.Panicked? {
      return Panicked, registry;
    }
    var service := NewService(address.value.0, address.value.1 % Text.U16_LIMIT, run.value);

    var uses := ReadUses(f);
    if uses.Panicked? {
      return Panicked, registry;
    }
    service := service.(uses := uses.value);

    var sets := ReadSets(f);
    if sets.Panicked? {
      return Panicked, registry;
    }
    service := service.(sets := sets.value);

    registry := services[serviceName := service];
    return Done(serviceName), registry;
  }
}
