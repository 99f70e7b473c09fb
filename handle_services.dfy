/** Request handling of the older gateway (src/handle_services.rs): the
    upstream address of a service, the rewriting of a proxied request, the
    structural merge of JSON bodies, the dotted path lookup into a JSON
    value, the evaluation of chains and the walk down the routing tree.
    Sockets are not modelled: the functions of `crate::http` and the
    exchange with the upstream server are handed in as an `Io` value. */
module HandleServices {
  import opened Wrappers
  import opened Json
  import Text
  import opened Structs

  // ---------------------------------------------------------------------
  // The upstream address

  /** `build_request_url`: server, a colon, and the port in decimal. */
  function BuildRequestUrl(service: Service): string {
    service.server + ":" + Text.NatToString(service.port)
  }

  /** The address splits back at its last colon into the server and the port. */
  lemma BuildRequestUrlSplits(service: Service)
    ensures var url := BuildRequestUrl(service);
      && Text.RFind(url, ':') == Some(|service.server|)
      && url[..|service.server|] == service.server
      && Text.ParseUnsigned(url[|service.server| + 1..], Text.U16_LIMIT - 1) == Some(service.port)
  {
    var url := BuildRequestUrl(service);
    Text.NatToStringOneWord(service.port);
    Text.RFindLast(service.server, ':', Text.NatToString(service.port));
    assert url[|service.server| + 1..] == Text.NatToString(service.port);
    Text.ParseUnsignedOfNat(service.port, Text.U16_LIMIT - 1);
  }

  // ---------------------------------------------------------------------
  // Structural merge

  /** The value `merge_body(a, b)` computes: two objects merge key by key,
      recursing on shared keys; two arrays concatenate; otherwise `a`. */
  function Merged(a: Json, b: Json): (r: Json)
    ensures a.Obj? <==> r.Obj?
    ensures a.Arr? <==> r.Arr?
    ensures !a.Obj? && !a.Arr? ==> r == a
    decreases a
  {
    if a.Obj? && b.Obj? then
      Obj(map k | k in a.fields.Keys + b.fields.Keys ::
        if k in a.fields && k in b.fields then Merged(a.fields[k], b.fields[k])
        else if k in a.fields then a.fields[k]
        else b.fields[k])
    else if a.Arr? && b.Arr? then Arr(a.items + b.items)
    else a
  }

  /** `merge_body(a, b)`: copies `a` and inserts `b`'s entries one by one,
      or pushes `b`'s elements one by one. */
  method MergeBody(a: Json, b: Json) returns (r: Json)
    ensures r == Merged(a, b)
    decreases a, 1
  {
    if a.Obj? && b.Obj? {
      var merged := MergeFields(a, b);
      r := Obj(merged);
    } else if a.Arr? && b.Arr? {
      var merged := a.items;
      var i := 0;
      while i < |b.items|
        invariant 0 <= i <= |b.items|
        invariant merged == a.items + b.items[..i]
      {
        merged := merged + [b.items[i]];
        i := i + 1;
      }
      assert b.items[..i] == b.items;
      r := Arr(merged);
    } else {
      r := a;
    }
  }

  /** The object case of `merge_body`: the loop over `b`'s entries. */
  method MergeFields(a: Json, b: Json) returns (merged: map<string, Json>)
    requires a.Obj? && b.Obj?
    ensures merged == Merged(a, b).fields
    decreases a, 0
  {
    ghost var target := Merged(a, b).fields;
    merged := a.fields;
    var todo := b.fields.Keys;
    while todo != {}
      invariant todo <= b.fields.Keys
      invariant forall k :: k in merged <==> k in a.fields || (k in b.fields && k !in todo)
      invariant forall k | k in merged :: merged[k] == if k in b.fields && k !in todo then target[k] else a.fields[k]
      decreases |todo|
    {
      var key :| key in todo;
      if key in merged {
        var m := MergeBody(merged[key], b.fields[key]);
        merged := merged[key := m];
      } else {
        merged := merged[key := b.fields[key]];
      }
      todo := todo - {key};
    }
    assert forall k :: k in merged <==> k in target;
  }

  /** `x` survives inside `y`: every key of an object, every element of an
      array (as a prefix), every other value exactly. */
  predicate Within(x: Json, y: Json)
    decreases x
  {
    if x.Obj? then
      y.Obj? && x.fields.Keys <= y.fields.Keys && forall k | k in x.fields :: Within(x.fields[k], y.fields[k])
    else if x.Arr? then y.Arr? && x.items <= y.items
    else x == y
  }

  lemma {:induction false} WithinItself(x: Json)
    ensures Within(x, x)
    decreases x
  {
    if x.Obj? {
      forall k | k in x.fields
        ensures Within(x.fields[k], x.fields[k])
      {
        WithinItself(x.fields[k]);
      }
    }
  }

  /** Merging never loses anything of the left-hand value. */
  lemma {:induction false} MergeKeepsLeft(a: Json, b: Json)
    ensures Within(a, Merged(a, b))
    decreases a
  {
    if a.Obj? && b.Obj? {
      var r := Merged(a, b);
      forall k | k in a.fields
        ensures Within(a.fields[k], r.fields[k])
      {
        if k in b.fields {
          MergeKeepsLeft(a.fields[k], b.fields[k]);
        } else {
          WithinItself(a.fields[k]);
        }
      }
    } else {
      WithinItself(a);
    }
  }

  /** Every key of the right-hand object is present afterwards, with its own
      value where the left-hand object lacks it. */
  lemma MergeTakesRightKeys(a: Json, b: Json)
    requires a.Obj? && b.Obj?
    ensures b.fields.Keys <= Merged(a, b).fields.Keys
    ensures forall k | k in b.fields && k !in a.fields :: Merged(a, b).fields[k] == b.fields[k]
  {
  }

  /** A value without arrays. */
  predicate ArrayFree(j: Json)
    decreases j
  {
    !j.Arr? && (j.Obj? ==> forall k | k in j.fields :: ArrayFree(j.fields[k]))
  }

  /** Merging an array-free value with itself gives it back. */
  lemma {:induction false} MergeIdempotent(a: Json)
    requires ArrayFree(a)
    ensures Merged(a, a) == a
    decreases a
  {
    if a.Obj? {
      forall k | k in a.fields
        ensures Merged(a.fields[k], a.fields[k]) == a.fields[k]
      {
        MergeIdempotent(a.fields[k]);
      }
      assert Merged(a, a).fields == a.fields;
    }
  }

  /** With arrays, merging a value with itself doubles it. */
  lemma MergeArraysNotIdempotent()
    ensures Merged(Arr([Num(1)]), Arr([Num(1)])) == Arr([Num(1), Num(1)])
    ensures Merged(Obj(map["xs" := Arr([Num(1)])]), Obj(map["xs" := Arr([Num(1)])])) != Obj(map["xs" := Arr([Num(1)])])
  {
    var a := Obj(map["xs" := Arr([Num(1)])]);
    assert Merged(a, a).fields["xs"] == Arr([Num(1), Num(1)]);
  }

  /** An empty object or array on the right changes nothing. */
  lemma MergeWithEmpty(a: Json)
    ensures Merged(a, Obj(map[])) == a
    ensures Merged(a, Arr([])) == a
  {
    if a.Obj? {
      assert Merged(a, Obj(map[])).fields == a.fields;
    }
    if a.Arr? {
      assert a.items + [] == a.items;
    }
  }

  /** Disjoint objects join, nested objects merge key by key, arrays
      concatenate, and a scalar on the left wins over anything. */
  lemma MergeExamples()
    ensures Merged(Obj(map["x" := Num(1)]), Obj(map["y" := Num(2)])) == Obj(map["x" := Num(1), "y" := Num(2)])
    ensures Merged(Obj(map["x" := Obj(map["y" := Num(1)])]), Obj(map["x" := Obj(map["z" := Num(2)])]))
         == Obj(map["x" := Obj(map["y" := Num(1), "z" := Num(2)])])
    ensures Merged(Arr([Num(1), Num(2)]), Arr([Num(3)])) == Arr([Num(1), Num(2), Num(3)])
    ensures Merged(Str("foo"), Num(5)) == Str("foo")
  {
    var a1, b1 := Obj(map["x" := Num(1)]), Obj(map["y" := Num(2)]);
    assert Merged(a1, b1).fields == map["x" := Num(1), "y" := Num(2)];
    var ai, bi := Obj(map["y" := Num(1)]), Obj(map["z" := Num(2)]);
    assert Merged(ai, bi).fields == map["y" := Num(1), "z" := Num(2)];
    var a2, b2 := Obj(map["x" := ai]), Obj(map["x" := bi]);
    assert Merged(a2, b2).fields == map["x" := Merged(ai, bi)];
    assert [Num(1), Num(2)] + [Num(3)] == [Num(1), Num(2), Num(3)];
  }


  // ---------------------------------------------------------------------
  // Dotted path lookup

  /** Strips the trailing `[i]` groups of one dotted part, right to left,
      and gives the field name with the indices in their written order. A
      "]" without a "[" before it, or an index that is not a `usize`, panics. */
  function StripIndexes(part: string): Run<(string, seq<nat>)>
    decreases |part|
  {
    if part == [] || part[|part| - 1] != ']' then Done((part, []))
    else
      var p := part[..|part| - 1];
      match Text.RFind(p, '[')
      case None => Panicked
      case Some(pos) =>
        match Text.ParseUnsigned(p[pos + 1..], Text.USIZE_MAX)
        case None => Panicked
        case Some(i) =>
          match StripIndexes(p[..pos])
          case Panicked => Panicked
          case Done((name, idx)) => Done((name, idx + [i]))
  }

  /** `Vec::get` on an array; anything else, or an index out of range, leaves the value. */
  function At(j: Json, i: nat): Json {
    if j.Arr? && i < |j.items| then j.items[i] else j
  }

  /** The indices applied left to right. */
  function ApplyIndexes(j: Json, idx: seq<nat>): Json
    decreases |idx|
  {
    if idx == [] then j else At(ApplyIndexes(j, idx[..|idx| - 1]), idx[|idx| - 1])
  }

  /** One dotted part: the field if there is one, then the indices. */
  function Step(res: Json, part: string): Run<Json> {
    match StripIndexes(part)
    case Panicked => Panicked
    case Done((name, idx)) =>
      var field := match Get(res, name) case Some(v) => v case None => res;
      Done(ApplyIndexes(field, idx))
  }

  /** The dotted parts taken in order from `obj`. */
  function LookupParts(obj: Json, parts: seq<string>): Run<Json>
    decreases |parts|
  {
    if parts == [] then Done(obj)
    else
      match LookupParts(obj, parts[..|parts| - 1])
      case Panicked => Panicked
      case Done(res) => Step(res, parts[|parts| - 1])
  }

  /** What `get_value_in_object(object, path)` returns. */
  function Lookup(obj: Json, path: string): Run<Json> {
    LookupParts(obj, Text.Split(path, '.'))
  }

  /** `ys` appended to the indices of a stripped part. */
  function Extend(r: Run<(string, seq<nat>)>, ys: seq<nat>): Run<(string, seq<nat>)> {
    match r
    case Panicked => Panicked
    case Done((name, xs)) => Done((name, xs + ys))
  }

  lemma ExtendTwice(r: Run<(string, seq<nat>)>, ys: seq<nat>, zs: seq<nat>)
    ensures Extend(Extend(r, ys), zs) == Extend(r, ys + zs)
  {
    if r.Done? {
      assert r.value.1 + ys + zs == r.value.1 + (ys + zs);
    }
  }

  /** `Vec::reverse` */
  function Reversed(s: seq<nat>): (r: seq<nat>)
    ensures |r| == |s|
    decreases |s|
  {
    if s == [] then [] else [s[|s| - 1]] + Reversed(s[..|s| - 1])
  }

  /** `get_value_in_object(object, path)`: walks the dotted parts, stripping
      each part's indices into a list, looking the field up, reversing the
      list and indexing; lookups that miss leave the value as it is. */
  method GetValueInObject(root: Json, path: string) returns (r: Run<Json>)
    ensures r == Lookup(root, path)
  {
    var parts := Text.Split(path, '.');
    var res := root;
    var n := 0;
    while n < |parts|
      invariant 0 <= n <= |parts|
      invariant LookupParts(root, parts[..n]) == Done(res)
    {
      assert parts[..n + 1][..n] == parts[..n];
      var stripped := PopIndexes(parts[n]);
      if stripped.Panicked? {
        PanicSticks(root, parts, n + 1);
        return Panicked;
      }
      var (part, indexes) := stripped.value;
      match Get(res, part) {
        case Some(obj) => res := obj;
        case None =>
      }
      indexes := Reversed(indexes);
      res := IndexInto(res, indexes);
      n := n + 1;
    }
    assert parts[..n] == parts;
    return Done(res);
  }

  /** The `while part.ends_with("]")` loop: the indices come out last first. */
  method PopIndexes(part0: string) returns (r: Run<(string, seq<nat>)>)
    ensures r.Panicked? <==> StripIndexes(part0).Panicked?
    ensures r.Done? ==> StripIndexes(part0) == Done((r.value.0, Reversed(r.value.1)))
  {
    var part := part0;
    var indexes: seq<nat> := [];
    assert StripIndexes(part0) == Extend(StripIndexes(part0), []) by {
      if StripIndexes(part0).Done? {
        assert StripIndexes(part0).value.1 + [] == StripIndexes(part0).value.1;
      }
    }
    while part != [] && part[|part| - 1] == ']'
      invariant Extend(StripIndexes(part), Reversed(indexes)) == StripIndexes(part0)
      decreases |part|
    {
      var popped := part[..|part| - 1];
      var pos := Text.RFind(popped, '[');
      if pos.None? {
        assert StripIndexes(part).Panicked?;
        return Panicked;
      }
      var index := Text.ParseUnsigned(popped[pos.value + 1..], Text.USIZE_MAX);
      if index.None? {
        assert StripIndexes(part).Panicked?;
        return Panicked;
      }
      assert StripIndexes(part) == Extend(StripIndexes(popped[..pos.value]), [index.value]);
      assert Reversed(indexes + [index.value]) == [index.value] + Reversed(indexes) by {
        assert (indexes + [index.value])[..|indexes|] == indexes;
      }
      ExtendTwice(StripIndexes(popped[..pos.value]), [index.value], Reversed(indexes));
      part := popped[..pos.value];
      indexes := indexes + [index.value];
    }
    assert StripIndexes(part) == Done((part, []));
    assert [] + Reversed(indexes) == Reversed(indexes);
    return Done((part, indexes));
  }

  /** The `for index in indexes` loop: each index that lands inside an array steps into it. */
  method IndexInto(field: Json, indexes: seq<nat>) returns (res: Json)
    ensures res == ApplyIndexes(field, indexes)
  {
    res := field;
    var j := 0;
    while j < |indexes|
      invariant 0 <= j <= |indexes|
      invariant res == ApplyIndexes(field, indexes[..j])
    {
      assert indexes[..j + 1][..j] == indexes[..j];
      if res.Arr? && indexes[j] < |res.items| {
        res := res.items[indexes[j]];
      }
      j := j + 1;
    }
    assert indexes[..j] == indexes;
  }

  /** A lookup panics exactly when one of its dotted parts has a malformed index. */
  lemma {:induction false} LookupPanics(obj: Json, parts: seq<string>)
    ensures LookupParts(obj, parts).Panicked? <==> exists i | 0 <= i < |parts| :: StripIndexes(parts[i]).Panicked?
    decreases |parts|
  {
    if parts != [] {
      var init, last := parts[..|parts| - 1], parts[|parts| - 1];
      LookupPanics(obj, init);
      AnyMalformedSnoc(parts, init);
      match LookupParts(obj, init)
      case Panicked =>
      case Done(v) => StepPanics(v, last);
    }
  }

  /** Some part is malformed exactly when some part before the last is or
      the last one is. */
  lemma AnyMalformedSnoc(parts: seq<string>, init: seq<string>)
    requires parts != [] && init == parts[..|parts| - 1]
    ensures (exists i | 0 <= i < |parts| :: StripIndexes(parts[i]).Panicked?)
      <==> (exists i | 0 <= i < |init| :: StripIndexes(init[i]).Panicked?) || StripIndexes(parts[|parts| - 1]).Panicked?
  {
    ExistsSnoc(parts, init, p => StripIndexes(p).Panicked?);
  }

  /** A property holds of some element exactly when it holds of some element
      before the last or of the last. */
  lemma ExistsSnoc(parts: seq<string>, init: seq<string>, bad: string -> bool)
    requires parts != [] && init == parts[..|parts| - 1]
    ensures (exists i | 0 <= i < |parts| :: bad(parts[i]))
      <==> (exists i | 0 <= i < |init| :: bad(init[i])) || bad(parts[|parts| - 1])
  {
    if exists i | 0 <= i < |parts| :: bad(parts[i]) {
      var i :| 0 <= i < |parts| && bad(parts[i]);
      if i < |init| {
        assert init[i] == parts[i];
      }
    }
    if exists i | 0 <= i < |init| :: bad(init[i]) {
      var i :| 0 <= i < |init| && bad(init[i]);
      assert parts[i] == init[i];
    }
  }

  /** One part panics exactly when its indices are malformed. */
  lemma StepPanics(res: Json, part: string)
    ensures Step(res, part).Panicked? <==> StripIndexes(part).Panicked?
  {
  }

  /** A part resolves nothing in `obj`: its indices are well formed, its
      name is no field of `obj` and none of its indices is in range of it. */
  predicate Misses(obj: Json, part: string) {
    && StripIndexes(part).Done?
    && Get(obj, StripIndexes(part).value.0).None?
    && forall k | k in StripIndexes(part).value.1 :: !(obj.Arr? && k < |obj.items|)
  }

  /** A path in which nothing resolves returns the input value: each part is
      looked up in `obj` again, since a miss keeps the value. */
  lemma {:induction false} LookupMisses(obj: Json, parts: seq<string>)
    requires forall i | 0 <= i < |parts| :: Misses(obj, parts[i])
    ensures LookupParts(obj, parts) == Done(obj)
    decreases |parts|
  {
    if parts != [] {
      var init := parts[..|parts| - 1];
      assert forall i | 0 <= i < |init| :: init[i] == parts[i];
      LookupMisses(obj, init);
      assert Misses(obj, parts[|parts| - 1]);
      IndexesMiss(obj, StripIndexes(parts[|parts| - 1]).value.1);
    }
  }

  /** Indices none of which is in range leave a value as it is. */
  lemma {:induction false} IndexesMiss(j: Json, idx: seq<nat>)
    requires forall k | k in idx :: !(j.Arr? && k < |j.items|)
    ensures ApplyIndexes(j, idx) == j
    decreases |idx|
  {
    if idx != [] {
      var init := idx[..|idx| - 1];
      assert forall k | k in init :: k in idx;
      IndexesMiss(j, init);
      assert idx[|idx| - 1] in idx;
    }
  }

  /** "b[1]" on an empty object finds neither the field nor the index. */
  lemma MissesExample()
    ensures LookupParts(Obj(map[]), ["b[1]"]) == Done(Obj(map[]))
  {
    StripExample();
    LookupMisses(Obj(map[]), ["b[1]"]);
  }

  /** Indices written after a field name, as `[i]` groups. */
  function Brackets(idx: seq<nat>): string
    decreases |idx|
  {
    if idx == [] then "" else Brackets(idx[..|idx| - 1]) + "[" + Text.NatToString(idx[|idx| - 1]) + "]"
  }

  /** Stripping the indices written after a name gives back the name and the
      indices in their written order. */
  lemma {:induction false} StripWritten(name: string, idx: seq<nat>)
    requires name == [] || name[|name| - 1] != ']'
    requires forall i | 0 <= i < |idx| :: idx[i] <= Text.USIZE_MAX
    ensures StripIndexes(name + Brackets(idx)) == Done((name, idx))
    decreases |idx|
  {
    if idx == [] {
      assert name + "" == name;
    } else {
      var init := idx[..|idx| - 1];
      BracketsSnoc(name, idx);
      StripWritten(name, init);
      StripOne(name + Brackets(init), idx[|idx| - 1]);
      SplitLast(idx);
    }
  }

  /** The last written index comes last. */
  lemma BracketsSnoc(name: string, idx: seq<nat>)
    requires idx != []
    ensures name + Brackets(idx) == name + Brackets(idx[..|idx| - 1]) + "[" + Text.NatToString(idx[|idx| - 1]) + "]"
  {
    var b, d := Brackets(idx[..|idx| - 1]), Text.NatToString(idx[|idx| - 1]);
    assert Brackets(idx) == b + "[" + d + "]";
    Regroup(name, b, d);
  }

  lemma SplitLast(idx: seq<nat>)
    requires idx != []
    ensures idx[..|idx| - 1] + [idx[|idx| - 1]] == idx
  {
  }

  lemma Regroup(name: string, b: string, d: string)
    ensures name + (b + "[" + d + "]") == name + b + "[" + d + "]"
  {
  }

  /** Stripping one written index. */
  lemma StripOne(front: string, n: nat)
    requires n <= Text.USIZE_MAX
    ensures StripIndexes(front + "[" + Text.NatToString(n) + "]") == Extend(StripIndexes(front), [n])
  {
    var digits := Text.NatToString(n);
    Text.NatToStringDigits(n);
    assert forall k | 0 <= k < |digits| :: Text.IsDigit(digits[k]);
    var s := front + "[" + digits + "]";
    var p := s[..|s| - 1];
    assert p == front + ['['] + digits;
    Text.RFindLast(front, '[', digits);
    assert p[|front| + 1..] == digits;
    assert p[..|front|] == front;
    Text.ParseUnsignedOfNat(n, Text.USIZE_MAX);
  }

  /** A "]" with no "[" before it, or an index that is not a number, panics. */
  lemma MalformedIndexesPanic()
    ensures StripIndexes("a]").Panicked?
    ensures StripIndexes("a[x]").Panicked?
  {
    assert "a]"[..1] == "a";
    assert Text.RFind("a", '[') == None;
    assert "a[x]"[..3] == "a[x";
    assert Text.RFind("a[x", '[') == Some(1);
    assert "a[x"[2..] == "x";
    assert !Text.IsDigit('x');
  }

  /** "a.b[1]" on {"a":{"b":[10,20,30]}} is 20. */
  lemma LookupExample()
    ensures Lookup(Obj(map["a" := Obj(map["b" := Arr([Num(10), Num(20), Num(30)])])]), "a.b[1]") == Done(Num(20))
  {
    var inner := Obj(map["b" := Arr([Num(10), Num(20), Num(30)])]);
    var obj := Obj(map["a" := inner]);
    SplitExample();
    StripExample();
    var parts := ["a", "b[1]"];
    assert parts[..1] == ["a"] && ["a"][..0] == [];
    assert StripIndexes("a") == Done(("a", []));
    assert LookupParts(obj, ["a"]) == Done(inner);
    assert Step(inner, "b[1]") == Done(Num(20)) by {
      assert [1][..0] == [];
    }
  }

  lemma SplitExample()
    ensures Text.Split("a.b[1]", '.') == ["a", "b[1]"]
  {
    assert "a.b[1]" == "a" + ['.'] + "b[1]";
    Text.SplitWithoutSep("b[1]", '.');
    Text.SplitAfterPiece("a", '.', "b[1]");
  }

  lemma StripExample()
    ensures StripIndexes("b[1]") == Done(("b", [1]))
  {
    WrittenOne();
    StripWritten("b", [1]);
  }

  /** "b" followed by the written index 1 is "b[1]". */
  lemma WrittenOne()
    ensures "b" + Brackets([1]) == "b[1]"
  {
    assert Text.NatToString(1) == "1";
    assert [1][..0] == [];
    assert Brackets([1]) == "[1]";
  }

  /** Once a part panics, the whole lookup does. */
  lemma {:induction false} PanicSticks(obj: Json, parts: seq<string>, n: nat)
    requires n <= |parts|
    requires LookupParts(obj, parts[..n]) == Panicked
    ensures LookupParts(obj, parts) == Panicked
    decreases |parts| - n
  {
    if n < |parts| {
      assert parts[..n + 1][..n] == parts[..n];
      PanicSticks(obj, parts, n + 1);
    } else {
      assert parts[..n] == parts;
    }
  }

  // ---------------------------------------------------------------------
  // Rewriting a proxied request

  /** The collaborators the handlers call but whose code is not modelled:
      JSON text, the request builder, response parser and response builder
      of `crate::http`, and the exchange with an upstream server (given the
      address and the request text, the response text read back). */
  datatype Io = Io(
    json: JsonText,
    buildRequest: (string, string, map<string, string>, string) -> string,
    parseResponse: string -> (bool, map<string, string>, string),
    buildResponse: (nat, string, map<string, string>, string) -> string,
    exchange: (string, string) -> string)

  /** The request `handle_proxy` sends upstream: path, headers and body. */
  datatype Outbound = Outbound(uri: string, headers: map<string, string>, body: string)

  /** The caller headers that survive when the service does not use "headers". */
  const Allowed: set<string> := {"Connection", "Host", "Accept", "Content-Type"}

  /** The upstream path: the service's non-empty segments, after the
      caller's when the service uses "url", joined by "/". */
  function ProxyPath(service: Service, remained: string): string {
    if "url" !in service.uses then Text.Join(Text.SplitPath(service.sets.path), "/")
    else Text.Join(Text.NonEmpty(Text.Split(remained, '/') + Text.Split(service.sets.path, '/')), "/")
  }

  /** The caller's headers after the filter. */
  function KeptHeaders(service: Service, headers: map<string, string>): map<string, string> {
    if "headers" in service.uses then headers else map k | k in headers && k in Allowed :: headers[k]
  }

  /** The body sent upstream; the caller's body is parsed only when the
      service uses "body" and the kept Content-Type is exactly JSON. */
  function ProxyBody(json: JsonText, service: Service, kept: map<string, string>, body: string): Run<string> {
    if "body" !in service.uses then Done(json.render(service.sets.body))
    else if "Content-Type" in kept && kept["Content-Type"] == "application/json" then
      match json.parse(body)
      case None => Panicked
      case Some(j) => Done(json.render(Merged(j, service.sets.body)))
    else Done(body)
  }

  /** `headers` with every default inserted over it. */
  function WithDefaults(headers: map<string, string>, defaults: map<string, string>): map<string, string> {
    map k | k in headers.Keys + defaults.Keys :: if k in defaults then defaults[k] else headers[k]
  }

  /** What lines 14-53 of `handle_proxy` make of the caller's request. */
  function Rewritten(json: JsonText, service: Service, remained: string, headers: map<string, string>, body: string): Run<Outbound> {
    var kept := KeptHeaders(service, headers);
    match ProxyBody(json, service, kept, body)
    case Panicked => Panicked
    case Done(b) => Done(Outbound(ProxyPath(service, remained), WithDefaults(kept, service.sets.headers), b))
  }

  /** `handle_proxy` up to the upstream call: reassigns the path, filters the
      headers, replaces or merges the body, then inserts the default headers. */
  method RewriteRequest(json: JsonText, service: Service, remained: string, headers: map<string, string>, body: string)
    returns (r: Run<Outbound>)
    ensures r == Rewritten(json, service, remained, headers, body)
  {
    var uri: string;
    if "url" !in service.uses {
      uri := Text.Join(Text.SplitPath(service.sets.path), "/");
    } else {
      uri := Text.Join(Text.NonEmpty(Text.Split(remained, '/') + Text.Split(service.sets.path, '/')), "/");
    }
    var hs := headers;
    if "headers" !in service.uses {
      hs := map k | k in headers && k in Allowed :: headers[k];
    }
    var b := body;
    if "body" !in service.uses {
      b := json.render(service.sets.body);
    } else if "Content-Type" in hs && hs["Content-Type"] == "application/json" {
      var parsed := json.parse(body);
      if parsed.None? {
        return Panicked;
      }
      var merged := MergeBody(parsed.value, service.sets.body);
      b := json.render(merged);
    }
    hs := InsertDefaults(hs, service.sets.headers);
    return Done(Outbound(uri, hs, b));
  }

  /** The `for (name, value) in service.sets.headers` loop. */
  method InsertDefaults(kept: map<string, string>, defaults: map<string, string>) returns (hs: map<string, string>)
    ensures hs == WithDefaults(kept, defaults)
  {
    hs := kept;
    var todo := defaults.Keys;
    while todo != {}
      invariant todo <= defaults.Keys
      invariant forall k :: k in hs <==> k in kept || (k in defaults && k !in todo)
      invariant forall k | k in hs :: hs[k] == if k in defaults && k !in todo then defaults[k] else kept[k]
      decreases |todo|
    {
      var name :| name in todo;
      hs := hs[name := defaults[name]];
      todo := todo - {name};
    }
    DefaultsInserted(hs, kept, defaults);
  }

  lemma DefaultsInserted(hs: map<string, string>, kept: map<string, string>, defaults: map<string, string>)
    requires forall k :: k in hs <==> k in kept || k in defaults
    requires forall k | k in hs :: hs[k] == if k in defaults then defaults[k] else kept[k]
    ensures hs == WithDefaults(kept, defaults)
  {
    assert forall k :: k in hs <==> k in WithDefaults(kept, defaults);
  }

  /** The upstream path has exactly the segments the service's use of "url"
      calls for, none of them empty: it splits back into them at '/'. */
  lemma ProxyPathSegments(service: Service, remained: string)
    ensures var xs := if "url" in service.uses then Text.SplitPath(remained) + Text.SplitPath(service.sets.path)
                      else Text.SplitPath(service.sets.path);
      && Text.Segments(xs)
      && Text.SplitPath(ProxyPath(service, remained)) == xs
      && (xs == [] ==> ProxyPath(service, remained) == "")
      && (xs != [] ==> Text.Split(ProxyPath(service, remained), '/') == xs)
  {
    Text.NonEmptyAppend(Text.Split(remained, '/'), Text.Split(service.sets.path, '/'));
    var a, b := Text.SplitPath(remained), Text.SplitPath(service.sets.path);
    Text.SplitPathSegments(remained);
    Text.SplitPathSegments(service.sets.path);
    var xs := if "url" in service.uses then a + b else b;
    assert Text.Segments(xs);
    Text.SplitPathJoin(xs);
    if xs != [] {
      Text.SplitJoin(xs, '/');
    }
  }

  /** A header goes upstream exactly when it is a default, or a caller header
      the filter lets through; a default always wins. */
  lemma RewrittenHeaders(json: JsonText, service: Service, remained: string, headers: map<string, string>, body: string)
    requires Rewritten(json, service, remained, headers, body).Done?
    ensures var out := Rewritten(json, service, remained, headers, body).value.headers;
      && (forall k :: k in out <==> k in service.sets.headers || (k in headers && ("headers" in service.uses || k in Allowed)))
      && (forall k | k in service.sets.headers :: out[k] == service.sets.headers[k])
      && (forall k | k in out && k !in service.sets.headers :: out[k] == headers[k])
  {
  }

  /** The body sent upstream: the rendered default without "body"; with it
      and a caller Content-Type of exactly "application/json", the caller's
      body merged with the default (a body that does not parse panics);
      otherwise the caller's body as it came. */
  lemma RewrittenBody(json: JsonText, service: Service, remained: string, headers: map<string, string>, body: string)
    ensures var r := Rewritten(json, service, remained, headers, body);
      var typed := "Content-Type" in headers && headers["Content-Type"] == "application/json";
      && ("body" !in service.uses ==> r.Done? && r.value.body == json.render(service.sets.body))
      && ("body" in service.uses && typed ==>
            match json.parse(body)
            case None => r.Panicked?
            case Some(j) => r.Done? && r.value.body == json.render(Merged(j, service.sets.body)))
      && ("body" in service.uses && !typed ==> r.Done? && r.value.body == body)
  {
    var kept := KeptHeaders(service, headers);
    assert ("Content-Type" in kept && kept["Content-Type"] == "application/json") <==>
           ("Content-Type" in headers && headers["Content-Type"] == "application/json");
  }

  /** `handle_proxy`: the rewritten request, built as text and sent to the
      service's address; the response text comes back. */
  function HandleProxy(io: Io, service: Service, verb: string, remained: string, headers: map<string, string>, body: string): (r: Run<string>)
    ensures r.Panicked? <==>
      && "body" in service.uses
      && "Content-Type" in headers && headers["Content-Type"] == "application/json"
      && io.json.parse(body).None?
    ensures r.Done? ==>
      var o := Rewritten(io.json, service, remained, headers, body).value;
      r.value == io.exchange(BuildRequestUrl(service), io.buildRequest(verb, o.uri, o.headers, o.body))
  {
    RewrittenBody(io.json, service, remained, headers, body);
    match Rewritten(io.json, service, remained, headers, body)
    case Panicked => Panicked
    case Done(o) => Done(io.exchange(BuildRequestUrl(service), io.buildRequest(verb, o.uri, o.headers, o.body)))
  }

  // ---------------------------------------------------------------------
  // Chains

  /** What the rule loop of a chain updates: the headers and the body for
      the `to` call, and the store. */
  datatype Carried = Carried(headers: map<string, string>, body: Json, stores: map<string, string>)

  /** The value a rule resolves, as the code overrides it: "undefined", then
      the response header it names when present, then its body path looked
      up in the current body (rendered), then the store entry when present. */
  function RuleValue(json: JsonText, rule: Place, respHeaders: map<string, string>, st: Carried): Run<string> {
    var fromHeader :=
      if "header" in rule.from && rule.from["header"] in respHeaders then respHeaders[rule.from["header"]] else "undefined";
    var fromBody :=
      if "body" in rule.from then
        match Lookup(st.body, rule.from["body"])
        case Panicked => Panicked
        case Done(j) => Done(json.render(j))
      else Done(fromHeader);
    match fromBody
    case Panicked => Panicked
    case Done(v) =>
      Done(if "store" in rule.from && rule.from["store"] in st.stores then st.stores[rule.from["store"]] else v)
  }

  /** The value written into every kind the rule names under "into". */
  function Written(rule: Place, value: string, st: Carried): Carried {
    Carried(
      if "header" in rule.into then st.headers[rule.into["header"] := value] else st.headers,
      if "body" in rule.into then Str(value) else st.body,
      if "store" in rule.into then st.stores[rule.into["store"] := value] else st.stores)
  }

  /** The rules applied in order, each reading what the earlier ones wrote. */
  function ApplyRules(json: JsonText, rules: seq<Place>, respHeaders: map<string, string>, st: Carried): Run<Carried>
    decreases |rules|
  {
    if rules == [] then Done(st)
    else
      match ApplyRules(json, rules[..|rules| - 1], respHeaders, st)
      case Panicked => Panicked
      case Done(mid) => ApplyRule(json, rules[|rules| - 1], respHeaders, mid)
  }

  /** One rule: its value, then the writes. */
  function ApplyRule(json: JsonText, rule: Place, respHeaders: map<string, string>, st: Carried): Run<Carried> {
    match RuleValue(json, rule, respHeaders, st)
    case Panicked => Panicked
    case Done(v) => Done(Written(rule, v, st))
  }

  /** The value by priority: a present store entry beats the body path, the
      body path beats a present response header, and "undefined" is left only
      when none applies. Only a malformed body path panics. */
  lemma RuleValuePrecedence(json: JsonText, rule: Place, respHeaders: map<string, string>, st: Carried)
    ensures var r := RuleValue(json, rule, respHeaders, st);
      var looked := if "body" in rule.from then Lookup(st.body, rule.from["body"]) else Done(Null);
      && (r.Panicked? <==> looked.Panicked?)
      && (r.Done? ==>
            r.value == if "store" in rule.from && rule.from["store"] in st.stores then st.stores[rule.from["store"]]
                       else if "body" in rule.from then json.render(looked.value)
                       else if "header" in rule.from && rule.from["header"] in respHeaders then respHeaders[rule.from["header"]]
                       else "undefined")
  {
  }

  /** `into` kind `kind` of rule `rule` names `k`. */
  predicate Targets(rule: Place, kind: string, k: string) {
    kind in rule.into && rule.into[kind] == k
  }

  /** No rule of `rules` writes `k` under kind `kind`. */
  predicate Untouched(rules: seq<Place>, kind: string, k: string) {
    forall i | 0 <= i < |rules| :: !Targets(rules[i], kind, k)
  }

  /** A rule writes its value into every kind it names and changes nothing else. */
  lemma WrittenInto(rule: Place, value: string, st: Carried)
    ensures var r := Written(rule, value, st);
      && ("header" in rule.into ==> r.headers.Keys == st.headers.Keys + {rule.into["header"]} && r.headers[rule.into["header"]] == value)
      && ("body" in rule.into ==> r.body == Str(value))
      && ("store" in rule.into ==> r.stores.Keys == st.stores.Keys + {rule.into["store"]} && r.stores[rule.into["store"]] == value)
      && (forall k | k in st.headers && !Targets(rule, "header", k) :: r.headers[k] == st.headers[k])
      && (forall k | k in st.stores && !Targets(rule, "store", k) :: r.stores[k] == st.stores[k])
      && ("header" !in rule.into ==> r.headers == st.headers)
      && ("body" !in rule.into ==> r.body == st.body)
      && ("store" !in rule.into ==> r.stores == st.stores)
  {
  }

  /** After the rules, headers and store only gained keys, and every header,
      store entry or body that no rule writes is as it was. */
  lemma {:induction false} ApplyRulesFrame(json: JsonText, rules: seq<Place>, respHeaders: map<string, string>, st: Carried)
    requires ApplyRules(json, rules, respHeaders, st).Done?
    ensures var r := ApplyRules(json, rules, respHeaders, st).value;
      && st.headers.Keys <= r.headers.Keys
      && st.stores.Keys <= r.stores.Keys
      && (forall k | Untouched(rules, "header", k) :: (k in r.headers <==> k in st.headers) && (k in st.headers ==> r.headers[k] == st.headers[k]))
      && (forall k | Untouched(rules, "store", k) :: (k in r.stores <==> k in st.stores) && (k in st.stores ==> r.stores[k] == st.stores[k]))
      && ((forall i | 0 <= i < |rules| :: "body" !in rules[i].into) ==> r.body == st.body)
    decreases |rules|
  {
    if rules != [] {
      var init, rule := rules[..|rules| - 1], rules[|rules| - 1];
      ApplyRulesFrame(json, init, respHeaders, st);
      var mid := ApplyRules(json, init, respHeaders, st).value;
      var v := RuleValue(json, rule, respHeaders, mid).value;
      WrittenInto(rule, v, mid);
      forall k | Untouched(rules, "header", k)
        ensures Untouched(init, "header", k) && !Targets(rule, "header", k)
      {
        assert forall i | 0 <= i < |init| :: init[i] == rules[i];
      }
      forall k | Untouched(rules, "store", k)
        ensures Untouched(init, "store", k) && !Targets(rule, "store", k)
      {
        assert forall i | 0 <= i < |init| :: init[i] == rules[i];
      }
      if forall i | 0 <= i < |rules| :: "body" !in rules[i].into {
        assert forall i | 0 <= i < |init| :: "body" !in init[i].into by {
          assert forall i | 0 <= i < |init| :: init[i] == rules[i];
        }
      }
    }
  }

  /** The rule loop of `handle_component_request`. */
  method RunRules(json: JsonText, rules: seq<Place>, respHeaders: map<string, string>, st0: Carried) returns (r: Run<Carried>)
    ensures r == ApplyRules(json, rules, respHeaders, st0)
  {
    var st := st0;
    var i := 0;
    while i < |rules|
      invariant 0 <= i <= |rules|
      invariant ApplyRules(json, rules[..i], respHeaders, st0) == Done(st)
    {
      assert rules[..i + 1][..i] == rules[..i];
      var next := RunRule(json, rules[i], respHeaders, st);
      if next.Panicked? {
        PanicSticksRules(json, rules, respHeaders, st0, i + 1);
        return Panicked;
      }
      st := next.value;
      i := i + 1;
    }
    assert rules[..i] == rules;
    return Done(st);
  }

  /** The body of the rule loop: the value starts as "undefined" and is
      overridden by the response header, the body path and the store entry
      in turn, then written into every kind the rule names. */
  method RunRule(json: JsonText, rule: Place, respHeaders: map<string, string>, st: Carried) returns (r: Run<Carried>)
    ensures r == ApplyRule(json, rule, respHeaders, st)
  {
    var newHeaders, newBody, stores := st.headers, st.body, st.stores;
    var value := "undefined";
    if "header" in rule.from && rule.from["header"] in respHeaders {
      value := respHeaders[rule.from["header"]];
    }
    if "body" in rule.from {
      var found := GetValueInObject(newBody, rule.from["body"]);
      if found.Panicked? {
        return Panicked;
      }
      value := json.render(found.value);
    }
    if "store" in rule.from && rule.from["store"] in stores {
      value := stores[rule.from["store"]];
    }
    if "header" in rule.into {
      newHeaders := newHeaders[rule.into["header"] := value];
    }
    if "body" in rule.into {
      newBody := Str(value);
    }
    if "store" in rule.into {
      stores := stores[rule.into["store"] := value];
    }
    return Done(Carried(newHeaders, newBody, stores));
  }

  /** Once a rule panics, the whole loop does. */
  lemma {:induction false} PanicSticksRules(json: JsonText, rules: seq<Place>, respHeaders: map<string, string>, st: Carried, n: nat)
    requires n <= |rules|
    requires ApplyRules(json, rules[..n], respHeaders, st) == Panicked
    ensures ApplyRules(json, rules, respHeaders, st) == Panicked
    decreases |rules| - n
  {
    if n < |rules| {
      assert rules[..n + 1][..n] == rules[..n];
      PanicSticksRules(json, rules, respHeaders, st, n + 1);
    } else {
      assert rules[..n] == rules;
    }
  }

  /** A body path reads the body as the earlier rules left it: after a rule
      that writes its value into the body, a path into the original object
      finds only the written string. */
  lemma BodyReadsCurrent(json: JsonText)
    ensures var st := Carried(map[], Obj(map["y" := Str("orig")]), map[]);
      var toHeader := Place(map["body" := "y"], map["header" := "h"]);
      var toBody := Place(map[], map["body" := "x"]);
      && ApplyRules(json, [toHeader], map[], st) == Done(Carried(map["h" := json.render(Str("orig"))], st.body, map[]))
      && ApplyRules(json, [toBody, toHeader], map[], st) ==
           Done(Carried(map["h" := json.render(Str("undefined"))], Str("undefined"), map[]))
  {
    var st := Carried(map[], Obj(map["y" := Str("orig")]), map[]);
    var toHeader := Place(map["body" := "y"], map["header" := "h"]);
    var toBody := Place(map[], map["body" := "x"]);
    LookupOneField(Obj(map["y" := Str("orig")]), "y");
    LookupOneField(Str("undefined"), "y");
    assert [toHeader][..0] == [];
    assert [toBody, toHeader][..1] == [toBody] && [toBody][..0] == [];
  }

  /** A path of one plain field name is a single lookup of that field. */
  lemma LookupOneField(obj: Json, name: string)
    requires '.' !in name && (name == [] || name[|name| - 1] != ']')
    ensures Lookup(obj, name) == Done(match Get(obj, name) case Some(v) => v case None => obj)
  {
    Text.SplitWithoutSep(name, '.');
    assert [name][..0] == [];
    assert LookupParts(obj, [name]) == Step(obj, name);
    assert StripIndexes(name) == Done((name, []));
  }

  /** `handle_component_request`: a proxy answers through its service (a
      name missing from the registry panics); a chain calls `from` with a copy
      of the store, parses the response (a failed parse panics), runs its
      rules over the incoming headers, the response body and the store, and
      calls `to` with the results; any other component answers "". */
  function Respond(io: Io, services: map<string, Service>, c: Component, verb: string, remained: string,
                   headers: map<string, string>, body: string, stores: map<string, string>): Run<string>
    decreases c
  {
    if c.proxy.Some? then
      if c.proxy.value.serviceName !in services then Panicked
      else HandleProxy(io, services[c.proxy.value.serviceName], verb, remained, headers, body)
    else if c.chain.Some? then
      var ch := c.chain.value;
      match Respond(io, services, ch.from, verb, remained, headers, body, stores)
      case Panicked => Panicked
      case Done(fromResponse) =>
        var (ok, respHeaders, respBody) := io.parseResponse(fromResponse);
        if !ok then Panicked
        else
          match io.json.parse(respBody)
          case None => Panicked
          case Some(parsed) =>
            match ApplyRules(io.json, ch.place, respHeaders, Carried(headers, parsed, stores))
            case Panicked => Panicked
            case Done(st) => Respond(io, services, ch.to, verb, remained, st.headers, io.json.render(st.body), st.stores)
    else Done("")
  }

  method HandleComponentRequest(io: Io, services: map<string, Service>, c: Component, verb: string, remained: string,
                                headers: map<string, string>, body: string, stores: map<string, string>)
    returns (r: Run<string>)
    ensures r == Respond(io, services, c, verb, remained, headers, body, stores)
    decreases c
  {
    if c.proxy.Some? {
      if c.proxy.value.serviceName !in services {
        return Panicked;
      }
      var service := services[c.proxy.value.serviceName];
      var out := RewriteRequest(io.json, service, remained, headers, body);
      if out.Panicked? {
        return Panicked;
      }
      var o := out.value;
      return Done(io.exchange(BuildRequestUrl(service), io.buildRequest(verb, o.uri, o.headers, o.body)));
    } else if c.chain.Some? {
      var ch := c.chain.value;
      var fromResponse := HandleComponentRequest(io, services, ch.from, verb, remained, headers, body, stores);
      if fromResponse.Panicked? {
        return Panicked;
      }
      var (ok, respHeaders, respBody) := io.parseResponse(fromResponse.value);
      if !ok {
        return Panicked;
      }
      var parsed := io.json.parse(respBody);
      if parsed.None? {
        return Panicked;
      }
      var st := RunRules(io.json, ch.place, respHeaders, Carried(headers, parsed.value, stores));
      if st.Panicked? {
        return Panicked;
      }
      r := HandleComponentRequest(io, services, ch.to, verb, remained, st.value.headers, io.json.render(st.value.body), st.value.stores);
    } else {
      return Done("");
    }
  }

  /** How a chain threads its call: `to` gets the same method and remainder,
      the incoming headers with the rules' header writes, the rules' body (the
      response body unless a rule replaced it) and the caller's store with the
      rules' writes; what the `from` call did to its copy of the store is lost. */
  lemma ChainThreading(io: Io, services: map<string, Service>, c: Component, verb: string, remained: string,
                       headers: map<string, string>, body: string, stores: map<string, string>)
    requires c.proxy.None? && c.chain.Some?
    requires Respond(io, services, c.chain.value.from, verb, remained, headers, body, stores).Done?
    ensures var fromResponse := Respond(io, services, c.chain.value.from, verb, remained, headers, body, stores).value;
      var (ok, respHeaders, respBody) := io.parseResponse(fromResponse);
      && (!ok ==> Respond(io, services, c, verb, remained, headers, body, stores).Panicked?)
      && (ok && io.json.parse(respBody).None? ==> Respond(io, services, c, verb, remained, headers, body, stores).Panicked?)
      && (ok && io.json.parse(respBody).Some? ==>
            var st0 := Carried(headers, io.json.parse(respBody).value, stores);
            var rules := c.chain.value.place;
            match ApplyRules(io.json, rules, respHeaders, st0)
            case Panicked => Respond(io, services, c, verb, remained, headers, body, stores).Panicked?
            case Done(st) =>
              && Respond(io, services, c, verb, remained, headers, body, stores)
                 == Respond(io, services, c.chain.value.to, verb, remained, st.headers, io.json.render(st.body), st.stores)
              && (forall k | Untouched(rules, "header", k) :: (k in st.headers <==> k in headers) && (k in headers ==> st.headers[k] == headers[k]))
              && (forall k | Untouched(rules, "store", k) :: (k in st.stores <==> k in stores) && (k in stores ==> st.stores[k] == stores[k]))
              && ((forall i | 0 <= i < |rules| :: "body" !in rules[i].into) ==> st.body == io.json.parse(respBody).value))
  {
    var fromResponse := Respond(io, services, c.chain.value.from, verb, remained, headers, body, stores).value;
    var (ok, respHeaders, respBody) := io.parseResponse(fromResponse);
    if ok && io.json.parse(respBody).Some? {
      var st0 := Carried(headers, io.json.parse(respBody).value, stores);
      if ApplyRules(io.json, c.chain.value.place, respHeaders, st0).Done? {
        ApplyRulesFrame(io.json, c.chain.value.place, respHeaders, st0);
      }
    }
  }

  /** A proxy whose service is registered answers with that service's
      upstream response; an unregistered one panics. */
  lemma ProxyAnswers(io: Io, services: map<string, Service>, name: string, verb: string, remained: string,
                     headers: map<string, string>, body: string, stores: map<string, string>)
    ensures var r := Respond(io, services, NewProxy(name), verb, remained, headers, body, stores);
      && (name !in services ==> r.Panicked?)
      && (name in services ==> r == HandleProxy(io, services[name], verb, remained, headers, body))
  {
  }

  // ---------------------------------------------------------------------
  // The routing walk of `start_endpoint_server`

  /** Where the walk down the routing tree stands: the node reached, the
      segments followed to reach it, and the segments no child matched. */
  datatype Walk = Walk(node: Node, matched: seq<string>, unmatched: seq<string>)

  /** One part of the uri: an empty part is skipped, a part naming a child
      moves to that child, any other part is kept for the remainder and the
      walk stays where it is. */
  function StepWalk(w: Walk, part: string): Walk {
    if part == "" then w
    else if part in w.node.next then Walk(w.node.next[part], w.matched + [part], w.unmatched)
    else Walk(w.node, w.matched, w.unmatched + [part])
  }

  function WalkFrom(w: Walk, parts: seq<string>): Walk
    decreases |parts|
  {
    if parts == [] then w else WalkFrom(StepWalk(w, parts[0]), parts[1..])
  }

  /** The walk of `start_endpoint_server` over the `/`-separated parts of a uri. */
  function Route(tree: Node, uri: string): Walk {
    WalkFrom(Walk(tree, [], []), Text.Split(uri, '/'))
  }

  /** Following one more child is one more step. */
  lemma {:induction false} FollowAppend(n: Node, path: seq<string>, part: string)
    requires Follow(n, path).Some? && part in Follow(n, path).value.next
    ensures Follow(n, path + [part]) == Some(Follow(n, path).value.next[part])
    decreases |path|
  {
    if path != [] {
      assert (path + [part])[1..] == path[1..] + [part];
      FollowAppend(n.next[path[0]], path[1..], part);
    }
  }

  /** The walk only ever moves to the child it names, and every non-empty
      part ends up either followed or kept, as a segment, in order. */
  lemma {:induction false} WalkFromFollows(tree: Node, w: Walk, parts: seq<string>)
    requires Follow(tree, w.matched) == Some(w.node)
    requires Text.Segments(w.unmatched)
    requires forall i | 0 <= i < |parts| :: '/' !in parts[i]
    ensures var r := WalkFrom(w, parts);
      && Follow(tree, r.matched) == Some(r.node)
      && |r.matched| + |r.unmatched| == |w.matched| + |w.unmatched| + |Text.NonEmpty(parts)|
      && Text.Segments(r.unmatched)
      && w.unmatched <= r.unmatched
    decreases |parts|
  {
    if parts != [] {
      var w1 := StepWalk(w, parts[0]);
      if parts[0] != "" && parts[0] in w.node.next {
        FollowAppend(tree, w.matched, parts[0]);
      }
      WalkFromFollows(tree, w1, parts[1..]);
    }
  }

  /** The endpoint `start_endpoint_server` reaches is the node at the followed
      segments; followed and kept segments together are as many as the
      non-empty parts of the uri, and the remainder splits back into the
      kept segments. */
  lemma RouteFollows(tree: Node, uri: string)
    ensures var r := Route(tree, uri);
      && Follow(tree, r.matched) == Some(r.node)
      && |r.matched| + |r.unmatched| == |Text.SplitPath(uri)|
      && Text.SplitPath(Text.Join(r.unmatched, "/")) == r.unmatched
  {
    Text.SplitPiecesAvoidSep(uri, '/');
    WalkFromFollows(tree, Walk(tree, [], []), Text.Split(uri, '/'));
    Text.SplitPathJoin(Route(tree, uri).unmatched);
  }

  /** Walking a path the tree holds all the way follows it to its end and
      leaves no remainder. */
  lemma {:induction false} WalkFromFull(w: Walk, parts: seq<string>, m: Node)
    requires Follow(w.node, Text.NonEmpty(parts)) == Some(m)
    ensures WalkFrom(w, parts).node == m
    ensures WalkFrom(w, parts).unmatched == w.unmatched
    ensures WalkFrom(w, parts).matched == w.matched + Text.NonEmpty(parts)
    decreases |parts|
  {
    if parts != [] {
      StepFull(w, parts, m);
      WalkFromFull(StepWalk(w, parts[0]), parts[1..], m);
    } else {
      assert w.matched + [] == w.matched;
    }
  }

  /** One step of a walk along a path the tree holds keeps the rest of the
      path in the tree and moves the part into the followed segments. */
  lemma StepFull(w: Walk, parts: seq<string>, m: Node)
    requires parts != []
    requires Follow(w.node, Text.NonEmpty(parts)) == Some(m)
    ensures var w1 := StepWalk(w, parts[0]);
      && Follow(w1.node, Text.NonEmpty(parts[1..])) == Some(m)
      && w1.unmatched == w.unmatched
      && w1.matched + Text.NonEmpty(parts[1..]) == w.matched + Text.NonEmpty(parts)
  {
    if parts[0] == "" {
      assert Text.NonEmpty(parts) == Text.NonEmpty(parts[1..]);
    } else {
      assert parts == [parts[0]] + parts[1..];
      NonEmptyCons(parts[0], parts[1..]);
      StepKnown(w.node, parts[0], Text.NonEmpty(parts[1..]), m);
      SnocAppend(w.matched, parts[0], Text.NonEmpty(parts[1..]));
    }
  }

  /** A path that starts with a part the node holds goes on from that child. */
  lemma StepKnown(n: Node, part: string, rest: seq<string>, m: Node)
    requires Follow(n, [part] + rest) == Some(m)
    ensures part in n.next
    ensures Follow(n.next[part], rest) == Some(m)
  {
    FollowCons(n, part, rest);
  }

  lemma SnocAppend(a: seq<string>, x: string, b: seq<string>)
    ensures a + [x] + b == a + ([x] + b)
  {
  }

  lemma NonEmptyCons(part: string, rest: seq<string>)
    requires part != ""
    ensures Text.NonEmpty([part] + rest) == [part] + Text.NonEmpty(rest)
  {
    var ps := [part] + rest;
    assert ps[0] == part && ps[1..] == rest;
  }

  lemma FollowCons(n: Node, part: string, rest: seq<string>)
    ensures Follow(n, [part] + rest) == if part in n.next then Follow(n.next[part], rest) else None
  {
    var ps := [part] + rest;
    assert ps[0] == part && ps[1..] == rest;
  }

  /** A uri whose segments are all in the tree reaches their node with an
      empty remainder. */
  lemma RouteFull(tree: Node, uri: string)
    requires Follow(tree, Text.SplitPath(uri)).Some?
    ensures Route(tree, uri).node == Follow(tree, Text.SplitPath(uri)).value
    ensures Route(tree, uri).unmatched == []
  {
    WalkFromFull(Walk(tree, [], []), Text.Split(uri, '/'), Follow(tree, Text.SplitPath(uri)).value);
  }

  /** An unknown segment does not stop the walk: with a component at
      /a/b, the uri "/a/x/b" reaches it and leaves "x" as the remainder. */
  lemma RouteSkipsUnknown(c: Component)
    ensures var leaf := Node(map[], Some(c));
      var tree := Node(map["a" := Node(map["b" := leaf], None)], None);
      var r := Route(tree, "/a/x/b");
      r.node == leaf && Text.Join(r.unmatched, "/") == "x"
  {
    UriPartsExample();
    WalkExample(c);
  }

  lemma UriPartsExample()
    ensures Text.Split("/a/x/b", '/') == ["", "a", "x", "b"]
  {
    Text.SplitWithoutSep("b", '/');
    assert "x/b" == "x" + ['/'] + "b";
    Text.SplitAfterPiece("x", '/', "b");
    assert "a/x/b" == "a" + ['/'] + "x/b";
    Text.SplitAfterPiece("a", '/', "x/b");
    assert "/a/x/b" == "" + ['/'] + "a/x/b";
    Text.SplitAfterPiece("", '/', "a/x/b");
  }

  lemma WalkExample(c: Component)
    ensures var leaf := Node(map[], Some(c));
      var tree := Node(map["a" := Node(map["b" := leaf], None)], None);
      WalkFrom(Walk(tree, [], []), ["", "a", "x", "b"]) == Walk(leaf, ["a", "b"], ["x"])
  {
    var leaf := Node(map[], Some(c));
    var a := Node(map["b" := leaf], None);
    var tree := Node(map["a" := a], None);
    var w0 := Walk(tree, [], []);
    var w2 := StepWalk(StepWalk(w0, ""), "a");
    assert w2 == Walk(a, ["a"], []);
    assert "x" !in a.next;
    var w3 := StepWalk(w2, "x");
    assert w3 == Walk(a, ["a"], ["x"]);
    assert StepWalk(w3, "b") == Walk(leaf, ["a", "b"], ["x"]);
    assert ["", "a", "x", "b"][1..][1..][1..][1..] == [];
  }

  /** The walk of `start_endpoint_server` over the parts of `uri`: the endpoint reached
      and the unmatched parts joined by "/". */
  method RouteUri(tree: Node, uri: string) returns (endpoint: Node, remained: string)
    ensures endpoint == Route(tree, uri).node
    ensures remained == Text.Join(Route(tree, uri).unmatched, "/")
  {
    var parts := Text.Split(uri, '/');
    endpoint := tree;
    var remainedParts: seq<string> := [];
    ghost var matched: seq<string> := [];
    var i := 0;
    while i < |parts|
      invariant 0 <= i <= |parts|
      invariant WalkFrom(Walk(endpoint, matched, remainedParts), parts[i..]) == Route(tree, uri)
    {
      assert parts[i..][1..] == parts[i + 1..];
      var part := parts[i];
      i := i + 1;
      if part == "" {
        continue;
      }
      if part in endpoint.next {
        endpoint := endpoint.next[part];
        matched := matched + [part];
      } else {
        remainedParts := remainedParts + [part];
      }
    }
    assert parts[i..] == [];
    remained := Text.Join(remainedParts, "/");
  }

  /** What `start_endpoint_server` does with one decoded request: a request without a
      method is skipped (`None`); a uri whose endpoint holds no component is
      answered 404 "Not Found" with no headers and no body; otherwise the
      component answers with the remainder of the uri and an empty store. */
  function Serve(io: Io, tree: Node, services: map<string, Service>, verb: string, uri: string,
                 headers: map<string, string>, body: string): (r: Option<Run<string>>)
    ensures r.None? <==> verb == ""
  {
    if verb == "" then None
    else
      var w := Route(tree, uri);
      if w.node.value.None? then Some(Done(io.buildResponse(404, "Not Found", map[], "")))
      else Some(Respond(io, services, w.node.value.value, verb, Text.Join(w.unmatched, "/"), headers, body, map[]))
  }

  /** `start_endpoint_server`'s handling of one decoded request. */
  method ServeRequest(io: Io, tree: Node, services: map<string, Service>, verb: string, uri: string,
                      headers: map<string, string>, body: string) returns (r: Option<Run<string>>)
    ensures r == Serve(io, tree, services, verb, uri, headers, body)
  {
    if verb == "" {
      return None;
    }
    var endpoint, remained := RouteUri(tree, uri);
    if endpoint.value.None? {
      return Some(Done(io.buildResponse(404, "Not Found", map[], "")));
    }
    var resp := HandleComponentRequest(io, services, endpoint.value.value, verb, remained, headers, body, map[]);
    return Some(resp);
  }

  /** A request for a path stored in full is answered by the component
      stored there, with an empty remainder; a path with no component at
      its endpoint is answered 404. */
  lemma ServeStored(io: Io, tree: Node, services: map<string, Service>, verb: string, uri: string,
                    headers: map<string, string>, body: string)
    requires verb != ""
    ensures ValueAt(tree, Text.SplitPath(uri)).Some? ==>
      Serve(io, tree, services, verb, uri, headers, body)
        == Some(Respond(io, services, ValueAt(tree, Text.SplitPath(uri)).value, verb, "", headers, body, map[]))
    ensures Route(tree, uri).node.value.None? ==>
      Serve(io, tree, services, verb, uri, headers, body) == Some(Done(io.buildResponse(404, "Not Found", map[], "")))
  {
    if ValueAt(tree, Text.SplitPath(uri)).Some? {
      RouteFull(tree, uri);
    }
  }
}
