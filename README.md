# A verified model of a small Rust API gateway

The repository is a small HTTP reverse proxy / API gateway written in Rust, in
two generations, together with an experimental peer-to-peer membership
protocol. This project models the logic of each as separate Dafny modules and
proves what that logic guarantees. The modules do not call one another across
generations.

- **Older gateway.**
  - `Structs` (src/structs.rs): components (proxy, exposed, chain), services and the path trie.
  - `Services` (src/services.rs): `add_service`, which turns a JSON service declaration into a registry entry.
  - `Parsing` (src/parsing.rs): `parse_component`, the recursive configuration decoder. It fills the trie and the registry.
  - `HandleServices` (src/handle_services.rs):
    - the request rewriting of `handle_proxy`;
    - the structural JSON merge `merge_body`;
    - the dotted, indexed path lookup `get_value_in_object`;
    - the chain evaluator `handle_component_request`;
    - the routing walk of the endpoint server.
- **Newer gateway.**
  - `Data` (src/structs/data.rs): `Exposed` and `Service` validators with defaults, `GlobalState`, and the generic trie `Node` with `raw_insert` and `raw_search`.
  - `Http` (src/structs/http.rs): `split_path`, `merge_paths` and the minimal wire codec.
- **Peer protocol.**
  - `Networking` (src/networking.rs): message framing, transactions and approvals, and the `Network` object whose node map `request` updates.
- **Shared helpers.**
  - `Wrappers`: `Option` and `Result`, plus `Run`, which is either a value or a Rust panic (an `unwrap` on `None`/`Err`, or a failed parse).
  - `Json`: `serde_json::Value` as a datatype.
  - `Text`: the Rust string operations the code relies on, with their laws.

## How the model is built

- A panic is the `Panicked` outcome, not a precondition. The error paths are modelled as the code has them.
- A Rust `HashMap` is a Dafny `map`. Where the code iterates a map, the iteration order is a parameter `order`. It is any listing of the keys without repeats (`Text.IsOrder`), and the properties are proved for every such order.
- A `serde_json::Map` iterates in key order, so its "last key" is the greatest key.
- Functions the code calls but whose code is not part of this model are fields of the `HandleServices.Io` record. These are:
  - JSON text;
  - `crate::http::{build_request, parse_response, build_response}`;
  - the exchange with the upstream server.
- Fresh uuids are inputs.
- The tries are values. An insert returns the new trie.
- Code that loops is a `method` proved against a specification function: `MergeBody`, `GetValueInObject`, `RunRules`, `RouteUri`, `Stringify`, `AsString`, `Parse`, and others. Those functions' properties are then proved as lemmas.
- `Network`, whose methods update its fields, is a class.

Behaviour of the code that a reader might not expect, modelled as written:

- Merging a value with itself is not idempotent when arrays are involved, because arrays concatenate (`HandleServices.MergeArraysNotIdempotent`).
- A body-sourced placement rule reads the *current* body, which an earlier rule writing into the body may already have replaced. It does not read the original response body (`HandleServices.BodyReadsCurrent`).
- The routing walk does not stop at a segment that has no child. It keeps that segment as part of the remainder and goes on walking (`HandleServices.RouteSkipsUnknown`).
- `unwrap` failures are panics, not propagated errors.
- A request read back after `stringify` carries a leading "/" on its uri, because `stringify` writes " /" before the uri (`Http.RequestRoundTrip`).

## Model

| member | source | states |
|---|---|---|
| Structs.NewPlace | src/structs.rs:62-68 | `ChainComponentPlace::new` keeps the from and into maps it is given |
| Structs.NewProxy | src/structs.rs:72-80 | `new_proxy` sets only the proxy part, naming the service |
| Structs.NewExposed | src/structs.rs:81-87 | `new_exposed` sets only the exposed part, with host and port |
| Structs.NewChain | src/structs.rs:88-94 | `new_chain` sets only the chain part, with from, to and the rules |
| Structs.NewServiceSets | src/structs.rs:119-127 | `ServiceSets::new` has no headers, an empty path and the JSON string "" as body |
| Structs.NewService | src/structs.rs:129-138 | `Service::new` keeps server, port and run, with no uses and the default sets |
| Structs.NewNode | src/structs.rs:98-103 | `Node::new` stores nothing at any path |
| Structs.Insert | src/structs.rs:105-116 | after `Node::insert(path, v)` the value at the path's segments is v and every other path keeps its value; the empty path overwrites the root's value and keeps its children; otherwise the root keeps its value and gains the first segment as a child, the other children kept. The source's abort on a non-empty path without segments is the precondition |
| Structs.InsertStep | src/structs.rs:110-115 | one recursive step of `Node::insert`: with the child below holding v at the rest of the path, the node holds v at the whole path, every other path keeps its value and the other children are kept |
| Structs.InsertAbove | src/structs.rs:111-114 | reattaching the updated child under its segment (`entry().or_insert_with`) stores v at the extended path and changes no other path |
| Services.LastIsUnique | src/services.rs:32-33 | the last key of a `serde_json::Map` is unique |
| Services.LastKey | src/services.rs:32-33 | `keys().collect().last()` is none exactly for an empty map and otherwise the greatest key |
| Services.ReadRun | src/services.rs:28-37 | the "run" part panics exactly when "run" is present and is not an object whose last entry is a string; otherwise it is that last key and its string, none when "run" is absent or empty |
| Services.ReadAddress | src/services.rs:17-27 | the address part panics exactly when "server" is missing or not a string or "port" is present and not a 64-bit unsigned number; otherwise the server has "self" read as 127.0.0.1 and the port is the given number, 80 when absent |
| Services.ReadUses | src/services.rs:40-43 | the "use" part panics exactly when "use" is present and not an array of strings; otherwise it is those strings in order, empty when absent |
| Services.ReadSets | src/services.rs:45-63 | the "set" part panics exactly when "set" is present and malformed; otherwise path, body and headers come from url, body and headers, defaulting to "", the JSON string "" and no headers |
| Services.AddService | src/services.rs:8-67 | `add_service` panics exactly on a declaration that is not an object, lacks a string server or has a mistyped field, and then leaves the registry alone; otherwise it files the service under "name" or the fresh id, overwriting that entry and keeping all others, with server "self" read as 127.0.0.1, port defaulting to 80 and truncated to 16 bits, and run, uses and sets as declared |
| Parsing.PlaceOf | src/parsing.rs:75-86 | one place rule succeeds exactly when it is an object whose "from" and "into" are objects of strings, and then keeps both key maps with their strings |
| Parsing.PlaceList | src/parsing.rs:75-86 | the place rules succeed exactly when each does, and keep configuration order, one rule per element |
| Parsing.ExposedOf | src/parsing.rs:116 | the endpoint's root component is exposed with the declared host and port |
| Parsing.ParseComponent | src/parsing.rs:12-142 | `parse_component` ends as the description decides (a non-object, a missing "type" or an unknown type is `ParseConfigError`, a non-string "type" panics); a component it returns is a proxy or a chain of them; the registry only gains names; descriptions it rejects before dispatch change nothing; a proxy is filed exactly at "uri", a chain is the chain of the components its "from" and "into" parse to with the tree changed only by those parses and by filing it exactly at "uri", and an endpoint sets the root before "requests" is checked and, on success, is the root set to its exposed address, then its services filed one by one, then its requests parsed in order, each from the configuration the previous one left |
| Parsing.FileAt | src/parsing.rs:39-45 | a "uri" is filed exactly when it is a string `Node::insert` accepts, and then the tree is the old tree with the component inserted there; otherwise nothing changes |
| Parsing.ParseProxy | src/parsing.rs:22-47 | a proxy without "service" is rejected and changes nothing; a string service is used as the name without looking at the registry; an object service is registered by `add_service` with the next fresh id and its name is used; with a "uri" the proxy is inserted there, without one the tree is untouched |
| Parsing.ParseChain | src/parsing.rs:48-98 | a chain rejects a missing from, into or place and a part that parses to an endpoint, passes on its parts' errors and panics, and panics on malformed place rules; otherwise it returns `NewChain` of the component "from" parses to (starting from the given tree and registry), the component "into" then parses to, and the rules, and the tree is what the two parses left with the chain inserted at "uri", or left as is without "uri" |
| Parsing.ParsePart | src/parsing.rs:55-68 | a chain part passes on its parse's errors and panics and turns an endpoint into a configuration error; a component it yields is what `parse_component` of that part returns, with the configuration that parse leaves; the registry only grows |
| Parsing.FinishChain | src/parsing.rs:71-97 | once both parts are parsed, a missing "place" is rejected and malformed place rules or a bad "uri" panic, all leaving the configuration as it was; otherwise the result is exactly `NewChain(from, to, rules)` and the tree is that tree with the chain inserted at "uri", or unchanged without "uri"; registry and id supply unchanged |
| Parsing.InsertThenValueAt | src/parsing.rs:39-45 | after filing a component at an accepted uri, the tree holds it at that uri's segments |
| Parsing.NamesOfHolds | src/parsing.rs:131-133 | every declared service's name is among the names the loop registers |
| Parsing.RegisterServices | src/parsing.rs:125-134 | the "services" loop succeeds exactly when every declaration is accepted; on success it goes through one configuration per declaration, each filing that declaration's service (exact field values, every other entry kept) under its name with the next fresh id and the tree left alone, so the registry gains exactly their names |
| Parsing.Register | src/parsing.rs:131-133 | one declaration is accepted exactly when it declares a service; it is then filed under its name with the next fresh id, its server, port, run, uses and sets as declared, every other entry kept and the tree unchanged; a rejected one changes nothing |
| Parsing.ParseEndpoint | src/parsing.rs:99-139 | an endpoint sets the root's value to its exposed address before "requests" is checked, so a missing request list is rejected with the root already changed; on success the services are filed one by one from the rooted configuration and the requests are then parsed in order from where the services left it, the last request's configuration being the result; success is `Ok(None)` |
| Parsing.ParseRequests | src/parsing.rs:135-138 | the requests are parsed in order, each from the configuration the previous one left and with its own `Parsed` effect; on success all of them were parsed and the result is the last configuration; otherwise the first failing request's outcome and configuration are the result; success is `Ok(None)` and the registry only grows |
| Parsing.FiledKeys | src/parsing.rs:125-134 | filing declarations one by one leaves the tree alone, takes one fresh id each and adds exactly their names to the registry |
| Parsing.KeysAdd | src/parsing.rs:131-133 | after `n` turns that each add one declaration's name with the next id, the registry has gained exactly the first `n` names and the ids have moved on by `n` |
| Parsing.NamedServicesRegistered | src/parsing.rs:125-134 | after the services loop, every service declared with a name is in the registry |
| HandleServices.BuildRequestUrlSplits | src/handle_services.rs:5-11 | `build_request_url` is the server, a colon and the port in decimal: the last ':' sits right after the server and what follows it reads back as the port |
| HandleServices.Merged | src/handle_services.rs:79-98 | the merge of an object is an object and of an array an array; any other left-hand value comes back unchanged |
| HandleServices.MergeBody | src/handle_services.rs:79-98 | `merge_body`'s loops compute the structural merge: two objects merge key by key, recursing on shared keys, two arrays concatenate, any other pairing gives the left-hand value |
| HandleServices.MergeFields | src/handle_services.rs:80-89 | the insertion loop over the right-hand object's entries yields exactly the merged object's fields |
| HandleServices.WithinItself | src/handle_services.rs:79-98 | every value survives inside itself (the reflexive case used by the merge lemmas) |
| HandleServices.MergeKeepsLeft | src/handle_services.rs:79-98 | merging never loses anything of the left-hand value: its keys stay, recursively, and its array is a prefix of the result |
| HandleServices.MergeTakesRightKeys | src/handle_services.rs:82-88 | every key of the right-hand object is present afterwards, with its own value where the left-hand object lacks it |
| HandleServices.MergeIdempotent | src/handle_services.rs:79-98 | merging a value without arrays with itself gives it back |
| HandleServices.MergeArraysNotIdempotent | src/handle_services.rs:90-95 | with arrays, merging a value with itself is not the identity: the array doubles, also inside an object |
| HandleServices.MergeWithEmpty | src/handle_services.rs:79-98 | merging with an empty object or an empty array changes nothing |
| HandleServices.MergeExamples | src/handle_services.rs:79-98 | disjoint keys are united, shared object keys merge recursively, arrays concatenate, and a string stays itself when merged with a number |
| HandleServices.ExtendTwice | src/handle_services.rs:107-112 | collecting indexes in two rounds is collecting them at once |
| HandleServices.Reversed | src/handle_services.rs:117 | `indexes.reverse()` keeps the number of indexes |
| HandleServices.GetValueInObject | src/handle_services.rs:101-127 | `get_value_in_object`'s loops compute the path lookup: each dot-separated part strips its bracket indexes right to left, moves into the field when it exists and then into each index in written order when it is in range, and a malformed index panics |
| HandleServices.PopIndexes | src/handle_services.rs:106-113 | the bracket-stripping loop panics exactly when the part's indexes are malformed, and otherwise yields the field name and the indexes in reverse order |
| HandleServices.IndexInto | src/handle_services.rs:117-124 | the index loop applies each index in turn to the current array, skipping those out of range or applied to a non-array |
| HandleServices.LookupPanics | src/handle_services.rs:104-113 | a lookup panics exactly when some part's indexes are malformed |
| HandleServices.AnyMalformedSnoc | src/handle_services.rs:104-113 | some part of a lookup path has malformed indexes exactly when one of its leading parts does or its last part does |
| HandleServices.StepPanics | src/handle_services.rs:105-124 | one part of the lookup panics exactly when its indexes are malformed |
| HandleServices.LookupMisses | src/handle_services.rs:101-127 | a path in which nothing resolves, each part well formed, naming no field of the input and carrying only indices out of its range, returns the input |
| HandleServices.IndexesMiss | src/handle_services.rs:118-124 | indices none of which is in range of the value leave it as it is |
| HandleServices.MissesExample | src/handle_services.rs:101-127 | "b[1]" on an empty object finds neither the field nor the index and returns the object |
| HandleServices.StripWritten | src/handle_services.rs:107-113 | a field name followed by written indexes strips back to that name and those indexes in written order |
| HandleServices.StripOne | src/handle_services.rs:107-113 | stripping one more trailing index adds it at the end of the indexes |
| HandleServices.MalformedIndexesPanic | src/handle_services.rs:107-112 | "a]" (a "]" without "[") and "a[x]" (a non-integer index) panic |
| HandleServices.LookupExample | src/handle_services.rs:101-127 | "a.b[1]" on {"a":{"b":[10,20,30]}} gives 20 |
| HandleServices.SplitExample | src/handle_services.rs:102 | "a.b[1]" splits into the parts "a" and "b[1]" |
| HandleServices.StripExample | src/handle_services.rs:107-113 | "b[1]" strips to the field "b" and the index 1 |
| HandleServices.PanicSticks | src/handle_services.rs:104-125 | once a prefix of the parts panics, the whole lookup panics |
| HandleServices.LookupOneField | src/handle_services.rs:114-116 | a single field without indexes gives its value when present and leaves the object unchanged when missing |
| HandleServices.RewriteRequest | src/handle_services.rs:13-53 | `handle_proxy`'s rewriting computes the outbound path, headers and body from the service's uses flags and sets, panicking only where the caller's JSON body fails to parse |
| HandleServices.HandleProxy | src/handle_services.rs:13-61 | given the upstream exchange, which the model takes as a total parameter, `handle_proxy` panics exactly when the service uses "body", the caller's Content-Type is exactly "application/json" and the body does not parse; otherwise the answer is the upstream exchange with the service's server:port address carrying the rewritten request |
| HandleServices.InsertDefaults | src/handle_services.rs:51-53 | the default-header loop overlays the service's headers on the kept ones |
| HandleServices.DefaultsInserted | src/handle_services.rs:51-53 | a map holding exactly the kept and default keys, defaults winning, is the overlay |
| HandleServices.ProxyPathSegments | src/handle_services.rs:17-31 | without "url" the path is the service path's non-empty segments, with "url" the caller's non-empty segments followed by the service's; the result never holds an empty segment and splits back into those segments |
| HandleServices.RewrittenHeaders | src/handle_services.rs:32-53 | outbound headers are the service's defaults with their default values plus the caller's headers not overridden, and without "headers" only Connection, Host, Accept and Content-Type survive from the caller |
| HandleServices.RewrittenBody | src/handle_services.rs:44-50 | without "body" the body is the serialised default; with "body" and the caller's Content-Type exactly "application/json" (checked before defaults apply) it is the merge of the parsed caller body with the default, and a body that does not parse panics; otherwise it is unchanged |
| HandleServices.RuleValuePrecedence | src/handle_services.rs:143-156 | a rule's value is "undefined", overridden by the response header when present, then by the body path's value, then by the store entry when present; it panics exactly when the body path panics |
| HandleServices.WrittenInto | src/handle_services.rs:158-166 | the value is written to every kind named in `into`, and nothing else of the headers, body or store changes |
| HandleServices.ApplyRulesFrame | src/handle_services.rs:142-167 | after the rule loop no header or store key is lost, every header and store key no rule writes keeps its value, and without an into-body rule the body is the parsed response body |
| HandleServices.RunRules | src/handle_services.rs:142-167 | the rule loop threads headers, body and store through the rules in order, the first panic ending it |
| HandleServices.RunRule | src/handle_services.rs:143-166 | one pass of the rule loop gives exactly the rule's specified effect on headers, body and store, or its panic |
| HandleServices.PanicSticksRules | src/handle_services.rs:142-167 | once a prefix of the rules panics, the whole loop panics |
| HandleServices.BodyReadsCurrent | src/handle_services.rs:149-163 | a body-sourced rule reads the current body, which an earlier into-body rule may already have replaced |
| HandleServices.HandleComponentRequest | src/handle_services.rs:129-173 | `handle_component_request` answers a proxy through its service (an unknown name panics), evaluates a chain by calling `from`, parsing its response, running the rules and calling `to`, and answers "" for anything else |
| HandleServices.ChainThreading | src/handle_services.rs:134-169 | a non-ok parse of the `from` response or an unparsable body panics; otherwise `to` gets the same method and remainder, the incoming headers with the rules' header writes, the store with only this chain's writes (the `from` call's copy is lost) and the response body re-serialised unless a rule replaced it |
| HandleServices.ProxyAnswers | src/handle_services.rs:130-133 | a proxy whose service is registered answers with `handle_proxy`'s response and an unregistered one panics |
| HandleServices.FollowAppend | src/handle_services.rs:202-203 | moving to a matching child extends the followed path by that segment |
| HandleServices.WalkFromFollows | src/handle_services.rs:197-209 | the walk only moves to children it names, every non-empty part is either followed or kept as a segment, and kept segments keep their order |
| HandleServices.RouteFollows | src/handle_services.rs:195-210 | the endpoint reached is the node at the followed segments, followed and kept segments together are the uri's non-empty segments in number, and the remainder splits back into the kept segments |
| HandleServices.WalkFromFull | src/handle_services.rs:197-209 | when every non-empty part names a child in turn, the walk follows them all and keeps nothing |
| HandleServices.StepFull | src/handle_services.rs:197-209 | one step along a path the tree holds keeps the rest of the path in the tree, keeps the remainder and moves the part into the followed segments |
| HandleServices.StepKnown | src/handle_services.rs:202-204 | a path that starts with a part the node holds goes on from that child |
| HandleServices.RouteFull | src/handle_services.rs:195-210 | a uri whose segments are all in the tree reaches their node with an empty remainder |
| HandleServices.RouteSkipsUnknown | src/handle_services.rs:202-207 | an unknown segment does not stop the walk: with a component at /a/b, "/a/x/b" reaches it with remainder "x" |
| HandleServices.UriPartsExample | src/handle_services.rs:195 | "/a/x/b" splits at '/' into "", "a", "x" and "b" |
| HandleServices.WalkExample | src/handle_services.rs:197-209 | over a tree with a component at /a/b, the parts "", "a", "x", "b" follow a and b and keep x |
| HandleServices.RouteUri | src/handle_services.rs:195-210 | the loop over the uri's parts reaches the walk's endpoint and joins the unmatched parts with "/" |
| HandleServices.Serve | src/handle_services.rs:189-224 | a request is skipped exactly when its method is empty |
| HandleServices.ServeRequest | src/handle_services.rs:189-224 | one decoded request is skipped without a method, answered 404 "Not Found" when the endpoint holds no component, and otherwise answered by that component with the remainder and an empty store |
| HandleServices.ServeStored | src/handle_services.rs:195-224 | a request for a path stored in full is answered by the component stored there with an empty remainder, and an endpoint without a component is answered 404 |
| Data.StringifySplits | src/structs/data.rs:21-23 | `Exposed::stringify` writes host, ':' and port so that the last ':' follows the host and the rest reads back as the 64-bit port |
| Data.ExposedFromJson | src/structs/data.rs:24-41 | fails exactly when "host" is present but not a string ("Host must be string") or "port" is present but not an i64 ("Port must be string", the source's message); otherwise takes each present field and defaults to "0.0.0.0" and 3000 |
| Data.ServiceFromVal | src/structs/data.rs:63-83 | a non-object is "Service must be an object", a non-string host fails first, a non-i64 port fails; otherwise present fields are taken and missing ones default to "localhost" and 3000 |
| Data.Blank | src/structs/data.rs:51-53 | the blank state has no services and nothing exposed |
| Data.Empty | src/structs/data.rs:100-102 | `empty` builds the same state as `blank` |
| Data.NewNode | src/structs/data.rs:137-142 | a new node has no children and holds no component at any path |
| Data.RawInsert | src/structs/data.rs:148-166 | after inserting at some parts the component sits at exactly those parts and every other path keeps what it held; the first part is added to the children, reusing an existing child |
| Data.InsertAbove | src/structs/data.rs:158-164 | replacing the child under the first part with the child that received the insert puts the component at the full path and changes no other path |
| Data.Insert | src/structs/data.rs:144-146 | `insert` places the component at the path's non-empty segments and changes no other path |
| Data.MatchDepth | src/structs/data.rs:172-186 | the number of leading parts the search consumes never exceeds the parts |
| Data.RawSearch | src/structs/data.rs:172-186 | the search stops at the node reached by the longest followable prefix, whose next part (if any) is not a child, and returns the rest joined by "/" |
| Data.Search | src/structs/data.rs:168-186 | `search` stops at the node reached by the longest followable prefix of the path's segments, whose next segment (if any) is not a child, and the remainder it returns splits back into exactly the unconsumed segments |
| Data.MatchDepthIsLongest | src/structs/data.rs:172-186 | the prefix the search consumes can be followed and no longer prefix can |
| Data.FollowedFully | src/structs/data.rs:173-184 | a followable path is consumed completely |
| Data.InsertThenSearch | src/structs/data.rs:144-186 | searching the path just inserted finds the component with an empty remainder |
| Data.InsertWithoutSegments | src/structs/data.rs:144-150 | a path without segments ("" or "/") stores the component at the root and keeps its children |
| Data.RootPaths | src/structs/http.rs:4-10 | "" and "/" have no segments |
| Data.SearchExample | src/structs/data.rs:172-186 | with a component at a/b, searching a/b/c/d stops there with remainder "c/d" |
| Http.MergePaths | src/structs/http.rs:12-21 | `merge_paths` joins the non-empty segments of both paths with "/", and the result splits back into exactly those segments, first path first |
| Http.PushAll | src/structs/http.rs:14-19 | each `for_each` push appends the segments in order to what was collected |
| Http.MergedSegments | src/structs/http.rs:12-21 | joining the two paths' segments with "/" splits back into the same segments |
| Http.HeaderList | src/structs/http.rs:114-118 | one line per header in iteration order, the `i`-th being the `i`-th key and its value joined by ": " |
| Http.Stringify | src/structs/http.rs:72-89 | `Request::stringify` writes method, " /", uri, " HTTP/1.1", each header line in iteration order, a blank line, the body and a trailing CRLF |
| Http.PushHeaders | src/structs/http.rs:79-84 | the header loop appends each header as "key: value" and CRLF, in iteration order, after what was written before |
| Http.NewResponse | src/structs/http.rs:101-103 | a new response is 200 "Ok" with no headers and an empty body |
| Http.NotFound | src/structs/http.rs:105-107 | the not-found response is 404 "NotFound" with no headers and body "404 Not found" |
| Http.IntoString | src/structs/http.rs:109-122 | `into_string` starts with "HTTP/1.1 " and ends with a blank line, the body and a CR LF |
| Http.ReadHeaderLines | src/structs/http.rs:42-51 | the header loop reads trimmed lines up to the first blank one, each split at the first ": ", a line without ": " panicking, a later key overwriting an earlier one |
| Http.RequestFromStream | src/structs/http.rs:31-70 | `Request::from_stream` gives no request exactly when the first line is blank; otherwise its method and uri are the first line's first and second whitespace-separated words, empty when missing |
| Http.ResponseFromStream | src/structs/http.rs:124-161 | a response is read only when the trimmed first line has at least three words; its status is the third and its status code the parsed second |
| Http.ReadOneHeader | src/structs/http.rs:144-145 | a well-formed header line adds its key and value to the headers read so far |
| Http.ReadHeaderBlock | src/structs/http.rs:136-146 | a block of header lines ended by a blank line reads back as those headers inserted in order |
| Http.ReadAllHeaders | src/structs/http.rs:136-146 | the header lines of a map, in any iteration order, read back as that map |
| Http.TakeDeclared | src/structs/http.rs:147-153 | a Content-Length equal to the body's length makes `take` read exactly the body |
| Http.RequestRoundTrip | src/structs/http.rs:31-89 | reading back a stringified request gives the same method, headers and body and the uri with a leading "/" (stringify adds one, from_stream keeps it) |
| Http.RequestLineReads | src/structs/http.rs:36-62 | the written request line is read as one line, is not blank, and splits into the method and "/" plus the uri |
| Http.RequestLineEnds | src/structs/http.rs:36 | the written request line, which has no line break before its end, is read as exactly one line |
| Http.RequestLineWords | src/structs/http.rs:38-62 | the written request line is not blank and its first two whitespace-separated words are the method and the path |
| Http.TrimEndKeepsStart | src/structs/http.rs:38 | a line starting with a non-whitespace character does not trim to empty |
| Http.JoinedLines | src/structs/http.rs:111-118 | joining the header lines with CRLF and adding one more CRLF is the header block ended line by line |
| Http.ResponseRoundTrip | src/structs/http.rs:109-161 | reading back `into_string`'s text gives the same response |
| Http.ResponseBlock | src/structs/http.rs:109-153 | `into_string` writes the status line and then a block whose header lines read back as the headers, whose Content-Length is the body length and whose next body-length characters are the body |
| Http.ParsedResponse | src/structs/http.rs:124-161 | a status line and block whose parts read back as a response's code, status, headers and body parse to that response |
| Http.StatusLineReads | src/structs/http.rs:127-134 | the status line is read as one line and splits into "HTTP/1.1", the code and the status |
| Networking.Build | src/networking.rs:14-22 | `Message::build` keeps sender, method, params and content and takes the fresh id |
| Networking.AsString | src/networking.rs:61-77 | `as_string` writes "id from method", then CRLF and one "k: v" per param in iteration order, then CRLF, the Content-Length line, a blank line and the content |
| Networking.PushParams | src/networking.rs:68-71 | the param loop appends CRLF and "k: v" for each param in iteration order |
| Networking.Parse | src/networking.rs:24-59 | the parsing loop of `Message::parse` computes the framing reader (first line of three words, params up to a blank line, Content-Length characters of content); Content-Length is never stored as a param |
| Networking.ParamLinesShift | src/networking.rs:68-72 | the params' lines, each after a CRLF, are the same text as each line followed by a CRLF |
| Networking.ReadTrimmedLine | src/networking.rs:37-39 | a line without surrounding whitespace or newline is read up to its CRLF and trims to itself |
| Networking.ReadNamedLine | src/networking.rs:36-48 | a line split at its first ": " either sets the content length (panicking when the value is not a usize) or inserts the param, and reading continues after it |
| Networking.ReadKeyValue | src/networking.rs:43-48 | a written "k: v" line is read back as the key k and the value v |
| Networking.ReadOneParam | src/networking.rs:43-48 | a safe param line other than Content-Length inserts that param |
| Networking.ReadLengthLine | src/networking.rs:43-46 | the written Content-Length line sets the content length to the written number and stores no param |
| Networking.LengthLineSafe | src/networking.rs:73 | the Content-Length line has no embedded separator, newline or surrounding whitespace |
| Networking.LineSafeOf | src/networking.rs:68-71 | a key without ": " or newline and not starting with whitespace, and a non-empty one-line value not ending in whitespace, make a line that reads back |
| Networking.LengthKey | src/networking.rs:73 | "Content-Length" is one line, holds no ": " and does not start with whitespace |
| Networking.KeySafe | src/networking.rs:190-193 | a non-empty lower-case key such as "ip" or "port" is a safe param key |
| Networking.ReadParamBlock | src/networking.rs:36-49 | reading the written param lines inserts those params in order |
| Networking.MessageRoundTrip | src/networking.rs:24-77 | parsing `as_string`'s text gives the message back, for any param iteration order, when the id, sender and method are single words and the params are framable |
| Networking.MessageTextShape | src/networking.rs:61-77 | the framed text is the first line, each param line ended by CRLF, the Content-Length line, a blank line and the content |
| Networking.ParamsReadBack | src/networking.rs:36-51 | the param block, Content-Length line and blank line read back as the params, the content length and the content |
| Networking.BlankLineEnds | src/networking.rs:40-42 | a blank line ends the param loop with everything read so far |
| Networking.FirstLineReads | src/networking.rs:28-32 | the written first line is read as one line and splits into id, sender and method |
| Networking.BuildTransactionApproval | src/networking.rs:92-96 | an approval exists exactly for a message carrying transaction_id (otherwise `unwrap` panics); it is an "approve_transaction" message with only that id and no content |
| Networking.ApprovalOfApproval | src/networking.rs:92-96 | an approval is itself a transaction message, so approving it again keeps the same transaction id |
| Networking.NewTransaction | src/networking.rs:105-110 | a new transaction holds the message and exactly the listed nodes, none of them approved yet |
| Networking.NewTransactionApproved | src/networking.rs:105-118 | a new transaction counts as approved exactly when it lists no node |
| Networking.ListingLines | src/networking.rs:185-186 | one "id ip:port" line per node in iteration order |
| Networking.ListingLinesAdd | src/networking.rs:206-211 | reading listing lines adds each listed node in turn |
| Networking.ListingRoundTrip | src/networking.rs:181-211 | the add_members content a node sends to a newcomer, read by add_members, merges the sender's nodes into the newcomer's map |
| Networking.ListingLinesOneLine | src/networking.rs:185-188 | no listing line contains a newline, so joining by "\n" and splitting again gives the lines back |
| Networking.EmptyListingPanics | src/networking.rs:207-208 | an empty add_members content is one empty line, which has no " " and panics |
| Networking.MembershipKeeps | src/networking.rs:173-219 | a membership update that does not panic never removes a node and leaves every node it does not name unchanged |
| Networking.AddMemberLinesFrame | src/networking.rs:206-211 | the add_members loop keeps every node and changes only the nodes its lines name |
| Networking.ConnectReadsBack | src/networking.rs:154-163 | the connect text parses to a "connect" message from this node with exactly the params ip and port and no content |
| Networking.ConnectParams | src/networking.rs:158 | the connect text's param block reads back as ip and port |
| Networking.ConnectJoins | src/networking.rs:176-196 | the receiver of a connect message adds the sender under its id with its ip and port |
| Networking.Network.constructor | src/networking.rs:140-148 | a new network has an empty call stack and exactly one node, itself, under its fresh id |
| Networking.Network.GetMyNode | src/networking.rs:150-152 | gives this node's address, and panics exactly when its id is not in the node map |
| Networking.Network.Connect | src/networking.rs:154-165 | the connect text is sent exactly when this node is in the map, and it carries this node's id, ip and port |
| Networking.Network.BuildTransaction | src/networking.rs:88-90 | a transaction for a message awaits exactly the network's nodes, and is approved already only when there are none |
| Networking.Network.AddMembers | src/networking.rs:206-211 | the add_members loop fails exactly when some line lacks " " or ":", and otherwise leaves the node map the lines' result |
| Networking.Network.Request | src/networking.rs:173-224 | handling a message changes the node map exactly as the membership update says, panicking where it panics, and leaves the call stack and id alone |
| Text.Split | src/structs/http.rs:6 | Rust's `str::split` on one character always yields at least one piece |
| Text.SplitPiecesAvoidSep | src/structs/http.rs:6 | no piece `split` yields contains the separator |
| Text.SplitPathSegments | src/structs/http.rs:4-10 | `split_path` never yields an empty segment or one containing "/" |
| Text.SplitPathJoin | src/structs/http.rs:4-10 | for segments that are non-empty and free of "/", splitting their "/"-join gives them back |
| Text.NonEmptyAppend | src/structs/http.rs:14-19 | filtering out empty pieces distributes over concatenation |
| Text.SplitJoin | src/networking.rs:186-188 | joining pieces free of the separator and splitting again gives the pieces back |
| Text.SplitWithoutSep | src/networking.rs:207 | a string without the separator splits into itself alone |
| Text.SplitAfterPiece | src/networking.rs:207 | a piece followed by the separator splits off as the first piece |
| Text.SplitPathRest | src/structs/data.rs:177-185 | the segments after the first, joined by "/", split back into themselves and join to "" exactly when there are none |
| Text.JoinSegmentsEmpty | src/structs/data.rs:185 | joining segments gives "" exactly when there are none |
| Text.TrimLine | src/structs/http.rs:139 | a line without surrounding whitespace trims, CRLF removed, to itself |
| Text.TrimBlankLine | src/structs/http.rs:38-46 | a bare CRLF, and end of input, trim to the empty string |
| Text.WordThen | src/structs/http.rs:60-62 | `split_whitespace` yields a leading word and then the words of what follows the whitespace after it |
| Text.WordAlone | src/structs/http.rs:132 | a single word splits into itself |
| Text.WordEnd | src/structs/http.rs:60 | the end of the first word lies within the string |
| Text.WordEndOfWord | src/structs/http.rs:60 | a word followed by whitespace or the end ends exactly after itself |
| Text.Find | src/structs/http.rs:49 | `find` returns the first position where the pattern occurs, and `None` exactly when it occurs nowhere |
| Text.ShiftOccurs | src/structs/http.rs:49 | past the first character, the occurrences in a string are those in its tail shifted by one |
| Text.FindKeyValue | src/structs/http.rs:49 | in "k: v" with k free of ": ", the first ": " is right after k |
| Text.SplitOnceKeyValue | src/structs/http.rs:49 | `split_once(": ")` of "k: v" gives back k and v when k has no ": " |
| Text.FindChar | src/networking.rs:208-209 | the first occurrence of a character absent from the prefix is right after the prefix |
| Text.SplitOnceChar | src/networking.rs:208-209 | `split_once` on a character absent from the first part gives the two parts back |
| Text.RFind | src/handle_services.rs:5-11 | the last occurrence found holds the character, and none is found only when the character is absent |
| Text.RFindLast | src/handle_services.rs:5-11 | the last occurrence of a character absent from the tail is the one before the tail |
| Text.ReadLine | src/structs/http.rs:43-44 | `read_line` splits the input into a line and the rest, reading nothing only at the end of input |
| Text.ReadLineAt | src/structs/http.rs:43-44 | a line without newline followed by "\n" is read through that newline |
| Text.NatToStringDigits | src/handle_services.rs:9 | the decimal rendering of a number is non-empty, all digits and denotes that number |
| Text.ParseUnsignedOfNat | src/networking.rs:45 | parsing the decimal rendering of a number in range gives it back |
| Text.ParseI64OfInt | src/structs/http.rs:156 | parsing the decimal rendering of an i64 gives it back |
| Text.NatToStringOneWord | src/networking.rs:73 | a rendered count is one word on one line without ':' |
| Text.IntToStringOneWord | src/structs/data.rs:22 | a rendered i64 is one word on one line without ':' |
| Text.StrLessIrreflexive | src/services.rs:32-33 | the key order of a `serde_json::Map` is irreflexive |
| Text.StrLessTotal | src/services.rs:32-33 | the key order is total |
| Text.StrLessTransitive | src/services.rs:32-33 | the key order is transitive |
| Text.StrLessAsymmetric | src/services.rs:32-33 | the key order is asymmetric |
| Text.OverlaidHolds | src/structs/http.rs:145 | inserting a map's entries in iteration order yields the old keys and the listed keys, the listed ones with the map's values, the others untouched |
| Text.OverlaidWhole | src/structs/http.rs:145 | inserting all of a map's entries in any iteration order yields the overlay of that map |
| Json.StringMap | src/services.rs:58-61 | a JSON object of strings becomes a string map with the same keys and those strings |

## Left out

- TCP sockets, threads, the `Arc<Mutex<_>>` global state and `listen`/`start_endpoint_server`'s accept loop. The model starts from the text read off a socket and stops at the text written back.
- JSON text (serde serialisation and parsing), uuid generation, `crate::http`'s builders and parsers and the upstream exchange. These are parameters, because their code is not part of this model.
- I/O errors of `read_line`/`read_to_string` and invalid UTF-8. Strings are sequences of characters, and Content-Length is counted in characters rather than bytes.
- Structs.Insert, Data.RawInsert: the tries are updated as values, not in place through `&mut` borrows. Rust's ownership leaves the result as the only observable effect.
- The registry that `add_service` and `parse_component` fill is a map passed in and returned, not a `&mut HashMap`. The tree is handled the same way.
- `Service::fetch` in src/structs/data.rs and `get_ro_from_mutex` are left out. They are a TCP round trip and a lock.
- Networking.Network.Request: the `send` and `shout` of the connect arm are left out (they are TCP writes), and so are the `println!` logs. Only the node-map update is modelled.
- Networking.Network.Connect: returns the text that would be written to the socket, and does not open the connection.
- `Network::shout`, `Network::listen`, `Message::send`, `Transaction::send_for_approval` and `Transaction::get_message` are left out. They are TCP I/O or a plain getter.
- The `call_stack` field of `Network` is carried but never changed, as in the source.
- After a panic the model says nothing about the state that unwinding leaves behind.
- src/components.rs, `run_service`, `parse_config`, src/cli.rs, src/main.rs, src/runtime.rs and the JavaScript test server are not part of this model. They are process and file I/O, docker and the CLI.
- Http.ResponseRoundTrip: needs a non-empty one-word status, a status code within the i64 range, header keys without ": " that are one line and do not start with whitespace, header values that are non-empty one-line and do not end with whitespace (a trimmed "k: " loses its separator and `split_once` panics), and a body whose length the Content-Length header states (or an empty body without one).
- Parsing.ParseComponent: when one of an endpoint's requests fails, the contract gives the verdict but not the configuration the earlier requests left behind (`Parsing.ParseRequests` states it). `parse_config` (src/parsing.rs:163-165) drops the tree and registry of a configuration that fails to parse.
- HandleServices.HandleProxy: the panics of `TcpStream::connect(...).unwrap()`, `write_all(...).unwrap()` and the `line.unwrap()` reads (src/handle_services.rs:56-65) belong to the upstream exchange, which is a total parameter here, so they are not among the panics its contract lists.
- Http.RequestRoundTrip: needs a non-empty one-word method, a one-word uri, header keys without ": " that do not start with whitespace, header values that are non-empty one-line and do not end with whitespace (a trimmed "k: " loses its separator and `split_once` panics), and a body whose length the Content-Length header states (or an empty body without one).
- Networking.MessageRoundTrip: needs non-empty one-word id, sender and method; params that are one line each, carry no "Content-Length" key and have no ": " in their keys; keys that do not start with whitespace; values that are non-empty and do not end with whitespace (a trimmed "k:" has no ": " and `split_once` panics); and a content length of at most `usize::MAX`.
