/** The newer gateway's wire codec (src/structs/http.rs): path helpers, the
    text of a request and of a response, and the line-by-line decoding of
    both. Decoding reads from the text of the stream instead of a socket:
    a line is everything up to and including '\n', and the end of the
    input reads as an empty line. */
module Http {
  import opened Wrappers
  import Text

  // ---------------------------------------------------------------------
  // Paths

  /** `merge_paths(a, b)`: pushes the non-empty segments of `a`, then those
      of `b`, and joins them by "/". Splitting the result gives exactly the
      two segment lists one after the other. */
  method MergePaths(a: string, b: string) returns (r: string)
    ensures r == Text.Join(Text.SplitPath(a) + Text.SplitPath(b), "/")
    ensures Text.SplitPath(r) == Text.SplitPath(a) + Text.SplitPath(b)
  {
    var res: seq<string> := [];
    res := PushAll(res, Text.SplitPath(a));
    assert res == Text.SplitPath(a);
    res := PushAll(res, Text.SplitPath(b));
    r := Text.Join(res, "/");
    MergedSegments(a, b);
  }

  /** The `for_each(|el| res.push(el))` over one path's segments. */
  method PushAll(res0: seq<string>, xs: seq<string>) returns (res: seq<string>)
    ensures res == res0 + xs
  {
    res := res0;
    var i := 0;
    while i < |xs|
      invariant 0 <= i <= |xs|
      invariant res == res0 + xs[..i]
    {
      res := res + [xs[i]];
      i := i + 1;
    }
    assert xs[..i] == xs;
  }

  lemma MergedSegments(a: string, b: string)
    ensures Text.SplitPath(Text.Join(Text.SplitPath(a) + Text.SplitPath(b), "/")) == Text.SplitPath(a) + Text.SplitPath(b)
  {
    Text.SplitPathSegments(a);
    Text.SplitPathSegments(b);
    var xs := Text.SplitPath(a) + Text.SplitPath(b);
    assert Text.Segments(xs);
    Text.SplitPathJoin(xs);
  }

  // ---------------------------------------------------------------------
  // Messages and their header blocks

  datatype Request = Request(uri: string, verb: string, headers: map<string, string>, body: string)

  datatype Response = Response(status: string, statusCode: int, headers: map<string, string>, body: string)

  /** "k: v" */
  function HeaderLine(k: string, v: string): string {
    k + ": " + v
  }

  /** The header lines in `order`, each followed by CR LF. */
  function HeaderLines(h: map<string, string>, order: seq<string>): string
    requires forall i | 0 <= i < |order| :: order[i] in h
    decreases |order|
  {
    if order == [] then "" else HeaderLine(order[0], h[order[0]]) + "\r\n" + HeaderLines(h, order[1..])
  }

  /** The header lines in `order`, as a list. */
  function HeaderList(h: map<string, string>, order: seq<string>): (r: seq<string>)
    requires forall i | 0 <= i < |order| :: order[i] in h
    ensures |r| == |order|
    ensures forall i | 0 <= i < |order| :: r[i] == HeaderLine(order[i], h[order[i]])
    decreases |order|
  {
    if order == [] then [] else [HeaderLine(order[0], h[order[0]])] + HeaderList(h, order[1..])
  }

  /** `Request::stringify` with the headers in `order`. */
  function RequestText(req: Request, order: seq<string>): string
    requires Text.IsOrder(order, req.headers.Keys)
  {
    req.verb + " /" + req.uri + " " + "HTTP/1.1\r\n" + HeaderLines(req.headers, order) + "\r\n" + req.body + "\r\n"
  }

  /** `Request::stringify`: appends the request line, one "k: v" line per
      header in the map's iteration order `order`, a blank line and the body. */
  method Stringify(req: Request, order: seq<string>) returns (res: string)
    requires Text.IsOrder(order, req.headers.Keys)
    ensures res == RequestText(req, order)
  {
    res := req.verb;
    res := res + " /";
    res := res + req.uri;
    res := res + " ";
    res := res + "HTTP/1.1\r\n";
    res := PushHeaders(res, req.headers, order);
    res := res + "\r\n";
    res := res + req.body;
    res := res + "\r\n";
  }

  /** The header loop of `stringify`: "k: v" and CR LF for each key of `order`. */
  method PushHeaders(head: string, h: map<string, string>, order: seq<string>) returns (res: string)
    requires forall i | 0 <= i < |order| :: order[i] in h
    ensures res == head + HeaderLines(h, order)
  {
    res := head;
    var i := 0;
    while i < |order|
      invariant 0 <= i <= |order|
      invariant res + HeaderLines(h, order[i..]) == head + HeaderLines(h, order)
    {
      var key := order[i];
      assert order[i..][1..] == order[i + 1..];
      ghost var rest := HeaderLines(h, order[i + 1..]);
      assert HeaderLines(h, order[i..]) == key + ": " + h[key] + "\r\n" + rest;
      LineRegroup(res, key, ": ", h[key], "\r\n", rest);
      res := res + key;
      res := res + ": ";
      res := res + h[key];
      res := res + "\r\n";
      i := i + 1;
    }
    assert order[i..] == [];
  }

  /** Appending a line piece by piece, over plain strings. */
  lemma LineRegroup(r: string, k: string, sep: string, v: string, nl: string, t: string)
    ensures r + (k + sep + v + nl + t) == r + k + sep + v + nl + t
  {
  }

  /** `Response::new`: 200 "Ok", no headers, no body. */
  function NewResponse(): (r: Response)
    ensures r.statusCode == 200 && r.status == "Ok" && r.headers == map[] && r.body == ""
  {
    Response("Ok", 200, map[], "")
  }

  /** `Response::not_found`: 404 "NotFound" with the body "404 Not found". */
  function NotFound(): (r: Response)
    ensures r.statusCode == 404 && r.status == "NotFound" && r.headers == map[] && r.body == "404 Not found"
  {
    Response("NotFound", 404, map[], "404 Not found")
  }

  /** `Response::into_string` with the headers in `order`: the status line,
      the header lines joined by CR LF, two CR LFs, the body and a CR LF. */
  function IntoString(r: Response, order: seq<string>): (s: string)
    requires Text.IsOrder(order, r.headers.Keys)
    ensures |s| >= 9 + |r.body| + 6 && s[..9] == "HTTP/1.1 "
    ensures s[|s| - |r.body| - 6..] == "\r\n\r\n" + r.body + "\r\n"
  {
    "HTTP/1.1 " + Text.IntToString(r.statusCode) + " " + r.status + "\r\n"
    + Text.Join(HeaderList(r.headers, order), "\r\n") + "\r\n\r\n" + r.body + "\r\n"
  }

  // ---------------------------------------------------------------------
  // Decoding

  /** The header loop of `from_stream`: reads lines, trims them, stops at a
      blank one and splits every other at its first ": " (a line without it
      panics), later lines overwriting earlier ones. Gives the headers and
      the input after the blank line. */
  function ReadHeaders(s: string, acc: map<string, string>): Run<(map<string, string>, string)>
    decreases |s|
  {
    var (line, rest) := Text.ReadLine(s);
    var t := Text.Trim(line);
    if t == "" then Done((acc, rest))
    else
      assert line != [] by { Text.TrimBlankLine(); }
      match Text.SplitOnce(t, ": ")
      case None => Panicked
      case Some((k, v)) => ReadHeaders(rest, acc[k := v])
  }

  /** The header loop, as `from_stream` runs it. */
  method ReadHeaderLines(s: string) returns (r: Run<(map<string, string>, string)>)
    ensures r == ReadHeaders(s, map[])
  {
    var headers: map<string, string> := map[];
    var rest := s;
    while true
      invariant ReadHeaders(rest, headers) == ReadHeaders(s, map[])
      decreases |rest|
    {
      var (line, after) := Text.ReadLine(rest);
      var t := Text.Trim(line);
      if t == "" {
        return Done((headers, after));
      }
      Text.TrimBlankLine();
      var kv := Text.SplitOnce(t, ": ");
      if kv.None? {
        return Panicked;
      }
      var (key, value) := kv.value;
      headers := headers[key := value];
      rest := after;
    }
  }

  /** The body length: the Content-Length header as a `u64` (a value that
      does not parse panics), 0 without the header. */
  function ContentLength(h: map<string, string>): Run<nat> {
    if "Content-Length" !in h then Done(0)
    else
      match Text.ParseUnsigned(h["Content-Length"], Text.U64_MAX)
      case None => Panicked
      case Some(n) => Done(n)
  }

  /** The `i`-th word, or "" when there are fewer (`nth(0).unwrap_or_default()`). */
  function WordOrEmpty(words: seq<string>, i: nat): string {
    if i < |words| then words[i] else ""
  }

  /** The decoding part of `Request::from_stream`: none when the first line
      is blank; otherwise the headers, exactly Content-Length characters of
      body, and the first two words of the first line as method and uri. */
  function ParseRequest(input: string): Run<Option<Request>> {
    var (first, rest) := Text.ReadLine(input);
    if Text.Trim(first) == "" then Done(None)
    else
      match ReadHeaders(rest, map[])
      case Panicked => Panicked
      case Done((headers, after)) =>
        match ContentLength(headers)
        case Panicked => Panicked
        case Done(n) =>
          var words := Text.SplitWhitespace(first);
          Done(Some(Request(WordOrEmpty(words, 1), WordOrEmpty(words, 0), headers, Text.Take(after, n))))
  }

  /** `Request::from_stream` over the text of the stream. */
  method RequestFromStream(input: string) returns (r: Run<Option<Request>>)
    ensures r == ParseRequest(input)
    ensures r == Done(None) <==> Text.Trim(Text.ReadLine(input).0) == ""
    ensures r.Done? && r.value.Some? ==>
      && r.value.value.verb == WordOrEmpty(Text.SplitWhitespace(Text.ReadLine(input).0), 0)
      && r.value.value.uri == WordOrEmpty(Text.SplitWhitespace(Text.ReadLine(input).0), 1)
  {
    var (data, rest) := Text.ReadLine(input);
    if Text.Trim(data) == "" {
      return Done(None);
    }
    var hs := ReadHeaderLines(rest);
    if hs.Panicked? {
      return Panicked;
    }
    var (headers, after) := hs.value;
    var n := ContentLength(headers);
    if n.Panicked? {
      return Panicked;
    }
    var body := Text.Take(after, n.value);
    var words := Text.SplitWhitespace(data);
    var verb := WordOrEmpty(words, 0);
    var uri := WordOrEmpty(words, 1);
    return Done(Some(Request(uri, verb, headers, body)));
  }

  /** The decoding part of `Response::from_stream`: the status code is the
      second word of the trimmed status line (parsed as an `i64`), the status
      the third word only; fewer words, a malformed header line, a bad
      Content-Length or a bad code panic. */
  function ParseResponse(input: string): Run<Response> {
    var (first, rest) := Text.ReadLine(input);
    var words := Text.SplitWhitespace(Text.Trim(first));
    if |words| < 3 then Panicked
    else
      match ReadHeaders(rest, map[])
      case Panicked => Panicked
      case Done((headers, after)) =>
        match ContentLength(headers)
        case Panicked => Panicked
        case Done(n) =>
          match Text.ParseI64(words[1])
          case None => Panicked
          case Some(code) => Done(Response(words[2], code, headers, Text.Take(after, n)))
  }

  /** `Response::from_stream` over the text of the stream. */
  method ResponseFromStream(input: string) returns (r: Run<Response>)
    ensures r == ParseResponse(input)
    ensures r.Done? ==> exists w | w == Text.SplitWhitespace(Text.Trim(Text.ReadLine(input).0)) ::
      |w| >= 3 && r.value.status == w[2] && Text.ParseI64(w[1]) == Some(r.value.statusCode)
  {
    var (data, rest) := Text.ReadLine(input);
    var words := Text.SplitWhitespace(Text.Trim(data));
    if |words| < 3 {
      return Panicked;
    }
    var statusCode := words[1];
    var status := words[2];
    var hs := ReadHeaderLines(rest);
    if hs.Panicked? {
      return Panicked;
    }
    var (headers, after) := hs.value;
    var n := ContentLength(headers);
    if n.Panicked? {
      return Panicked;
    }
    var body := Text.Take(after, n.value);
    var code := Text.ParseI64(statusCode);
    if code.None? {
      return Panicked;
    }
    return Done(Response(status, code.value, headers, body));
  }

  // ---------------------------------------------------------------------
  // Round trips

  /** A header survives the framing: its key holds no ": ", neither part
      breaks the line, the key does not start and the value does not end
      with whitespace, and the value is not empty (a trimmed "k: " loses its
      space and no longer splits). */
  predicate WireSafe(k: string, v: string) {
    && !Text.Contains(k, ": ")
    && Text.OneLine(k) && Text.OneLine(v)
    && (k != "" ==> !Text.IsWhitespace(k[0]))
    && v != "" && !Text.IsWhitespace(v[|v| - 1])
  }

  predicate HeadersSafe(h: map<string, string>) {
    forall k | k in h :: WireSafe(k, h[k])
  }

  /** The body is as long as the Content-Length header says, or empty without it. */
  predicate LengthDeclared(h: map<string, string>, body: string) {
    if "Content-Length" in h then Text.ParseUnsigned(h["Content-Length"], Text.U64_MAX) == Some(|body|)
    else body == ""
  }

  /** One header line and its CR LF reads back as that header. */
  lemma ReadOneHeader(k: string, v: string, t: string, acc: map<string, string>)
    requires WireSafe(k, v)
    ensures ReadHeaders(HeaderLine(k, v) + "\r\n" + t, acc) == ReadHeaders(t, acc[k := v])
  {
    var x := HeaderLine(k, v);
    assert x[|x| - 1] == v[|v| - 1];
    assert x[0] == if k == "" then ':' else k[0];
    assert '\n' !in x + "\r" by {
      forall i | 0 <= i < |x| ensures x[i] != '\n' {
        if i < |k| { assert x[i] == k[i]; }
        else if i >= |k| + 2 { assert x[i] == v[i - |k| - 2]; }
      }
    }
    var s := x + "\r\n" + t;
    assert s == (x + "\r") + "\n" + t;
    Text.ReadLineAt(x + "\r", t);
    assert (x + "\r") + "\n" == x + "\r\n";
    assert Text.ReadLine(s) == (x + "\r\n", t);
    Text.TrimLine(x);
    assert Text.Trim(x + "\r\n") == x;
    Text.SplitOnceKeyValue(k, v);
    assert x != "";
  }

  /** The header lines of `order` followed by a blank line read back as those
      headers inserted over `acc`, and the reading stops right after the blank line. */
  lemma {:induction false} ReadHeaderBlock(h: map<string, string>, order: seq<string>, t: string, acc: map<string, string>)
    requires forall i | 0 <= i < |order| :: order[i] in h && WireSafe(order[i], h[order[i]])
    ensures ReadHeaders(HeaderLines(h, order) + "\r\n" + t, acc) == Done((Text.Overlaid(acc, h, order), t))
    decreases |order|
  {
    if order == [] {
      assert HeaderLines(h, order) + "\r\n" + t == "\r" + "\n" + t;
      Text.ReadLineAt("\r", t);
      Text.TrimBlankLine();
    } else {
      var k0 := order[0];
      assert HeaderLines(h, order) + "\r\n" + t == HeaderLine(k0, h[k0]) + "\r\n" + (HeaderLines(h, order[1..]) + "\r\n" + t);
      ReadOneHeader(k0, h[k0], HeaderLines(h, order[1..]) + "\r\n" + t, acc);
      ReadHeaderBlock(h, order[1..], t, acc[k0 := h[k0]]);
    }
  }

  /** The header block of a whole map reads back as that map. */
  lemma ReadAllHeaders(h: map<string, string>, order: seq<string>, t: string)
    requires Text.IsOrder(order, h.Keys) && HeadersSafe(h)
    ensures ReadHeaders(HeaderLines(h, order) + "\r\n" + t, map[]) == Done((h, t))
  {
    ReadHeaderBlock(h, order, t, map[]);
    Text.OverlaidWhole(map[], h, order);
    assert map[] + h == h;
  }

  /** Exactly Content-Length characters of `body + tail` are `body`. */
  lemma TakeDeclared(h: map<string, string>, body: string, tail: string)
    requires LengthDeclared(h, body)
    ensures ContentLength(h) == Done(|body|)
    ensures Text.Take(body + tail, |body|) == body
  {
    assert (body + tail)[..|body|] == body;
  }

  /** Decoding a stringified request gives it back, its uri now starting with
      the "/" that `stringify` writes before it, when the method and the uri
      are single words, the headers survive the framing and the body is as
      long as Content-Length says. */
  lemma RequestRoundTrip(req: Request, order: seq<string>)
    requires Text.IsOrder(order, req.headers.Keys)
    requires req.verb != "" && Text.NoWhitespace(req.verb) && Text.NoWhitespace(req.uri)
    requires HeadersSafe(req.headers) && LengthDeclared(req.headers, req.body)
    ensures ParseRequest(RequestText(req, order)) == Done(Some(Request("/" + req.uri, req.verb, req.headers, req.body)))
  {
    var first := req.verb + " /" + req.uri + " " + "HTTP/1.1\r\n";
    var lines := HeaderLines(req.headers, order);
    var block := lines + "\r\n" + (req.body + "\r\n");
    assert RequestText(req, order) == first + block by {
      assert first + lines + "\r\n" + req.body + "\r\n" == first + (lines + "\r\n" + (req.body + "\r\n"));
    }
    RequestLineReads(req.verb, req.uri, block);
    ReadAllHeaders(req.headers, order, req.body + "\r\n");
    TakeDeclared(req.headers, req.body, "\r\n");
    RequestReadsBack(req, first, lines, block);
  }

  /** Once the request line, the header block and the body each read back,
      the whole request does. */
  lemma RequestReadsBack(req: Request, first: string, lines: string, block: string)
    requires block == lines + "\r\n" + (req.body + "\r\n")
    requires Text.ReadLine(first + block) == (first, block) && Text.Trim(first) != ""
    requires WordOrEmpty(Text.SplitWhitespace(first), 0) == req.verb
    requires WordOrEmpty(Text.SplitWhitespace(first), 1) == "/" + req.uri
    requires ReadHeaders(block, map[]) == Done((req.headers, req.body + "\r\n"))
    requires ContentLength(req.headers) == Done(|req.body|)
    requires Text.Take(req.body + "\r\n", |req.body|) == req.body
    ensures ParseRequest(first + block) == Done(Some(Request("/" + req.uri, req.verb, req.headers, req.body)))
  {
  }

  /** The request line reads as one line whose first two words are the
      method and the uri with its leading "/". */
  lemma RequestLineReads(verb: string, uri: string, block: string)
    requires verb != "" && Text.NoWhitespace(verb) && Text.NoWhitespace(uri)
    ensures var first := verb + " /" + uri + " " + "HTTP/1.1\r\n";
      && Text.ReadLine(first + block) == (first, block)
      && Text.Trim(first) != ""
      && WordOrEmpty(Text.SplitWhitespace(first), 0) == verb
      && WordOrEmpty(Text.SplitWhitespace(first), 1) == "/" + uri
  {
    var path := "/" + uri;
    assert Text.NoWhitespace(path) by {
      forall i | 0 <= i < |path| ensures !Text.IsWhitespace(path[i]) {
        if i > 0 { assert path[i] == uri[i - 1]; }
      }
    }
    var first := verb + " /" + uri + " " + "HTTP/1.1\r\n";
    assert first == verb + [' '] + (path + [' '] + "HTTP/1.1\r\n");
    RequestLineEnds(verb, path, block);
    RequestLineWords(verb, path);
  }

  /** The request line is read up to its line break. */
  lemma RequestLineEnds(verb: string, path: string, block: string)
    requires Text.NoWhitespace(verb) && Text.NoWhitespace(path)
    ensures var first := verb + [' '] + (path + [' '] + "HTTP/1.1\r\n");
      Text.ReadLine(first + block) == (first, block)
  {
    var line := verb + [' '] + path + [' '] + "HTTP/1.1\r";
    var first := verb + [' '] + (path + [' '] + "HTTP/1.1\r\n");
    assert first == line + "\n";
    assert '\n' !in line by {
      forall i | 0 <= i < |line| ensures line[i] != '\n' {
        if i < |verb| {
          assert line[i] == verb[i];
        } else if |verb| < i < |verb| + 1 + |path| {
          assert line[i] == path[i - |verb| - 1];
        }
      }
    }
    Text.ReadLineAt(line, block);
    assert first + block == line + "\n" + block;
  }

  /** The request line does not trim to empty and its first two words are
      the method and the path. */
  lemma RequestLineWords(verb: string, path: string)
    requires verb != "" && Text.NoWhitespace(verb)
    requires path != "" && Text.NoWhitespace(path)
    ensures var first := verb + [' '] + (path + [' '] + "HTTP/1.1\r\n");
      && Text.Trim(first) != ""
      && WordOrEmpty(Text.SplitWhitespace(first), 0) == verb
      && WordOrEmpty(Text.SplitWhitespace(first), 1) == path
  {
    var first := verb + [' '] + (path + [' '] + "HTTP/1.1\r\n");
    assert first[0] == verb[0];
    assert Text.TrimStart(first) == first;
    TrimEndKeepsStart(first);
    Text.WordThen(verb, ' ', path + [' '] + "HTTP/1.1\r\n");
    Text.WordThen(path, ' ', "HTTP/1.1\r\n");
    assert Text.SplitWhitespace(first) == [verb] + ([path] + Text.SplitWhitespace("HTTP/1.1\r\n"));
  }

  /** Trimming the end of a line whose first character is not whitespace
      keeps that character. */
  lemma {:induction false} TrimEndKeepsStart(s: string)
    requires s != [] && !Text.IsWhitespace(s[0])
    ensures Text.TrimEnd(s) != ""
    decreases |s|
  {
    if Text.IsWhitespace(s[|s| - 1]) {
      TrimEndKeepsStart(s[..|s| - 1]);
    }
  }

  /** Joining lines by CR LF and adding one more CR LF is writing each line
      with its own CR LF. */
  lemma {:induction false} JoinedLines(h: map<string, string>, order: seq<string>)
    requires order != []
    requires forall i | 0 <= i < |order| :: order[i] in h
    ensures Text.Join(HeaderList(h, order), "\r\n") + "\r\n" == HeaderLines(h, order)
    decreases |order|
  {
    var xs := HeaderList(h, order);
    if |order| > 1 {
      JoinedLines(h, order[1..]);
      assert xs[1..] == HeaderList(h, order[1..]);
    }
  }

  /** Decoding the text of a response gives it back when its status is one
      word, its code fits an `i64`, the headers survive the framing and the
      body is as long as Content-Length says. */
  lemma ResponseRoundTrip(r: Response, order: seq<string>)
    requires Text.IsOrder(order, r.headers.Keys)
    requires r.status != "" && Text.NoWhitespace(r.status)
    requires Text.I64_MIN <= r.statusCode <= Text.I64_MAX
    requires HeadersSafe(r.headers) && LengthDeclared(r.headers, r.body)
    ensures ParseResponse(IntoString(r, order)) == Done(r)
  {
    var code := Text.IntToString(r.statusCode);
    Text.IntToStringOneWord(r.statusCode);
    Text.ParseI64OfInt(r.statusCode);
    var after := ResponseBlock(r, order);
    var block := HeaderLines(r.headers, order) + "\r\n" + after;
    StatusLineReads(code, r.status, block);
    ParsedResponse(r, "HTTP/1.1 " + code + " " + r.status + "\r\n", code, block, after);
  }

  /** The text of a response is its status line and a header block that
      reads back as its headers, followed by what holds exactly its body. */
  lemma ResponseBlock(r: Response, order: seq<string>) returns (after: string)
    requires Text.IsOrder(order, r.headers.Keys)
    requires HeadersSafe(r.headers) && LengthDeclared(r.headers, r.body)
    ensures IntoString(r, order)
      == "HTTP/1.1 " + Text.IntToString(r.statusCode) + " " + r.status + "\r\n" + (HeaderLines(r.headers, order) + "\r\n" + after)
    ensures ReadHeaders(HeaderLines(r.headers, order) + "\r\n" + after, map[]) == Done((r.headers, after))
    ensures ContentLength(r.headers) == Done(|r.body|) && Text.Take(after, |r.body|) == r.body
  {
    var first := "HTTP/1.1 " + Text.IntToString(r.statusCode) + " " + r.status + "\r\n";
    var joined := Text.Join(HeaderList(r.headers, order), "\r\n");
    var lines := HeaderLines(r.headers, order);
    if order == [] {
      // No header lines: the blank line comes at once and the body, which
      // must then be empty, is read from what follows it.
      after := "\r\n" + (r.body + "\r\n");
      assert joined == "" && lines == "";
      BlockRegroup(first, joined, lines, "\r\n\r\n", "\r\n", r.body);
      assert r.body == "" && Text.Take(after, 0) == "";
    } else {
      after := r.body + "\r\n";
      JoinedLines(r.headers, order);
      BlockRegroup(first, joined, lines, "\r\n\r\n", "\r\n", r.body);
      TakeDeclared(r.headers, r.body, "\r\n");
    }
    ReadAllHeaders(r.headers, order, after);
  }

  /** The regrouping behind `ResponseBlock`, over plain strings. */
  lemma BlockRegroup(first: string, joined: string, lines: string, nn: string, nl: string, body: string)
    requires nn == nl + nl
    requires lines == "" ==> joined == ""
    requires lines != "" ==> joined + nl == lines
    ensures lines == "" ==> first + joined + nn + body + nl == first + (lines + nl + (nl + (body + nl)))
    ensures lines != "" ==> first + joined + nn + body + nl == first + (lines + nl + (body + nl))
  {
  }

  /** Parsing a response text succeeds once each of its parts reads back. */
  lemma ParsedResponse(r: Response, first: string, code: string, block: string, after: string)
    requires Text.ReadLine(first + block) == (first, block)
    requires Text.SplitWhitespace(Text.Trim(first)) == ["HTTP/1.1", code, r.status]
    requires Text.ParseI64(code) == Some(r.statusCode)
    requires ReadHeaders(block, map[]) == Done((r.headers, after))
    requires ContentLength(r.headers) == Done(|r.body|) && Text.Take(after, |r.body|) == r.body
    ensures ParseResponse(first + block) == Done(r)
  {
  }

  /** The status line reads as one line whose trimmed words are the
      protocol, the code and the status. */
  lemma StatusLineReads(code: string, status: string, block: string)
    requires code != "" && Text.NoWhitespace(code)
    requires status != "" && Text.NoWhitespace(status)
    ensures var first := "HTTP/1.1 " + code + " " + status + "\r\n";
      && Text.ReadLine(first + block) == (first, block)
      && Text.SplitWhitespace(Text.Trim(first)) == ["HTTP/1.1", code, status]
  {
    var line := "HTTP/1.1 " + code + " " + status;
    var first := line + "\r\n";
    assert first == (line + "\r") + "\n";
    assert '\n' !in line + "\r" by {
      forall i | 0 <= i < |line| + 1 ensures (line + "\r")[i] != '\n' {
        if 9 <= i < 9 + |code| {
          assert (line + "\r")[i] == code[i - 9];
        } else if 10 + |code| <= i < |line| {
          assert (line + "\r")[i] == status[i - 10 - |code|];
        }
      }
    }
    Text.ReadLineAt(line + "\r", block);
    assert first + block == (line + "\r") + "\n" + block;
    assert line[0] == 'H' && line[|line| - 1] == status[|status| - 1];
    Text.TrimLine(line);
    assert line == "HTTP/1.1" + [' '] + (code + [' '] + status);
    Text.WordThen("HTTP/1.1", ' ', code + [' '] + status);
    Text.WordThen(code, ' ', status);
    Text.WordAlone(status);
  }
}
