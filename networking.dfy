/** The experimental peer protocol (src/networking.rs): the text framing of
    a `Message`, transactions waiting for every node's approval, and the
    membership map a node keeps. Sending and listening are not modelled; a
    message is decoded from the text a peer sent, and every uuid is handed
    in by the caller. */
module Networking {
  import opened Wrappers
  import Text

  datatype Message = Message(id: string, from: string, verb: string, params: map<string, string>, content: string)

  /** `Message::build`, with the fresh uuid given as `freshId`. */
  function Build(freshId: string, from: string, verb: string, params: map<string, string>, content: string): (m: Message)
    ensures m.id == freshId && m.from == from && m.verb == verb && m.params == params && m.content == content
  {
    Message(freshId, from, verb, params, content)
  }

  // ---------------------------------------------------------------------
  // Framing

  /** The line of one parameter. */
  function ParamLine(k: string, v: string): string {
    k + ": " + v
  }

  /** The line that announces the length of the content. */
  function LengthLine(n: nat): string {
    ParamLine("Content-Length", Text.NatToString(n))
  }

  /** "\r\nk: v" for every parameter, in `order`. */
  function ParamLines(p: map<string, string>, order: seq<string>): string
    requires forall i | 0 <= i < |order| :: order[i] in p
    decreases |order|
  {
    if order == [] then "" else "\r\n" + ParamLine(order[0], p[order[0]]) + ParamLines(p, order[1..])
  }

  /** The text `as_string` builds: the id, sender and method on the first
      line, one line per parameter, the Content-Length line, a blank line and
      the content. */
  function MessageText(m: Message, order: seq<string>): string
    requires Text.IsOrder(order, m.params.Keys)
  {
    m.id + " " + m.from + " " + m.verb + ParamLines(m.params, order)
    + "\r\n" + LengthLine(|m.content|) + "\r\n\r\n" + m.content
  }

  /** `Message::as_string`, the parameters in the map's iteration order `order`. */
  method AsString(m: Message, order: seq<string>) returns (message: string)
    requires Text.IsOrder(order, m.params.Keys)
    ensures message == MessageText(m, order)
  {
    message := m.id;
    message := message + " ";
    message := message + m.from;
    message := message + " ";
    message := message + m.verb;
    message := PushParams(message, m.params, order);
    message := message + "\r\n";
    message := message + LengthLine(|m.content|);
    message := message + "\r\n\r\n";
    message := message + m.content;
  }

  /** The parameter loop of `as_string`: one "\r\nk: v" per key of `order`. */
  method PushParams(head: string, p: map<string, string>, order: seq<string>) returns (message: string)
    requires forall i | 0 <= i < |order| :: order[i] in p
    ensures message == head + ParamLines(p, order)
  {
    message := head;
    var i := 0;
    while i < |order|
      invariant 0 <= i <= |order|
      invariant message + ParamLines(p, order[i..]) == head + ParamLines(p, order)
    {
      var k := order[i];
      assert order[i..][1..] == order[i + 1..];
      ghost var rest := ParamLines(p, order[i + 1..]);
      assert ParamLines(p, order[i..]) == "\r\n" + ParamLine(k, p[k]) + rest;
      assert message + ("\r\n" + ParamLine(k, p[k]) + rest) == message + "\r\n" + ParamLine(k, p[k]) + rest;
      message := message + "\r\n";
      message := message + ParamLine(k, p[k]);
      i := i + 1;
    }
    assert order[i..] == [];
  }

  /** The parameter loop of `Message::parse`: trimmed lines up to a blank
      one, each split at its first ": " (a line without it panics). The
      Content-Length line sets the content length (a value that is not a
      `usize` panics) and is not kept; every other line is kept, later ones
      overwriting earlier ones. Gives the parameters, the length and the
      input after the blank line. */
  function ReadParams(s: string, params: map<string, string>, length: nat): Run<(map<string, string>, nat, string)>
    decreases |s|
  {
    var (line, rest) := Text.ReadLine(s);
    var t := Text.Trim(line);
    if t == "" then Done((params, length, rest))
    else
      assert line != [] by { Text.TrimBlankLine(); }
      match Text.SplitOnce(t, ": ")
      case None => Panicked
      case Some((name, value)) =>
        if name == "Content-Length" then
          match Text.ParseUnsigned(value, Text.USIZE_MAX)
          case None => Panicked
          case Some(n) => ReadParams(rest, params, n)
        else ReadParams(rest, params[name := value], length)
  }

  /** What `Message::parse` decodes: the first three words of the first line
      (fewer panic), the parameters, and exactly Content-Length characters
      of content. */
  function ParseMessage(input: string): Run<Message> {
    var (first, rest) := Text.ReadLine(input);
    var words := Text.SplitWhitespace(first);
    if |words| < 3 then Panicked
    else
      match ReadParams(rest, map[], 0)
      case Panicked => Panicked
      case Done((params, n, after)) => Done(Message(words[0], words[1], words[2], params, Text.Take(after, n)))
  }

  /** `Message::parse` over the text a peer sent. */
  method Parse(input: string) returns (r: Run<Message>)
    ensures r == ParseMessage(input)
    ensures r.Done? ==> "Content-Length" !in r.value.params
  {
    var (buffer, rest) := Text.ReadLine(input);
    var words := Text.SplitWhitespace(buffer);
    if |words| < 3 {
      return Panicked;
    }
    var id, from, verb := words[0], words[1], words[2];
    var params: map<string, string> := map[];
    var contentLength: nat := 0;
    while true
      invariant ReadParams(rest, params, contentLength) == ReadParams(Text.ReadLine(input).1, map[], 0)
      invariant "Content-Length" !in params
      decreases |rest|
    {
      var (line, after) := Text.ReadLine(rest);
      var t := Text.Trim(line);
      if t == "" {
        rest := after;
        break;
      }
      Text.TrimBlankLine();
      var nv := Text.SplitOnce(t, ": ");
      if nv.None? {
        return Panicked;
      }
      var (name, value) := nv.value;
      rest := after;
      if name == "Content-Length" {
        var n := Text.ParseUnsigned(value, Text.USIZE_MAX);
        if n.None? {
          return Panicked;
        }
        contentLength := n.value;
        continue;
      }
      params := params[name := value];
    }
    var content := Text.Take(rest, contentLength);
    return Done(Message(id, from, verb, params, content));
  }

  // ---------------------------------------------------------------------
  // Round trip

  /** A line "k: v" reads back as `k` and `v`: the key holds no ": ",
      neither part breaks the line, the key does not start and the value
      does not end with whitespace, and the value is not empty. */
  predicate LineSafe(k: string, v: string) {
    && !Text.Contains(k, ": ")
    && Text.OneLine(k) && Text.OneLine(v)
    && (k != "" ==> !Text.IsWhitespace(k[0]))
    && v != "" && !Text.IsWhitespace(v[|v| - 1])
  }

  /** A parameter survives the framing: its line reads back and its key is
      not "Content-Length". */
  predicate ParamSafe(k: string, v: string) {
    k != "Content-Length" && LineSafe(k, v)
  }

  /** A message survives the framing: id, sender and method are single
      words, every parameter survives, and the content length is a `usize`. */
  predicate Framable(m: Message) {
    && m.id != "" && Text.NoWhitespace(m.id)
    && m.from != "" && Text.NoWhitespace(m.from)
    && m.verb != "" && Text.NoWhitespace(m.verb)
    && (forall k | k in m.params :: ParamSafe(k, m.params[k]))
    && |m.content| <= Text.USIZE_MAX
  }

  /** "k: v" lines, each followed by CR LF, in `order`. */
  function LinesAfter(p: map<string, string>, order: seq<string>): string
    requires forall i | 0 <= i < |order| :: order[i] in p
    decreases |order|
  {
    if order == [] then "" else ParamLine(order[0], p[order[0]]) + "\r\n" + LinesAfter(p, order[1..])
  }

  /** Writing CR LF before each line and one more at the end is writing each
      line with a CR LF after it, one CR LF earlier. */
  lemma {:induction false} ParamLinesShift(p: map<string, string>, order: seq<string>, x: string)
    requires forall i | 0 <= i < |order| :: order[i] in p
    ensures ParamLines(p, order) + "\r\n" + x == "\r\n" + (LinesAfter(p, order) + x)
    decreases |order|
  {
    if order != [] {
      var l := ParamLine(order[0], p[order[0]]);
      ParamLinesShift(p, order[1..], x);
      calc {
        ParamLines(p, order) + "\r\n" + x;
        "\r\n" + l + ParamLines(p, order[1..]) + "\r\n" + x;
        "\r\n" + l + (ParamLines(p, order[1..]) + "\r\n" + x);
        "\r\n" + l + ("\r\n" + (LinesAfter(p, order[1..]) + x));
        "\r\n" + (l + "\r\n" + LinesAfter(p, order[1..]) + x);
        "\r\n" + (LinesAfter(p, order) + x);
      }
    }
  }

  /** A line without a line break, not starting or ending with whitespace,
      reads as itself. */
  lemma ReadTrimmedLine(x: string, t: string)
    requires x != [] && !Text.IsWhitespace(x[0]) && !Text.IsWhitespace(x[|x| - 1])
    requires '\n' !in x
    ensures Text.ReadLine(x + "\r\n" + t) == (x + "\r\n", t)
    ensures Text.Trim(x + "\r\n") == x
  {
    assert '\n' !in x + "\r";
    assert x + "\r\n" + t == (x + "\r") + "\n" + t;
    Text.ReadLineAt(x + "\r", t);
    assert (x + "\r") + "\n" == x + "\r\n";
    Text.TrimLine(x);
  }

  /** A line read from the parameter block: `rest` is what follows it. */
  lemma ReadNamedLine(x: string, t: string, params: map<string, string>, length: nat)
    requires x != [] && !Text.IsWhitespace(x[0]) && !Text.IsWhitespace(x[|x| - 1])
    requires '\n' !in x
    requires Text.SplitOnce(x, ": ").Some?
    ensures var (name, value) := Text.SplitOnce(x, ": ").value;
      ReadParams(x + "\r\n" + t, params, length)
      == if name == "Content-Length" then
           match Text.ParseUnsigned(value, Text.USIZE_MAX)
           case None => Panicked
           case Some(n) => ReadParams(t, params, n)
         else ReadParams(t, params[name := value], length)
  {
    ReadTrimmedLine(x, t);
  }

  /** A line "k: v" of the parameter block reads as `k` and `v`. */
  lemma ReadKeyValue(k: string, v: string, t: string, params: map<string, string>, length: nat)
    requires LineSafe(k, v)
    ensures ReadParams(ParamLine(k, v) + "\r\n" + t, params, length)
      == if k == "Content-Length" then
           match Text.ParseUnsigned(v, Text.USIZE_MAX)
           case None => Panicked
           case Some(n) => ReadParams(t, params, n)
         else ReadParams(t, params[k := v], length)
  {
    var x := ParamLine(k, v);
    assert x[|x| - 1] == v[|v| - 1];
    assert x[0] == if k == "" then ':' else k[0];
    assert '\n' !in x;
    Text.SplitOnceKeyValue(k, v);
    ReadNamedLine(x, t, params, length);
  }

  /** One parameter line reads back as that parameter. */
  lemma ReadOneParam(k: string, v: string, t: string, params: map<string, string>, length: nat)
    requires ParamSafe(k, v)
    ensures ReadParams(ParamLine(k, v) + "\r\n" + t, params, length) == ReadParams(t, params[k := v], length)
  {
    ReadKeyValue(k, v, t, params, length);
  }

  /** The Content-Length line sets the length to the number it holds. */
  lemma ReadLengthLine(n: nat, t: string, params: map<string, string>, length: nat)
    requires n <= Text.USIZE_MAX
    ensures ReadParams(LengthLine(n) + "\r\n" + t, params, length) == ReadParams(t, params, n)
  {
    LengthLineSafe(n);
    ReadKeyValue("Content-Length", Text.NatToString(n), t, params, length);
    Text.ParseUnsignedOfNat(n, Text.USIZE_MAX);
  }

  /** The Content-Length line reads back as its key and its digits. */
  lemma LengthLineSafe(n: nat)
    ensures LineSafe("Content-Length", Text.NatToString(n))
  {
    var digits := Text.NatToString(n);
    Text.NatToStringOneWord(n);
    assert !Text.IsWhitespace(digits[|digits| - 1]);
    LengthKey();
    LineSafeOf("Content-Length", Text.NatToString(n));
  }

  lemma LineSafeOf(k: string, v: string)
    requires !Text.Contains(k, ": ") && Text.OneLine(k) && k != [] && !Text.IsWhitespace(k[0])
    requires v != [] && Text.OneLine(v) && !Text.IsWhitespace(v[|v| - 1])
    ensures LineSafe(k, v)
  {
  }

  /** The key of the Content-Length line holds no separator. */
  lemma LengthKey()
    ensures Text.OneLine("Content-Length")
    ensures !Text.Contains("Content-Length", ": ")
    ensures !Text.IsWhitespace("Content-Length"[0])
  {
    var key := "Content-Length";
    forall i | 0 <= i < |key| ensures key[i] != '\r' && key[i] != '\n' && key[i] != ':' {
    }
    NoColonNoSep(key);
  }

  /** A key of lower-case letters holds no separator. */
  lemma KeySafe(k: string)
    requires k != [] && forall i | 0 <= i < |k| :: 'a' <= k[i] <= 'z'
    ensures !Text.Contains(k, ": ") && Text.OneLine(k) && !Text.IsWhitespace(k[0])
  {
    NoColonNoSep(k);
  }

  /** A text that holds ": " holds ':'. */
  lemma NoColonNoSep(s: string)
    ensures Text.Contains(s, ": ") ==> ':' in s
  {
    if Text.Contains(s, ": ") {
      var i := Text.Find(s, ": ").value;
      assert s[i] == ": "[0];
    }
  }

  /** The parameter lines read back one by one. */
  lemma {:induction false} ReadParamBlock(p: map<string, string>, order: seq<string>, t: string, params: map<string, string>, length: nat)
    requires forall i | 0 <= i < |order| :: order[i] in p && ParamSafe(order[i], p[order[i]])
    ensures ReadParams(LinesAfter(p, order) + t, params, length) == ReadParams(t, Text.Overlaid(params, p, order), length)
    decreases |order|
  {
    if order != [] {
      var k := order[0];
      assert LinesAfter(p, order) + t == ParamLine(k, p[k]) + "\r\n" + (LinesAfter(p, order[1..]) + t);
      ReadOneParam(k, p[k], LinesAfter(p, order[1..]) + t, params, length);
      ReadParamBlock(p, order[1..], t, params[k := p[k]], length);
    } else {
      assert LinesAfter(p, order) + t == t;
    }
  }

  /** Decoding the text of a framable message gives it back. */
  lemma MessageRoundTrip(m: Message, order: seq<string>)
    requires Text.IsOrder(order, m.params.Keys) && Framable(m)
    ensures ParseMessage(MessageText(m, order)) == Done(m)
  {
    var tail := LinesAfter(m.params, order) + (LengthLine(|m.content|) + "\r\n" + ("\r\n" + m.content));
    MessageTextShape(m, order);
    FirstLineReads(m.id, m.from, m.verb, tail);
    ParamsReadBack(m, order);
    assert m.content[..|m.content|] == m.content;
  }

  /** The text of a message is its first line, CR LF, then each parameter
      line and the Content-Length line followed by CR LF, a blank line and
      the content. */
  lemma MessageTextShape(m: Message, order: seq<string>)
    requires Text.IsOrder(order, m.params.Keys)
    ensures MessageText(m, order)
      == m.id + " " + m.from + " " + m.verb + "\r\n"
         + (LinesAfter(m.params, order) + (LengthLine(|m.content|) + "\r\n" + ("\r\n" + m.content)))
  {
    var after := LengthLine(|m.content|) + "\r\n" + ("\r\n" + m.content);
    ParamLinesShift(m.params, order, after);
    ShapeRegroup(m.id + " " + m.from + " " + m.verb, ParamLines(m.params, order), LinesAfter(m.params, order),
            LengthLine(|m.content|), m.content, "\r\n");
  }

  /** The regrouping behind `MessageTextShape`, over plain strings. */
  lemma ShapeRegroup(first: string, lines: string, after: string, length: string, content: string, nl: string)
    requires lines + nl + (length + nl + (nl + content)) == nl + (after + (length + nl + (nl + content)))
    ensures first + lines + nl + length + (nl + nl) + content == first + nl + (after + (length + nl + (nl + content)))
  {
    var tail := length + nl + (nl + content);
    calc {
      first + lines + nl + length + (nl + nl) + content;
      first + (lines + nl + tail);
      first + (nl + (after + tail));
      first + nl + (after + tail);
    }
  }

  /** After the first line, the parameter block reads back as the
      parameters and the content length, leaving the content. */
  lemma ParamsReadBack(m: Message, order: seq<string>)
    requires Text.IsOrder(order, m.params.Keys) && Framable(m)
    ensures ReadParams(LinesAfter(m.params, order) + (LengthLine(|m.content|) + "\r\n" + ("\r\n" + m.content)), map[], 0)
      == Done((m.params, |m.content|, m.content))
  {
    var n := |m.content|;
    var after := LengthLine(n) + "\r\n" + ("\r\n" + m.content);
    var p := Text.Overlaid(map[], m.params, order);
    ReadParamBlock(m.params, order, after, map[], 0);
    ReadLengthLine(n, "\r\n" + m.content, p, 0);
    BlankLineEnds("\r\n" + m.content, m.content, p, n);
    Text.OverlaidWhole(map[], m.params, order);
    assert map[] + m.params == m.params;
  }

  /** A blank line ends the parameter block. */
  lemma BlankLineEnds(s: string, t: string, params: map<string, string>, length: nat)
    requires s == "\r\n" + t
    ensures ReadParams(s, params, length) == Done((params, length, t))
  {
    assert s == "\r" + "\n" + t;
    Text.ReadLineAt("\r", t);
    Text.TrimBlankLine();
  }

  /** The first line reads as one line whose words are the id, the sender
      and the method. */
  lemma FirstLineReads(id: string, from: string, verb: string, t: string)
    requires id != "" && Text.NoWhitespace(id)
    requires from != "" && Text.NoWhitespace(from)
    requires verb != "" && Text.NoWhitespace(verb)
    ensures var first := id + " " + from + " " + verb;
      && Text.ReadLine(first + "\r\n" + t) == (first + "\r\n", t)
      && Text.SplitWhitespace(first + "\r\n") == [id, from, verb]
  {
    var first := id + " " + from + " " + verb;
    assert first[0] == id[0] && first[|first| - 1] == verb[|verb| - 1];
    assert '\n' !in first by {
      forall i | 0 <= i < |first| ensures first[i] != '\n' {
        if i < |id| {
          assert first[i] == id[i];
        } else if |id| < i < |id| + 1 + |from| {
          assert first[i] == from[i - |id| - 1];
        } else if i > |id| + 1 + |from| {
          assert first[i] == verb[i - |id| - |from| - 2];
        }
      }
    }
    ReadTrimmedLine(first, t);
    assert first + "\r\n" == id + [' '] + (from + [' '] + (verb + ['\r'] + "\n"));
    Text.WordThen(id, ' ', from + [' '] + (verb + ['\r'] + "\n"));
    Text.WordThen(from, ' ', verb + ['\r'] + "\n");
    Text.WordThen(verb, '\r', "\n");
    assert Text.SplitWhitespace("\n") == [] by {
      assert "\n"[1..] == "";
    }
  }

  // ---------------------------------------------------------------------
  // Transactions

  /** `Message::is_transaction`: the message carries a transaction id. */
  predicate IsTransaction(m: Message) {
    "transaction_id" in m.params
  }

  /** `Message::build_transaction_approval`: a message from `from` asking to
      approve the transaction, carrying only its id and no content; a
      message without a transaction id panics. */
  function BuildTransactionApproval(m: Message, from: string, freshId: string): (r: Run<Message>)
    ensures r.Done? <==> IsTransaction(m)
    ensures r.Done? ==>
      && r.value.id == freshId && r.value.from == from
      && r.value.verb == "approve_transaction"
      && r.value.params == map["transaction_id" := m.params["transaction_id"]]
      && r.value.content == ""
      && IsTransaction(r.value)
  {
    if "transaction_id" !in m.params then Panicked
    else Done(Build(freshId, from, "approve_transaction", map["transaction_id" := m.params["transaction_id"]], ""))
  }

  /** An approval of an approval asks for the same transaction again. */
  lemma ApprovalOfApproval(m: Message, a: string, b: string, id1: string, id2: string)
    requires IsTransaction(m)
    ensures var r := BuildTransactionApproval(BuildTransactionApproval(m, a, id1).value, b, id2);
      r.Done? && r.value.params["transaction_id"] == m.params["transaction_id"]
  {
  }

  datatype Transaction = Transaction(message: Message, approved: map<string, bool>)

  /** `Transaction::new`: every listed node, none approved yet. */
  function NewTransaction(message: Message, nodes: seq<string>): (t: Transaction)
    ensures t.message == message
    ensures forall n :: n in t.approved <==> n in nodes
    ensures forall n | n in t.approved :: !t.approved[n]
  {
    Transaction(message, map n | n in nodes :: false)
  }

  /** `Transaction::is_approved`: every node has approved. */
  predicate IsApproved(t: Transaction) {
    forall n | n in t.approved :: t.approved[n]
  }

  /** A fresh transaction is approved exactly when it lists no node. */
  lemma NewTransactionApproved(message: Message, nodes: seq<string>)
    ensures IsApproved(NewTransaction(message, nodes)) <==> nodes == []
  {
    if nodes != [] {
      assert nodes[0] in NewTransaction(message, nodes).approved;
    }
  }

  // ---------------------------------------------------------------------
  // Membership

  datatype NetworkNode = NetworkNode(ip: string, port: string)

  /** What each line of an "add_members" content adds: the name before the
      first space, the ip and the port either side of the first ':' after
      it. A line without either separator panics. */
  function AddMemberLines(nodes: map<string, NetworkNode>, lines: seq<string>): Run<map<string, NetworkNode>>
    decreases |lines|
  {
    if lines == [] then Done(nodes)
    else
      match Text.SplitOnce(lines[0], " ")
      case None => Panicked
      case Some((name, data)) =>
        match Text.SplitOnce(data, ":")
        case None => Panicked
        case Some((ip, port)) => AddMemberLines(nodes[name := NetworkNode(ip, port)], lines[1..])
  }

  /** What one request does to the membership map: "connect" adds the
      sender with the given ip and port, "add_member" adds the named node,
      "add_members" adds every listed node, anything else changes nothing.
      A missing parameter or a malformed line panics. */
  function Membership(nodes: map<string, NetworkNode>, message: Message): Run<map<string, NetworkNode>> {
    var p := message.params;
    if message.verb == "connect" then
      if "ip" in p && "port" in p then Done(nodes[message.from := NetworkNode(p["ip"], p["port"])]) else Panicked
    else if message.verb == "add_member" then
      if "ip" in p && "port" in p && "name" in p then Done(nodes[p["name"] := NetworkNode(p["ip"], p["port"])]) else Panicked
    else if message.verb == "add_members" then AddMemberLines(nodes, Text.Split(message.content, '\n'))
    else Done(nodes)
  }

  /** The listing a node sends to a connecting peer: "id ip:port" per node
      in `order`, one per line. */
  function Listing(nodes: map<string, NetworkNode>, order: seq<string>): string
    requires Text.IsOrder(order, nodes.Keys)
  {
    Text.Join(ListingLines(nodes, order), "\n")
  }

  function ListingLines(nodes: map<string, NetworkNode>, order: seq<string>): (r: seq<string>)
    requires forall i | 0 <= i < |order| :: order[i] in nodes
    ensures |r| == |order|
    ensures forall i | 0 <= i < |order| :: r[i] == order[i] + " " + nodes[order[i]].ip + ":" + nodes[order[i]].port
    decreases |order|
  {
    if order == [] then []
    else [order[0] + " " + nodes[order[0]].ip + ":" + nodes[order[0]].port] + ListingLines(nodes, order[1..])
  }

  /** A node a listing can carry: the name has no space, the ip no ':', and
      nothing breaks the line. */
  predicate Listable(name: string, node: NetworkNode) {
    ' ' !in name && ':' !in node.ip && '\n' !in name && '\n' !in node.ip && '\n' !in node.port
  }

  /** The lines of a listing add back the nodes listed. */
  lemma {:induction false} ListingLinesAdd(nodes: map<string, NetworkNode>, from: map<string, NetworkNode>, order: seq<string>)
    requires forall i | 0 <= i < |order| :: order[i] in from && Listable(order[i], from[order[i]])
    ensures AddMemberLines(nodes, ListingLines(from, order)) == Done(Text.Overlaid(nodes, from, order))
    decreases |order|
  {
    if order != [] {
      var name, node := order[0], from[order[0]];
      var lines := ListingLines(from, order);
      assert lines[0] == name + [' '] + (node.ip + [':'] + node.port);
      Text.SplitOnceChar(name, ' ', node.ip + [':'] + node.port);
      Text.SplitOnceChar(node.ip, ':', node.port);
      assert lines[1..] == ListingLines(from, order[1..]);
      ListingLinesAdd(nodes[name := node], from, order[1..]);
    }
  }

  /** A peer that receives the listing of a non-empty membership map adds
      every node of it, overwriting its own entries of the same names. An
      empty listing is one empty line, which panics. */
  lemma ListingRoundTrip(mine: map<string, NetworkNode>, theirs: map<string, NetworkNode>, order: seq<string>)
    requires Text.IsOrder(order, theirs.Keys) && order != []
    requires forall k | k in theirs :: Listable(k, theirs[k])
    ensures AddMemberLines(mine, Text.Split(Listing(theirs, order), '\n')) == Done(mine + theirs)
  {
    var lines := ListingLines(theirs, order);
    ListingLinesOneLine(theirs, order);
    Text.SplitJoin(lines, '\n');
    ListingLinesAdd(mine, theirs, order);
    Text.OverlaidWhole(mine, theirs, order);
  }

  /** No line of a listing holds a line break. */
  lemma ListingLinesOneLine(nodes: map<string, NetworkNode>, order: seq<string>)
    requires forall i | 0 <= i < |order| :: order[i] in nodes && Listable(order[i], nodes[order[i]])
    ensures forall i | 0 <= i < |order| :: '\n' !in ListingLines(nodes, order)[i]
  {
    var lines := ListingLines(nodes, order);
    forall i | 0 <= i < |lines|
      ensures '\n' !in lines[i]
    {
      var node := nodes[order[i]];
      assert lines[i] == order[i] + " " + node.ip + ":" + node.port;
    }
  }

  lemma EmptyListingPanics(mine: map<string, NetworkNode>)
    ensures AddMemberLines(mine, Text.Split("", '\n')) == Panicked
  {
    assert Text.Split("", '\n') == [""];
  }

  /** The line of an "add_members" content names `k`. */
  predicate LineNames(line: string, k: string) {
    Text.SplitOnce(line, " ").Some? && Text.SplitOnce(line, " ").value.0 == k
  }

  /** The node a request adds or overwrites: the sender of "connect", the
      "name" parameter of "add_member", the name on any line of
      "add_members"; other requests name none. */
  predicate Names(message: Message, k: string) {
    if message.verb == "connect" then k == message.from
    else if message.verb == "add_member" then "name" in message.params && message.params["name"] == k
    else if message.verb == "add_members" then
      var lines := Text.Split(message.content, '\n');
      exists i | 0 <= i < |lines| :: LineNames(lines[i], k)
    else false
  }

  /** A request only adds or overwrites nodes: no node is removed, and every
      node it does not name keeps its entry. */
  lemma MembershipKeeps(nodes: map<string, NetworkNode>, message: Message)
    requires Membership(nodes, message).Done?
    ensures nodes.Keys <= Membership(nodes, message).value.Keys
    ensures forall k | k in nodes && !Names(message, k) :: Membership(nodes, message).value[k] == nodes[k]
  {
    if message.verb == "add_members" {
      AddMemberLinesFrame(nodes, Text.Split(message.content, '\n'));
    }
  }

  lemma {:induction false} AddMemberLinesFrame(nodes: map<string, NetworkNode>, lines: seq<string>)
    requires AddMemberLines(nodes, lines).Done?
    ensures nodes.Keys <= AddMemberLines(nodes, lines).value.Keys
    ensures forall k | k in nodes && (forall i | 0 <= i < |lines| :: !LineNames(lines[i], k)) ::
      AddMemberLines(nodes, lines).value[k] == nodes[k]
    decreases |lines|
  {
    if lines != [] {
      var (name, data) := Text.SplitOnce(lines[0], " ").value;
      var (ip, port) := Text.SplitOnce(data, ":").value;
      AddMemberLinesFrame(nodes[name := NetworkNode(ip, port)], lines[1..]);
      forall k | k in nodes && (forall i | 0 <= i < |lines| :: !LineNames(lines[i], k))
        ensures AddMemberLines(nodes, lines).value[k] == nodes[k]
      {
        assert !LineNames(lines[0], k);
        forall i | 0 <= i < |lines[1..]| ensures !LineNames(lines[1..][i], k) {
          assert lines[1..][i] == lines[i + 1];
        }
      }
    }
  }

  /** The text `Network::connect` writes: a "connect" request from `myId`
      carrying this node's ip and port, without a Content-Length line. */
  function ConnectText(freshId: string, myId: string, me: NetworkNode): string {
    freshId + " " + myId + " " + "connect" + "\r\n" + ParamLine("ip", me.ip) + "\r\n" + ParamLine("port", me.port) + "\r\n\r\n"
  }

  /** A value that reads back from a parameter line. */
  predicate ValueSafe(v: string) {
    v != "" && Text.OneLine(v) && !Text.IsWhitespace(v[|v| - 1])
  }

  /** A peer decodes the connect text as a "connect" request from `myId`
      with this node's ip and port and no content. */
  lemma ConnectReadsBack(freshId: string, myId: string, me: NetworkNode)
    requires freshId != "" && Text.NoWhitespace(freshId)
    requires myId != "" && Text.NoWhitespace(myId)
    requires ValueSafe(me.ip) && ValueSafe(me.port)
    ensures ParseMessage(ConnectText(freshId, myId, me))
      == Done(Message(freshId, myId, "connect", map["ip" := me.ip, "port" := me.port], ""))
  {
    var tail := ParamLine("ip", me.ip) + "\r\n" + (ParamLine("port", me.port) + "\r\n" + ("\r\n" + ""));
    assert ConnectText(freshId, myId, me) == freshId + " " + myId + " " + "connect" + "\r\n" + tail;
    assert "connect" != "" && Text.NoWhitespace("connect") by {
      var c := "connect";
      forall i | 0 <= i < |c| ensures !Text.IsWhitespace(c[i]) {
      }
    }
    FirstLineReads(freshId, myId, "connect", tail);
    ConnectParams(me);
  }

  /** The parameter block of the connect text reads as the ip and the port. */
  lemma ConnectParams(me: NetworkNode)
    requires ValueSafe(me.ip) && ValueSafe(me.port)
    ensures ReadParams(ParamLine("ip", me.ip) + "\r\n" + (ParamLine("port", me.port) + "\r\n" + ("\r\n" + "")), map[], 0)
      == Done((map["ip" := me.ip, "port" := me.port], 0, ""))
  {
    KeySafe("ip");
    KeySafe("port");
    LineSafeOf("ip", me.ip);
    LineSafeOf("port", me.port);
    ReadKeyValue("ip", me.ip, ParamLine("port", me.port) + "\r\n" + ("\r\n" + ""), map[], 0);
    ReadKeyValue("port", me.port, "\r\n" + "", map["ip" := me.ip], 0);
    BlankLineEnds("\r\n" + "", "", map["ip" := me.ip, "port" := me.port], 0);
  }

  /** A connecting peer is added under its id with the ip and port it sent. */
  lemma ConnectJoins(nodes: map<string, NetworkNode>, freshId: string, myId: string, me: NetworkNode)
    requires freshId != "" && Text.NoWhitespace(freshId)
    requires myId != "" && Text.NoWhitespace(myId)
    requires ValueSafe(me.ip) && ValueSafe(me.port)
    ensures ParseMessage(ConnectText(freshId, myId, me)).Done?
    ensures Membership(nodes, ParseMessage(ConnectText(freshId, myId, me)).value) == Done(nodes[myId := me])
  {
    ConnectReadsBack(freshId, myId, me);
  }

  /** `Network`: the transactions waiting, the known nodes and this node's id. */
  class Network {
    var callStack: map<string, Transaction>
    var nodes: map<string, NetworkNode>
    var myId: string

    /** `Network::new`, with the fresh uuid given as `freshId`: this node is
        the only member. */
    constructor (ip: string, port: string, freshId: string)
      ensures callStack == map[] && myId == freshId
      ensures nodes == map[freshId := NetworkNode(ip, port)]
    {
      callStack := map[];
      myId := freshId;
      nodes := map[freshId := NetworkNode(ip, port)];
    }

    /** `Network::get_my_node`: this node's entry; panics when it is gone. */
    function GetMyNode(): (r: Run<NetworkNode>)
      reads this
      ensures r.Done? <==> myId in nodes
      ensures r.Done? ==> r.value == nodes[myId]
    {
      if myId in nodes then Done(nodes[myId]) else Panicked
    }

    /** `Network::connect`: the text this node writes to the peer it joins,
        with the fresh uuid given as `freshId`; panics when this node's
        entry is gone. */
    function Connect(freshId: string): (r: Run<string>)
      reads this
      ensures r.Done? <==> myId in nodes
      ensures r.Done? ==> r.value == ConnectText(freshId, myId, nodes[myId])
    {
      match GetMyNode()
      case Panicked => Panicked
      case Done(me) => Done(ConnectText(freshId, myId, me))
    }

    /** `Message::build_transaction`: a transaction awaiting every known node. */
    function BuildTransaction(message: Message, order: seq<string>): (t: Transaction)
      reads this
      requires Text.IsOrder(order, nodes.Keys)
      ensures t.message == message && t.approved.Keys == nodes.Keys
      ensures IsApproved(t) <==> nodes == map[]
    {
      NewTransactionApproved(message, order);
      assert nodes != map[] <==> order != [] by {
        if order != [] { assert order[0] in nodes; }
        if nodes != map[] { var k :| k in nodes; assert k in order; }
      }
      NewTransaction(message, order)
    }

    /** The "add_members" arm: one node per line of the content. */
    method AddMembers(content: string) returns (ok: bool)
      modifies this
      ensures ok <==> AddMemberLines(old(nodes), Text.Split(content, '\n')).Done?
      ensures ok ==> nodes == AddMemberLines(old(nodes), Text.Split(content, '\n')).value
      ensures callStack == old(callStack) && myId == old(myId)
    {
      var lines := Text.Split(content, '\n');
      var i := 0;
      while i < |lines|
        invariant 0 <= i <= |lines|
        invariant AddMemberLines(nodes, lines[i..]) == AddMemberLines(old(nodes), lines)
        invariant callStack == old(callStack) && myId == old(myId)
      {
        assert lines[i..][1..] == lines[i + 1..];
        var nameData := Text.SplitOnce(lines[i], " ");
        if nameData.None? {
          return false;
        }
        var (name, data) := nameData.value;
        var ipPort := Text.SplitOnce(data, ":");
        if ipPort.None? {
          return false;
        }
        var (ip, port) := ipPort.value;
        nodes := nodes[name := NetworkNode(ip, port)];
        i := i + 1;
      }
      assert lines[i..] == [];
      return true;
    }

    /** The membership part of `Network::request` for a decoded message:
        the messages it sends and prints are not modelled. `ok` is false
        where the source panics. */
    method Request(message: Message) returns (ok: bool)
      modifies this
      ensures ok <==> Membership(old(nodes), message).Done?
      ensures ok ==> nodes == Membership(old(nodes), message).value
      ensures callStack == old(callStack) && myId == old(myId)
    {
      var p := message.params;
      if message.verb == "connect" {
        if "ip" !in p || "port" !in p {
          return false;
        }
        nodes := nodes[message.from := NetworkNode(p["ip"], p["port"])];
        return true;
      } else if message.verb == "add_member" {
        if "ip" !in p || "port" !in p || "name" !in p {
          return false;
        }
        nodes := nodes[p["name"] := NetworkNode(p["ip"], p["port"])];
        return true;
      } else if message.verb == "add_members" {
        ok := AddMembers(message.content);
      } else {
        return true;
      }
    }
  }
}
