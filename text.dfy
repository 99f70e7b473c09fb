/** The parts of Rust's `str` API that the gateway relies on (splitting,
    joining, trimming, line reading and decimal numbers), written as
    functions over character sequences, with the facts the codecs need. */
module Text {
  import opened Wrappers

  // ---------------------------------------------------------------------
  // Characters

  /** `char::is_whitespace`: the characters with the Unicode White_Space property. */
  predicate IsWhitespace(c: char) {
    ('\t' <= c <= '\r') || c == ' ' || c == '\U{0085}' || c == '\U{00A0}' || c == '\U{1680}'
    || ('\U{2000}' <= c <= '\U{200A}') || c == '\U{2028}' || c == '\U{2029}'
    || c == '\U{202F}' || c == '\U{205F}' || c == '\U{3000}'
  }

  predicate NoWhitespace(s: string) {
    forall i | 0 <= i < |s| :: !IsWhitespace(s[i])
  }

  /** No line break inside: the text stays on one line of the framing. */
  predicate OneLine(s: string) {
    '\r' !in s && '\n' !in s
  }

  // ---------------------------------------------------------------------
  // Splitting on one character, joining, path segments

  /** `s.split(sep)` for a one-character separator: there is always at least one piece. */
  function Split(s: string, sep: char): (r: seq<string>)
    ensures |r| >= 1
    decreases |s|
  {
    if s == [] then [""]
    else
      var rest := Split(s[1..], sep);
      if s[0] == sep then [""] + rest else [[s[0]] + rest[0]] + rest[1..]
  }

  /** `.filter(|el| !el.is_empty())` over a sequence of pieces. */
  function NonEmpty(xs: seq<string>): seq<string>
    decreases |xs|
  {
    if xs == [] then [] else (if xs[0] == "" then [] else [xs[0]]) + NonEmpty(xs[1..])
  }

  /** The non-empty `/`-separated segments of a path (`split_path`). */
  function SplitPath(path: string): seq<string> {
    NonEmpty(Split(path, '/'))
  }

  predicate IsSegment(x: string) {
    x != "" && '/' !in x
  }

  predicate Segments(xs: seq<string>) {
    forall i | 0 <= i < |xs| :: IsSegment(xs[i])
  }

  /** `Vec<String>::join(sep)` */
  function Join(xs: seq<string>, sep: string): string
    decreases |xs|
  {
    if xs == [] then "" else if |xs| == 1 then xs[0] else xs[0] + sep + Join(xs[1..], sep)
  }

  lemma {:induction false} SplitPiecesAvoidSep(s: string, sep: char)
    ensures forall i | 0 <= i < |Split(s, sep)| :: sep !in Split(s, sep)[i]
    decreases |s|
  {
    if s != [] {
      SplitPiecesAvoidSep(s[1..], sep);
      var rest := Split(s[1..], sep);
      if s[0] != sep {
        assert sep !in rest[0];
        assert sep !in [s[0]] + rest[0];
      }
    }
  }

  lemma {:induction false} NonEmptyPieces(xs: seq<string>)
    ensures forall i | 0 <= i < |NonEmpty(xs)| :: NonEmpty(xs)[i] != "" && NonEmpty(xs)[i] in xs
    decreases |xs|
  {
    if xs != [] {
      NonEmptyPieces(xs[1..]);
      forall i | 0 <= i < |NonEmpty(xs[1..])|
        ensures NonEmpty(xs[1..])[i] in xs
      {
        assert NonEmpty(xs[1..])[i] in xs[1..];
      }
    }
  }

  /** Every segment `split_path` yields is non-empty and free of '/'. */
  lemma SplitPathSegments(path: string)
    ensures Segments(SplitPath(path))
  {
    SplitPiecesAvoidSep(path, '/');
    NonEmptyPieces(Split(path, '/'));
    var xs := Split(path, '/');
    forall i | 0 <= i < |NonEmpty(xs)|
      ensures IsSegment(NonEmpty(xs)[i])
    {
      var k :| 0 <= k < |xs| && xs[k] == NonEmpty(xs)[i];
    }
  }

  /** Filtering distributes over concatenation (used for `split(..).chain(split(..))`). */
  lemma {:induction false} NonEmptyAppend(a: seq<string>, b: seq<string>)
    ensures NonEmpty(a + b) == NonEmpty(a) + NonEmpty(b)
    decreases |a|
  {
    if a == [] {
      assert a + b == b;
    } else {
      assert (a + b)[1..] == a[1..] + b;
      NonEmptyAppend(a[1..], b);
    }
  }

  lemma {:induction false} NonEmptyOfSegments(xs: seq<string>)
    requires forall i | 0 <= i < |xs| :: xs[i] != ""
    ensures NonEmpty(xs) == xs
    decreases |xs|
  {
    if xs != [] {
      NonEmptyOfSegments(xs[1..]);
    }
  }

  lemma {:induction false} SplitWithoutSep(x: string, sep: char)
    requires sep !in x
    ensures Split(x, sep) == [x]
    decreases |x|
  {
    if x != [] {
      SplitWithoutSep(x[1..], sep);
      assert [x[0]] + x[1..] == x;
    }
  }

  lemma {:induction false} SplitAfterPiece(x: string, sep: char, t: string)
    requires sep !in x
    ensures Split(x + [sep] + t, sep) == [x] + Split(t, sep)
    decreases |x|
  {
    var s := x + [sep] + t;
    if x == [] {
      assert s[1..] == t;
    } else {
      assert s[1..] == x[1..] + [sep] + t;
      SplitAfterPiece(x[1..], sep, t);
      assert [x[0]] + x[1..] == x;
    }
  }

  /** Splitting a joined list gives the list back when no piece holds the separator. */
  lemma {:induction false} SplitJoin(xs: seq<string>, sep: char)
    requires |xs| >= 1
    requires forall i | 0 <= i < |xs| :: sep !in xs[i]
    ensures Split(Join(xs, [sep]), sep) == xs
    decreases |xs|
  {
    if |xs| == 1 {
      SplitWithoutSep(xs[0], sep);
    } else {
      SplitJoin(xs[1..], sep);
      SplitAfterPiece(xs[0], sep, Join(xs[1..], [sep]));
      assert xs[0] + [sep] + Join(xs[1..], [sep]) == Join(xs, [sep]);
      assert [xs[0]] + xs[1..] == xs;
    }
  }

  /** `split_path(xs.join("/")) == xs` for segment lists. */
  lemma SplitPathJoin(xs: seq<string>)
    requires Segments(xs)
    ensures SplitPath(Join(xs, "/")) == xs
  {
    if xs == [] {
      assert Split("", '/') == [""];
    } else {
      SplitJoin(xs, '/');
      NonEmptyOfSegments(xs);
    }
  }

  /** Splitting the path that remains after dropping the first segment
      (`parts[1..].join("/")`) yields the remaining segments. */
  lemma SplitPathRest(path: string)
    requires SplitPath(path) != []
    ensures var parts := SplitPath(path);
      && SplitPath(Join(parts[1..], "/")) == parts[1..]
      && (Join(parts[1..], "/") == "" <==> parts[1..] == [])
  {
    var parts := SplitPath(path);
    SplitPathSegments(path);
    assert Segments(parts[1..]);
    SplitPathJoin(parts[1..]);
    JoinSegmentsEmpty(parts[1..], "/");
  }

  /** A joined segment list is empty exactly when the list is. */
  lemma JoinSegmentsEmpty(xs: seq<string>, sep: string)
    requires Segments(xs)
    ensures Join(xs, sep) == "" <==> xs == []
  {
    if |xs| > 1 {
      assert Join(xs, sep) == xs[0] + sep + Join(xs[1..], sep);
      assert |Join(xs, sep)| >= |xs[0]| > 0;
    }
  }

  // ---------------------------------------------------------------------
  // Trimming and whitespace-separated words

  function TrimStart(s: string): string
    decreases |s|
  {
    if s != [] && IsWhitespace(s[0]) then TrimStart(s[1..]) else s
  }

  function TrimEnd(s: string): string
    decreases |s|
  {
    if s != [] && IsWhitespace(s[|s| - 1]) then TrimEnd(s[..|s| - 1]) else s
  }

  /** `str::trim` */
  function Trim(s: string): string {
    TrimEnd(TrimStart(s))
  }

  /** A line whose text neither starts nor ends with whitespace trims to that text. */
  lemma TrimLine(x: string)
    requires x != [] && !IsWhitespace(x[0]) && !IsWhitespace(x[|x| - 1])
    ensures Trim(x + "\r\n") == x
  {
    var s := x + "\r\n";
    assert TrimStart(s) == s;
    assert s[..|s| - 1] == x + "\r";
    assert (x + "\r")[..|x|] == x;
    assert TrimEnd(x) == x;
    assert TrimEnd(x + "\r") == TrimEnd(x);
    assert TrimEnd(s) == TrimEnd(x + "\r");
  }

  lemma TrimBlankLine()
    ensures Trim("\r\n") == ""
    ensures Trim("") == ""
  {
    assert TrimStart("\r\n") == TrimStart("\n") == TrimStart("") == "";
  }

  /** Length of the leading run of non-whitespace characters. */
  function WordEnd(s: string): (n: nat)
    ensures n <= |s|
    decreases |s|
  {
    if s == [] || IsWhitespace(s[0]) then 0 else 1 + WordEnd(s[1..])
  }

  /** `str::split_whitespace`: the maximal runs of non-whitespace characters. */
  function SplitWhitespace(s: string): seq<string>
    decreases |s|
  {
    if s == [] then []
    else if IsWhitespace(s[0]) then SplitWhitespace(s[1..])
    else
      var n := WordEnd(s);
      [s[..n]] + SplitWhitespace(s[n..])
  }

  lemma {:induction false} WordEndOfWord(w: string, t: string)
    requires NoWhitespace(w)
    requires t == [] || IsWhitespace(t[0])
    ensures WordEnd(w + t) == |w|
    decreases |w|
  {
    if w == [] {
      assert w + t == t;
    } else {
      assert (w + t)[1..] == w[1..] + t;
      WordEndOfWord(w[1..], t);
    }
  }

  /** A word followed by a whitespace character is the first token. */
  lemma WordThen(w: string, c: char, t: string)
    requires w != [] && NoWhitespace(w) && IsWhitespace(c)
    ensures SplitWhitespace(w + [c] + t) == [w] + SplitWhitespace(t)
  {
    var s := w + [c] + t;
    WordEndOfWord(w, [c] + t);
    assert s == w + ([c] + t);
    assert s[..|w|] == w;
    assert s[|w|..] == [c] + t;
    assert ([c] + t)[1..] == t;
  }

  lemma WordAlone(w: string)
    requires w != [] && NoWhitespace(w)
    ensures SplitWhitespace(w) == [w]
  {
    WordEndOfWord(w, []);
    assert w + [] == w;
  }

  // ---------------------------------------------------------------------
  // Searching

  /** `pat` occurs in `s` starting at `i`. */
  predicate OccursAt(s: string, pat: string, i: nat) {
    i + |pat| <= |s| && s[i..i + |pat|] == pat
  }

  /** Index of the first occurrence of `pat` in `s`; `None` when there is none. */
  function Find(s: string, pat: string): (r: Option<nat>)
    ensures r.Some? ==> OccursAt(s, pat, r.value) && forall i: nat | i < r.value :: !OccursAt(s, pat, i)
    ensures r.None? ==> forall i: nat :: !OccursAt(s, pat, i)
    decreases |s|
  {
    if |s| < |pat| then None
    else if s[..|pat|] == pat then Some(0)
    else
      ShiftOccurs(s, pat);
      match Find(s[1..], pat)
      case None => None
      case Some(i) => Some(i + 1)
  }

  /** Past the first character, an occurrence in `s` is one in `s[1..]`. */
  lemma ShiftOccurs(s: string, pat: string)
    requires s != []
    ensures forall i: nat | 1 <= i :: OccursAt(s, pat, i) <==> OccursAt(s[1..], pat, i - 1)
  {
    forall i: nat | 1 <= i
      ensures OccursAt(s, pat, i) <==> OccursAt(s[1..], pat, i - 1)
    {
      if i + |pat| <= |s| {
        assert s[i..i + |pat|] == s[1..][i - 1..i - 1 + |pat|];
      }
    }
  }

  predicate Contains(s: string, pat: string) {
    Find(s, pat).Some?
  }

  /** `str::split_once(pat)`: the text before and after the first occurrence. */
  function SplitOnce(s: string, pat: string): Option<(string, string)> {
    match Find(s, pat)
    case None => None
    case Some(i) => Some((s[..i], s[i + |pat|..]))
  }

  /** `str::rfind(c)`: index of the last occurrence. */
  function RFind(s: string, c: char): (r: Option<nat>)
    ensures r.Some? ==> r.value < |s| && s[r.value] == c
    ensures r.None? ==> c !in s
    decreases |s|
  {
    if s == [] then None
    else if s[|s| - 1] == c then Some(|s| - 1)
    else
      var r := RFind(s[..|s| - 1], c);
      assert r.None? ==> c !in s by {
        if r.None? {
          assert s == s[..|s| - 1] + [s[|s| - 1]];
        }
      }
      r
  }

  /** The last `c` of `x + [c] + y` is the one after `x` when `y` has none. */
  lemma {:induction false} RFindLast(x: string, c: char, y: string)
    requires c !in y
    ensures RFind(x + [c] + y, c) == Some(|x|)
    decreases |y|
  {
    var s := x + [c] + y;
    if y != [] {
      assert s[..|s| - 1] == x + [c] + y[..|y| - 1];
      assert y[|y| - 1] in y;
      RFindLast(x, c, y[..|y| - 1]);
    }
  }

  lemma {:induction false} FindKeyValue(k: string, v: string)
    requires !Contains(k, ": ")
    ensures Find(k + ": " + v, ": ") == Some(|k|)
    decreases |k|
  {
    var s := k + ": " + v;
    if k != [] {
      if |k| >= 2 {
        assert s[..2] == k[..2];
        assert Find(k, ": ") != Some(0);
      } else {
        assert s[..2] == [k[0], ':'];
      }
      assert !Contains(k[1..], ": ") by {
        if |k| >= 2 {
          assert k[..2] != ": ";
        }
      }
      assert s[1..] == k[1..] + ": " + v;
      FindKeyValue(k[1..], v);
    }
  }

  /** `"k: v".split_once(": ")` recovers `(k, v)` when `k` does not hold ": ". */
  lemma SplitOnceKeyValue(k: string, v: string)
    requires !Contains(k, ": ")
    ensures SplitOnce(k + ": " + v, ": ") == Some((k, v))
  {
    FindKeyValue(k, v);
    var s := k + ": " + v;
    assert s[..|k|] == k;
    assert s[|k| + 2..] == v;
  }

  lemma {:induction false} FindChar(k: string, c: char, v: string)
    requires c !in k
    ensures Find(k + [c] + v, [c]) == Some(|k|)
    decreases |k|
  {
    var s := k + [c] + v;
    if k != [] {
      assert s[..1] == [k[0]];
      assert s[1..] == k[1..] + [c] + v;
      FindChar(k[1..], c, v);
    }
  }

  /** `(k + c + v).split_once(c)` recovers `(k, v)` when `k` does not hold `c`. */
  lemma SplitOnceChar(k: string, c: char, v: string)
    requires c !in k
    ensures SplitOnce(k + [c] + v, [c]) == Some((k, v))
  {
    FindChar(k, c, v);
    var s := k + [c] + v;
    assert s[..|k|] == k;
    assert s[|k| + 1..] == v;
  }

  // ---------------------------------------------------------------------
  // Reading a stream line by line

  /** `BufRead::read_line`: everything up to and including the first '\n'
      (all that is left when there is none), and the input after it. */
  function ReadLine(s: string): (r: (string, string))
    ensures r.0 + r.1 == s
    ensures r.0 == [] <==> s == []
    decreases |s|
  {
    if s == [] then ("", "")
    else if s[0] == '\n' then ("\n", s[1..])
    else
      var (line, rest) := ReadLine(s[1..]);
      ([s[0]] + line, rest)
  }

  lemma {:induction false} ReadLineAt(x: string, t: string)
    requires '\n' !in x
    ensures ReadLine(x + "\n" + t) == (x + "\n", t)
    decreases |x|
  {
    var s := x + "\n" + t;
    if x == [] {
      assert s[1..] == t;
    } else {
      assert s[1..] == x[1..] + "\n" + t;
      ReadLineAt(x[1..], t);
      assert [x[0]] + (x[1..] + "\n") == x + "\n";
    }
  }

  /** `Read::take(n).read_to_string`: at most `n` characters. */
  function Take(s: string, n: nat): string {
    if n <= |s| then s[..n] else s
  }

  // ---------------------------------------------------------------------
  // Decimal numbers

  const U16_LIMIT: nat := 0x1_0000
  const U64_MAX: nat := 0xFFFF_FFFF_FFFF_FFFF
  /** `usize::MAX` on a 64-bit target. */
  const USIZE_MAX: nat := 0xFFFF_FFFF_FFFF_FFFF
  const I64_MIN: int := -0x8000_0000_0000_0000
  const I64_MAX: int := 0x7FFF_FFFF_FFFF_FFFF

  predicate IsDigit(c: char) {
    '0' <= c <= '9'
  }

  predicate AllDigits(s: string) {
    forall i | 0 <= i < |s| :: IsDigit(s[i])
  }

  function DigitChar(d: nat): char
    requires d < 10
  {
    (d + '0' as int) as char
  }

  /** `n.to_string()` for a non-negative integer. */
  function NatToString(n: nat): string
    decreases n
  {
    if n < 10 then [DigitChar(n)] else NatToString(n / 10) + [DigitChar(n % 10)]
  }

  /** `n.to_string()` (and `format!("{}", n)`) for a signed integer. */
  function IntToString(n: int): string {
    if n < 0 then "-" + NatToString(-n) else NatToString(n)
  }

  function DigitsValue(s: string): nat
    requires AllDigits(s)
    decreases |s|
  {
    if s == [] then 0 else DigitsValue(s[..|s| - 1]) * 10 + (s[|s| - 1] as int - '0' as int)
  }

  /** `str::parse` into an unsigned integer type whose largest value is `max`:
      an optional '+', then one or more ASCII digits. */
  function ParseUnsigned(s: string, max: nat): Option<nat> {
    var digits := if s != [] && s[0] == '+' then s[1..] else s;
    if digits != [] && AllDigits(digits) && DigitsValue(digits) <= max then Some(DigitsValue(digits))
    else None
  }

  /** `str::parse::<i64>`: an optional sign, then one or more ASCII digits. */
  function ParseI64(s: string): Option<int> {
    if s != [] && s[0] == '-' then
      var digits := s[1..];
      if digits != [] && AllDigits(digits) && -(DigitsValue(digits) as int) >= I64_MIN then Some(-(DigitsValue(digits) as int))
      else None
    else
      match ParseUnsigned(s, I64_MAX)
      case None => None
      case Some(n) => Some(n)
  }

  lemma {:induction false} NatToStringDigits(n: nat)
    ensures NatToString(n) != [] && AllDigits(NatToString(n))
    ensures DigitsValue(NatToString(n)) == n
    decreases n
  {
    if n >= 10 {
      NatToStringDigits(n / 10);
      var s := NatToString(n);
      assert s[..|s| - 1] == NatToString(n / 10);
    }
  }

  /** Printing a number and parsing it back gives the number. */
  lemma ParseUnsignedOfNat(n: nat, max: nat)
    requires n <= max
    ensures ParseUnsigned(NatToString(n), max) == Some(n)
  {
    NatToStringDigits(n);
  }

  lemma ParseI64OfInt(n: int)
    requires I64_MIN <= n <= I64_MAX
    ensures ParseI64(IntToString(n)) == Some(n)
  {
    if n < 0 {
      NatToStringDigits(-n);
      assert ("-" + NatToString(-n))[1..] == NatToString(-n);
    } else {
      NatToStringDigits(n);
    }
  }

  lemma NatToStringOneWord(n: nat)
    ensures NatToString(n) != [] && NoWhitespace(NatToString(n)) && OneLine(NatToString(n))
    ensures ':' !in NatToString(n)
  {
    NatToStringDigits(n);
  }

  lemma IntToStringOneWord(n: int)
    ensures IntToString(n) != [] && NoWhitespace(IntToString(n)) && OneLine(IntToString(n))
    ensures ':' !in IntToString(n)
  {
    if n < 0 {
      NatToStringOneWord(-n);
      var s := IntToString(n);
      assert s == "-" + NatToString(-n);
      forall i | 0 <= i < |s| ensures !IsWhitespace(s[i]) && s[i] != ':' && s[i] != '\r' && s[i] != '\n' {
        if i > 0 {
          assert s[i] == NatToString(-n)[i - 1];
        }
      }
    } else {
      NatToStringOneWord(n);
    }
  }

  // ---------------------------------------------------------------------
  // Ordering of strings (the key order of a `BTreeMap<String, _>`)

  /** `<` on Rust strings: lexicographic by character. */
  predicate StrLess(a: string, b: string)
    decreases |a|
  {
    if a == [] then b != []
    else if b == [] then false
    else if a[0] != b[0] then a[0] < b[0]
    else StrLess(a[1..], b[1..])
  }

  lemma {:induction false} StrLessIrreflexive(a: string)
    ensures !StrLess(a, a)
    decreases |a|
  {
    if a != [] {
      StrLessIrreflexive(a[1..]);
    }
  }

  lemma {:induction false} StrLessTotal(a: string, b: string)
    ensures a == b || StrLess(a, b) || StrLess(b, a)
    decreases |a|
  {
    if a != [] && b != [] && a[0] == b[0] {
      StrLessTotal(a[1..], b[1..]);
      if a[1..] == b[1..] {
        assert a == [a[0]] + a[1..] && b == [b[0]] + b[1..];
      }
    }
  }

  lemma {:induction false} StrLessTransitive(a: string, b: string, c: string)
    requires StrLess(a, b) && StrLess(b, c)
    ensures StrLess(a, c)
    decreases |a|
  {
    if a != [] && a[0] == b[0] && b[0] == c[0] {
      StrLessTransitive(a[1..], b[1..], c[1..]);
    }
  }

  lemma StrLessAsymmetric(a: string, b: string)
    requires StrLess(a, b)
    ensures !StrLess(b, a)
  {
    if StrLess(b, a) {
      StrLessTransitive(a, b, a);
      StrLessIrreflexive(a);
    }
  }

  // ---------------------------------------------------------------------
  // Maps read in iteration order

  /** `order` lists the keys of a map once each: the order in which a
      `HashMap` happens to iterate them. */
  predicate IsOrder(order: seq<string>, keys: set<string>) {
    && (forall k | k in keys :: k in order)
    && (forall i | 0 <= i < |order| :: order[i] in keys)
    && (forall i, j | 0 <= i < j < |order| :: order[i] != order[j])
  }

  /** `acc` with the entries of `h` at the keys of `order` inserted one after the other. */
  function Overlaid<V>(acc: map<string, V>, h: map<string, V>, order: seq<string>): map<string, V>
    requires forall i | 0 <= i < |order| :: order[i] in h
    decreases |order|
  {
    if order == [] then acc else Overlaid(acc[order[0] := h[order[0]]], h, order[1..])
  }

  /** Inserting the entries of `order` adds exactly those keys, with their values. */
  lemma {:induction false} OverlaidHolds<V>(acc: map<string, V>, h: map<string, V>, order: seq<string>)
    requires forall i | 0 <= i < |order| :: order[i] in h
    ensures forall k :: k in Overlaid(acc, h, order) <==> k in acc || k in order
    ensures forall k | k in order :: Overlaid(acc, h, order)[k] == h[k]
    ensures forall k | k in acc && k !in order :: Overlaid(acc, h, order)[k] == acc[k]
    decreases |order|
  {
    if order != [] {
      OverlaidHolds(acc[order[0] := h[order[0]]], h, order[1..]);
      assert order == [order[0]] + order[1..];
    }
  }

  /** Inserting every entry of a map, in its iteration order, is the union
      in which that map's entries win. */
  lemma OverlaidWhole<V>(acc: map<string, V>, h: map<string, V>, order: seq<string>)
    requires IsOrder(order, h.Keys)
    ensures Overlaid(acc, h, order) == acc + h
  {
    OverlaidHolds(acc, h, order);
  }
}
