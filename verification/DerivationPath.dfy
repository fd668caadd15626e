/** Reading and printing numbers and text the way Go's standard library does. */
module Texts {
  import opened Transactions

  /** White space as Unicode defines it. */
  predicate IsSpace(c: char) {
    c in {'\t', '\n', '\U{0B}', '\U{0C}', '\r', ' ', '\U{85}', '\U{A0}', '\U{1680}', '\U{2028}', '\U{2029}', '\U{202F}',
          '\U{205F}', '\U{3000}'} || '\U{2000}' <= c <= '\U{200A}'
  }

  function TrimLeft(s: string): string {
    if s != [] && IsSpace(s[0]) then TrimLeft(s[1..]) else s
  }

  function TrimRight(s: string): string {
    if s != [] && IsSpace(s[|s| - 1]) then TrimRight(s[..|s| - 1]) else s
  }

  function TrimSpace(s: string): string {
    TrimRight(TrimLeft(s))
  }

  /** The text has no white space at either end. */
  predicate Trim(s: string) {
    s == [] || (!IsSpace(s[0]) && !IsSpace(s[|s| - 1]))
  }

  lemma TrimmedIs(s: string)
    requires Trim(s)
    ensures TrimSpace(s) == s
  {
  }

  /** The pieces of a text between separators; there is always at least one. */
  function Split(s: string, sep: char): (pieces: seq<string>)
    ensures pieces != []
  {
    if s == [] then [[]]
    else if s[0] == sep then [[]] + Split(s[1..], sep)
    else
      var rest := Split(s[1..], sep);
      [[s[0]] + rest[0]] + rest[1..]
  }

  /** A piece without separators comes off whole. */
  lemma {:induction false} SplitPiece(piece: string, rest: string, sep: char)
    requires sep !in piece
    ensures Split(piece + [sep] + rest, sep) == [piece] + Split(rest, sep)
  {
    var s := piece + [sep] + rest;
    if piece == [] {
      assert s[1..] == rest;
    } else {
      assert s[1..] == piece[1..] + [sep] + rest;
      SplitPiece(piece[1..], rest, sep);
      assert [piece[0]] + piece[1..] == piece;
    }
  }

  lemma {:induction false} SplitLast(piece: string, sep: char)
    requires sep !in piece
    ensures Split(piece, sep) == [piece]
  {
    if piece != [] {
      SplitLast(piece[1..], sep);
      assert [piece[0]] + piece[1..] == piece;
    }
  }

  /** The value of a digit in bases up to 36. */
  function DigitOf(c: char): nat {
    if '0' <= c <= '9' then c as nat - '0' as nat
    else if 'a' <= c <= 'z' then c as nat - 'a' as nat + 10
    else if 'A' <= c <= 'Z' then c as nat - 'A' as nat + 10
    else 63
  }

  /**
    * The number spelled by all of `s` after a value of `acc`. An underscore may follow a digit or a
    * base prefix, and must be followed by a digit.
    */
  function Scan(s: string, base: nat, acc: nat, afterDigit: bool, any: bool): Option<nat>
    decreases s
  {
    if s == [] then
      if any && afterDigit then Some(acc) else None
    else if s[0] == '_' then
      if afterDigit then Scan(s[1..], base, acc, false, any) else None
    else if DigitOf(s[0]) < base then Scan(s[1..], base, acc * base + DigitOf(s[0]), true, true)
    else None
  }

  /** An unsigned number with an optional base prefix; a leading zero alone makes it octal. */
  function ScanNat(s: string): Option<nat> {
    if s == [] then None
    else if s[0] != '0' then Scan(s, 10, 0, false, false)
    else if |s| == 1 then Some(0)
    else if s[1] in {'b', 'B'} then Scan(s[2..], 2, 0, true, false)
    else if s[1] in {'o', 'O'} then Scan(s[2..], 8, 0, true, false)
    else if s[1] in {'x', 'X'} then Scan(s[2..], 16, 0, true, false)
    else Scan(s[1..], 8, 0, true, false)
  }

  /** A number with an optional sign. */
  function ScanInt(s: string): Option<int> {
    if s == [] then None
    else if s[0] == '-' then
      match ScanNat(s[1..]) case Some(v) => Some(-(v as int)) case None => None
    else
      match ScanNat(if s[0] == '+' then s[1..] else s) case Some(v) => Some(v as int) case None => None
  }

  function Digit(d: nat): (c: char)
    requires d < 10
    ensures '0' <= c <= '9' && DigitOf(c) == d
  {
    ['0', '1', '2', '3', '4', '5', '6', '7', '8', '9'][d]
  }

  /** The decimal numeral of a number. */
  function Decimal(v: nat): (s: string)
    ensures s != [] && forall i :: 0 <= i < |s| ==> '0' <= s[i] <= '9'
  {
    if v < 10 then [Digit(v)] else Decimal(v / 10) + [Digit(v % 10)]
  }

  lemma {:induction false} ScanDecimal(v: nat, rest: string, afterDigit: bool, any: bool)
    ensures Scan(Decimal(v) + rest, 10, 0, afterDigit, any) == Scan(rest, 10, v, true, true)
  {
    var s := Decimal(v) + rest;
    if v < 10 {
      assert s[1..] == rest && s[0] == Digit(v);
    } else {
      var d := Digit(v % 10);
      var more := [d] + rest;
      assert s == Decimal(v / 10) + more;
      ScanDecimal(v / 10, more, afterDigit, any);
      assert more[1..] == rest && more[0] == d;
    }
  }

  lemma {:induction false} DecimalStarts(v: nat)
    ensures Decimal(v)[0] == '0' <==> v == 0
    ensures v == 0 ==> Decimal(v) == ['0']
  {
    if v >= 10 {
      DecimalStarts(v / 10);
    }
  }

  /** Printing a number and reading it gives it back. */
  lemma DecimalReads(v: nat)
    ensures ScanInt(Decimal(v)) == Some(v)
  {
    DecimalStarts(v);
    if v > 0 {
      ScanDecimal(v, [], false, false);
      assert Decimal(v) + [] == Decimal(v);
    }
  }
}

/** Hierarchical deterministic wallet paths as text and as 32-bit components. */
module DerivationPaths {
  import opened Transactions
  import opened Texts

  const HARDENED: nat := 0x8000_0000
  const MAX_UINT32: nat := 0xFFFF_FFFF

  const DEFAULT_ROOT: seq<nat> := [HARDENED + 44, HARDENED + 60, HARDENED + 0, 0]

  datatype PathError = Ambiguous | EmptyPath | Invalid(component: string) | OutOfRange(value: int, max: nat)

  datatype Result<T> = Ok(value: T) | Err(error: PathError)

  /** One component: a number, hardened if a quote follows, that fits 32 bits with the hardened bit added. */
  function ParseComponent(text: string): Result<nat> {
    var trimmed := TrimSpace(text);
    var hardened := trimmed != [] && trimmed[|trimmed| - 1] == '\'';
    var body := if hardened then TrimSpace(trimmed[..|trimmed| - 1]) else trimmed;
    var base := if hardened then HARDENED else 0;
    var max := MAX_UINT32 - base;
    match ScanInt(body)
    case None => Err(Invalid(body))
    case Some(v) => if v < 0 || v > max then Err(OutOfRange(v, max)) else Ok(base + v)
  }

  /** The components of a path in order, or the first error among them. */
  function ParseAll(texts: seq<string>): Result<seq<nat>> {
    if texts == [] then Ok([])
    else
      match ParseComponent(texts[0])
      case Err(e) => Err(e)
      case Ok(v) =>
        match ParseAll(texts[1..])
        case Err(e) => Err(e)
        case Ok(vs) => Ok([v] + vs)
  }

  function Prefixed(root: seq<nat>, r: Result<seq<nat>>): Result<seq<nat>> {
    match r case Ok(vs) => Ok(root + vs) case Err(e) => Err(e)
  }

  function ParsePath(text: string): Result<seq<nat>> {
    var pieces := Split(text, '/');
    var first := TrimSpace(pieces[0]);
    if first == [] then Err(Ambiguous)
    else if first == ['m'] then
      if |pieces| == 1 then Err(EmptyPath) else ParseAll(pieces[1..])
    else Prefixed(DEFAULT_ROOT, ParseAll(pieces))
  }

  predicate IsPath(path: seq<nat>) {
    forall i :: 0 <= i < |path| ==> path[i] <= MAX_UINT32
  }

  /** Converts a path text, component by component. */
  method ParseDerivationPath(text: string) returns (r: Result<seq<nat>>)
    ensures r == ParsePath(text)
  {
    hide ParseComponent, ParseAll, Split, TrimSpace, Prefixed;
    var result: seq<nat> := [];
    var components := Split(text, '/');
    var first := TrimSpace(components[0]);
    if first == [] {
      return Err(Ambiguous);
    } else if first == ['m'] {
      components := components[1..];
    } else {
      result := DEFAULT_ROOT;
    }
    if |components| == 0 {
      return Err(EmptyPath);
    }
    ghost var root := result;
    PrefixedAll(root, components);
    for i := 0 to |components|
      invariant Prefixed(root, ParseAll(components)) == Prefixed(result, ParseAll(components[i..]))
    {
      PrefixedStep(result, components, i);
      match ParseComponent(components[i])
      case Err(e) => return Err(e);
      case Ok(v) => result := result + [v];
    }
    PrefixedNone(result, components);
    return Ok(result);
  }

  lemma PrefixedAll(root: seq<nat>, texts: seq<string>)
    ensures Prefixed(root, ParseAll(texts)) == Prefixed(root, ParseAll(texts[0..]))
    ensures root == [] ==> Prefixed(root, ParseAll(texts)) == ParseAll(texts)
  {
    assert texts[0..] == texts;
    if ParseAll(texts).Ok? {
      assert [] + ParseAll(texts).value == ParseAll(texts).value;
    }
  }

  lemma PrefixedNone(root: seq<nat>, texts: seq<string>)
    ensures Prefixed(root, ParseAll(texts[|texts|..])) == Ok(root)
  {
    assert root + [] == root;
  }

  lemma PrefixedStep(root: seq<nat>, texts: seq<string>, i: nat)
    requires i < |texts|
    ensures Prefixed(root, ParseAll(texts[i..])) ==
              match ParseComponent(texts[i])
              case Err(e) => Err(e)
              case Ok(v) => Prefixed(root + [v], ParseAll(texts[i + 1..]))
  {
    hide ParseComponent;
    assert texts[i..][1..] == texts[i + 1..];
    match ParseComponent(texts[i])
    case Err(_) =>
    case Ok(v) =>
      match ParseAll(texts[i + 1..])
      case Err(_) =>
      case Ok(vs) => assert root + ([v] + vs) == root + [v] + vs;
  }

  function PrintComponent(c: nat): string {
    if c >= HARDENED then Decimal(c - HARDENED) + ['\''] else Decimal(c)
  }

  /** The canonical text of a path. */
  function Print(path: seq<nat>): string {
    if path == [] then ['m'] else Print(path[..|path| - 1]) + ['/'] + PrintComponent(path[|path| - 1])
  }

  method ToString(path: seq<nat>) returns (text: string)
    ensures text == Print(path)
  {
    hide Decimal;
    text := ['m'];
    for i := 0 to |path|
      invariant text == Print(path[..i])
    {
      var component := path[i];
      var hardened := false;
      if component >= HARDENED {
        component := component - HARDENED;
        hardened := true;
      }
      ghost var before := text + ['/'];
      text := text + ['/'] + Decimal(component);
      if hardened {
        text := text + ['\''];
      }
      assert text == before + PrintComponent(path[i]);
      assert path[..i + 1][..i] == path[..i];
    }
    assert path[..|path|] == path;
  }

  /** A printed component reads as itself. */
  lemma ComponentReads(c: nat)
    requires c <= MAX_UINT32
    ensures ParseComponent(PrintComponent(c)) == Ok(c) && '/' !in PrintComponent(c)
  {
    var v := if c >= HARDENED then c - HARDENED else c;
    var digits := Decimal(v);
    DecimalReads(v);
    TrimmedIs(digits);
    TrimmedIs(PrintComponent(c));
    if c >= HARDENED {
      assert PrintComponent(c)[..|PrintComponent(c)| - 1] == digits;
    }
  }

  /** The printed components, each after a slash. */
  function Tail(path: seq<nat>): string {
    if path == [] then [] else ['/'] + PrintComponent(path[0]) + Tail(path[1..])
  }

  lemma {:induction false} PrintIsTail(path: seq<nat>)
    ensures Print(path) == ['m'] + Tail(path)
  {
    if path != [] {
      PrintIsTail(path[..|path| - 1]);
      TailLast(path);
    }
  }

  lemma {:induction false} TailLast(path: seq<nat>)
    requires path != []
    ensures Tail(path) == Tail(path[..|path| - 1]) + ['/'] + PrintComponent(path[|path| - 1])
  {
    hide PrintComponent;
    if |path| > 1 {
      var rest, init := path[1..], path[..|path| - 1];
      TailLast(rest);
      assert rest[..|rest| - 1] == init[1..];
      var a, b, c := ['/'] + PrintComponent(path[0]), Tail(init[1..]), ['/'] + PrintComponent(path[|path| - 1]);
      assert a + (b + ['/'] + PrintComponent(path[|path| - 1])) == a + b + ['/'] + PrintComponent(path[|path| - 1]);
    }
  }

  /** Splitting a printed path gives its pieces back, and they read as the path. */
  lemma {:induction false} TailReads(head: string, path: seq<nat>)
    requires IsPath(path) && '/' !in head
    ensures var pieces := Split(head + Tail(path), '/');
      |pieces| == |path| + 1 && pieces[0] == head && ParseAll(pieces[1..]) == Ok(path)
    decreases path
  {
    hide PrintComponent, ParseComponent, Split;
    if path == [] {
      assert head + Tail(path) == head;
      SplitLast(head, '/');
    } else {
      var next, rest := PrintComponent(path[0]), path[1..];
      ComponentReads(path[0]);
      assert head + Tail(path) == head + ['/'] + (next + Tail(rest));
      SplitPiece(head, next + Tail(rest), '/');
      TailReads(next, rest);
      var pieces := Split(next + Tail(rest), '/');
      assert Split(head + Tail(path), '/')[1..] == pieces;
      assert [path[0]] + rest == path;
    }
  }

  /** A non-empty path survives printing and parsing; the empty one prints as a bare "m", which does not parse. */
  lemma RoundTrip(path: seq<nat>)
    requires IsPath(path)
    ensures ParsePath(Print(path)) == Ok(path) <==> path != []
    ensures path == [] ==> ParsePath(Print(path)) == Err(EmptyPath)
  {
    PrintIsTail(path);
    TailReads(['m'], path);
    TrimmedIs(['m']);
  }

  /** Parsing only gives non-empty paths of 32-bit components. */
  lemma {:induction false} ParsedIsPath(texts: seq<string>)
    ensures ParseAll(texts).Ok? ==> IsPath(ParseAll(texts).value) && |ParseAll(texts).value| == |texts|
  {
    if texts != [] {
      ParsedIsPath(texts[1..]);
    }
  }

  /** Whatever text was accepted, printing its path and parsing again changes nothing. */
  lemma Canonicalizes(text: string)
    requires ParsePath(text).Ok?
    ensures ParsePath(Print(ParsePath(text).value)) == ParsePath(text)
  {
    var pieces := Split(text, '/');
    ParsedIsPath(pieces);
    ParsedIsPath(pieces[1..]);
    RoundTrip(ParsePath(text).value);
  }
}
