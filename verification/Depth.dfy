/** `json_depth` of crates/antares-api/src/bounds.rs: the nesting of a JSON text, counted
    by one pass over its bytes before any parser runs. */
module Depth {
  import opened Json

  type Byte = b: int | 0 <= b < 256
  type Bytes = seq<Byte>

  const QUOTE: Byte := 0x22
  const BACKSLASH: Byte := 0x5C
  const COMMA: Byte := 0x2C
  const COLON: Byte := 0x3A
  const OPEN_LIST: Byte := 0x5B
  const CLOSE_LIST: Byte := 0x5D
  const OPEN_DICT: Byte := 0x7B
  const CLOSE_DICT: Byte := 0x7D

  const MAX_JSON_DEPTH: nat := 64

  // ---------- the scan ----------

  /** The four variables of the loop. */
  datatype Scan = Scan(depth: nat, max: nat, inStr: bool, esc: bool)

  const START := Scan(0, 0, false, false)

  function Max(a: nat, b: nat): nat {
    if a < b then b else a
  }

  function Feed(s: Scan, b: Byte): Scan {
    if s.inStr then
      if s.esc then s.(esc := false)
      else if b == BACKSLASH then s.(esc := true)
      else if b == QUOTE then s.(inStr := false)
      else s
    else if b == QUOTE then s.(inStr := true)
    else if b == OPEN_DICT || b == OPEN_LIST then s.(depth := s.depth + 1, max := Max(s.max, s.depth + 1))
    else if b == CLOSE_DICT || b == CLOSE_LIST then s.(depth := if s.depth == 0 then 0 else s.depth - 1)
    else s
  }

  function Run(s: Scan, bytes: Bytes): Scan
    decreases bytes
  {
    if bytes == [] then s else Run(Feed(s, bytes[0]), bytes[1..])
  }

  /** `json_depth` */
  method JsonDepth(bytes: Bytes) returns (max: nat)
    ensures max == Run(START, bytes).max
  {
    var depth: nat, inStr, esc := 0, false, false;
    max := 0;
    for i := 0 to |bytes|
      invariant Run(START, bytes) == Run(Scan(depth, max, inStr, esc), bytes[i..])
    {
      var b := bytes[i];
      assert bytes[i..] == [b] + bytes[i + 1..];
      if inStr {
        if esc {
          esc := false;
        } else if b == BACKSLASH {
          esc := true;
        } else if b == QUOTE {
          inStr := false;
        }
      } else if b == QUOTE {
        inStr := true;
      } else if b == OPEN_DICT || b == OPEN_LIST {
        depth := depth + 1;
        max := Max(max, depth);
      } else if b == CLOSE_DICT || b == CLOSE_LIST {
        depth := if depth == 0 then 0 else depth - 1;
      }
    }
  }

  /** `bounds_layer` passes a JSON body on exactly when the scan stays within the cap. */
  method Admit(bytes: Bytes) returns (admitted: bool)
    ensures admitted <==> Run(START, bytes).max <= 64
  {
    var depth := JsonDepth(bytes);
    admitted := !(depth > MAX_JSON_DEPTH);
  }

  // ---------- JSON texts: sections 2, 3, 4, 5, 6 and 7 of RFC 8259 ----------

  /** One char of a string: as it is, `\` and one byte, or `\u` and four. */
  datatype Piece = Plain(b: Byte) | Escaped(b: Byte) | Unicode(hex: Bytes)

  datatype Exponent = Exponent(e: Byte, sign: Bytes, digits: Bytes)

  /** The syntax tree of a JSON text, with the spelling the author chose: whitespace, escapes, number forms. */
  datatype Syntax =
    | True | False | Nil
    | Numeral(minus: bool, whole: Bytes, frac: Option<Bytes>, exp: Option<Exponent>)
    | Str(pieces: seq<Piece>)
    | List(items: seq<Padded>, pad: Bytes)
    | Dict(entries: seq<Entry>, pad: Bytes)

  /** A value with the whitespace around it. */
  datatype Padded = Padded(before: Bytes, value: Syntax, after: Bytes)

  /** A member with the whitespace around its name and its value. */
  datatype Entry = Entry(before: Bytes, name: seq<Piece>, after: Bytes, value: Padded)

  predicate IsBlank(ws: Bytes) {
    forall i :: 0 <= i < |ws| ==> ws[i] == 0x20 || ws[i] == 0x09 || ws[i] == 0x0A || ws[i] == 0x0D
  }

  predicate IsDigits(ds: Bytes) {
    forall i :: 0 <= i < |ds| ==> 0x30 <= ds[i] <= 0x39
  }

  predicate IsHex(ds: Bytes) {
    forall i :: 0 <= i < |ds| ==> 0x30 <= ds[i] <= 0x39 || 0x41 <= ds[i] <= 0x46 || 0x61 <= ds[i] <= 0x66
  }

  predicate LegalPiece(p: Piece) {
    match p
    case Plain(b) => b >= 0x20 && b != QUOTE && b != BACKSLASH
    case Escaped(b) => b == QUOTE || b == BACKSLASH || b == 0x2F || b == 0x62 || b == 0x66 || b == 0x6E || b == 0x72 || b == 0x74
    case Unicode(hex) => |hex| == 4 && IsHex(hex)
  }

  predicate LegalPieces(ps: seq<Piece>) {
    forall i :: 0 <= i < |ps| ==> LegalPiece(ps[i])
  }

  predicate LegalExponent(x: Exponent) {
    && (x.e == 0x65 || x.e == 0x45)
    && (x.sign == [] || x.sign == [0x2B] || x.sign == [0x2D])
    && x.digits != [] && IsDigits(x.digits)
  }

  predicate Legal(v: Syntax) {
    match v
    case True => true
    case False => true
    case Nil => true
    case Numeral(_, whole, frac, exp) =>
      && whole != [] && IsDigits(whole) && (whole[0] == 0x30 ==> |whole| == 1)
      && (frac.Some? ==> frac.value != [] && IsDigits(frac.value))
      && (exp.Some? ==> LegalExponent(exp.value))
    case Str(ps) => LegalPieces(ps)
    case List(items, pad) =>
      IsBlank(pad) && forall i :: 0 <= i < |items| ==>
        IsBlank(items[i].before) && IsBlank(items[i].after) && Legal(items[i].value)
    case Dict(entries, pad) =>
      IsBlank(pad) && forall i :: 0 <= i < |entries| ==>
        && IsBlank(entries[i].before) && LegalPieces(entries[i].name) && IsBlank(entries[i].after)
        && IsBlank(entries[i].value.before) && IsBlank(entries[i].value.after)
        && Legal(entries[i].value.value)
  }

  function RenderPiece(p: Piece): Bytes {
    match p
    case Plain(b) => [b]
    case Escaped(b) => [BACKSLASH, b]
    case Unicode(hex) => [BACKSLASH, 0x75] + hex
  }

  function RenderPieces(ps: seq<Piece>): Bytes {
    if ps == [] then [] else RenderPiece(ps[0]) + RenderPieces(ps[1..])
  }

  function RenderString(ps: seq<Piece>): Bytes {
    [QUOTE] + RenderPieces(ps) + [QUOTE]
  }

  function RenderNumeral(minus: bool, whole: Bytes, frac: Option<Bytes>, exp: Option<Exponent>): Bytes {
    (if minus then [0x2D] else [])
    + whole
    + (match frac case None => [] case Some(ds) => [0x2E] + ds)
    + (match exp case None => [] case Some(x) => [x.e] + x.sign + x.digits)
  }

  function Render(v: Syntax): Bytes {
    match v
    case True => [0x74, 0x72, 0x75, 0x65]
    case False => [0x66, 0x61, 0x6C, 0x73, 0x65]
    case Nil => [0x6E, 0x75, 0x6C, 0x6C]
    case Numeral(minus, whole, frac, exp) => RenderNumeral(minus, whole, frac, exp)
    case Str(ps) => RenderString(ps)
    case List(items, pad) => [OPEN_LIST] + (if items == [] then pad else RenderItems(items)) + [CLOSE_LIST]
    case Dict(entries, pad) => [OPEN_DICT] + (if entries == [] then pad else RenderEntries(entries)) + [CLOSE_DICT]
  }

  function RenderItems(items: seq<Padded>): Bytes
    requires items != []
    decreases items
  {
    RenderPadded(items[0]) + if |items| == 1 then [] else [COMMA] + RenderItems(items[1..])
  }

  function RenderPadded(p: Padded): Bytes {
    p.before + Render(p.value) + p.after
  }

  function RenderEntries(entries: seq<Entry>): Bytes
    requires entries != []
    decreases entries
  {
    RenderEntry(entries[0]) + if |entries| == 1 then [] else [COMMA] + RenderEntries(entries[1..])
  }

  function RenderEntry(e: Entry): Bytes {
    e.before + RenderString(e.name) + e.after + [COLON] + RenderPadded(e.value)
  }

  /** How deep the arrays and objects of a text nest. */
  function Nesting(v: Syntax): nat {
    match v
    case List(items, _) => 1 + NestingItems(items)
    case Dict(entries, _) => 1 + NestingEntries(entries)
    case _ => 0
  }

  function NestingItems(items: seq<Padded>): nat {
    if items == [] then 0 else Max(Nesting(items[0].value), NestingItems(items[1..]))
  }

  function NestingEntries(entries: seq<Entry>): nat {
    if entries == [] then 0 else Max(Nesting(entries[0].value.value), NestingEntries(entries[1..]))
  }

  // ---------- running over concatenations ----------

  lemma {:induction false} RunConcat(s: Scan, a: Bytes, b: Bytes)
    ensures Run(s, a + b) == Run(Run(s, a), b)
    decreases a
  {
    if a == [] {
      assert a + b == b;
    } else {
      assert (a + b)[1..] == a[1..] + b;
      RunConcat(Feed(s, a[0]), a[1..], b);
    }
  }

  /** Bytes the scan does not react to outside a string. */
  predicate Quiet(bytes: Bytes) {
    forall i :: 0 <= i < |bytes| ==> bytes[i] !in { QUOTE, OPEN_DICT, OPEN_LIST, CLOSE_DICT, CLOSE_LIST }
  }

  lemma {:induction false} RunQuiet(s: Scan, bytes: Bytes)
    requires !s.inStr && Quiet(bytes)
    ensures Run(s, bytes) == s
  {
    if bytes != [] { RunQuiet(s, bytes[1..]); }
  }

  lemma {:induction false} RunPieces(s: Scan, ps: seq<Piece>)
    requires s.inStr && !s.esc && LegalPieces(ps)
    ensures Run(s, RenderPieces(ps)) == s
  {
    if ps != [] {
      RunPiece(s, ps[0]);
      RunPieces(s, ps[1..]);
      RunConcat(s, RenderPiece(ps[0]), RenderPieces(ps[1..]));
    }
  }

  lemma RunPiece(s: Scan, p: Piece)
    requires s.inStr && !s.esc && LegalPiece(p)
    ensures Run(s, RenderPiece(p)) == s
  {
    match p
    case Plain(b) =>
      assert Run(s, [b]) == Run(Feed(s, b), []);
    case Escaped(b) =>
      RunConcat(s, [BACKSLASH], [b]);
    case Unicode(hex) =>
      RunConcat(s, [BACKSLASH], [0x75]);
      RunConcat(s, [BACKSLASH, 0x75], hex);
      RunInside(s, hex);
  }

  lemma {:induction false} RunInside(s: Scan, bytes: Bytes)
    requires s.inStr && !s.esc && forall i :: 0 <= i < |bytes| ==> bytes[i] != QUOTE && bytes[i] != BACKSLASH
    ensures Run(s, bytes) == s
  {
    if bytes != [] { RunInside(s, bytes[1..]); }
  }

  /** A string, whatever it spells, does not move the scan. */
  lemma RunString(s: Scan, ps: seq<Piece>)
    requires !s.inStr && !s.esc && LegalPieces(ps)
    ensures Run(s, RenderString(ps)) == s
  {
    var inside := s.(inStr := true);
    RunPieces(inside, ps);
    RunConcat(s, [QUOTE], RenderPieces(ps));
    RunConcat(s, [QUOTE] + RenderPieces(ps), [QUOTE]);
  }

  lemma QuietNumeral(v: Syntax)
    requires v.Numeral? && Legal(v)
    ensures Quiet(Render(v))
  {
    var frac := match v.frac case None => [] case Some(ds) => [0x2E] + ds;
    var exp := match v.exp case None => [] case Some(x) => [x.e] + x.sign + x.digits;
    assert Quiet(v.whole) && Quiet(frac) && Quiet(exp);
  }

  // ---------- the scan agrees with the tree ----------

  /** Seen from outside, a value raises the maximum to its own nesting above the current depth. */
  function Seen(s: Scan, n: nat): Scan {
    s.(max := Max(s.max, s.depth + n))
  }

  lemma {:induction false} RunValue(s: Scan, v: Syntax)
    requires !s.inStr && !s.esc && s.depth <= s.max && Legal(v)
    ensures Run(s, Render(v)) == Seen(s, Nesting(v))
    decreases v, 1
  {
    match v
    case True => RunQuiet(s, Render(v));
    case False => RunQuiet(s, Render(v));
    case Nil => RunQuiet(s, Render(v));
    case Numeral(_, _, _, _) =>
      QuietNumeral(v);
      RunQuiet(s, Render(v));
    case Str(ps) => RunString(s, ps);
    case List(items, pad) =>
      var body := if items == [] then pad else RenderItems(items);
      var inner := Feed(s, OPEN_LIST);
      if items == [] { RunQuiet(inner, pad); } else { RunItems(inner, items); }
      RunBracketed(s, OPEN_LIST, body, CLOSE_LIST, NestingItems(items));
    case Dict(entries, pad) =>
      var body := if entries == [] then pad else RenderEntries(entries);
      var inner := Feed(s, OPEN_DICT);
      if entries == [] { RunQuiet(inner, pad); } else { RunEntries(inner, entries); }
      RunBracketed(s, OPEN_DICT, body, CLOSE_DICT, NestingEntries(entries));
  }

  lemma RunBracketed(s: Scan, open: Byte, body: Bytes, close: Byte, n: nat)
    requires !s.inStr && !s.esc && s.depth <= s.max
    requires (open == OPEN_LIST && close == CLOSE_LIST) || (open == OPEN_DICT && close == CLOSE_DICT)
    requires Run(Feed(s, open), body) == Seen(Feed(s, open), n)
    ensures Run(s, [open] + body + [close]) == Seen(s, 1 + n)
  {
    RunConcat(s, [open], body);
    RunConcat(s, [open] + body, [close]);
  }

  lemma {:induction false} RunPadded(s: Scan, p: Padded)
    requires !s.inStr && !s.esc && s.depth <= s.max
    requires IsBlank(p.before) && IsBlank(p.after)
    requires Run(s, Render(p.value)) == Seen(s, Nesting(p.value))
    ensures Run(s, RenderPadded(p)) == Seen(s, Nesting(p.value))
  {
    RunQuiet(s, p.before);
    RunConcat(s, p.before, Render(p.value));
    RunQuiet(Seen(s, Nesting(p.value)), p.after);
    RunConcat(s, p.before + Render(p.value), p.after);
  }

  lemma {:induction false} RunItems(s: Scan, items: seq<Padded>)
    requires !s.inStr && !s.esc && s.depth <= s.max && items != [] && Legal(List(items, []))
    ensures Run(s, RenderItems(items)) == Seen(s, NestingItems(items))
    decreases items, 0
  {
    var first := items[0];
    RunValue(s, first.value);
    RunPadded(s, first);
    var t := Seen(s, Nesting(first.value));
    if |items| == 1 {
      assert RenderItems(items) == RenderPadded(first);
      assert NestingItems(items) == Max(Nesting(first.value), NestingItems([])) by { assert items[1..] == []; }
    } else {
      var rest := items[1..];
      assert Legal(List(rest, []));
      RunItems(t, rest);
      RunConcat(t, [COMMA], RenderItems(rest));
      RunConcat(s, RenderPadded(first), [COMMA] + RenderItems(rest));
    }
  }

  lemma {:induction false} RunEntry(s: Scan, e: Entry)
    requires !s.inStr && !s.esc && s.depth <= s.max
    requires IsBlank(e.before) && LegalPieces(e.name) && IsBlank(e.after)
    requires Run(s, RenderPadded(e.value)) == Seen(s, Nesting(e.value.value))
    ensures Run(s, RenderEntry(e)) == Seen(s, Nesting(e.value.value))
  {
    RunQuiet(s, e.before);
    RunString(s, e.name);
    RunConcat(s, e.before, RenderString(e.name));
    RunQuiet(s, e.after);
    RunConcat(s, e.before + RenderString(e.name), e.after);
    RunConcat(s, e.before + RenderString(e.name) + e.after, [COLON]);
    RunConcat(s, e.before + RenderString(e.name) + e.after + [COLON], RenderPadded(e.value));
  }

  lemma {:induction false} RunEntries(s: Scan, entries: seq<Entry>)
    requires !s.inStr && !s.esc && s.depth <= s.max && entries != [] && Legal(Dict(entries, []))
    ensures Run(s, RenderEntries(entries)) == Seen(s, NestingEntries(entries))
    decreases entries, 0
  {
    var first := entries[0];
    RunValue(s, first.value.value);
    RunPadded(s, first.value);
    RunEntry(s, first);
    var t := Seen(s, Nesting(first.value.value));
    if |entries| == 1 {
      assert RenderEntries(entries) == RenderEntry(first);
      assert NestingEntries(entries) == Max(Nesting(first.value.value), NestingEntries([])) by { assert entries[1..] == []; }
    } else {
      var rest := entries[1..];
      assert Legal(Dict(rest, []));
      RunEntries(t, rest);
      RunConcat(t, [COMMA], RenderEntries(rest));
      RunConcat(s, RenderEntry(first), [COMMA] + RenderEntries(rest));
    }
  }

  /** The scan of any JSON text, however it is spelled, is the nesting of its value. */
  lemma ScanIsNesting(text: Padded)
    requires IsBlank(text.before) && IsBlank(text.after) && Legal(text.value)
    ensures Run(START, RenderPadded(text)).max == Nesting(text.value)
  {
    RunValue(START, text.value);
    RunPadded(START, text);
  }

  // ---------- what a parser makes of it ----------

  /** No array or object of `j` has more than `n` around it, itself included. */
  predicate AtMost(j: Json, n: nat) {
    match j
    case Array(items) => n > 0 && forall i :: 0 <= i < |items| ==> AtMost(items[i], n - 1)
    case Object(o) => n > 0 && forall k :: k in o ==> AtMost(o[k], n - 1)
    case _ => true
  }

  /** The document a parser builds: `decode` reads a string's pieces, of two equal names the later wins. */
  function ValueOf(v: Syntax, decode: seq<Piece> -> string): Json {
    match v
    case True => Bool(true)
    case False => Bool(false)
    case Nil => Null
    case Numeral(_, _, _, _) => Number("")
    case Str(ps) => Text(decode(ps))
    case List(items, _) => Array(seq(|items|, i requires 0 <= i < |items| => ValueOf(items[i].value, decode)))
    case Dict(entries, _) => Object(MembersOf(entries, decode))
  }

  function MembersOf(entries: seq<Entry>, decode: seq<Piece> -> string): Members {
    if entries == [] then map[]
    else map[decode(entries[0].name) := ValueOf(entries[0].value.value, decode)] + MembersOf(entries[1..], decode)
  }

  /** Each object names each member once. */
  predicate NamesOnce(v: Syntax, decode: seq<Piece> -> string) {
    match v
    case List(items, _) => forall i :: 0 <= i < |items| ==> NamesOnce(items[i].value, decode)
    case Dict(entries, _) =>
      && (forall i, j :: 0 <= i < j < |entries| ==> decode(entries[i].name) != decode(entries[j].name))
      && (forall i :: 0 <= i < |entries| ==> NamesOnce(entries[i].value.value, decode))
    case _ => true
  }

  lemma {:induction false} ItemsBound(items: seq<Padded>, n: nat)
    ensures NestingItems(items) <= n <==> forall i :: 0 <= i < |items| ==> Nesting(items[i].value) <= n
  {
    if items != [] {
      ItemsBound(items[1..], n);
      assert forall i :: 0 < i < |items| ==> items[i] == items[1..][i - 1];
      if forall i :: 0 <= i < |items| ==> Nesting(items[i].value) <= n {
        assert Nesting(items[0].value) <= n;
      }
    }
  }

  lemma {:induction false} EntriesBound(entries: seq<Entry>, n: nat)
    ensures NestingEntries(entries) <= n <==> forall i :: 0 <= i < |entries| ==> Nesting(entries[i].value.value) <= n
  {
    if entries != [] {
      EntriesBound(entries[1..], n);
      assert forall i :: 0 < i < |entries| ==> entries[i] == entries[1..][i - 1];
      if forall i :: 0 <= i < |entries| ==> Nesting(entries[i].value.value) <= n {
        assert Nesting(entries[0].value.value) <= n;
      }
    }
  }

  /** Every member was written by some entry. */
  lemma {:induction false} MemberFrom(entries: seq<Entry>, decode: seq<Piece> -> string, k: string) returns (i: nat)
    requires k in MembersOf(entries, decode)
    ensures i < |entries| && decode(entries[i].name) == k
    ensures MembersOf(entries, decode)[k] == ValueOf(entries[i].value.value, decode)
  {
    if k in MembersOf(entries[1..], decode) {
      var j := MemberFrom(entries[1..], decode, k);
      i := j + 1;
    } else {
      i := 0;
    }
  }

  /** With distinct names every entry is a member. */
  lemma {:induction false} MemberOfEntry(entries: seq<Entry>, decode: seq<Piece> -> string, i: nat)
    requires i < |entries|
    requires forall a, b :: 0 <= a < b < |entries| ==> decode(entries[a].name) != decode(entries[b].name)
    ensures decode(entries[i].name) in MembersOf(entries, decode)
    ensures MembersOf(entries, decode)[decode(entries[i].name)] == ValueOf(entries[i].value.value, decode)
  {
    if i > 0 {
      assert forall a, b :: 0 <= a < b < |entries| - 1 ==> decode(entries[1..][a].name) != decode(entries[1..][b].name);
      MemberOfEntry(entries[1..], decode, i - 1);
    } else {
      forall k | k in MembersOf(entries[1..], decode)
        ensures k != decode(entries[0].name)
      {
        var j := MemberFrom(entries[1..], decode, k);
        assert entries[1..][j] == entries[j + 1];
      }
    }
  }

  /** The parsed value nests no deeper than its text, and exactly as deep when no object repeats a name. */
  lemma {:induction false} ValueNesting(v: Syntax, decode: seq<Piece> -> string, n: nat)
    ensures Nesting(v) <= n ==> AtMost(ValueOf(v, decode), n)
    ensures NamesOnce(v, decode) ==> (Nesting(v) <= n <==> AtMost(ValueOf(v, decode), n))
    decreases v
  {
    match v
    case List(items, _) =>
      if n > 0 {
        ItemsBound(items, n - 1);
        forall i | 0 <= i < |items|
          ensures Nesting(items[i].value) <= n - 1 ==> AtMost(ValueOf(v, decode).items[i], n - 1)
          ensures NamesOnce(v, decode) ==> (Nesting(items[i].value) <= n - 1 <==> AtMost(ValueOf(v, decode).items[i], n - 1))
        {
          ValueNesting(items[i].value, decode, n - 1);
        }
      }
    case Dict(entries, _) =>
      if n > 0 {
        forall i | 0 <= i < |entries|
          ensures Nesting(entries[i].value.value) <= n - 1 ==> AtMost(ValueOf(entries[i].value.value, decode), n - 1)
          ensures NamesOnce(v, decode) ==>
                    (Nesting(entries[i].value.value) <= n - 1 <==> AtMost(ValueOf(entries[i].value.value, decode), n - 1))
        {
          ValueNesting(entries[i].value.value, decode, n - 1);
        }
        DictNesting(v, decode, n);
      }
    case _ =>
  }

  lemma DictNesting(v: Syntax, decode: seq<Piece> -> string, n: nat)
    requires v.Dict? && n > 0
    requires forall i :: 0 <= i < |v.entries| ==>
               (Nesting(v.entries[i].value.value) <= n - 1 ==> AtMost(ValueOf(v.entries[i].value.value, decode), n - 1))
    requires NamesOnce(v, decode) ==> forall i :: 0 <= i < |v.entries| ==>
               (Nesting(v.entries[i].value.value) <= n - 1 <==> AtMost(ValueOf(v.entries[i].value.value, decode), n - 1))
    ensures Nesting(v) <= n ==> AtMost(ValueOf(v, decode), n)
    ensures NamesOnce(v, decode) ==> (Nesting(v) <= n <==> AtMost(ValueOf(v, decode), n))
  {
    var entries, o := v.entries, MembersOf(v.entries, decode);
    EntriesBound(entries, n - 1);
    if Nesting(v) <= n {
      forall k | k in o
        ensures AtMost(o[k], n - 1)
      {
        var i := MemberFrom(entries, decode, k);
      }
    }
    if NamesOnce(v, decode) && AtMost(ValueOf(v, decode), n) {
      forall i | 0 <= i < |entries|
        ensures Nesting(entries[i].value.value) <= n - 1
      {
        MemberOfEntry(entries, decode, i);
      }
    }
  }

  /** An admitted body holds no value nested deeper than the cap. */
  lemma {:induction false} AdmittedIsShallow(text: Padded, decode: seq<Piece> -> string)
    requires IsBlank(text.before) && IsBlank(text.after) && Legal(text.value)
    ensures Run(START, RenderPadded(text)).max <= 64 ==> AtMost(ValueOf(text.value, decode), 64)
    ensures NamesOnce(text.value, decode) ==>
              (Run(START, RenderPadded(text)).max <= 64 <==> AtMost(ValueOf(text.value, decode), 64))
  {
    ScanIsNesting(text);
    ValueNesting(text.value, decode, MAX_JSON_DEPTH);
  }

  // ---------- arbitrary bytes ----------

  /** Whatever the bytes are, the reported depth only grows with the prefix. */
  lemma {:induction false} RunGrows(s: Scan, bytes: Bytes)
    requires s.depth <= s.max
    ensures s.max <= Run(s, bytes).max <= s.max + |bytes|
    ensures Run(s, bytes).depth <= Run(s, bytes).max
    decreases bytes
  {
    if bytes != [] { RunGrows(Feed(s, bytes[0]), bytes[1..]); }
  }

  /** A body with a prefix past the cap is past it as well. */
  lemma PrefixMonotone(a: Bytes, b: Bytes)
    ensures Run(START, a).max <= Run(START, a + b).max <= |a + b|
  {
    RunConcat(START, a, b);
    RunGrows(START, a);
    RunGrows(Run(START, a), b);
    RunGrows(START, a + b);
  }

  /** Closers with nothing to close leave the scan where it was. */
  lemma {:induction false} StrayClosers(s: Scan, bytes: Bytes)
    requires !s.inStr && s.depth == 0
    requires forall i :: 0 <= i < |bytes| ==> bytes[i] == CLOSE_LIST || bytes[i] == CLOSE_DICT
    ensures Run(s, bytes) == s
  {
    if bytes != [] { StrayClosers(s, bytes[1..]); }
  }
}
