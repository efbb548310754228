/** JSON values, the texts that spell them (RFC 8259), and the nesting cap of the parse boundary:
    the textual pre-scan and the structural re-check reject the same inputs. */
module Json {

  const NESTING_DEPTH_LIMIT: nat := 64

  /** Decoded strings are sequences of code points; surrogates can occur through escapes. */
  type Text = seq<nat>

  datatype Value =
    | Scalar(token: string)
    | Str(text: Text)
    | Arr(items: seq<Value>)
    | Obj(keys: seq<Text>, items: seq<Value>)
  {
    predicate IsContainer() { Arr? || Obj? }

    /** Nesting depth: a scalar or string has depth 0, an empty container depth 1. */
    function Depth(): nat {
      if IsContainer() then 1 + MaxDepth(items) else 0
    }

    function Size(): nat {
      if IsContainer() then 1 + TotalSize(items) else 1
    }
  }

  function MaxDepth(vs: seq<Value>): nat {
    if vs == [] then 0 else
      var d, r := vs[0].Depth(), MaxDepth(vs[1..]);
      if d > r then d else r
  }

  function TotalSize(vs: seq<Value>): nat {
    if vs == [] then 0 else vs[0].Size() + TotalSize(vs[1..])
  }

  // --------------------------------------------------------- concrete syntax

  /** One unit of a string literal: a plain character, a two-character escape, or \uXXXX. */
  datatype Unit = Plain(c: char) | Short(c: char) | Hex(digits: string)

  /** How a value is spelled: white space may surround any value, follow an opening bracket, and
      surround a key. */
  datatype Syntax =
    | Token(chars: string)
    | Quoted(units: seq<Unit>)
    | Padded(left: string, inner: Syntax, right: string)
    | Brackets(gap: string, parts: seq<Syntax>)
    | Braces(gap: string, names: seq<Name>, parts: seq<Syntax>)

  datatype Name = Name(left: string, units: seq<Unit>, right: string)

  predicate IsSpace(s: string) {
    forall i :: 0 <= i < |s| ==> s[i] in {' ', '\t', '\n', '\r'}
  }

  predicate IsHexDigit(c: char) {
    '0' <= c <= '9' || 'a' <= c <= 'f' || 'A' <= c <= 'F'
  }

  /** Literals and numbers contain none of the characters the scan reacts to. */
  predicate IsToken(s: string) {
    s != "" && forall i :: 0 <= i < |s| ==> s[i] !in {'"', '{', '}', '[', ']'}
  }

  predicate WellFormedUnit(u: Unit) {
    match u
    case Plain(c) => ' ' <= c && c != '"' && c != '\\'
    case Short(c) => c in {'"', '\\', '/', 'b', 'f', 'n', 'r', 't'}
    case Hex(h) => |h| == 4 && forall i :: 0 <= i < |h| ==> IsHexDigit(h[i])
  }

  predicate WellFormedUnits(us: seq<Unit>) {
    forall i :: 0 <= i < |us| ==> WellFormedUnit(us[i])
  }

  predicate WellFormed(s: Syntax) {
    match s
    case Token(t) => IsToken(t)
    case Quoted(us) => WellFormedUnits(us)
    case Padded(l, inner, r) => IsSpace(l) && WellFormed(inner) && IsSpace(r)
    case Brackets(gap, parts) => IsSpace(gap) && forall i :: 0 <= i < |parts| ==> WellFormed(parts[i])
    case Braces(gap, names, parts) =>
      && IsSpace(gap) && |names| == |parts|
      && (forall i :: 0 <= i < |names| ==> WellFormedName(names[i]))
      && forall i :: 0 <= i < |parts| ==> WellFormed(parts[i])
  }

  predicate WellFormedName(n: Name) {
    IsSpace(n.left) && WellFormedUnits(n.units) && IsSpace(n.right)
  }

  // ------------------------------------------------------- spelling and value

  function RenderUnit(u: Unit): string {
    match u
    case Plain(c) => [c]
    case Short(c) => ['\\', c]
    case Hex(h) => ['\\', 'u'] + h
  }

  function RenderUnits(us: seq<Unit>): string {
    if us == [] then "" else RenderUnit(us[0]) + RenderUnits(us[1..])
  }

  function RenderString(us: seq<Unit>): string {
    ['"'] + RenderUnits(us) + ['"']
  }

  function RenderName(n: Name): string {
    n.left + RenderString(n.units) + n.right + [':']
  }

  function Render(s: Syntax): string {
    match s
    case Token(t) => t
    case Quoted(us) => RenderString(us)
    case Padded(l, inner, r) => l + Render(inner) + r
    case Brackets(gap, parts) => ['['] + gap + RenderParts([], parts) + [']']
    case Braces(gap, names, parts) => ['{'] + gap + RenderParts(names, parts) + ['}']
  }

  /** The parts separated by commas, each behind its name when there are names. */
  function RenderParts(names: seq<Name>, parts: seq<Syntax>): string
    decreases parts
  {
    if parts == [] then "" else
      (if names == [] then "" else RenderName(names[0]))
      + Render(parts[0])
      + (if |parts| > 1 then [','] else "")
      + RenderParts(if names == [] then [] else names[1..], parts[1..])
  }

  function HexValue(h: string): nat {
    if h == "" then 0 else HexValue(h[..|h| - 1]) * 16 + HexDigit(h[|h| - 1])
  }

  function HexDigit(c: char): nat {
    if '0' <= c <= '9' then c as nat - '0' as nat
    else if 'a' <= c <= 'f' then c as nat - 'a' as nat + 10
    else if 'A' <= c <= 'F' then c as nat - 'A' as nat + 10
    else 0
  }

  function DecodeUnit(u: Unit): nat {
    match u
    case Plain(c) => c as nat
    case Short(c) =>
      (match c
       case 'b' => 8 case 'f' => 12 case 'n' => 10 case 'r' => 13 case 't' => 9
       case _ => c as nat)
    case Hex(h) => HexValue(h)
  }

  function DecodeUnits(us: seq<Unit>): Text {
    if us == [] then [] else [DecodeUnit(us[0])] + DecodeUnits(us[1..])
  }

  function DecodeNames(ns: seq<Name>): seq<Text> {
    if ns == [] then [] else [DecodeUnits(ns[0].units)] + DecodeNames(ns[1..])
  }

  /** The value that a spelling denotes. */
  function Denote(s: Syntax): Value {
    match s
    case Token(t) => Scalar(t)
    case Quoted(us) => Str(DecodeUnits(us))
    case Padded(_, inner, _) => Denote(inner)
    case Brackets(_, parts) => Arr(DenoteAll(parts))
    case Braces(_, names, parts) => Obj(DecodeNames(names), DenoteAll(parts))
  }

  function DenoteAll(ss: seq<Syntax>): seq<Value> {
    if ss == [] then [] else [Denote(ss[0])] + DenoteAll(ss[1..])
  }

  ghost predicate Spells(text: string, v: Value) {
    exists s :: WellFormed(s) && Render(s) == text && Denote(s) == v
  }

  // --------------------------------------------------------- textual pre-scan

  datatype Scan = Scan(depth: int, inString: bool, escaped: bool) | TooDeep

  function Outside(depth: int): Scan { Scan(depth, false, false) }
  function Inside(depth: int): Scan { Scan(depth, true, false) }

  function ScanChar(s: Scan, ch: char): Scan {
    if s.TooDeep? then s
    else if s.inString then
      if s.escaped then Inside(s.depth)
      else if ch == '\\' then Scan(s.depth, true, true)
      else if ch == '"' then Outside(s.depth)
      else s
    else if ch == '"' then Inside(s.depth)
    else if ch == '{' || ch == '[' then
      if s.depth + 1 > NESTING_DEPTH_LIMIT then TooDeep else s.(depth := s.depth + 1)
    else if ch == '}' || ch == ']' then s.(depth := s.depth - 1)
    else s
  }

  function ScanText(s: Scan, text: string): Scan
    decreases |text|
  {
    if text == "" then s else ScanText(ScanChar(s, text[0]), text[1..])
  }

  method DepthPrescan(text: string) returns (tooDeep: bool)
    ensures tooDeep <==> ScanText(Outside(0), text).TooDeep?
  {
    var depth, inString, escaped := 0, false, false;
    for i := 0 to |text|
      invariant escaped ==> inString
      invariant ScanText(Outside(0), text) == ScanText(Scan(depth, inString, escaped), text[i..])
    {
      var ch := text[i];
      assert text[i..][1..] == text[i + 1..];
      if inString {
        if escaped {
          escaped := false;
        } else if ch == '\\' {
          escaped := true;
        } else if ch == '"' {
          inString := false;
        }
      } else if ch == '"' {
        inString := true;
      } else if ch == '{' || ch == '[' {
        depth := depth + 1;
        if depth > NESTING_DEPTH_LIMIT {
          TooDeepStays(text[i + 1..]);
          return true;
        }
      } else if ch == '}' || ch == ']' {
        depth := depth - 1;
      }
    }
    return false;
  }

  lemma {:induction false} TooDeepStays(text: string)
    ensures ScanText(TooDeep, text).TooDeep?
  {
    if text != "" { TooDeepStays(text[1..]); }
  }

  lemma {:induction false} ScanConcat(s: Scan, a: string, b: string)
    ensures ScanText(s, a + b) == ScanText(ScanText(s, a), b)
    decreases |a|
  {
    if a == "" {
      assert a + b == b;
    } else {
      ScanConcat(ScanChar(s, a[0]), a[1..], b);
      assert (a + b)[1..] == a[1..] + b;
    }
  }

  /** Characters without meaning for the scan leave its state alone. */
  lemma {:induction false} ScanNeutral(k: int, text: string)
    requires forall i :: 0 <= i < |text| ==> text[i] !in {'"', '{', '}', '[', ']'}
    ensures ScanText(Outside(k), text) == Outside(k)
  {
    if text != "" { ScanNeutral(k, text[1..]); }
  }

  lemma {:induction false} ScanHex(k: int, h: string)
    requires forall i :: 0 <= i < |h| ==> IsHexDigit(h[i])
    ensures ScanText(Inside(k), h) == Inside(k)
  {
    if h != "" { ScanHex(k, h[1..]); }
  }

  lemma ScanTwo(s: Scan, a: char, b: char)
    ensures ScanText(s, [a, b]) == ScanChar(ScanChar(s, a), b)
  {
    assert [a, b][1..] == [b] && [b][1..] == [];
    assert ScanText(ScanChar(s, a), [b]) == ScanText(ScanChar(ScanChar(s, a), b), []);
  }

  lemma ScanUnit(k: int, u: Unit)
    requires WellFormedUnit(u)
    ensures ScanText(Inside(k), RenderUnit(u)) == Inside(k)
  {
    match u
    case Plain(c) =>
    case Short(c) => ScanTwo(Inside(k), '\\', c);
    case Hex(h) =>
      ScanTwo(Inside(k), '\\', 'u');
      ScanConcat(Inside(k), ['\\', 'u'], h);
      ScanHex(k, h);
  }

  lemma {:induction false} ScanUnits(k: int, us: seq<Unit>)
    requires WellFormedUnits(us)
    ensures ScanText(Inside(k), RenderUnits(us)) == Inside(k)
  {
    if us != [] {
      ScanUnit(k, us[0]);
      ScanConcat(Inside(k), RenderUnit(us[0]), RenderUnits(us[1..]));
      ScanUnits(k, us[1..]);
    }
  }

  /** A string literal is skipped whatever brackets and escapes it contains. */
  lemma ScanString(k: int, us: seq<Unit>)
    requires WellFormedUnits(us)
    ensures ScanText(Outside(k), RenderString(us)) == Outside(k)
  {
    ScanConcat(Outside(k), ['"'], RenderUnits(us));
    ScanUnits(k, us);
    ScanConcat(Outside(k), ['"'] + RenderUnits(us), ['"']);
  }

  lemma ScanName(k: int, n: Name)
    requires WellFormedName(n)
    ensures ScanText(Outside(k), RenderName(n)) == Outside(k)
  {
    ScanNeutral(k, n.left);
    ScanString(k, n.units);
    ScanNeutral(k, n.right);
    ScanConcat(Outside(k), n.left, RenderString(n.units));
    ScanConcat(Outside(k), n.left + RenderString(n.units), n.right);
    ScanConcat(Outside(k), n.left + RenderString(n.units) + n.right, [':']);
  }

  /** What the scan does with a value of nesting depth `d` when `k` containers are open. */
  function Verdict(k: int, d: nat): Scan {
    if k + d > NESTING_DEPTH_LIMIT then TooDeep else Outside(k)
  }

  /** Space around a text changes nothing. */
  lemma ScanPadded(k: nat, left: string, text: string, right: string, d: nat)
    requires k <= NESTING_DEPTH_LIMIT && IsSpace(left) && IsSpace(right)
    requires ScanText(Outside(k), text) == Verdict(k, d)
    ensures ScanText(Outside(k), left + text + right) == Verdict(k, d)
  {
    ScanNeutral(k, left);
    ScanNeutral(k, right);
    ScanConcat(Outside(k), left, text);
    ScanConcat(Outside(k), left + text, right);
    TooDeepStays(right);
  }

  /** An opening bracket at the limit is too deep, whatever follows. */
  lemma ScanTooDeep(open: char, rest: string)
    requires open == '[' || open == '{'
    ensures ScanText(Outside(NESTING_DEPTH_LIMIT), [open] + rest) == TooDeep
  {
    ScanConcat(Outside(NESTING_DEPTH_LIMIT), [open], rest);
    assert [open][1..] == "";
    TooDeepStays(rest);
  }

  lemma ScanBrackets(k: nat, open: char, gap: string, body: string, close: char, d: nat)
    requires k < NESTING_DEPTH_LIMIT && IsSpace(gap)
    requires (open == '[' && close == ']') || (open == '{' && close == '}')
    requires ScanText(Outside(k + 1), body) == Verdict(k + 1, d)
    ensures ScanText(Outside(k), [open] + gap + body + [close]) == Verdict(k, 1 + d)
  {
    ScanConcat(Outside(k), [open], gap);
    ScanConcat(Outside(k), [open] + gap, body);
    ScanConcat(Outside(k), [open] + gap + body, [close]);
    ScanNeutral(k + 1, gap);
    assert [open][1..] == "" && [close][1..] == "";
  }

  lemma ScanContainer(k: nat, open: char, gap: string, body: string, close: char, d: nat)
    requires k <= NESTING_DEPTH_LIMIT && IsSpace(gap)
    requires (open == '[' && close == ']') || (open == '{' && close == '}')
    requires k < NESTING_DEPTH_LIMIT ==> ScanText(Outside(k + 1), body) == Verdict(k + 1, d)
    ensures ScanText(Outside(k), [open] + gap + body + [close]) == Verdict(k, 1 + d)
  {
    if k < NESTING_DEPTH_LIMIT {
      ScanBrackets(k, open, gap, body, close, d);
    } else {
      ScanTooDeep(open, gap + body + [close]);
      assert [open] + (gap + body + [close]) == [open] + gap + body + [close];
    }
  }

  lemma {:induction false} ScanValue(k: nat, s: Syntax)
    requires WellFormed(s) && k <= NESTING_DEPTH_LIMIT
    ensures ScanText(Outside(k), Render(s)) == Verdict(k, Denote(s).Depth())
    decreases s
  {
    match s
    case Token(t) => ScanNeutral(k, t);
    case Quoted(us) => ScanString(k, us);
    case Padded(l, inner, r) =>
      ScanValue(k, inner);
      ScanPadded(k, l, Render(inner), r, Denote(inner).Depth());
    case Brackets(gap, parts) =>
      if k < NESTING_DEPTH_LIMIT { ScanParts(k + 1, [], parts); }
      ScanContainer(k, '[', gap, RenderParts([], parts), ']', MaxDepth(DenoteAll(parts)));
    case Braces(gap, names, parts) =>
      if k < NESTING_DEPTH_LIMIT { ScanParts(k + 1, names, parts); }
      ScanContainer(k, '{', gap, RenderParts(names, parts), '}', MaxDepth(DenoteAll(parts)));
  }

  lemma ScanPieces(k: nat, name: string, head: string, comma: string, rest: string, d: nat, r: nat)
    requires k <= NESTING_DEPTH_LIMIT && (comma == "" || comma == [','])
    requires ScanText(Outside(k), name) == Outside(k)
    requires ScanText(Outside(k), head) == Verdict(k, d)
    requires ScanText(Outside(k), rest) == Verdict(k, r)
    ensures ScanText(Outside(k), name + head + comma + rest) == Verdict(k, if d > r then d else r)
  {
    ScanConcat(Outside(k), name, head);
    ScanConcat(Outside(k), name + head, comma);
    ScanConcat(Outside(k), name + head + comma, rest);
    ScanNeutral(k, comma);
    TooDeepStays(comma);
    TooDeepStays(rest);
  }

  lemma {:induction false} ScanParts(k: nat, names: seq<Name>, parts: seq<Syntax>)
    requires k <= NESTING_DEPTH_LIMIT && (names == [] || |names| == |parts|)
    requires forall i :: 0 <= i < |names| ==> WellFormedName(names[i])
    requires forall i :: 0 <= i < |parts| ==> WellFormed(parts[i])
    ensures ScanText(Outside(k), RenderParts(names, parts)) == Verdict(k, MaxDepth(DenoteAll(parts)))
    decreases parts
  {
    if parts != [] {
      var names' := if names == [] then [] else names[1..];
      if names != [] { ScanName(k, names[0]); }
      ScanValue(k, parts[0]);
      ScanParts(k, names', parts[1..]);
      ScanPieces(k, if names == [] then "" else RenderName(names[0]), Render(parts[0]),
                 if |parts| > 1 then [','] else "", RenderParts(names', parts[1..]),
                 Denote(parts[0]).Depth(), MaxDepth(DenoteAll(parts[1..])));
    }
  }

  /** For every value and every text that spells it, the pre-scan rejects the text exactly when
      the value is nested deeper than the limit. */
  lemma PrescanIsStructural(text: string, v: Value)
    requires Spells(text, v)
    ensures ScanText(Outside(0), text).TooDeep? <==> v.Depth() > 64
  {
    var s :| WellFormed(s) && Render(s) == text && Denote(s) == v;
    ScanValue(0, s);
  }

  // ------------------------------------------------------ structural re-check

  datatype Frame = Frame(node: Value, depth: nat)

  ghost predicate Exceeds(f: Frame) {
    f.node.IsContainer() && f.depth + f.node.Depth() - 1 > NESTING_DEPTH_LIMIT
  }

  ghost function StackSize(stack: seq<Frame>): nat {
    if stack == [] then 0 else StackSize(stack[..|stack| - 1]) + stack[|stack| - 1].node.Size()
  }

  /** The explicit-stack walk of the parsed value. */
  method PostLoadDepthCheck(root: Value) returns (tooDeep: bool)
    ensures tooDeep <==> root.Depth() > 64
  {
    var stack := [Frame(root, 1)];
    while stack != []
      invariant root.Depth() > NESTING_DEPTH_LIMIT <==> exists i :: 0 <= i < |stack| && Exceeds(stack[i])
      decreases StackSize(stack)
    {
      ghost var before := stack;
      var top := stack[|stack| - 1];
      stack := stack[..|stack| - 1];
      if top.node.IsContainer() {
        if top.depth > NESTING_DEPTH_LIMIT {
          assert Exceeds(before[|before| - 1]);
          return true;
        }
        ghost var rest := stack;
        var children := seq(|top.node.items|, i requires 0 <= i < |top.node.items| => Frame(top.node.items[i], top.depth + 1));
        stack := stack + children;
        PushedSize(rest, top.node.items, top.depth + 1, children);
        ChildExceeds(top);
        PushedExceeds(before, rest, top, children);
      } else {
        assert forall i :: 0 <= i < |before| && Exceeds(before[i]) ==> i < |stack| && stack[i] == before[i];
      }
    }
    return false;
  }

  lemma {:induction false} PushedSize(rest: seq<Frame>, items: seq<Value>, depth: nat, children: seq<Frame>)
    requires |children| == |items|
    requires forall i :: 0 <= i < |items| ==> children[i] == Frame(items[i], depth)
    ensures StackSize(rest + children) == StackSize(rest) + TotalSize(items)
    decreases |items|
  {
    if items == [] {
      assert rest + children == rest;
    } else {
      var one := rest + [children[0]];
      assert one[..|one| - 1] == rest;
      assert rest + children == one + children[1..];
      PushedSize(one, items[1..], depth, children[1..]);
    }
  }

  lemma {:induction false} MaxDepthWitness(vs: seq<Value>, n: nat)
    ensures MaxDepth(vs) > n <==> exists i :: 0 <= i < |vs| && vs[i].Depth() > n
  {
    if vs != [] {
      MaxDepthWitness(vs[1..], n);
      assert forall i :: 0 < i < |vs| ==> vs[i] == vs[1..][i - 1];
      if i :| 0 <= i < |vs[1..]| && vs[1..][i].Depth() > n {
        assert vs[i + 1].Depth() > n;
      }
    }
  }

  lemma ChildExceeds(f: Frame)
    requires f.node.IsContainer() && f.depth <= NESTING_DEPTH_LIMIT
    ensures Exceeds(f) <==> exists i :: 0 <= i < |f.node.items| && Exceeds(Frame(f.node.items[i], f.depth + 1))
  {
    MaxDepthWitness(f.node.items, NESTING_DEPTH_LIMIT - f.depth);
    forall i | 0 <= i < |f.node.items|
      ensures Exceeds(Frame(f.node.items[i], f.depth + 1)) <==> f.node.items[i].Depth() > NESTING_DEPTH_LIMIT - f.depth
    {
    }
  }

  lemma PushedExceeds(before: seq<Frame>, rest: seq<Frame>, top: Frame, children: seq<Frame>)
    requires before == rest + [top] && top.node.IsContainer() && |children| == |top.node.items|
    requires forall i :: 0 <= i < |children| ==> children[i] == Frame(top.node.items[i], top.depth + 1)
    requires Exceeds(top) <==> exists i :: 0 <= i < |top.node.items| && Exceeds(Frame(top.node.items[i], top.depth + 1))
    ensures (exists i :: 0 <= i < |before| && Exceeds(before[i]))
       <==> (exists i :: 0 <= i < |rest + children| && Exceeds((rest + children)[i]))
  {
    var after := rest + children;
    if i :| 0 <= i < |before| && Exceeds(before[i]) {
      if i < |rest| {
        assert Exceeds(after[i]);
      } else {
        var j :| 0 <= j < |children| && Exceeds(Frame(top.node.items[j], top.depth + 1));
        assert Exceeds(after[|rest| + j]);
      }
    }
    if i :| 0 <= i < |after| && Exceeds(after[i]) {
      if i < |rest| {
        assert Exceeds(before[i]);
      } else {
        assert Exceeds(children[i - |rest|]);
        assert Exceeds(before[|rest|]);
      }
    }
  }
}
