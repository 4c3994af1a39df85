/** The raw structure scan of a frame payload: unique object keys and bounded
    nesting, decided by one left-to-right pass with an explicit stack. */
module Json {
  import opened Names

  const MAX_DEPTH: nat := 32

  datatype Ctx = Obj | Arr

  datatype Frame = Frame(ctx: Ctx, keys: set<string>, expectKey: bool)

  datatype Fault =
    | MaxDepth | TrailingData | UnexpectedOpen | Unbalanced | BadString | DuplicateKey
    | ExpectedColon | StrayComma | StrayColon | BadLiteral | ExpectedKey | Incomplete

  datatype Verdict = Accepted | Rejected(fault: Fault)

  predicate IsWs(c: char) {
    c == ' ' || c == '\t' || c == '\n' || c == '\r'
  }

  function SkipWs(r: string): (t: string)
    ensures |t| <= |r|
  {
    if r != [] && IsWs(r[0]) then SkipWs(r[1..]) else r
  }

  // ---- strings ----

  function HexValue(c: char): Option<nat> {
    if '0' <= c <= '9' then Some((c as int) - ('0' as int))
    else if 'a' <= c <= 'f' then Some((c as int) - ('a' as int) + 10)
    else if 'A' <= c <= 'F' then Some((c as int) - ('A' as int) + 10)
    else None
  }

  function HexDigits(s: string): (o: Option<nat>)
    ensures o.Some? && |s| == 0 ==> o.value < 1
    ensures o.Some? && |s| <= 1 ==> o.value < 0x10
    ensures o.Some? && |s| <= 2 ==> o.value < 0x100
    ensures o.Some? && |s| <= 3 ==> o.value < 0x1000
    ensures o.Some? && |s| <= 4 ==> o.value < 0x10000
  {
    if s == [] then Some(0)
    else match (HexDigits(s[..|s| - 1]), HexValue(s[|s| - 1]))
      case (Some(hi), Some(lo)) => Some(16 * hi + lo)
      case _ => None
  }

  /** `u32::from_str_radix(_, 16)`, which tolerates a leading plus sign. */
  function ParseHex(s: string): Option<nat> {
    if |s| > 1 && s[0] == '+' then HexDigits(s[1..]) else HexDigits(s)
  }

  predicate IsSurrogate(cp: nat) {
    0xD800 <= cp <= 0xDFFF
  }

  function SimpleEscape(e: char): Option<char> {
    match e
    case '"' => Some('"')
    case '\\' => Some('\\')
    case '/' => Some('/')
    case 'b' => Some(8 as char)
    case 'f' => Some(12 as char)
    case 'n' => Some('\n')
    case 'r' => Some('\r')
    case 't' => Some('\t')
    case _ => None
  }

  /** The character a `\u` escape stands for; surrogate halves stand for none. */
  function UnicodeEscape(h: string): Option<char> {
    match ParseHex(h)
    case None => None
    case Some(cp) => if IsSurrogate(cp) || cp > 0x10FFFF then None else Some(cp as char)
  }

  datatype Read = Read(content: string, rest: string)

  /** Reads a string body up to its closing quote. */
  function ReadBody(r: string): (o: Option<Read>)
    ensures o.Some? ==> |o.value.rest| < |r|
  {
    if r == [] then None
    else if r[0] == '"' then Some(Read([], r[1..]))
    else if r[0] == '\\' then
      if |r| < 2 then None
      else if r[1] == 'u' then
        if |r| < 6 then None
        else match UnicodeEscape(r[2..6])
          case None => None
          case Some(c) => Push(c, ReadBody(r[6..]))
      else match SimpleEscape(r[1])
        case None => None
        case Some(c) => Push(c, ReadBody(r[2..]))
    else Push(r[0], ReadBody(r[1..]))
  }

  function Push(c: char, o: Option<Read>): Option<Read> {
    match o
    case None => None
    case Some(rd) => Some(Read([c] + rd.content, rd.rest))
  }

  // ---- literals and numbers ----

  predicate IsNumberChar(c: char) {
    '0' <= c <= '9' || c == '.' || c == 'e' || c == 'E' || c == '+' || c == '-'
  }

  function DropNumber(r: string): (t: string)
    ensures |t| <= |r|
  {
    if r != [] && IsNumberChar(r[0]) then DropNumber(r[1..]) else r
  }

  function SkipLiteral(r: string): (o: Option<string>)
    ensures o.Some? ==> |o.value| < |r|
  {
    if "true" <= r then Some(r[4..])
    else if "false" <= r then Some(r[5..])
    else if "null" <= r then Some(r[4..])
    else
      var body := if r != [] && r[0] == '-' then r[1..] else r;
      if body == [] || !IsNumberChar(body[0]) then None else Some(DropNumber(body))
  }

  // ---- one token ----

  datatype Outcome = Go(rest: string, stack: seq<Frame>, root: bool) | Stop(fault: Fault)

  function Top(stack: seq<Frame>): Frame
    requires stack != []
  {
    stack[|stack| - 1]
  }

  predicate ExpectsKey(stack: seq<Frame>) {
    stack != [] && Top(stack).ctx == Obj && Top(stack).expectKey
  }

  /** The innermost object is past its key (or value). */
  function PastKey(stack: seq<Frame>): seq<Frame> {
    if stack != [] && Top(stack).ctx == Obj then stack[|stack| - 1 := Top(stack).(expectKey := false)] else stack
  }

  function OpenContainer(t: string, stack: seq<Frame>, root: bool, ctx: Ctx): Outcome
    requires t != []
  {
    if |stack| + 1 > MAX_DEPTH then Stop(MaxDepth)
    else if stack == [] && root then Stop(TrailingData)
    else if ExpectsKey(stack) then Stop(UnexpectedOpen)
    else Go(t[1..], PastKey(stack) + [Frame(ctx, {}, ctx == Obj)], root || stack == [])
  }

  function CloseContainer(t: string, stack: seq<Frame>, root: bool, ctx: Ctx): Outcome
    requires t != []
  {
    if stack == [] || Top(stack).ctx != ctx then Stop(Unbalanced)
    else Go(t[1..], PastKey(stack[..|stack| - 1]), root)
  }

  function StringToken(t: string, stack: seq<Frame>, root: bool): Outcome
    requires t != []
  {
    match ReadBody(t[1..])
    case None => Stop(BadString)
    case Some(rd) =>
      var after := SkipWs(rd.rest);
      if ExpectsKey(stack) then
        if after == [] || after[0] != ':' then Stop(ExpectedColon)
        else if rd.content in Top(stack).keys then Stop(DuplicateKey)
        else Go(after[1..], stack[|stack| - 1 := Frame(Obj, Top(stack).keys + {rd.content}, false)], root)
      else Go(after, stack, root || stack == [])
  }

  function Token(t: string, stack: seq<Frame>, root: bool): (o: Outcome)
    requires t != []
    ensures o.Go? ==> |o.rest| < |t|
  {
    match t[0]
    case '{' => OpenContainer(t, stack, root, Obj)
    case '[' => OpenContainer(t, stack, root, Arr)
    case '}' => CloseContainer(t, stack, root, Obj)
    case ']' => CloseContainer(t, stack, root, Arr)
    case '"' => StringToken(t, stack, root)
    case ',' =>
      if stack == [] then Stop(StrayComma)
      else if Top(stack).ctx == Obj then Go(t[1..], stack[|stack| - 1 := Top(stack).(expectKey := true)], root)
      else Go(t[1..], stack, root)
    case ':' => Stop(StrayColon)
    case _ =>
      match SkipLiteral(t)
      case None => Stop(BadLiteral)
      case Some(rest) => if ExpectsKey(stack) then Stop(ExpectedKey) else Go(rest, PastKey(stack), root || stack == [])
  }

  function Scan(r: string, stack: seq<Frame>, root: bool): Verdict
    decreases |r|
  {
    var t := SkipWs(r);
    if t == [] then (if stack != [] || !root then Rejected(Incomplete) else Accepted)
    else match Token(t, stack, root)
      case Stop(f) => Rejected(f)
      case Go(rest, stack', root') => Scan(rest, stack', root')
  }

  // ---- the concrete syntax of RFC 8259 ----

  datatype Glyph = Plain(c: char) | Escape(e: char) | Unicode(h: string)

  predicate WellGlyph(g: Glyph) {
    match g
    case Plain(c) => c != '"' && c != '\\' && ' ' <= c
    case Escape(e) => SimpleEscape(e).Some?
    case Unicode(h) => |h| == 4 && HexDigits(h).Some?
  }

  predicate WellBody(l: seq<Glyph>) {
    forall g :: g in l ==> WellGlyph(g)
  }

  predicate IsHalf(g: Glyph) {
    g.Unicode? && HexDigits(g.h).Some? && IsSurrogate(HexDigits(g.h).value)
  }

  /** Some `\u` escape of the string denotes a surrogate half. */
  predicate HasHalf(l: seq<Glyph>) {
    exists g :: g in l && IsHalf(g)
  }

  function GlyphText(g: Glyph): string {
    match g
    case Plain(c) => [c]
    case Escape(e) => ['\\', e]
    case Unicode(h) => ['\\', 'u'] + h
  }

  /** The text of a string body followed by `rest`. */
  function PrintBody(l: seq<Glyph>, rest: string): string {
    if l == [] then rest else GlyphText(l[0]) + PrintBody(l[1..], rest)
  }

  function GlyphValue(g: Glyph): char
    requires WellGlyph(g) && !IsHalf(g)
  {
    match g
    case Plain(c) => c
    case Escape(e) => SimpleEscape(e).value
    case Unicode(h) => HexDigits(h).value as char
  }

  function Unescape(l: seq<Glyph>): string
    requires WellBody(l) && !HasHalf(l)
  {
    if l == [] then [] else [GlyphValue(l[0])] + Unescape(l[1..])
  }

  datatype Exponent = Exponent(e: char, sign: Option<char>, digits: string)

  datatype Num = Num(minus: bool, whole: string, frac: Option<string>, exp: Option<Exponent>)

  predicate Digits(s: string) {
    s != [] && forall c :: c in s ==> '0' <= c <= '9'
  }

  predicate WellNum(n: Num) {
    && Digits(n.whole)
    && (|n.whole| > 1 ==> n.whole[0] != '0')
    && (n.frac.Some? ==> Digits(n.frac.value))
    && (n.exp.Some? ==>
      && (n.exp.value.e == 'e' || n.exp.value.e == 'E')
      && (n.exp.value.sign.Some? ==> n.exp.value.sign.value == '+' || n.exp.value.sign.value == '-')
      && Digits(n.exp.value.digits))
  }

  function NumText(n: Num): string {
    (if n.minus then "-" else "")
    + n.whole
    + (match n.frac case None => "" case Some(f) => "." + f)
    + (match n.exp
       case None => ""
       case Some(x) => [x.e] + (match x.sign case None => "" case Some(c) => [c]) + x.digits)
  }

  datatype Value =
    | True | False | Null
    | Number(num: Num)
    | String(body: seq<Glyph>)
    | EmptyArray(gap: string)
    | Array(items: Items)
    | EmptyObject(gap: string)
    | Object(members: Members)

  datatype Items = NoItems | Item(pre: string, value: Value, post: string, tail: Items)

  datatype Members =
    | NoMembers
    | Member(pre: string, key: seq<Glyph>, gap: string, lead: string, value: Value, post: string, tail: Members)

  predicate AllWs(s: string) {
    forall c :: c in s ==> IsWs(c)
  }

  predicate WellFormed(v: Value) {
    match v
    case Number(n) => WellNum(n)
    case String(body) => WellBody(body)
    case EmptyArray(gap) => AllWs(gap)
    case Array(items) => items.Item? && WellItems(items)
    case EmptyObject(gap) => AllWs(gap)
    case Object(members) => members.Member? && WellMembers(members)
    case _ => true
  }

  predicate WellItems(items: Items) {
    match items
    case NoItems => true
    case Item(pre, v, post, tail) => AllWs(pre) && WellFormed(v) && AllWs(post) && WellItems(tail)
  }

  predicate WellMembers(ms: Members) {
    match ms
    case NoMembers => true
    case Member(pre, key, gap, lead, v, post, tail) =>
      AllWs(pre) && WellBody(key) && AllWs(gap) && AllWs(lead) && WellFormed(v) && AllWs(post) && WellMembers(tail)
  }

  /** The text of a value followed by `rest`. */
  function Print(v: Value, rest: string): string {
    match v
    case True => "true" + rest
    case False => "false" + rest
    case Null => "null" + rest
    case Number(n) => NumText(n) + rest
    case String(body) => ['"'] + PrintBody(body, ['"'] + rest)
    case EmptyArray(gap) => ['['] + (gap + ([']'] + rest))
    case Array(items) => ['['] + PrintItems(items, [']'] + rest)
    case EmptyObject(gap) => ['{'] + (gap + (['}'] + rest))
    case Object(members) => ['{'] + PrintMembers(members, ['}'] + rest)
  }

  function PrintItems(items: Items, rest: string): string {
    match items
    case NoItems => rest
    case Item(pre, v, post, tail) =>
      pre + Print(v, post + (if tail.NoItems? then rest else [','] + PrintItems(tail, rest)))
  }

  function PrintMembers(ms: Members, rest: string): string {
    match ms
    case NoMembers => rest
    case Member(pre, key, gap, lead, v, post, tail) =>
      pre + (['"'] + PrintBody(key, ['"'] + (gap + ([':'] + (lead
        + Print(v, post + (if tail.NoMembers? then rest else [','] + PrintMembers(tail, rest))))))))
  }

  // ---- what the scan promises, said of the tree ----

  function Max(a: nat, b: nat): nat { if a < b then b else a }

  /** How many containers enclose the innermost point of a value. */
  function Height(v: Value): nat {
    match v
    case EmptyArray(_) => 1
    case EmptyObject(_) => 1
    case Array(items) => 1 + ItemsHeight(items)
    case Object(members) => 1 + MembersHeight(members)
    case _ => 0
  }

  function ItemsHeight(items: Items): nat {
    match items
    case NoItems => 0
    case Item(_, v, _, tail) => Max(Height(v), ItemsHeight(tail))
  }

  function MembersHeight(ms: Members): nat {
    match ms
    case NoMembers => 0
    case Member(_, _, _, _, v, _, tail) => Max(Height(v), MembersHeight(tail))
  }

  /** No string of the value, key or not, spells a surrogate half. */
  predicate WholeText(v: Value) {
    match v
    case String(body) => !HasHalf(body)
    case Array(items) => WholeItems(items)
    case Object(members) => WholeMembers(members)
    case _ => true
  }

  predicate WholeItems(items: Items) {
    match items
    case NoItems => true
    case Item(_, v, _, tail) => WholeText(v) && WholeItems(tail)
  }

  predicate WholeMembers(ms: Members) {
    match ms
    case NoMembers => true
    case Member(_, key, _, _, v, _, tail) => !HasHalf(key) && WholeText(v) && WholeMembers(tail)
  }

  /** An object's keys, unescaped, in the order written. */
  function Keys(ms: Members): seq<string>
    requires WellMembers(ms) && WholeMembers(ms)
  {
    match ms
    case NoMembers => []
    case Member(_, key, _, _, _, _, tail) => [Unescape(key)] + Keys(tail)
  }

  /** No object of the value spells the same key twice. */
  ghost predicate UniqueKeys(v: Value)
    requires WellFormed(v) && WholeText(v)
  {
    match v
    case Array(items) => UniqueInItems(items)
    case Object(members) => NoDup(Keys(members)) && UniqueInMembers(members)
    case _ => true
  }

  ghost predicate UniqueInItems(items: Items)
    requires WellItems(items) && WholeItems(items)
  {
    match items
    case NoItems => true
    case Item(_, v, _, tail) => UniqueKeys(v) && UniqueInItems(tail)
  }

  ghost predicate UniqueInMembers(ms: Members)
    requires WellMembers(ms) && WholeMembers(ms)
  {
    match ms
    case NoMembers => true
    case Member(_, _, _, _, v, _, tail) => UniqueKeys(v) && UniqueInMembers(tail)
  }

  // ---- strings read back ----

  lemma {:induction false} HexHasNoPlus(h: string)
    requires h != [] && HexDigits(h).Some?
    ensures h[0] != '+'
  {
    if |h| > 1 {
      HexHasNoPlus(h[..|h| - 1]);
    }
  }

  lemma HalfSplits(l: seq<Glyph>)
    requires l != []
    ensures HasHalf(l) <==> IsHalf(l[0]) || HasHalf(l[1..])
  {
    assert forall g :: g in l <==> g == l[0] || g in l[1..];
  }

  lemma ReadEscape(h: string, r: string)
    requires |h| == 4 && HexDigits(h).Some?
    ensures ReadBody(['\\', 'u'] + h + r)
         == if IsSurrogate(HexDigits(h).value) then None else Push(HexDigits(h).value as char, ReadBody(r))
  {
    hide HexDigits, SimpleEscape;
    var t := ['\\', 'u'] + h + r;
    HexHasNoPlus(h);
    assert t[2..6] == h && t[6..] == r && t[0] == '\\' && t[1] == 'u';
  }

  lemma ReadPlain(c: char, r: string)
    requires c != '"' && c != '\\'
    ensures ReadBody([c] + r) == Push(c, ReadBody(r))
  {
    assert ([c] + r)[1..] == r && ([c] + r)[0] == c;
  }

  lemma ReadSimple(e: char, r: string)
    requires SimpleEscape(e).Some?
    ensures ReadBody(['\\', e] + r) == Push(SimpleEscape(e).value, ReadBody(r))
  {
    hide UnicodeEscape;
    var t := ['\\', e] + r;
    assert t[2..] == r && t[0] == '\\' && t[1] == e && e != 'u';
  }

  /** One glyph of a string is read as the character it stands for. */
  lemma ReadGlyph(g: Glyph, r: string)
    requires WellGlyph(g)
    ensures ReadBody(GlyphText(g) + r) == if IsHalf(g) then None else Push(GlyphValue(g), ReadBody(r))
  {
    hide HexDigits, ReadBody, SimpleEscape;
    match g {
      case Plain(c) => ReadPlain(c, r);
      case Escape(e) => ReadSimple(e, r);
      case Unicode(h) => ReadEscape(h, r);
    }
  }

  /** Reading a printed string gives its content back, unless it spells a surrogate half. */
  lemma {:induction false} ReadPrinted(l: seq<Glyph>, rest: string)
    requires WellBody(l)
    ensures ReadBody(PrintBody(l, ['"'] + rest)) == if HasHalf(l) then None else Some(Read(Unescape(l), rest))
  {
    if l == [] {
      assert (['"'] + rest)[1..] == rest;
    } else {
      HalfSplits(l);
      ReadGlyph(l[0], PrintBody(l[1..], ['"'] + rest));
      ReadPrinted(l[1..], rest);
    }
  }

  // ---- numbers ----

  predicate NumberChars(s: string) {
    forall c :: c in s ==> IsNumberChar(c)
  }

  predicate Boundary(rest: string) {
    rest == [] || !IsNumberChar(rest[0])
  }

  lemma {:induction false} DropsAll(s: string, rest: string)
    requires NumberChars(s) && Boundary(rest)
    ensures DropNumber(s + rest) == rest
  {
    if s == [] {
      assert s + rest == rest;
    } else {
      assert s[0] in s && (s + rest)[1..] == s[1..] + rest;
      DropsAll(s[1..], rest);
    }
  }

  lemma NumberIsRun(n: Num)
    requires WellNum(n)
    ensures NumberChars(NumText(n))
    ensures var t := NumText(n); t != [] && (t[0] == '-' || '0' <= t[0] <= '9') && (t[0] == '-' ==> |t| > 1)
  {
    assert n.whole[0] in n.whole;
  }

  lemma SkipsNumber(n: Num, rest: string)
    requires WellNum(n) && Boundary(rest)
    ensures SkipLiteral(NumText(n) + rest) == Some(rest)
  {
    NumberIsRun(n);
    var t := NumText(n);
    var r := t + rest;
    assert r[0] == t[0];
    if t[0] == '-' {
      assert r[1..] == t[1..] + rest;
      assert t[1] in t;
      DropsAll(t[1..], rest);
    } else {
      DropsAll(t, rest);
    }
  }

  // ---- one token of the scan ----

  /** The next token is read where a value may stand. */
  predicate ValueHere(stack: seq<Frame>, root: bool) {
    if stack == [] then !root else root && !ExpectsKey(stack)
  }

  lemma PastKeyIdle(stack: seq<Frame>)
    requires !ExpectsKey(stack)
    ensures PastKey(stack) == stack
  {}

  lemma {:induction false} SkipsWs(ws: string, r: string)
    requires AllWs(ws)
    ensures SkipWs(ws + r) == SkipWs(r)
  {
    if ws == [] {
      assert ws + r == r;
    } else {
      assert ws[0] in ws && (ws + r)[1..] == ws[1..] + r;
      SkipsWs(ws[1..], r);
    }
  }

  lemma ScanWs(ws: string, r: string, stack: seq<Frame>, root: bool)
    requires AllWs(ws)
    ensures Scan(ws + r, stack, root) == Scan(r, stack, root)
  {
    SkipsWs(ws, r);
  }

  lemma {:induction false} SkipTwice(r: string)
    ensures SkipWs(SkipWs(r)) == SkipWs(r)
  {
    if r != [] && IsWs(r[0]) {
      SkipTwice(r[1..]);
    }
  }

  lemma ScanSkipped(r: string, stack: seq<Frame>, root: bool)
    ensures Scan(SkipWs(r), stack, root) == Scan(r, stack, root)
  {
    SkipTwice(r);
  }

  function After(o: Outcome): Verdict {
    match o
    case Stop(f) => Rejected(f)
    case Go(rest, stack, root) => Scan(rest, stack, root)
  }

  lemma ScanToken(t: string, stack: seq<Frame>, root: bool)
    requires t != [] && !IsWs(t[0])
    ensures Scan(t, stack, root) == After(Token(t, stack, root))
  {}

  lemma ScanOpen(ctx: Ctx, r: string, stack: seq<Frame>, root: bool)
    requires ValueHere(stack, root)
    ensures var t := [if ctx == Obj then '{' else '['] + r;
      if |stack| + 1 > MAX_DEPTH then Scan(t, stack, root).Rejected?
      else Scan(t, stack, root) == Scan(r, stack + [Frame(ctx, {}, ctx == Obj)], true)
  {
    hide Scan, SkipWs, SkipLiteral, ReadBody;
    var t := [if ctx == Obj then '{' else '['] + r;
    ScanToken(t, stack, root);
    PastKeyIdle(stack);
    assert t[1..] == r;
  }

  lemma ScanClose(f: Frame, r: string, stack: seq<Frame>)
    requires !ExpectsKey(stack)
    ensures Scan([if f.ctx == Obj then '}' else ']'] + r, stack + [f], true) == Scan(r, stack, true)
  {
    hide Scan, SkipWs, SkipLiteral, ReadBody;
    var t := [if f.ctx == Obj then '}' else ']'] + r;
    var inner := stack + [f];
    ScanToken(t, inner, true);
    PastKeyIdle(stack);
    assert t[1..] == r && inner[..|inner| - 1] == stack;
  }

  lemma ScanComma(f: Frame, r: string, stack: seq<Frame>)
    ensures Scan([','] + r, stack + [f], true)
         == Scan(r, stack + [if f.ctx == Obj then f.(expectKey := true) else f], true)
  {
    hide Scan, SkipWs, SkipLiteral, ReadBody;
    var t := [','] + r;
    var inner := stack + [f];
    ScanToken(t, inner, true);
    assert t[1..] == r;
    assert inner[|inner| - 1 := f.(expectKey := true)] == stack + [f.(expectKey := true)];
  }

  lemma ScanString(body: seq<Glyph>, r: string, stack: seq<Frame>, root: bool)
    requires WellBody(body) && ValueHere(stack, root)
    ensures var t := ['"'] + PrintBody(body, ['"'] + r);
      if HasHalf(body) then Scan(t, stack, root).Rejected? else Scan(t, stack, root) == Scan(r, stack, true)
  {
    hide Scan, SkipWs, SkipLiteral, ReadBody, HasHalf, WellBody, Unescape, PrintBody;
    var t := ['"'] + PrintBody(body, ['"'] + r);
    ScanToken(t, stack, root);
    ReadPrinted(body, r);
    assert t[1..] == PrintBody(body, ['"'] + r);
    ScanSkipped(r, stack, true);
  }

  lemma ScanKey(key: seq<Glyph>, gap: string, r: string, stack: seq<Frame>, keys: set<string>)
    requires WellBody(key) && AllWs(gap)
    ensures var t := ['"'] + PrintBody(key, ['"'] + (gap + ([':'] + r)));
      var v := Scan(t, stack + [Frame(Obj, keys, true)], true);
      if HasHalf(key) || Unescape(key) in keys then v.Rejected?
      else v == Scan(r, stack + [Frame(Obj, keys + {Unescape(key)}, false)], true)
  {
    hide Scan, SkipWs, SkipLiteral, ReadBody, HasHalf, WellBody, Unescape, PrintBody, AllWs;
    var tail := gap + ([':'] + r);
    var t := ['"'] + PrintBody(key, ['"'] + tail);
    var inner := stack + [Frame(Obj, keys, true)];
    ScanToken(t, inner, true);
    ReadPrinted(key, tail);
    SkipsWs(gap, [':'] + r);
    ColonStops(r);
    assert t[1..] == PrintBody(key, ['"'] + tail);
    if !HasHalf(key) {
      var f := Frame(Obj, keys + {Unescape(key)}, false);
      assert inner[|inner| - 1 := f] == stack + [f];
    }
  }

  lemma ColonStops(r: string)
    ensures SkipWs([':'] + r) == [':'] + r && ([':'] + r)[1..] == r
  {}

  lemma ScanLiteral(t: string, r: string, stack: seq<Frame>, root: bool)
    requires ValueHere(stack, root)
    requires t != [] && SkipLiteral(t) == Some(r)
    requires t[0] == 't' || t[0] == 'f' || t[0] == 'n' || t[0] == '-' || '0' <= t[0] <= '9'
    ensures Scan(t, stack, root) == Scan(r, stack, true)
  {
    hide Scan, SkipWs, SkipLiteral, ReadBody;
    ScanToken(t, stack, root);
    PastKeyIdle(stack);
  }

  lemma SkipsWord(r: string)
    ensures SkipLiteral("true" + r) == Some(r)
    ensures SkipLiteral("false" + r) == Some(r)
    ensures SkipLiteral("null" + r) == Some(r)
  {
    assert ("true" + r)[4..] == r && ("false" + r)[5..] == r && ("null" + r)[4..] == r;
    assert "true" <= "true" + r && "false" <= "false" + r && "null" <= "null" + r;
    assert ("false" + r)[0] == 'f' && ("null" + r)[0] == 'n';
  }

  // ---- whole values ----

  /** The scan reads a value at nesting depth `d` without complaint. */
  predicate Passes(v: Value, d: nat)
    requires WellFormed(v)
  {
    match v
    case String(body) => !HasHalf(body)
    case EmptyArray(_) => d + 1 <= MAX_DEPTH
    case EmptyObject(_) => d + 1 <= MAX_DEPTH
    case Array(items) => d + 1 <= MAX_DEPTH && ItemsPass(items, d + 1)
    case Object(members) => d + 1 <= MAX_DEPTH && MembersPass(members, {}, d + 1)
    case _ => true
  }

  predicate ItemsPass(items: Items, d: nat)
    requires WellItems(items)
  {
    match items
    case NoItems => true
    case Item(_, v, _, tail) => Passes(v, d) && ItemsPass(tail, d)
  }

  predicate MembersPass(ms: Members, seen: set<string>, d: nat)
    requires WellMembers(ms)
  {
    match ms
    case NoMembers => true
    case Member(_, key, _, _, v, _, tail) =>
      !HasHalf(key) && Unescape(key) !in seen && Passes(v, d) && MembersPass(tail, seen + {Unescape(key)}, d)
  }

  lemma WsBoundary(post: string, rest: string)
    requires AllWs(post) && Boundary(rest)
    ensures Boundary(post + rest)
  {
    if post != [] {
      assert post[0] in post;
    }
  }

  /** Scanning a printed value either rejects, or goes on after it with the same stack. */
  lemma {:induction false} ScanValue(v: Value, rest: string, stack: seq<Frame>, root: bool)
    requires WellFormed(v) && Boundary(rest) && ValueHere(stack, root)
    ensures Passes(v, |stack|) ==> Scan(Print(v, rest), stack, root) == Scan(rest, stack, true)
    ensures !Passes(v, |stack|) ==> Scan(Print(v, rest), stack, root).Rejected?
    decreases v
  {
    hide Scan, SkipLiteral, WellNum, NumText, HasHalf, WellBody, PrintBody, AllWs;
    match v {
      case True =>
        SkipsWord(rest);
        ScanLiteral("true" + rest, rest, stack, root);
      case False =>
        SkipsWord(rest);
        ScanLiteral("false" + rest, rest, stack, root);
      case Null =>
        SkipsWord(rest);
        ScanLiteral("null" + rest, rest, stack, root);
      case Number(n) =>
        NumberIsRun(n);
        SkipsNumber(n, rest);
        ScanLiteral(NumText(n) + rest, rest, stack, root);
      case String(body) =>
        ScanString(body, rest, stack, root);
      case EmptyArray(gap) =>
        var f := Frame(Arr, {}, false);
        ScanOpen(Arr, gap + ([']'] + rest), stack, root);
        ScanWs(gap, [']'] + rest, stack + [f], true);
        ScanClose(f, rest, stack);
      case EmptyObject(gap) =>
        var f := Frame(Obj, {}, true);
        ScanOpen(Obj, gap + (['}'] + rest), stack, root);
        ScanWs(gap, ['}'] + rest, stack + [f], true);
        ScanClose(f, rest, stack);
      case Array(items) =>
        ScanOpen(Arr, PrintItems(items, [']'] + rest), stack, root);
        ScanItems(items, rest, stack);
      case Object(members) =>
        ScanOpen(Obj, PrintMembers(members, ['}'] + rest), stack, root);
        ScanMembers(members, rest, stack, {});
    }
  }

  lemma {:induction false} ScanItems(items: Items, rest: string, stack: seq<Frame>)
    requires items.Item? && WellItems(items) && !ExpectsKey(stack)
    ensures var r := Scan(PrintItems(items, [']'] + rest), stack + [Frame(Arr, {}, false)], true);
      if ItemsPass(items, |stack| + 1) then r == Scan(rest, stack, true) else r.Rejected?
    decreases items
  {
    hide Scan, AllWs, Print, WellFormed, Passes;
    var f := Frame(Arr, {}, false);
    var inner := stack + [f];
    var Item(pre, v, post, tail) := items;
    var more := if tail.NoItems? then [']'] + rest else [','] + PrintItems(tail, [']'] + rest);
    ScanWs(pre, Print(v, post + more), inner, true);
    WsBoundary(post, more);
    ScanValue(v, post + more, inner, true);
    ScanWs(post, more, inner, true);
    if tail.NoItems? {
      assert ItemsPass(tail, |stack| + 1);
      ScanClose(f, rest, stack);
    } else {
      ScanComma(f, PrintItems(tail, [']'] + rest), stack);
      ScanItems(tail, rest, stack);
    }
  }

  lemma {:induction false} ScanMembers(ms: Members, rest: string, stack: seq<Frame>, seen: set<string>)
    requires ms.Member? && WellMembers(ms) && !ExpectsKey(stack)
    ensures var r := Scan(PrintMembers(ms, ['}'] + rest), stack + [Frame(Obj, seen, true)], true);
      if MembersPass(ms, seen, |stack| + 1) then r == Scan(rest, stack, true) else r.Rejected?
    decreases ms
  {
    hide Scan, AllWs, Print, WellFormed, Passes, PrintBody, HasHalf, WellBody;
    var Member(pre, key, gap, lead, v, post, tail) := ms;
    var more := if tail.NoMembers? then ['}'] + rest else [','] + PrintMembers(tail, ['}'] + rest);
    var value := lead + Print(v, post + more);
    ScanWs(pre, ['"'] + PrintBody(key, ['"'] + (gap + ([':'] + value))), stack + [Frame(Obj, seen, true)], true);
    ScanKey(key, gap, value, stack, seen);
    if !HasHalf(key) && Unescape(key) !in seen {
      var f := Frame(Obj, seen + {Unescape(key)}, false);
      var inner := stack + [f];
      ScanWs(lead, Print(v, post + more), inner, true);
      WsBoundary(post, more);
      ScanValue(v, post + more, inner, true);
      ScanWs(post, more, inner, true);
      if tail.NoMembers? {
        assert MembersPass(tail, seen + {Unescape(key)}, |stack| + 1);
        ScanClose(f, rest, stack);
      } else {
        ScanComma(f, PrintMembers(tail, ['}'] + rest), stack);
        ScanMembers(tail, rest, stack, seen + {Unescape(key)});
      }
    }
  }

  // ---- the scan's condition, read off the tree ----

  lemma {:induction false} PassesIff(v: Value, d: nat)
    requires WellFormed(v) && d <= MAX_DEPTH
    ensures Passes(v, d) <==> WholeText(v) && UniqueKeys(v) && d + Height(v) <= MAX_DEPTH
    decreases v
  {
    match v {
      case Array(items) =>
        if d + 1 <= MAX_DEPTH {
          ItemsPassIff(items, d + 1);
        }
      case Object(members) =>
        if d + 1 <= MAX_DEPTH {
          MembersPassIff(members, {}, d + 1);
        }
      case _ =>
    }
  }

  lemma {:induction false} ItemsPassIff(items: Items, d: nat)
    requires WellItems(items) && d <= MAX_DEPTH
    ensures ItemsPass(items, d) <==> WholeItems(items) && UniqueInItems(items) && d + ItemsHeight(items) <= MAX_DEPTH
    decreases items
  {
    match items {
      case NoItems =>
      case Item(_, v, _, tail) =>
        PassesIff(v, d);
        ItemsPassIff(tail, d);
    }
  }

  ghost predicate FreshKeys(keys: seq<string>, seen: set<string>) {
    NoDup(keys) && forall k :: k in keys ==> k !in seen
  }

  lemma FreshKeysCons(k: string, keys: seq<string>, seen: set<string>)
    ensures FreshKeys([k] + keys, seen) <==> k !in seen && FreshKeys(keys, seen + {k})
  {
    var all := [k] + keys;
    assert forall i :: 0 <= i < |keys| ==> keys[i] == all[i + 1];
    assert all[0] == k;
    assert forall x :: x in all <==> x == k || x in keys;
    if k !in seen && FreshKeys(keys, seen + {k}) {
      forall i, j | 0 <= i < j < |all| ensures all[i] != all[j] {
        assert all[j] == keys[j - 1] && keys[j - 1] in keys;
      }
    }
    if FreshKeys(all, seen) {
      forall x | x in keys ensures x !in seen + {k} {
        var i :| 0 <= i < |keys| && keys[i] == x;
        assert all[0] != all[i + 1];
      }
      forall i, j | 0 <= i < j < |keys| ensures keys[i] != keys[j] {
        assert all[i + 1] != all[j + 1];
      }
    }
  }

  lemma {:induction false} MembersPassIff(ms: Members, seen: set<string>, d: nat)
    requires WellMembers(ms) && d <= MAX_DEPTH
    ensures MembersPass(ms, seen, d)
       <==> WholeMembers(ms) && FreshKeys(Keys(ms), seen) && UniqueInMembers(ms) && d + MembersHeight(ms) <= MAX_DEPTH
    decreases ms
  {
    hide FreshKeys, HasHalf, WellBody, Unescape;
    match ms {
      case NoMembers =>
        NoFresh(seen);
      case Member(_, key, _, _, v, _, tail) =>
        PassesIff(v, d);
        if !HasHalf(key) {
          MembersPassIff(tail, seen + {Unescape(key)}, d);
          if WholeMembers(tail) {
            FreshKeysCons(Unescape(key), Keys(tail), seen);
          }
        }
    }
  }

  lemma NoFresh(seen: set<string>)
    ensures FreshKeys([], seen)
  {}

  /** Every well-formed JSON text, surrounded by any whitespace, is accepted exactly when
      no object repeats a key, nesting stays within the limit and no `\u` escape is a
      surrogate half. */
  lemma ScanDecides(pre: string, v: Value, post: string)
    requires AllWs(pre) && WellFormed(v) && AllWs(post)
    ensures Scan(pre + Print(v, post), [], false) == Accepted
       <==> WholeText(v) && UniqueKeys(v) && Height(v) <= MAX_DEPTH
  {
    ScanWs(pre, Print(v, post), [], false);
    WsBoundary(post, "");
    assert post + "" == post;
    ScanValue(v, post, [], false);
    ScanWs(post, "", [], true);
    PassesIff(v, 0);
  }

  const HIGH := Unicode("d83d")
  const LOW := Unicode("de00")

  /** The escaped pair that section 7 of RFC 8259 gives for a character beyond the basic
      plane is well formed, and is rejected. */
  lemma SurrogatePairRejected()
    ensures WellFormed(String([HIGH, LOW]))
    ensures Scan(Print(String([HIGH, LOW]), ""), [], false).Rejected?
  {
    PairIsHalves();
    var v := String([HIGH, LOW]);
    assert HIGH in v.body;
    ScanDecides("", v, "");
    assert "" + Print(v, "") == Print(v, "");
  }

  lemma PairIsHalves()
    ensures WellGlyph(HIGH) && WellGlyph(LOW) && IsHalf(HIGH)
  {
    FourDigits('d', '8', '3', 'd');
    FourDigits('d', 'e', '0', '0');
  }

  lemma FourDigits(a: char, b: char, c: char, d: char)
    requires HexValue(a).Some? && HexValue(b).Some? && HexValue(c).Some? && HexValue(d).Some?
    ensures HexDigits([a, b, c, d])
         == Some(0x1000 * HexValue(a).value + 0x100 * HexValue(b).value + 0x10 * HexValue(c).value + HexValue(d).value)
  {
    assert [a, b, c, d][..3] == [a, b, c] && [a, b, c][..2] == [a, b] && [a, b][..1] == [a] && [a][..0] == [];
    assert HexDigits([a]) == Some(HexValue(a).value);
    assert HexDigits([a, b]) == Some(0x10 * HexValue(a).value + HexValue(b).value);
    assert HexDigits([a, b, c]) == Some(0x100 * HexValue(a).value + 0x10 * HexValue(b).value + HexValue(c).value);
  }

  // ---- the scanner itself ----

  method SkipSpace(s: string, start: nat) returns (i: nat)
    requires start <= |s|
    ensures start <= i <= |s| && s[i..] == SkipWs(s[start..])
  {
    i := start;
    while i < |s| && IsWs(s[i])
      invariant start <= i <= |s|
      invariant SkipWs(s[i..]) == SkipWs(s[start..])
    {
      assert s[i..][1..] == s[i + 1..];
      i := i + 1;
    }
  }

  function Prepend(out: string, o: Option<Read>): Option<Read> {
    match o
    case None => None
    case Some(rd) => Some(Read(out + rd.content, rd.rest))
  }

  /** Decodes the character written at `i`, and how many characters it takes. */
  method ReadOne(s: string, i: nat) returns (c: Option<char>, step: nat)
    requires i < |s| && s[i] != '"'
    ensures 1 <= step && i + step <= |s|
    ensures ReadBody(s[i..]) == (if c.None? then None else Push(c.value, ReadBody(s[i + step..])))
  {
    hide SimpleEscape, UnicodeEscape;
    ghost var r := s[i..];
    if s[i] != '\\' {
      c, step := Some(s[i]), 1;
    } else if i + 1 >= |s| {
      c, step := None, 1;
    } else if s[i + 1] != 'u' {
      c, step := SimpleEscape(s[i + 1]), 2;
    } else if i + 6 > |s| {
      c, step := None, 2;
    } else {
      assert r[2..6] == s[i + 2..i + 6];
      c, step := UnicodeEscape(s[i + 2..i + 6]), 6;
    }
    assert r[step..] == s[i + step..];
  }

  /** Reads the string whose opening quote is just before `start`. */
  method ReadString(s: string, start: nat) returns (content: Option<string>, i: nat)
    requires start <= |s|
    ensures start <= i <= |s|
    ensures ReadBody(s[start..]) == (if content.None? then None else Some(Read(content.value, s[i..])))
  {
    hide ReadBody;
    i := start;
    var out := "";
    PrependNothing(ReadBody(s[start..]));
    while i < |s| && s[i] != '"'
      invariant start <= i <= |s|
      invariant Prepend(out, ReadBody(s[i..])) == ReadBody(s[start..])
    {
      var c, step := ReadOne(s, i);
      if c.None? {
        return None, i;
      }
      PrependPush(out, c.value, ReadBody(s[i + step..]));
      out, i := out + [c.value], i + step;
    }
    ReadEnd(s[i..]);
    if i >= |s| {
      return None, i;
    }
    assert s[i..][1..] == s[i + 1..];
    assert out + [] == out;
    return Some(out), i + 1;
  }

  lemma ReadEnd(r: string)
    ensures r == [] ==> ReadBody(r) == None
    ensures r != [] && r[0] == '"' ==> ReadBody(r) == Some(Read([], r[1..]))
  {}

  lemma PrependNothing(o: Option<Read>)
    ensures Prepend("", o) == o
  {
    if o.Some? {
      assert "" + o.value.content == o.value.content;
    }
  }

  lemma PrependPush(out: string, c: char, o: Option<Read>)
    ensures Prepend(out, Push(c, o)) == Prepend(out + [c], o)
  {
    if o.Some? {
      assert out + ([c] + o.value.content) == out + [c] + o.value.content;
    }
  }

  /** Passes over a run of number characters. */
  method SkipRun(s: string, start: nat) returns (i: nat)
    requires start <= |s|
    ensures start <= i <= |s| && s[i..] == DropNumber(s[start..])
    ensures i > start <==> start < |s| && IsNumberChar(s[start])
  {
    i := start;
    while i < |s| && IsNumberChar(s[i])
      invariant start <= i <= |s|
      invariant i > start ==> IsNumberChar(s[start])
      invariant DropNumber(s[i..]) == DropNumber(s[start..])
    {
      assert s[i..][1..] == s[i + 1..];
      i := i + 1;
    }
  }

  /** Passes over `true`, `false`, `null` or a run of number characters. */
  method SkipWord(s: string, start: nat) returns (ok: bool, i: nat)
    requires start <= |s|
    ensures start <= i <= |s|
    ensures SkipLiteral(s[start..]) == (if ok then Some(s[i..]) else None)
  {
    hide DropNumber, IsNumberChar;
    var rest := s[start..];
    if "true" <= rest {
      return true, start + 4;
    }
    if "false" <= rest {
      return true, start + 5;
    }
    if "null" <= rest {
      return true, start + 4;
    }
    var body := if start < |s| && s[start] == '-' then start + 1 else start;
    i := SkipRun(s, body);
    ok := i > body;
    assert s[body..] == if rest != [] && rest[0] == '-' then rest[1..] else rest;
  }

  /** A string token: an object key with its colon, or a value. */
  method ScanQuoted(s: string, start: nat, stack: seq<Frame>, root: bool)
    returns (fault: Option<Fault>, i: nat, stack': seq<Frame>, root': bool)
    requires start < |s|
    ensures start <= i <= |s|
    ensures StringToken(s[start..], stack, root)
         == (if fault.Some? then Stop(fault.value) else Go(s[i..], stack', root'))
  {
    hide ReadBody, SkipWs;
    stack', root', fault := stack, root, None;
    var n := |stack|;
    assert s[start..][1..] == s[start + 1..];
    var content;
    content, i := ReadString(s, start + 1);
    if content.None? {
      return Some(BadString), i, stack', root';
    }
    i := SkipSpace(s, i);
    if n > 0 && stack[n - 1].ctx == Obj && stack[n - 1].expectKey {
      if i >= |s| || s[i] != ':' {
        return Some(ExpectedColon), i, stack', root';
      }
      if content.value in stack[n - 1].keys {
        return Some(DuplicateKey), i, stack', root';
      }
      stack' := stack[n - 1 := Frame(Obj, stack[n - 1].keys + {content.value}, false)];
      assert s[i..][1..] == s[i + 1..];
      i := i + 1;
    } else if n == 0 {
      root' := true;
    }
  }

  /** One token at position `i`; the stack's top is the last frame. */
  method ScanStep(s: string, start: nat, stack: seq<Frame>, root: bool)
    returns (fault: Option<Fault>, i: nat, stack': seq<Frame>, root': bool)
    requires start < |s|
    ensures start <= i <= |s|
    ensures Token(s[start..], stack, root) == (if fault.Some? then Stop(fault.value) else Go(s[i..], stack', root'))
  {
    hide StringToken, SkipLiteral;
    i, stack', root', fault := start, stack, root, None;
    ghost var t := s[start..];
    var n := |stack|;
    var expectsKey := n > 0 && stack[n - 1].ctx == Obj && stack[n - 1].expectKey;
    assert t[0] == s[start] && t[1..] == s[start + 1..];
    if s[i] == '{' || s[i] == '[' {
      var ctx := if s[i] == '{' then Obj else Arr;
      if n + 1 > MAX_DEPTH {
        return Some(MaxDepth), i, stack', root';
      }
      if n == 0 {
        if root {
          return Some(TrailingData), i, stack', root';
        }
        root' := true;
      } else if expectsKey {
        return Some(UnexpectedOpen), i, stack', root';
      } else if stack[n - 1].ctx == Obj {
        stack' := stack[n - 1 := stack[n - 1].(expectKey := false)];
      }
      stack', i := stack' + [Frame(ctx, {}, ctx == Obj)], i + 1;
    } else if s[i] == '}' || s[i] == ']' {
      var want := if s[i] == '}' then Obj else Arr;
      if n == 0 || stack[n - 1].ctx != want {
        return Some(Unbalanced), i, stack', root';
      }
      stack', i := stack[..n - 1], i + 1;
      if n > 1 && stack'[n - 2].ctx == Obj {
        stack' := stack'[n - 2 := stack'[n - 2].(expectKey := false)];
      }
    } else if s[i] == '"' {
      fault, i, stack', root' := ScanQuoted(s, start, stack, root);
    } else if s[i] == ',' {
      if n == 0 {
        return Some(StrayComma), i, stack', root';
      }
      i := i + 1;
      if stack[n - 1].ctx == Obj {
        stack' := stack[n - 1 := stack[n - 1].(expectKey := true)];
      }
    } else if s[i] == ':' {
      return Some(StrayColon), i, stack', root';
    } else {
      var ok;
      ok, i := SkipWord(s, start);
      if !ok {
        return Some(BadLiteral), i, stack', root';
      }
      if expectsKey {
        return Some(ExpectedKey), i, stack', root';
      }
      if n == 0 {
        root' := true;
      } else if stack[n - 1].ctx == Obj {
        stack' := stack[n - 1 := stack[n - 1].(expectKey := false)];
      }
    }
  }

  /** The scan of a whole payload. */
  method ScanStructure(s: string) returns (verdict: Verdict)
    ensures verdict == Scan(s, [], false)
  {
    hide Token, SkipWs;
    var i: nat, stack: seq<Frame>, root := 0, [], false;
    assert s[0..] == s;
    while true
      invariant i <= |s|
      invariant Scan(s[i..], stack, root) == Scan(s, [], false)
      decreases |s| - i
    {
      i := SkipSpace(s, i);
      if i >= |s| {
        break;
      }
      var fault, j, stack', root' := ScanStep(s, i, stack, root);
      if fault.Some? {
        return Rejected(fault.value);
      }
      i, stack, root := j, stack', root';
    }
    return if stack != [] || !root then Rejected(Incomplete) else Accepted;
  }
}
