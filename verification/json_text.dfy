/** The JSON text of chat events: Python's `json.dumps` on the server, `JSON.parse` in the browser.

    A Python string is a sequence of code points (lone surrogates included), a JavaScript string a
    sequence of UTF-16 units. Escaping follows section 7 of RFC 8259; `json.dumps` escapes everything
    outside printable ASCII, so the text itself is plain ASCII. */
module JsonText {
  import opened Common

  type CodePoint = n: int | 0 <= n < 0x110000
  type Unit = n: int | 0 <= n < 0x10000

  datatype Json<C> =
    | Null
    | Bool(value: bool)
    | Num(number: int)
    | Str(text: seq<C>)
    | Arr(items: Items<C>)
    | Obj(members: Members<C>)

  datatype Items<C> = NoItems | Item(head: Json<C>, tail: Items<C>)

  datatype Members<C> = NoMembers | Member(key: seq<C>, first: Json<C>, others: Members<C>)

  /** The UTF-16 units of one code point. */
  function Utf16Of(c: CodePoint): seq<Unit> {
    if c < 0x10000 then [c]
    else [0xD800 + (c - 0x10000) / 0x400, 0xDC00 + (c - 0x10000) % 0x400]
  }

  function Utf16(s: seq<CodePoint>): seq<Unit> {
    if s == [] then [] else Utf16Of(s[0]) + Utf16(s[1..])
  }

  /** A code point beyond the first plane is a high and a low surrogate, and can be computed back from them. */
  lemma Utf16Is(c: CodePoint)
    ensures var units := Utf16Of(c);
            if c < 0x10000 then units == [c]
            else
              && |units| == 2 && 0xD800 <= units[0] < 0xDC00 <= units[1] < 0xE000
              && c == 0x10000 + (units[0] as int - 0xD800) * 0x400 + (units[1] as int - 0xDC00)
  {
  }

  /** A Dafny string as code points, and as the units a JavaScript program sees. */
  function Codes(s: string): seq<CodePoint> {
    seq(|s|, i requires 0 <= i < |s| => s[i] as int)
  }

  function Units(s: string): seq<Unit> {
    Utf16(Codes(s))
  }

  /** A member of a parsed object; of equal keys the last one wins. */
  function Lookup(members: Members<Unit>, key: seq<Unit>): Option<Json<Unit>> {
    match members
    case NoMembers => None
    case Member(k, value, others) =>
      var later := Lookup(others, key);
      if later.Some? then later else if k == key then Some(value) else None
  }

  /** The members of two objects, one after the other. */
  function Then(members: Members<Unit>, more: Members<Unit>): Members<Unit> {
    match members
    case NoMembers => more
    case Member(key, value, others) => Member(key, value, Then(others, more))
  }

  /** A member written later replaces an earlier one of the same name and leaves the others alone. */
  lemma {:induction false} LastMemberWins(members: Members<Unit>, key: seq<Unit>, value: Json<Unit>, other: seq<Unit>)
    ensures Lookup(Then(members, Member(key, value, NoMembers)), other)
            == if other == key then Some(value) else Lookup(members, other)
    decreases members
  {
    if members.Member? {
      LastMemberWins(members.others, key, value, other);
    }
  }

  function InBrowser(j: Json<CodePoint>): Json<Unit> {
    match j
    case Null => Null
    case Bool(b) => Bool(b)
    case Num(n) => Num(n)
    case Str(s) => Str(Utf16(s))
    case Arr(items) => Arr(ItemsInBrowser(items))
    case Obj(members) => Obj(MembersInBrowser(members))
  }

  function ItemsInBrowser(items: Items<CodePoint>): Items<Unit> {
    match items
    case NoItems => NoItems
    case Item(head, tail) => Item(InBrowser(head), ItemsInBrowser(tail))
  }

  function MembersInBrowser(members: Members<CodePoint>): Members<Unit> {
    match members
    case NoMembers => NoMembers
    case Member(key, first, others) => Member(Utf16(key), InBrowser(first), MembersInBrowser(others))
  }

  // ---- Printing. Every printer puts its text in front of `rest`. ----

  function HexDigit(n: int): char
    requires 0 <= n < 16
  {
    "0123456789abcdef"[n]
  }

  function PrintHex4(n: Unit, rest: string): string {
    [HexDigit(n / 4096), HexDigit(n / 256 % 16), HexDigit(n / 16 % 16), HexDigit(n % 16)] + rest
  }

  function PrintUnits(units: seq<Unit>, rest: string): string {
    if units == [] then rest else ['\\', 'u'] + PrintHex4(units[0], PrintUnits(units[1..], rest))
  }

  /** One code point inside a JSON string. */
  function PrintChar(c: CodePoint, rest: string): string {
    if c == 0x22 then ['\\', '"'] + rest
    else if c == 0x5C then ['\\', '\\'] + rest
    else if c == 0x0A then ['\\', 'n'] + rest
    else if c == 0x0D then ['\\', 'r'] + rest
    else if c == 0x09 then ['\\', 't'] + rest
    else if c == 0x0C then ['\\', 'f'] + rest
    else if c == 0x08 then ['\\', 'b'] + rest
    else if 0x20 <= c <= 0x7E then [c as char] + rest
    else PrintUnits(Utf16Of(c), rest)
  }

  function PrintChars(s: seq<CodePoint>, rest: string): string {
    if s == [] then rest else PrintChar(s[0], PrintChars(s[1..], rest))
  }

  function PrintString(s: seq<CodePoint>, rest: string): string {
    ['"'] + PrintChars(s, ['"'] + rest)
  }

  function DigitChar(d: int): char
    requires 0 <= d < 10
  {
    "0123456789"[d]
  }

  function PrintNat(n: nat, rest: string): string {
    if n < 10 then [DigitChar(n)] + rest else PrintNat(n / 10, [DigitChar(n % 10)] + rest)
  }

  function Print(j: Json<CodePoint>, rest: string): string
    decreases j
  {
    match j
    case Null => ['n', 'u', 'l', 'l'] + rest
    case Bool(true) => ['t', 'r', 'u', 'e'] + rest
    case Bool(false) => ['f', 'a', 'l', 's', 'e'] + rest
    case Num(n) => if n < 0 then ['-'] + PrintNat(-n, rest) else PrintNat(n, rest)
    case Str(s) => PrintString(s, rest)
    case Arr(NoItems) => ['[', ']'] + rest
    case Arr(Item(head, tail)) => ['['] + Print(head, PrintItems(tail, rest))
    case Obj(NoMembers) => ['{', '}'] + rest
    case Obj(Member(key, first, others)) =>
      ['{'] + PrintString(key, [':', ' '] + Print(first, PrintMembers(others, rest)))
  }

  /** The items after the first, up to the closing bracket. */
  function PrintItems(items: Items<CodePoint>, rest: string): string
    decreases items
  {
    match items
    case NoItems => [']'] + rest
    case Item(head, tail) => [',', ' '] + Print(head, PrintItems(tail, rest))
  }

  function PrintMembers(members: Members<CodePoint>, rest: string): string
    decreases members
  {
    match members
    case NoMembers => ['}'] + rest
    case Member(key, first, others) =>
      [',', ' '] + PrintString(key, [':', ' '] + Print(first, PrintMembers(others, rest)))
  }

  function Dumps(j: Json<CodePoint>): string {
    Print(j, "")
  }

  // ---- Parsing. Every parser returns its value and the text that follows it. ----

  datatype Parsed<T> = Fail | Ok(value: T, rest: string)

  predicate IsWs(c: char) {
    c == ' ' || c == '\t' || c == '\n' || c == '\r'
  }

  function SkipWs(s: string): (r: string)
    ensures |r| <= |s|
  {
    if s != [] && IsWs(s[0]) then SkipWs(s[1..]) else s
  }

  function HexValue(c: char): int {
    if '0' <= c <= '9' then c as int - '0' as int
    else if 'a' <= c <= 'f' then c as int - 'a' as int + 10
    else if 'A' <= c <= 'F' then c as int - 'A' as int + 10
    else -1
  }

  function ParseHex4(s: string): (r: Parsed<Unit>)
    ensures r.Ok? ==> |r.rest| < |s|
  {
    if |s| < 4 then Fail
    else
      var a, b, c, d := HexValue(s[0]), HexValue(s[1]), HexValue(s[2]), HexValue(s[3]);
      if a < 0 || b < 0 || c < 0 || d < 0 || a > 15 || b > 15 || c > 15 || d > 15 then Fail
      else Ok(a * 4096 + b * 256 + c * 16 + d, s[4..])
  }

  /** What follows a backslash. */
  function ParseEscape(s: string): (r: Parsed<Unit>)
    ensures r.Ok? ==> |r.rest| < |s|
  {
    if s == [] then Fail
    else if s[0] == '"' then Ok(0x22, s[1..])
    else if s[0] == '\\' then Ok(0x5C, s[1..])
    else if s[0] == '/' then Ok(0x2F, s[1..])
    else if s[0] == 'n' then Ok(0x0A, s[1..])
    else if s[0] == 'r' then Ok(0x0D, s[1..])
    else if s[0] == 't' then Ok(0x09, s[1..])
    else if s[0] == 'f' then Ok(0x0C, s[1..])
    else if s[0] == 'b' then Ok(0x08, s[1..])
    else if s[0] == 'u' then ParseHex4(s[1..])
    else Fail
  }

  /** The inside of a string, up to and including the closing quote. */
  function ParseChars(s: string): (r: Parsed<seq<Unit>>)
    ensures r.Ok? ==> |r.rest| < |s|
    decreases |s|
  {
    if s == [] || s[0] < ' ' then Fail
    else if s[0] == '"' then Ok([], s[1..])
    else if s[0] == '\\' then
      var e := ParseEscape(s[1..]);
      if e.Fail? then Fail
      else
        var more := ParseChars(e.rest);
        if more.Fail? then Fail else Ok([e.value] + more.value, more.rest)
    else
      var more := ParseChars(s[1..]);
      if more.Fail? then Fail else Ok(Utf16Of(s[0] as int) + more.value, more.rest)
  }

  function ParseString(s: string): (r: Parsed<seq<Unit>>)
    ensures r.Ok? ==> |r.rest| < |s|
  {
    if s != [] && s[0] == '"' then ParseChars(s[1..]) else Fail
  }

  predicate IsDigit(c: char) {
    '0' <= c <= '9'
  }

  /** A run of digits read after the value `acc`. */
  function ParseDigits(s: string, acc: nat): (r: Parsed<nat>)
    ensures r.Ok? && |r.rest| <= |s|
    decreases |s|
  {
    if s != [] && IsDigit(s[0]) then ParseDigits(s[1..], acc * 10 + (s[0] as int - '0' as int)) else Ok(acc, s)
  }

  function ParseNat(s: string): (r: Parsed<nat>)
    ensures r.Ok? ==> |r.rest| < |s|
  {
    if s == [] || !IsDigit(s[0]) then Fail
    else if s[0] == '0' then Ok(0, s[1..])
    else ParseDigits(s[1..], s[0] as int - '0' as int)
  }

  function ParseLiteral(s: string, word: string, value: Json<Unit>): (r: Parsed<Json<Unit>>)
    requires word != []
    ensures r.Ok? ==> |r.rest| < |s|
  {
    if word <= s then Ok(value, s[|word|..]) else Fail
  }

  /** A value at the very start of `s`. */
  function Parse(s: string): (r: Parsed<Json<Unit>>)
    ensures r.Ok? ==> |r.rest| < |s|
    decreases |s|, 0
  {
    if s == [] then Fail
    else if s[0] == 'n' then ParseLiteral(s, ['n', 'u', 'l', 'l'], Null)
    else if s[0] == 't' then ParseLiteral(s, ['t', 'r', 'u', 'e'], Bool(true))
    else if s[0] == 'f' then ParseLiteral(s, ['f', 'a', 'l', 's', 'e'], Bool(false))
    else if s[0] == '"' then
      var t := ParseString(s);
      if t.Fail? then Fail else Ok(Str(t.value), t.rest)
    else if s[0] == '-' then
      var n := ParseNat(s[1..]);
      if n.Fail? then Fail else Ok(Num(0 - n.value), n.rest)
    else if IsDigit(s[0]) then
      var n := ParseNat(s);
      if n.Fail? then Fail else Ok(Num(n.value), n.rest)
    else if s[0] == '[' then
      var t := SkipWs(s[1..]);
      if t != [] && t[0] == ']' then Ok(Arr(NoItems), t[1..])
      else
        var items := ParseItems(t);
        if items.Fail? then Fail else Ok(Arr(items.value), items.rest)
    else if s[0] == '{' then
      var t := SkipWs(s[1..]);
      if t != [] && t[0] == '}' then Ok(Obj(NoMembers), t[1..])
      else
        var members := ParseMembers(t);
        if members.Fail? then Fail else Ok(Obj(members.value), members.rest)
    else Fail
  }

  /** One or more items, up to and including the closing bracket. */
  function ParseItems(s: string): (r: Parsed<Items<Unit>>)
    ensures r.Ok? ==> |r.rest| < |s|
    decreases |s|, 1
  {
    var head := Parse(s);
    if head.Fail? then Fail
    else
      var t := SkipWs(head.rest);
      if t != [] && t[0] == ']' then Ok(Item(head.value, NoItems), t[1..])
      else if t != [] && t[0] == ',' then
        var tail := ParseItems(SkipWs(t[1..]));
        if tail.Fail? then Fail else Ok(Item(head.value, tail.value), tail.rest)
      else Fail
  }

  /** The colon and the value of a member. */
  function ParseColonValue(s: string): (r: Parsed<Json<Unit>>)
    ensures r.Ok? ==> |r.rest| < |s|
    decreases |s|, 1
  {
    var t := SkipWs(s);
    if t == [] || t[0] != ':' then Fail else Parse(SkipWs(t[1..]))
  }

  /** One or more members, up to and including the closing brace. */
  function ParseMembers(s: string): (r: Parsed<Members<Unit>>)
    ensures r.Ok? ==> |r.rest| < |s|
    decreases |s|, 2
  {
    var key := ParseString(s);
    if key.Fail? then Fail
    else
      var value := ParseColonValue(key.rest);
      if value.Fail? then Fail
      else
        var u := SkipWs(value.rest);
        if u != [] && u[0] == '}' then Ok(Member(key.value, value.value, NoMembers), u[1..])
        else if u != [] && u[0] == ',' then
          var others := ParseMembers(SkipWs(u[1..]));
          if others.Fail? then Fail else Ok(Member(key.value, value.value, others.value), others.rest)
        else Fail
  }

  /** `JSON.parse`: one value with nothing but whitespace around it. */
  function Loads(s: string): Option<Json<Unit>> {
    var r := Parse(SkipWs(s));
    if r.Ok? && SkipWs(r.rest) == [] then Some(r.value) else None
  }

  // ---- Parsing undoes printing. ----

  lemma HexRoundTrip(n: Unit, rest: string)
    ensures ParseHex4(PrintHex4(n, rest)) == Ok(n, rest)
  {
    var s := PrintHex4(n, rest);
    assert forall d :: 0 <= d < 16 ==> HexValue(HexDigit(d)) == d;
    assert s[4..] == rest;
    FourDigits(n);
  }

  lemma FourDigits(n: Unit)
    ensures 0 <= n / 4096 < 16
    ensures n / 4096 * 4096 + n / 256 % 16 * 256 + n / 16 % 16 * 16 + n % 16 == n
  {
    assert n / 256 % 16 == n / 256 - n / 4096 * 16;
    assert n / 16 % 16 == n / 16 - n / 256 * 16;
  }

  lemma UnitRoundTrip(u: Unit, rest: string)
    requires ParseChars(rest).Ok?
    ensures ParseChars(['\\', 'u'] + PrintHex4(u, rest)) ==
            Ok([u] + ParseChars(rest).value, ParseChars(rest).rest)
  {
    var s := ['\\', 'u'] + PrintHex4(u, rest);
    assert s[1..] == ['u'] + PrintHex4(u, rest);
    assert s[1..][1..] == PrintHex4(u, rest);
    HexRoundTrip(u, rest);
  }

  lemma AstralRoundTrip(c: CodePoint, rest: string)
    requires ParseChars(rest).Ok? && c >= 0x10000
    ensures ParseChars(PrintUnits(Utf16Of(c), rest)) == Ok(Utf16Of(c) + ParseChars(rest).value, ParseChars(rest).rest)
  {
    var units := Utf16Of(c);
    var low := ['\\', 'u'] + PrintHex4(units[1], rest);
    assert units[1..] == [units[1]];
    assert PrintUnits([units[1]], rest) == low by { assert [units[1]][1..] == []; }
    UnitRoundTrip(units[1], rest);
    UnitRoundTrip(units[0], low);
    var more := ParseChars(rest).value;
    assert [units[0]] + ([units[1]] + more) == units + more;
  }

  /** A backslash and one letter. */
  lemma EscapeRoundTrip(e: char, u: Unit, rest: string)
    requires ParseChars(rest).Ok?
    requires (e, u) in {('"', 0x22), ('\\', 0x5C), ('n', 0x0A), ('r', 0x0D), ('t', 0x09), ('f', 0x0C), ('b', 0x08)}
    ensures ParseChars(['\\', e] + rest) == Ok([u] + ParseChars(rest).value, ParseChars(rest).rest)
  {
    var s := ['\\', e] + rest;
    assert s[1..] == [e] + rest;
    assert s[1..][1..] == rest;
    assert ParseEscape(s[1..]) == Ok(u, rest);
  }

  lemma CharRoundTrip(c: CodePoint, rest: string)
    requires ParseChars(rest).Ok?
    ensures ParseChars(PrintChar(c, rest)) == Ok(Utf16Of(c) + ParseChars(rest).value, ParseChars(rest).rest)
  {
    if c == 0x22 {
      EscapeRoundTrip('"', c, rest);
    } else if c == 0x5C {
      EscapeRoundTrip('\\', c, rest);
    } else if c == 0x0A {
      EscapeRoundTrip('n', c, rest);
    } else if c == 0x0D {
      EscapeRoundTrip('r', c, rest);
    } else if c == 0x09 {
      EscapeRoundTrip('t', c, rest);
    } else if c == 0x0C {
      EscapeRoundTrip('f', c, rest);
    } else if c == 0x08 {
      EscapeRoundTrip('b', c, rest);
    } else if 0x20 <= c <= 0x7E {
      PlainRoundTrip(c, rest);
    } else if c >= 0x10000 {
      AstralRoundTrip(c, rest);
    } else {
      assert [c][1..] == [];
      assert PrintUnits([c], rest) == ['\\', 'u'] + PrintHex4(c, rest);
      UnitRoundTrip(c, rest);
    }
  }

  lemma PlainRoundTrip(c: CodePoint, rest: string)
    requires ParseChars(rest).Ok? && 0x20 <= c <= 0x7E && c != 0x22 && c != 0x5C
    ensures ParseChars([c as char] + rest) == Ok([c] + ParseChars(rest).value, ParseChars(rest).rest)
  {
    assert ([c as char] + rest)[1..] == rest;
  }

  lemma {:induction false} CharsRoundTrip(s: seq<CodePoint>, rest: string)
    ensures ParseChars(PrintChars(s, ['"'] + rest)) == Ok(Utf16(s), rest)
    decreases |s|
  {
    if s == [] {
      assert (['"'] + rest)[1..] == rest;
    } else {
      CharsRoundTrip(s[1..], rest);
      CharRoundTrip(s[0], PrintChars(s[1..], ['"'] + rest));
    }
  }

  lemma StringRoundTrip(s: seq<CodePoint>, rest: string)
    ensures ParseString(PrintString(s, rest)) == Ok(Utf16(s), rest)
    ensures SkipWs(PrintString(s, rest)) == PrintString(s, rest)
  {
    assert PrintString(s, rest)[1..] == PrintChars(s, ['"'] + rest);
    CharsRoundTrip(s, rest);
  }

  /** What may follow a value: nothing that would continue a number. */
  predicate Ends(rest: string) {
    rest == [] || !IsDigit(rest[0])
  }

  lemma {:induction false} DigitsRoundTrip(n: nat, rest: string)
    requires n > 0
    ensures var s := PrintNat(n, rest);
            && s != [] && IsDigit(s[0]) && s[0] != '0'
            && ParseDigits(s[1..], s[0] as int - '0' as int) == ParseDigits(rest, n)
    decreases n
  {
    if n < 10 {
      assert PrintNat(n, rest)[1..] == rest;
    } else {
      var tens, d := n / 10, n % 10;
      assert tens * 10 + d == n;
      var more := [DigitChar(d)] + rest;
      assert PrintNat(n, rest) == PrintNat(tens, more);
      DigitsRoundTrip(tens, more);
      OneDigit(tens, d, rest);
    }
  }

  /** Reading one more digit. */
  lemma OneDigit(acc: nat, d: nat, rest: string)
    requires d < 10
    ensures ParseDigits([DigitChar(d)] + rest, acc) == ParseDigits(rest, acc * 10 + d)
  {
    assert ([DigitChar(d)] + rest)[1..] == rest;
    assert DigitChar(d) as int - '0' as int == d;
  }

  lemma NatRoundTrip(n: nat, rest: string)
    requires Ends(rest)
    ensures var s := PrintNat(n, rest);
            s != [] && IsDigit(s[0]) && ParseNat(s) == Ok(n, rest)
  {
    if n == 0 {
      assert PrintNat(n, rest)[1..] == rest;
    } else {
      DigitsRoundTrip(n, rest);
    }
  }

  /** A printed value starts with a character that is neither whitespace nor a closing bracket. */
  lemma PrintStarts(j: Json<CodePoint>, rest: string)
    ensures var s := Print(j, rest); s != [] && !IsWs(s[0]) && s[0] != ']' && SkipWs(s) == s
  {
    match j
    case Num(n) => NatStarts(if n < 0 then -n else n, rest);
    case _ =>
  }

  lemma {:induction false} NatStarts(n: nat, rest: string)
    ensures var s := PrintNat(n, rest); s != [] && IsDigit(s[0])
    decreases n
  {
    if n >= 10 {
      NatStarts(n / 10, [DigitChar(n % 10)] + rest);
    }
  }

  lemma EmptyArrayRoundTrip(rest: string)
    ensures Parse(Print(Arr(NoItems), rest)) == Ok(Arr(NoItems), rest)
  {
    var s := Print(Arr(NoItems), rest);
    assert s[1..] == [']'] + rest && ([']'] + rest)[1..] == rest;
  }

  lemma EmptyObjectRoundTrip(rest: string)
    ensures Parse(Print(Obj(NoMembers), rest)) == Ok(Obj(NoMembers), rest)
  {
    var s := Print(Obj(NoMembers), rest);
    assert s[1..] == ['}'] + rest && (['}'] + rest)[1..] == rest;
  }

  lemma {:induction false} ValueRoundTrip(j: Json<CodePoint>, rest: string)
    requires Ends(rest)
    ensures Parse(Print(j, rest)) == Ok(InBrowser(j), rest)
    decreases j
  {
    match j
    case Null => LiteralRoundTrip(['n', 'u', 'l', 'l'], Null, rest);
    case Bool(true) => LiteralRoundTrip(['t', 'r', 'u', 'e'], Bool(true), rest);
    case Bool(false) => LiteralRoundTrip(['f', 'a', 'l', 's', 'e'], Bool(false), rest);
    case Num(n) => NumRoundTrip(n, rest);
    case Str(t) => StringRoundTrip(t, rest);
    case Arr(NoItems) => EmptyArrayRoundTrip(rest);
    case Arr(Item(head, tail)) =>
      ItemsRoundTrip(Item(head, tail), rest);
      ArrayOpens(head, tail, rest);
    case Obj(NoMembers) => EmptyObjectRoundTrip(rest);
    case Obj(Member(key, first, others)) =>
      MembersRoundTrip(Member(key, first, others), rest);
      ObjectOpens(Member(key, first, others), rest);
  }

  lemma ArrayOpens(head: Json<CodePoint>, tail: Items<CodePoint>, rest: string)
    requires ParseItems(Print(head, PrintItems(tail, rest))).Ok?
    ensures var items := ParseItems(Print(head, PrintItems(tail, rest)));
            Parse(Print(Arr(Item(head, tail)), rest)) == Ok(Arr(items.value), items.rest)
  {
    var inside := Print(head, PrintItems(tail, rest));
    PrintStarts(head, PrintItems(tail, rest));
    assert (['['] + inside)[1..] == inside;
  }

  lemma ObjectOpens(members: Members<CodePoint>, rest: string)
    requires members.Member? && ParseMembers(PrintMember(members, rest)).Ok?
    ensures var parsed := ParseMembers(PrintMember(members, rest));
            Parse(Print(Obj(members), rest)) == Ok(Obj(parsed.value), parsed.rest)
  {
    var inside := PrintMember(members, rest);
    assert inside[0] == '"';
    assert SkipWs(inside) == inside;
    var s := Print(Obj(members), rest);
    assert s[0] == '{' && s[1..] == inside;
  }

  lemma LiteralRoundTrip(word: string, value: Json<Unit>, rest: string)
    requires word != []
    ensures ParseLiteral(word + rest, word, value) == Ok(value, rest)
  {
    assert (word + rest)[|word|..] == rest;
  }

  lemma NumRoundTrip(n: int, rest: string)
    requires Ends(rest)
    ensures Parse(Print(Num(n), rest)) == Ok(Num(n), rest)
  {
    if n < 0 {
      NegativeRoundTrip(-n, rest);
    } else {
      NatRoundTrip(n, rest);
    }
  }

  lemma NegativeRoundTrip(n: int, rest: string)
    requires Ends(rest) && n > 0
    ensures Parse(Print(Num(-n), rest)) == Ok(Num(-n), rest)
  {
    NatRoundTrip(n, rest);
    assert Print(Num(-n), rest)[1..] == PrintNat(n, rest);
  }

  lemma {:induction false} ItemsRoundTrip(items: Items<CodePoint>, rest: string)
    requires items.Item?
    ensures ParseItems(Print(items.head, PrintItems(items.tail, rest))) == Ok(ItemsInBrowser(items), rest)
    decreases items
  {
    var after := PrintItems(items.tail, rest);
    ValueRoundTrip(items.head, after);
    if items.tail.NoItems? {
      assert after[1..] == rest;
    } else {
      SkipItemComma(items.tail, rest);
      ItemsRoundTrip(items.tail, rest);
    }
    ItemUnfolds(items, rest);
  }

  lemma SkipItemComma(items: Items<CodePoint>, rest: string)
    requires items.Item?
    ensures PrintItems(items, rest)[0] == ','
    ensures SkipWs(PrintItems(items, rest)[1..]) == Print(items.head, PrintItems(items.tail, rest))
  {
    var next := Print(items.head, PrintItems(items.tail, rest));
    PrintStarts(items.head, PrintItems(items.tail, rest));
    assert PrintItems(items, rest)[1..] == [' '] + next && ([' '] + next)[1..] == next;
  }

  /** One step of the item loop, once the value is known to parse back. */
  lemma ItemUnfolds(items: Items<CodePoint>, rest: string)
    requires items.Item?
    requires var after := PrintItems(items.tail, rest);
             Parse(Print(items.head, after)) == Ok(InBrowser(items.head), after)
    ensures var after := PrintItems(items.tail, rest);
            ParseItems(Print(items.head, after)) ==
            if after[0] == ']' then Ok(Item(InBrowser(items.head), NoItems), after[1..])
            else
              var tail := ParseItems(SkipWs(after[1..]));
              if tail.Fail? then Fail else Ok(Item(InBrowser(items.head), tail.value), tail.rest)
  {
    assert SkipWs(PrintItems(items.tail, rest)) == PrintItems(items.tail, rest);
  }

  /** The text of one or more members, up to and including the closing brace. */
  function PrintMember(members: Members<CodePoint>, rest: string): string
    requires members.Member?
  {
    PrintString(members.key, [':', ' '] + Print(members.first, PrintMembers(members.others, rest)))
  }

  lemma {:induction false} MembersRoundTrip(members: Members<CodePoint>, rest: string)
    requires members.Member?
    ensures ParseMembers(PrintMember(members, rest)) == Ok(MembersInBrowser(members), rest)
    decreases members
  {
    var after := PrintMembers(members.others, rest);
    ValueRoundTrip(members.first, after);
    if members.others.NoMembers? {
      assert after[1..] == rest;
    } else {
      SkipComma(members.others, rest);
      MembersRoundTrip(members.others, rest);
    }
    MemberUnfolds(members, rest);
  }

  /** One step of the member loop, once the value is known to parse back. */
  lemma MemberUnfolds(members: Members<CodePoint>, rest: string)
    requires members.Member?
    requires var after := PrintMembers(members.others, rest);
             Parse(Print(members.first, after)) == Ok(InBrowser(members.first), after)
    ensures var after := PrintMembers(members.others, rest);
            ParseMembers(PrintMember(members, rest)) ==
            if after[0] == '}' then Ok(Member(Utf16(members.key), InBrowser(members.first), NoMembers), after[1..])
            else
              var others := ParseMembers(SkipWs(after[1..]));
              if others.Fail? then Fail
              else Ok(Member(Utf16(members.key), InBrowser(members.first), others.value), others.rest)
  {
    var after := PrintMembers(members.others, rest);
    StringRoundTrip(members.key, [':', ' '] + Print(members.first, after));
    ColonRoundTrip(members.first, after);
    assert SkipWs(after) == after;
  }

  lemma ColonRoundTrip(j: Json<CodePoint>, after: string)
    ensures ParseColonValue([':', ' '] + Print(j, after)) == Parse(Print(j, after))
  {
    var value := Print(j, after);
    PrintStarts(j, after);
    assert ([':', ' '] + value)[1..] == [' '] + value && ([' '] + value)[1..] == value;
  }

  lemma SkipComma(members: Members<CodePoint>, rest: string)
    requires members.Member?
    ensures PrintMembers(members, rest)[0] == ','
    ensures SkipWs(PrintMembers(members, rest)[1..]) == PrintMember(members, rest)
  {
    var next := PrintMember(members, rest);
    assert PrintMembers(members, rest)[1..] == [' '] + next && ([' '] + next)[1..] == next;
  }

  /** `JSON.parse` in the browser reads back what `json.dumps` wrote on the server. */
  lemma JsonRoundTrip(j: Json<CodePoint>)
    ensures Loads(Dumps(j)) == Some(InBrowser(j))
  {
    PrintStarts(j, "");
    ValueRoundTrip(j, "");
  }
}
