/** JSON texts (sections 2 to 7 of RFC 8259): a recursive-descent reader, and concrete documents with
    any white space, member order and choice of escapes. Reading the text of a concrete document
    gives exactly what the document says. */
module JsonText {
  import opened Wrappers
  import opened Strings

  /** What a text says before keys are compared or numbers are interpreted. */
  datatype Raw =
    | RNull
    | RBool(b: bool)
    | RNumber(text: string)
    | RText(s: string)
    | RList(items: seq<Raw>)
    | RObject(members: seq<RawMember>)

  datatype RawMember = RawMember(key: string, value: Raw)

  datatype Parsed<T> = Fail | Ok(value: T, rest: string)

  // ---------------------------------------------------------------------------------------
  // Characters

  predicate IsSpace(c: char) {
    c == ' ' || c == '\t' || c == '\n' || c == '\r'
  }

  predicate IsNumberChar(c: char) {
    '0' <= c <= '9' || c == '-' || c == '+' || c == '.' || c == 'e' || c == 'E'
  }

  predicate IsHex(c: char) {
    '0' <= c <= '9' || 'a' <= c <= 'f' || 'A' <= c <= 'F'
  }

  function HexDigit(c: char): (d: nat)
    requires IsHex(c)
    ensures d < 16
  {
    if '0' <= c <= '9' then c as int - '0' as int
    else if 'a' <= c <= 'f' then c as int - 'a' as int + 10
    else c as int - 'A' as int + 10
  }

  predicate IsHex4(s: string) {
    |s| == 4 && IsHex(s[0]) && IsHex(s[1]) && IsHex(s[2]) && IsHex(s[3])
  }

  function HexValue(s: string): (n: nat)
    requires IsHex4(s)
    ensures n < 0x10000
  {
    ((HexDigit(s[0]) * 16 + HexDigit(s[1])) * 16 + HexDigit(s[2])) * 16 + HexDigit(s[3])
  }

  predicate IsHighSurrogate(n: nat) {
    0xD800 <= n < 0xDC00
  }

  predicate IsLowSurrogate(n: nat) {
    0xDC00 <= n < 0xE000
  }

  function Combined(high: nat, low: nat): char
    requires IsHighSurrogate(high) && IsLowSurrogate(low)
  {
    (0x10000 + (high - 0xD800) * 0x400 + (low - 0xDC00)) as char
  }

  const REPLACEMENT := 0xFFFD as char

  predicate IsShortEscape(c: char) {
    c == '"' || c == '\\' || c == '/' || c == 'b' || c == 'f' || c == 'n' || c == 'r' || c == 't'
  }

  function ShortValue(c: char): char
    requires IsShortEscape(c)
  {
    if c == 'b' then 0x08 as char
    else if c == 'f' then 0x0C as char
    else if c == 'n' then '\n'
    else if c == 'r' then '\r'
    else if c == 't' then '\t'
    else c
  }

  /** Characters that may stand for themselves inside a string. */
  predicate IsPlain(c: char) {
    c as int >= 0x20 && c != '"' && c != '\\'
  }

  // ---------------------------------------------------------------------------------------
  // Reading

  function SkipSpace(s: string): (r: string)
    ensures |r| <= |s|
  {
    if s != "" && IsSpace(s[0]) then SkipSpace(s[1..]) else s
  }

  /** The low half of a surrogate pair, when the text goes on with one. */
  predicate LowFollows(s: string) {
    |s| >= 6 && s[0] == '\\' && s[1] == 'u' && IsHex4(s[2..6]) && IsLowSurrogate(HexValue(s[2..6]))
  }

  /** One character of a string, possibly escaped; a lone surrogate reads as the replacement
      character. */
  function ParseChar(s: string): (r: Parsed<char>)
    ensures r.Ok? ==> |r.rest| < |s|
  {
    if s == "" then Fail
    else if IsPlain(s[0]) then Ok(s[0], s[1..])
    else if s[0] != '\\' || |s| < 2 then Fail
    else if IsShortEscape(s[1]) then Ok(ShortValue(s[1]), s[2..])
    else if s[1] != 'u' || |s| < 6 || !IsHex4(s[2..6]) then Fail
    else
      var n := HexValue(s[2..6]);
      if IsHighSurrogate(n) && LowFollows(s[6..]) then Ok(Combined(n, HexValue(s[6..][2..6])), s[12..])
      else if IsHighSurrogate(n) || IsLowSurrogate(n) then Ok(REPLACEMENT, s[6..])
      else Ok(n as char, s[6..])
  }

  /** The rest of a string after its opening quote. */
  function ParseChars(s: string): (r: Parsed<string>)
    ensures r.Ok? ==> |r.rest| < |s|
    decreases |s|
  {
    if s != "" && s[0] == '"' then Ok("", s[1..])
    else
      match ParseChar(s)
      case Fail => Fail
      case Ok(c, rest) =>
        match ParseChars(rest)
        case Fail => Fail
        case Ok(cs, rest') => Ok([c] + cs, rest')
  }

  function NumberRun(s: string): (n: nat)
    ensures n <= |s|
  {
    if s != "" && IsNumberChar(s[0]) then NumberRun(s[1..]) + 1 else 0
  }

  function DigitRun(s: string): (n: nat)
    ensures n <= |s|
  {
    if s != "" && '0' <= s[0] <= '9' then DigitRun(s[1..]) + 1 else 0
  }

  predicate IsExponent(s: string) {
    s == "" || ((s[0] == 'e' || s[0] == 'E') &&
      var t := if |s| >= 2 && (s[1] == '+' || s[1] == '-') then s[2..] else s[1..];
      t != "" && DigitRun(t) == |t|)
  }

  predicate IsFraction(s: string) {
    if s != "" && s[0] == '.' then
      var n := DigitRun(s[1..]);
      n > 0 && IsExponent(s[1 + n..])
    else IsExponent(s)
  }

  /** The number grammar: no leading zeros, and digits after a point or an exponent mark. */
  predicate IsNumber(s: string) {
    var t := if s != "" && s[0] == '-' then s[1..] else s;
    var n := DigitRun(t);
    n > 0 && (n > 1 ==> t[0] != '0') && IsFraction(t[n..])
  }

  function ParseNumber(s: string): (r: Parsed<Raw>)
    ensures r.Ok? ==> |r.rest| < |s|
  {
    var n := NumberRun(s);
    if n > 0 && IsNumber(s[..n]) then Ok(RNumber(s[..n]), s[n..]) else Fail
  }

  function ParseValue(s: string): (r: Parsed<Raw>)
    ensures r.Ok? ==> |r.rest| < |s|
    decreases |s|, 1
  {
    ParseToken(SkipSpace(s))
  }

  function ParseToken(t: string): (r: Parsed<Raw>)
    ensures r.Ok? ==> |r.rest| < |t|
    decreases |t|, 0
  {
    if t == "" then Fail
    else if t[0] == '"' then
      match ParseChars(t[1..])
      case Fail => Fail
      case Ok(cs, rest) => Ok(RText(cs), rest)
    else if t[0] == '[' then ParseList(t)
    else if t[0] == '{' then ParseObject(t)
    else if StartsWith(t, "null") then Ok(RNull, t[4..])
    else if StartsWith(t, "true") then Ok(RBool(true), t[4..])
    else if StartsWith(t, "false") then Ok(RBool(false), t[5..])
    else ParseNumber(t)
  }

  function ParseList(t: string): (r: Parsed<Raw>)
    requires t != ""
    ensures r.Ok? ==> |r.rest| < |t|
    decreases |t| - 1, 4
  {
    var u := SkipSpace(t[1..]);
    if u != "" && u[0] == ']' then Ok(RList([]), u[1..])
    else
      match ParseItems(t[1..])
      case Fail => Fail
      case Ok(items, rest) => Ok(RList(items), rest)
  }

  /** The elements of a list that is not empty, up to and with its closing bracket. */
  function ParseItems(s: string): (r: Parsed<seq<Raw>>)
    ensures r.Ok? ==> |r.rest| < |s|
    decreases |s|, 2
  {
    match ParseValue(s)
    case Fail => Fail
    case Ok(item, rest) =>
      var u := SkipSpace(rest);
      if u != "" && u[0] == ']' then Ok([item], u[1..])
      else if u != "" && u[0] == ',' then
        match ParseItems(u[1..])
        case Fail => Fail
        case Ok(items, rest') => Ok([item] + items, rest')
      else Fail
  }

  function ParseObject(t: string): (r: Parsed<Raw>)
    requires t != ""
    ensures r.Ok? ==> |r.rest| < |t|
    decreases |t| - 1, 4
  {
    var u := SkipSpace(t[1..]);
    if u != "" && u[0] == '}' then Ok(RObject([]), u[1..])
    else
      match ParseMembers(t[1..])
      case Fail => Fail
      case Ok(members, rest) => Ok(RObject(members), rest)
  }

  function ParseMember(s: string): (r: Parsed<RawMember>)
    ensures r.Ok? ==> |r.rest| < |s|
    decreases |s|, 2
  {
    var t := SkipSpace(s);
    if t == "" || t[0] != '"' then Fail
    else
      match ParseChars(t[1..])
      case Fail => Fail
      case Ok(key, rest) =>
        var u := SkipSpace(rest);
        if u == "" || u[0] != ':' then Fail
        else
          match ParseValue(u[1..])
          case Fail => Fail
          case Ok(value, rest') => Ok(RawMember(key, value), rest')
  }

  function ParseMembers(s: string): (r: Parsed<seq<RawMember>>)
    ensures r.Ok? ==> |r.rest| < |s|
    decreases |s|, 3
  {
    match ParseMember(s)
    case Fail => Fail
    case Ok(member, rest) =>
      var u := SkipSpace(rest);
      if u != "" && u[0] == '}' then Ok([member], u[1..])
      else if u != "" && u[0] == ',' then
        match ParseMembers(u[1..])
        case Fail => Fail
        case Ok(members, rest') => Ok([member] + members, rest')
      else Fail
  }

  /** One document and nothing after it. */
  function Parse(s: string): Option<Raw> {
    match ParseValue(s)
    case Fail => None
    case Ok(v, rest) => if SkipSpace(rest) == "" then Some(v) else None
  }

  // ---------------------------------------------------------------------------------------
  // Concrete documents

  /** A character as written in a string; a lone surrogate stands for the replacement character. */
  datatype Unit = Plain(c: char) | Short(letter: char) | Hex(digits: string) | Pair(high: string, low: string) | Lone(digits: string)

  datatype Cst =
    | CNull
    | CBool(b: bool)
    | CNumber(text: string)
    | CString(units: seq<Unit>)
    | CList(space: string, cells: seq<Cell>)
    | CObject(space: string, members: seq<Member>)

  /** A value with the white space around it. */
  datatype Cell = Cell(before: string, value: Cst, after: string)

  datatype Member = Member(before: string, key: seq<Unit>, colon: string, cell: Cell)

  predicate AllSpace(s: string) {
    forall i :: 0 <= i < |s| ==> IsSpace(s[i])
  }

  predicate ValidUnit(u: Unit) {
    match u
    case Plain(c) => IsPlain(c)
    case Short(letter) => IsShortEscape(letter)
    case Hex(digits) => IsHex4(digits) && !IsHighSurrogate(HexValue(digits)) && !IsLowSurrogate(HexValue(digits))
    case Pair(high, low) => IsHex4(high) && IsHex4(low) && IsHighSurrogate(HexValue(high)) && IsLowSurrogate(HexValue(low))
    case Lone(digits) => IsHex4(digits) && (IsHighSurrogate(HexValue(digits)) || IsLowSurrogate(HexValue(digits)))
  }

  predicate IsLoneHigh(u: Unit) {
    u.Lone? && IsHex4(u.digits) && IsHighSurrogate(HexValue(u.digits))
  }

  predicate IsLoneLow(u: Unit) {
    u.Lone? && IsHex4(u.digits) && IsLowSurrogate(HexValue(u.digits))
  }

  /** Two lone surrogates do not make a pair. */
  predicate ValidUnits(units: seq<Unit>) {
    && (forall i :: 0 <= i < |units| ==> ValidUnit(units[i]))
    && (forall i :: 0 < i < |units| && IsLoneLow(units[i]) ==> !IsLoneHigh(units[i - 1]))
  }

  predicate Valid(v: Cst) {
    match v
    case CNull => true
    case CBool(_) => true
    case CNumber(text) => IsNumber(text)
    case CString(units) => ValidUnits(units)
    case CList(space, cells) => AllSpace(space) && forall i :: 0 <= i < |cells| ==> ValidCell(cells[i])
    case CObject(space, members) => AllSpace(space) && forall i :: 0 <= i < |members| ==> ValidMember(members[i])
  }

  predicate ValidCell(cell: Cell) {
    AllSpace(cell.before) && AllSpace(cell.after) && Valid(cell.value)
  }

  predicate ValidMember(m: Member) {
    AllSpace(m.before) && AllSpace(m.colon) && ValidUnits(m.key) && ValidCell(m.cell)
  }

  function UnitText(u: Unit): string {
    match u
    case Plain(c) => [c]
    case Short(letter) => ['\\', letter]
    case Hex(digits) => "\\u" + digits
    case Pair(high, low) => "\\u" + high + "\\u" + low
    case Lone(digits) => "\\u" + digits
  }

  function UnitsText(units: seq<Unit>): string {
    if units == [] then "" else UnitText(units[0]) + UnitsText(units[1..])
  }

  function UnitValue(u: Unit): char
    requires ValidUnit(u)
  {
    match u
    case Plain(c) => c
    case Short(letter) => ShortValue(letter)
    case Hex(digits) => HexValue(digits) as char
    case Pair(high, low) => Combined(HexValue(high), HexValue(low))
    case Lone(_) => REPLACEMENT
  }

  function UnitsValue(units: seq<Unit>): string
    requires ValidUnits(units)
  {
    seq(|units|, i requires 0 <= i < |units| => UnitValue(units[i]))
  }

  function Print(v: Cst): string
    decreases v, 0
  {
    match v
    case CNull => "null"
    case CBool(b) => if b then "true" else "false"
    case CNumber(text) => text
    case CString(units) => "\"" + UnitsText(units) + "\""
    case CList(space, cells) => "[" + (if cells == [] then space else PrintCells(cells)) + "]"
    case CObject(space, members) => "{" + (if members == [] then space else PrintMembers(members)) + "}"
  }

  function PrintCell(cell: Cell): string
    decreases cell, 1
  {
    cell.before + Print(cell.value) + cell.after
  }

  function PrintCells(cells: seq<Cell>): string
    decreases cells, 2
  {
    if cells == [] then "" else PrintCell(cells[0]) + (if |cells| == 1 then "" else "," + PrintCells(cells[1..]))
  }

  function PrintMember(m: Member): string
    decreases m, 1
  {
    m.before + "\"" + UnitsText(m.key) + "\"" + m.colon + ":" + PrintCell(m.cell)
  }

  function PrintMembers(members: seq<Member>): string
    decreases members, 2
  {
    if members == [] then "" else PrintMember(members[0]) + (if |members| == 1 then "" else "," + PrintMembers(members[1..]))
  }

  /** What a document says. */
  function Meaning(v: Cst): Raw
    requires Valid(v)
    decreases v, 0
  {
    match v
    case CNull => RNull
    case CBool(b) => RBool(b)
    case CNumber(text) => RNumber(text)
    case CString(units) => RText(UnitsValue(units))
    case CList(_, cells) => RList(seq(|cells|, i requires 0 <= i < |cells| => CellMeaning(cells[i])))
    case CObject(_, members) => RObject(seq(|members|, i requires 0 <= i < |members| => MemberMeaning(members[i])))
  }

  function MemberMeaning(m: Member): RawMember
    requires ValidMember(m)
    decreases m, 1
  {
    RawMember(UnitsValue(m.key), CellMeaning(m.cell))
  }

  function CellMeaning(cell: Cell): Raw
    requires ValidCell(cell)
    decreases cell, 1
  {
    Meaning(cell.value)
  }
}
