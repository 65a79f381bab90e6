/** Canonical JSON: the decoders of a document, the canonical writer, and the round trip between
    them. Canonical text has no white space, sorted members, integers only, and the escapes of the
    standard encoder. */
module CanonicalJson {
  import opened Wrappers
  import opened JsonText
  import opened JsonRoundTrip
  import opened StringOrder
  import Decimal

  // ---------------------------------------------------------------------------------------
  // Generic decoding: numbers stay texts and the last of equal keys wins

  datatype Lax =
    | LNull
    | LBool(b: bool)
    | LNumber(text: string)
    | LText(s: string)
    | LList(items: seq<Lax>)
    | LObject(fields: map<string, Lax>)

  function LaxOf(v: Raw): Lax
    decreases v, 0
  {
    match v
    case RNull => LNull
    case RBool(b) => LBool(b)
    case RNumber(text) => LNumber(text)
    case RText(s) => LText(s)
    case RList(items) => LList(seq(|items|, i requires 0 <= i < |items| => LaxOf(items[i])))
    case RObject(members) => LObject(LaxFields(members))
  }

  function LaxFields(members: seq<RawMember>): map<string, Lax>
    decreases members, 1
  {
    if members == [] then map[]
    else
      var last := members[|members| - 1];
      LaxFields(members[..|members| - 1])[last.key := LaxOf(last.value)]
  }

  // ---------------------------------------------------------------------------------------
  // Integer texts

  predicate IsDigits(s: string) {
    s != "" && Decimal.AllDigits(s) && (|s| > 1 ==> s[0] != '0')
  }

  /** An optional minus sign and digits without leading zeros. */
  predicate IsIntegerText(s: string) {
    if s != "" && s[0] == '-' then IsDigits(s[1..]) else IsDigits(s)
  }

  function IntegerValue(s: string): int
    requires IsIntegerText(s)
  {
    Decimal.SignedValue(s)
  }

  lemma {:induction false} AllDigitsRun(s: string)
    requires Decimal.AllDigits(s)
    ensures DigitRun(s) == |s|
  {
    if s != "" {
      AllDigitsRun(s[1..]);
    }
  }

  lemma IntegerIsNumber(s: string)
    requires IsIntegerText(s)
    ensures IsNumber(s)
  {
    var t := if s != "" && s[0] == '-' then s[1..] else s;
    AllDigitsRun(t);
    assert t[|t|..] == "";
  }

  lemma OfIntIsInteger(n: int)
    ensures IsIntegerText(Decimal.OfInt(n)) && IntegerValue(Decimal.OfInt(n)) == n
    ensures Decimal.OfInt(n) != "-0"
  {
    Decimal.OfIntRoundTrip(n);
    Decimal.OfNatShape(if n < 0 then -n else n);
    if n < 0 {
      assert Decimal.OfInt(n)[1..] == Decimal.OfNat(-n);
      assert "-0"[1..] == "0";
    } else {
      assert "-0"[0] == '-' && Decimal.OfInt(n)[0] != '-';
    }
  }

  /** The text of an integer is determined by its value, except that zero has two. */
  lemma IntegerTextOfValue(s: string)
    requires IsIntegerText(s)
    ensures Decimal.OfInt(IntegerValue(s)) == s <==> s != "-0"
  {
    if s[0] == '-' {
      var t := s[1..];
      assert s == "-" + t;
      Decimal.TextOfValue(t);
      if t[0] != '0' {
        Decimal.ValueOfZeroes(t);
      } else {
        assert t == "0" && t[..0] == "";
        assert s == "-0";
        OfIntIsInteger(0);
      }
    } else {
      Decimal.TextOfValue(s);
    }
  }

  // ---------------------------------------------------------------------------------------
  // Canonical text

  predicate Writable(v: Lax) {
    match v
    case LNumber(text) => IsIntegerText(text)
    case LList(items) => forall i :: 0 <= i < |items| ==> Writable(items[i])
    case LObject(fields) => forall k :: k in fields ==> Writable(fields[k])
    case _ => true
  }

  const HEX := "0123456789abcdef"

  function HexChar(d: nat): (c: char)
    requires d < 16
    ensures IsHex(c) && HexDigit(c) == d
  {
    HEX[d]
  }

  function Hex4(n: nat): (s: string)
    requires n < 0x10000
    ensures IsHex4(s) && HexValue(s) == n
  {
    var a, b := n / 256, n % 256;
    [HexChar(a / 16), HexChar(a % 16), HexChar(b / 16), HexChar(b % 16)]
  }

  predicate MustEscape(c: char) {
    c as int < 0x20 || c == '<' || c == '>' || c == '&' || c as int == 0x2028 || c as int == 0x2029
  }

  /** How the standard encoder writes a character. */
  function WriteChar(c: char): (u: Unit)
    ensures ValidUnit(u) && UnitValue(u) == c
  {
    if c == '"' || c == '\\' then Short(c)
    else if c as int == 0x08 then Short('b')
    else if c as int == 0x0C then Short('f')
    else if c == '\n' then Short('n')
    else if c == '\r' then Short('r')
    else if c == '\t' then Short('t')
    else if MustEscape(c) then Hex(Hex4(c as int))
    else Plain(c)
  }

  function WriteText(s: string): (units: seq<Unit>)
    ensures ValidUnits(units) && UnitsValue(units) == s
  {
    seq(|s|, i requires 0 <= i < |s| => WriteChar(s[i]))
  }

  /** The canonical document of a value. */
  ghost function CanonCst(v: Lax): Cst
    decreases v, 0
  {
    match v
    case LNull => CNull
    case LBool(b) => CBool(b)
    case LNumber(text) => CNumber(text)
    case LText(s) => CString(WriteText(s))
    case LList(items) => CList("", seq(|items|, i requires 0 <= i < |items| => Cell("", CanonCst(items[i]), "")))
    case LObject(fields) =>
      var keys := SortedKeys(fields.Keys);
      CObject("", seq(|keys|, i requires 0 <= i < |keys| => CanonMember(fields, keys[i])))
  }

  ghost function CanonMember(fields: map<string, Lax>, k: string): Member
    requires k in fields
    decreases fields[k], 1
  {
    Member("", WriteText(k), "", Cell("", CanonCst(fields[k]), ""))
  }

  /** The canonical text, refused for numbers that are not integers. */
  ghost function Canonical(v: Lax): Option<string> {
    if Writable(v) then Some(Print(CanonCst(v))) else None
  }

  // ---------------------------------------------------------------------------------------
  // Reading canonical text back

  lemma {:induction false} CanonValid(v: Lax)
    requires Writable(v)
    ensures Valid(CanonCst(v))
    decreases v
  {
    match v
    case LNumber(text) => IntegerIsNumber(text);
    case LList(items) =>
      forall i | 0 <= i < |items|
        ensures ValidCell(Cell("", CanonCst(items[i]), ""))
      {
        CanonValid(items[i]);
      }
    case LObject(fields) =>
      var keys := SortedKeys(fields.Keys);
      forall i | 0 <= i < |keys|
        ensures ValidMember(CanonMember(fields, keys[i]))
      {
        assert keys[i] in keys;
        CanonValid(fields[keys[i]]);
      }
    case _ =>
  }

  /** What canonical text says: the same value with its members in order. */
  lemma {:induction false} CanonMeaning(v: Lax)
    requires Writable(v)
    ensures Valid(CanonCst(v)) && LaxOf(Meaning(CanonCst(v))) == v
    decreases v
  {
    CanonValid(v);
    match v
    case LList(items) => CanonListMeaning(items);
    case LObject(fields) => CanonObjectMeaning(fields);
    case _ =>
  }

  lemma {:induction false} CanonListMeaning(items: seq<Lax>)
    requires Writable(LList(items)) && Valid(CanonCst(LList(items)))
    ensures LaxOf(Meaning(CanonCst(LList(items)))) == LList(items)
    decreases LList(items), 0
  {
    var cst := CanonCst(LList(items));
    forall i | 0 <= i < |items|
      ensures LaxOf(CellMeaning(cst.cells[i])) == items[i]
    {
      CanonMeaning(items[i]);
    }
    var raw := Meaning(cst);
    assert forall i :: 0 <= i < |items| ==> raw.items[i] == CellMeaning(cst.cells[i]);
    assert LaxOf(raw).items == items;
  }

  lemma {:induction false} CanonObjectMeaning(fields: map<string, Lax>)
    requires Writable(LObject(fields)) && Valid(CanonCst(LObject(fields)))
    ensures LaxOf(Meaning(CanonCst(LObject(fields)))) == LObject(fields)
    decreases LObject(fields), 0
  {
    var keys := SortedKeys(fields.Keys);
    var cst := CanonCst(LObject(fields));
    var raw := Meaning(cst);
    forall i | 0 <= i < |keys|
      ensures raw.members[i].key == keys[i] && LaxOf(raw.members[i].value) == fields[keys[i]]
    {
      assert keys[i] in keys;
      assert cst.members[i] == CanonMember(fields, keys[i]);
      assert ValidMember(cst.members[i]);
      assert raw.members[i] == MemberMeaning(cst.members[i]);
      assert raw.members[i].value == CellMeaning(cst.members[i].cell);
      CanonMeaning(fields[keys[i]]);
    }
    LaxFieldsOf(raw.members, keys, fields);
  }

  predicate DistinctKeys(members: seq<RawMember>) {
    forall i, j :: 0 <= i < j < |members| ==> members[i].key != members[j].key
  }

  lemma {:induction false} LaxFieldsKeys(members: seq<RawMember>, k: string)
    ensures k in LaxFields(members) <==> exists i :: 0 <= i < |members| && members[i].key == k
  {
    if members != [] {
      var front := members[..|members| - 1];
      LaxFieldsKeys(front, k);
      assert forall i :: 0 <= i < |front| ==> front[i] == members[i];
    }
  }

  lemma {:induction false} LaxFieldsLookup(members: seq<RawMember>, i: nat)
    requires DistinctKeys(members) && i < |members|
    ensures members[i].key in LaxFields(members) && LaxFields(members)[members[i].key] == LaxOf(members[i].value)
  {
    if i < |members| - 1 {
      LaxFieldsLookup(members[..|members| - 1], i);
    }
  }

  /** Members with sorted, hence distinct, keys decode to the map they list. */
  lemma LaxFieldsOf(members: seq<RawMember>, keys: seq<string>, fields: map<string, Lax>)
    requires |members| == |keys| && StrictlySorted(keys)
    requires forall k :: k in keys <==> k in fields
    requires forall i :: 0 <= i < |keys| ==> members[i].key == keys[i] && keys[i] in fields && LaxOf(members[i].value) == fields[keys[i]]
    ensures LaxFields(members) == fields
  {
    assert DistinctKeys(members) by { SortedMembersDistinct(members, keys); }
    forall k
      ensures k in LaxFields(members) <==> k in fields
      ensures k in fields ==> LaxFields(members)[k] == fields[k]
    {
      LaxFieldsKeys(members, k);
      if k in fields {
        var i :| 0 <= i < |keys| && keys[i] == k;
        LaxFieldsLookup(members, i);
      }
    }
  }

  lemma SortedMembersDistinct(members: seq<RawMember>, keys: seq<string>)
    requires |members| == |keys| && StrictlySorted(keys) && forall i :: 0 <= i < |keys| ==> members[i].key == keys[i]
    ensures DistinctKeys(members)
  {
    forall i, j | 0 <= i < j < |members|
      ensures members[i].key != members[j].key
    {
      if keys[i] == keys[j] {
        SortedDistinct(keys, i, j);
      }
    }
  }

  /** Canonical text reads back as the value it was written from. */
  lemma CanonicalReads(v: Lax)
    requires Writable(v)
    ensures
      var raw := Parse(Canonical(v).value);
      raw.Some? && LaxOf(raw.value) == v
  {
    CanonMeaning(v);
    var doc := Cell("", CanonCst(v), "");
    DocumentRead(doc);
    assert PrintCell(doc) == Print(CanonCst(v));
  }

  /** Different values have different canonical texts. */
  lemma CanonicalInjective(a: Lax, b: Lax)
    requires Canonical(a).Some? && Canonical(a) == Canonical(b)
    ensures a == b
  {
    CanonicalReads(a);
    CanonicalReads(b);
  }
}
