/** What canonical text looks like, said without the writer: no white space, members by increasing key,
    integers without superfluous zeros, and every character spelled in the one way of the standard
    encoder. The canonical text of a value is the only such text that reads as the value. */
module CanonicalForm {
  import opened Wrappers
  import opened JsonText
  import opened JsonRoundTrip
  import opened StringOrder
  import opened CanonicalJson

  // ---------------------------------------------------------------------------------------
  // Characters

  /** Characters that may not stand for themselves: the quote and the backslash, control characters,
      what HTML treats specially, and the two line separators of JavaScript. */
  predicate Reserved(c: char) {
    c < ' ' || c == '"' || c == '\\' || c == '<' || c == '>' || c == '&' || c == '\U{2028}' || c == '\U{2029}'
  }

  /** The reserved characters with a short escape of their own. */
  predicate HasShortEscape(c: char) {
    c == '"' || c == '\\' || c == '\U{08}' || c == '\U{0C}' || c == '\n' || c == '\r' || c == '\t'
  }

  predicate IsLowerHex(s: string) {
    forall i :: 0 <= i < |s| ==> '0' <= s[i] <= '9' || 'a' <= s[i] <= 'f'
  }

  /** A character is written as it is unless it is reserved, then by its short escape if it has one, and
      else by four lower-case hexadecimal digits. */
  predicate WellSpelled(u: Unit)
    requires ValidUnit(u)
  {
    var c := UnitValue(u);
    match u
    case Plain(_) => !Reserved(c)
    case Short(_) => Reserved(c) && HasShortEscape(c)
    case Hex(digits) => Reserved(c) && !HasShortEscape(c) && IsLowerHex(digits)
    case Pair(_, _) => false
    case Lone(_) => false
  }

  lemma WrittenWell(c: char)
    ensures WellSpelled(WriteChar(c))
  {
    if MustEscape(c) {
      LowerHex4(c as int);
    }
  }

  lemma LowerHex4(n: nat)
    requires n < 0x10000
    ensures IsLowerHex(Hex4(n))
  {
    forall d: nat | d < 16
      ensures '0' <= HexChar(d) <= '9' || 'a' <= HexChar(d) <= 'f'
    {
      LowerDigit(HexChar(d));
    }
  }

  lemma LowerDigit(c: char)
    requires c in HEX
    ensures '0' <= c <= '9' || 'a' <= c <= 'f'
  {
  }

  /** There is only one such spelling of a character. */
  lemma SpelledOnce(u: Unit)
    requires ValidUnit(u) && WellSpelled(u)
    ensures u == WriteChar(UnitValue(u))
  {
    match u
    case Hex(digits) => LowerOnce(digits);
    case _ =>
  }

  lemma LowerOnce(digits: string)
    requires IsHex4(digits) && IsLowerHex(digits)
    ensures digits == Hex4(HexValue(digits))
  {
    var a, b, c, d := HexDigit(digits[0]), HexDigit(digits[1]), HexDigit(digits[2]), HexDigit(digits[3]);
    FourDigits(a, b, c, d);
    Hex4Of(HexValue(digits), a, b, c, d);
    DigitsOnce(digits);
  }

  lemma Hex4Of(n: nat, a: nat, b: nat, c: nat, d: nat)
    requires n < 0x10000 && n / 256 / 16 == a < 16 && n / 256 % 16 == b && n % 256 / 16 == c < 16 && n % 256 % 16 == d
    ensures Hex4(n) == [HexChar(a), HexChar(b), HexChar(c), HexChar(d)]
  {
  }

  lemma DigitsOnce(digits: string)
    requires IsHex4(digits) && IsLowerHex(digits)
    ensures digits == [HexChar(HexDigit(digits[0])), HexChar(HexDigit(digits[1])), HexChar(HexDigit(digits[2])), HexChar(HexDigit(digits[3]))]
  {
    DigitOnce(digits[0]);
    DigitOnce(digits[1]);
    DigitOnce(digits[2]);
    DigitOnce(digits[3]);
  }

  lemma FourDigits(a: nat, b: nat, c: nat, d: nat)
    requires a < 16 && b < 16 && c < 16 && d < 16
    ensures
      var n := ((a * 16 + b) * 16 + c) * 16 + d;
      n / 256 / 16 == a && n / 256 % 16 == b && n % 256 / 16 == c && n % 256 % 16 == d
  {
    var n := ((a * 16 + b) * 16 + c) * 16 + d;
    assert n / 256 == a * 16 + b && n % 256 == c * 16 + d;
  }

  lemma DigitOnce(c: char)
    requires '0' <= c <= '9' || 'a' <= c <= 'f'
    ensures HexChar(HexDigit(c)) == c
  {
    if c <= '9' {
      assert HEX[c as int - '0' as int] == c;
    } else {
      assert HEX[c as int - 'a' as int + 10] == c;
    }
  }

  // ---------------------------------------------------------------------------------------
  // Documents

  predicate AllWellSpelled(units: seq<Unit>)
    requires ValidUnits(units)
  {
    forall i :: 0 <= i < |units| ==> WellSpelled(units[i])
  }

  /** A concrete document in canonical form. */
  predicate IsCanonical(v: Cst)
    requires Valid(v)
    decreases v, 0
  {
    match v
    case CNull => true
    case CBool(_) => true
    case CNumber(text) => IsIntegerText(text)
    case CString(units) => AllWellSpelled(units)
    case CList(space, cells) => space == "" && forall i :: 0 <= i < |cells| ==> CanonicalCell(cells[i])
    case CObject(space, members) =>
      && space == ""
      && (forall i :: 0 <= i < |members| ==> CanonicalMember(members[i]))
      && (forall i, j :: 0 <= i < j < |members| && ValidMember(members[i]) && ValidMember(members[j]) ==> KeyLess(members[i], members[j]))
  }

  predicate KeyLess(a: Member, b: Member)
    requires ValidMember(a) && ValidMember(b)
  {
    Less(UnitsValue(a.key), UnitsValue(b.key))
  }

  predicate CanonicalCell(cell: Cell)
    requires ValidCell(cell)
    decreases cell, 1
  {
    cell.before == "" && cell.after == "" && IsCanonical(cell.value)
  }

  predicate CanonicalMember(m: Member)
    requires ValidMember(m)
    decreases m, 1
  {
    m.before == "" && m.colon == "" && AllWellSpelled(m.key) && CanonicalCell(m.cell)
  }

  lemma TextWellSpelled(s: string)
    ensures AllWellSpelled(WriteText(s))
  {
    forall i | 0 <= i < |s|
      ensures WellSpelled(WriteText(s)[i])
    {
      WrittenWell(s[i]);
    }
  }

  lemma UnitsWrittenOnce(units: seq<Unit>)
    requires ValidUnits(units) && AllWellSpelled(units)
    ensures units == WriteText(UnitsValue(units))
  {
    forall i | 0 <= i < |units|
      ensures units[i] == WriteChar(UnitsValue(units)[i])
    {
      SpelledOnce(units[i]);
    }
  }

  /** What the writer writes is in canonical form. */
  lemma {:induction false} WrittenIsCanonical(v: Lax)
    requires Writable(v)
    ensures Valid(CanonCst(v)) && IsCanonical(CanonCst(v))
    decreases v
  {
    CanonValid(v);
    match v
    case LText(s) => TextWellSpelled(s);
    case LList(items) =>
      forall i | 0 <= i < |items|
        ensures ValidCell(Cell("", CanonCst(items[i]), "")) && CanonicalCell(Cell("", CanonCst(items[i]), ""))
      {
        WrittenIsCanonical(items[i]);
      }
    case LObject(fields) =>
      var keys := SortedKeys(fields.Keys);
      forall i | 0 <= i < |keys|
        ensures ValidMember(CanonMember(fields, keys[i])) && CanonicalMember(CanonMember(fields, keys[i]))
      {
        assert keys[i] in keys;
        WrittenIsCanonical(fields[keys[i]]);
        TextWellSpelled(keys[i]);
      }
    case _ =>
  }

  /** A document in canonical form is what the writer writes for its value. */
  lemma {:induction false} CanonicalIsWritten(v: Cst)
    requires Valid(v) && IsCanonical(v)
    ensures Writable(LaxOf(Meaning(v))) && v == CanonCst(LaxOf(Meaning(v)))
    decreases v, 0
  {
    match v
    case CString(units) => UnitsWrittenOnce(units);
    case CList(space, cells) => CanonicalListIsWritten(space, cells);
    case CObject(space, members) => CanonicalObjectIsWritten(space, members);
    case _ =>
  }

  lemma {:induction false} CanonicalListIsWritten(space: string, cells: seq<Cell>)
    requires Valid(CList(space, cells)) && IsCanonical(CList(space, cells))
    ensures
      var v := CList(space, cells);
      Writable(LaxOf(Meaning(v))) && v == CanonCst(LaxOf(Meaning(v)))
    decreases cells, 1
  {
    var v := CList(space, cells);
    var items := LaxOf(Meaning(v)).items;
    forall i | 0 <= i < |cells|
      ensures Writable(items[i]) && cells[i] == Cell("", CanonCst(items[i]), "")
    {
      assert CanonicalCell(cells[i]);
      CanonicalCellIsWritten(cells[i]);
    }
    assert CanonCst(LList(items)).cells == cells;
  }

  lemma {:induction false} CanonicalCellIsWritten(cell: Cell)
    requires ValidCell(cell) && CanonicalCell(cell)
    ensures Writable(LaxOf(CellMeaning(cell))) && cell == Cell("", CanonCst(LaxOf(CellMeaning(cell))), "")
    decreases cell, 0
  {
    CanonicalIsWritten(cell.value);
  }

  lemma {:induction false} CanonicalObjectIsWritten(space: string, members: seq<Member>)
    requires Valid(CObject(space, members)) && IsCanonical(CObject(space, members))
    ensures
      var v := CObject(space, members);
      Writable(LaxOf(Meaning(v))) && v == CanonCst(LaxOf(Meaning(v)))
    decreases members, 2
  {
    var v := CObject(space, members);
    var raw := Meaning(v).members;
    var keys := seq(|members|, i requires 0 <= i < |members| => UnitsValue(members[i].key));
    forall i | 0 <= i < |members|
      ensures raw[i].key == keys[i]
    {
      assert raw[i] == MemberMeaning(members[i]);
    }
    assert StrictlySorted(keys) by {
      assert forall i, j :: 0 <= i < j < |members| ==> KeyLess(members[i], members[j]);
    }
    FieldsOfSorted(raw, keys);
    var fields := LaxFields(raw);
    forall i | 0 <= i < |members|
      ensures keys[i] in fields && Writable(fields[keys[i]]) && members[i] == CanonMember(fields, keys[i])
    {
      assert CanonicalMember(members[i]) && raw[i] == MemberMeaning(members[i]);
      LaxFieldsLookup(raw, i);
      CanonicalCellIsWritten(members[i].cell);
      UnitsWrittenOnce(members[i].key);
    }
    KeysAreSorted(fields, keys);
    ObjectRebuilt(space, members, fields, keys);
  }

  lemma ObjectRebuilt(space: string, members: seq<Member>, fields: map<string, Lax>, keys: seq<string>)
    requires space == "" && |keys| == |members| && SortedKeys(fields.Keys) == keys
    requires forall k :: k in fields ==> k in keys
    requires forall i :: 0 <= i < |keys| ==> keys[i] in fields && Writable(fields[keys[i]]) && members[i] == CanonMember(fields, keys[i])
    ensures Writable(LObject(fields)) && CanonCst(LObject(fields)) == CObject(space, members)
  {
    forall k | k in fields
      ensures Writable(fields[k])
    {
      var i :| 0 <= i < |keys| && keys[i] == k;
    }
    assert CanonCst(LObject(fields)).members == members;
  }

  lemma FieldsOfSorted(raw: seq<RawMember>, keys: seq<string>)
    requires |raw| == |keys| && StrictlySorted(keys) && forall i :: 0 <= i < |keys| ==> raw[i].key == keys[i]
    ensures DistinctKeys(raw) && forall k :: k in LaxFields(raw) <==> k in keys
  {
    SortedMembersDistinct(raw, keys);
    forall k
      ensures k in LaxFields(raw) <==> k in keys
    {
      LaxFieldsKeys(raw, k);
    }
  }

  lemma KeysAreSorted(fields: map<string, Lax>, keys: seq<string>)
    requires StrictlySorted(keys) && forall k :: k in keys <==> k in fields
    ensures SortedKeys(fields.Keys) == keys
  {
    SortedUnique(SortedKeys(fields.Keys), keys);
  }

  /** A text is the canonical text of a value if and only if it is the text of a document in canonical
      form that reads as the value. */
  lemma CanonicalExactly(v: Lax, text: string)
    requires Writable(v)
    ensures Canonical(v) == Some(text) <==>
            exists doc :: Valid(doc) && IsCanonical(doc) && LaxOf(Meaning(doc)) == v && Print(doc) == text
  {
    WrittenIsCanonical(v);
    CanonMeaning(v);
    if doc :| Valid(doc) && IsCanonical(doc) && LaxOf(Meaning(doc)) == v && Print(doc) == text {
      CanonicalIsWritten(doc);
    }
  }

  // ---------------------------------------------------------------------------------------
  // No special characters anywhere in the text

  /** Neither a control character nor one that HTML or JavaScript treats specially. */
  predicate Harmless(s: string) {
    forall i :: 0 <= i < |s| ==>
      s[i] >= ' ' && s[i] != '<' && s[i] != '>' && s[i] != '&' && s[i] != '\U{2028}' && s[i] != '\U{2029}'
  }

  lemma {:induction false} UnitsHarmless(units: seq<Unit>)
    requires ValidUnits(units) && AllWellSpelled(units)
    ensures Harmless(UnitsText(units))
  {
    if units != [] {
      UnitHarmless(units[0]);
      UnitsHarmless(units[1..]);
    }
  }

  lemma UnitHarmless(u: Unit)
    requires ValidUnit(u) && WellSpelled(u)
    ensures Harmless(UnitText(u))
  {
  }

  lemma {:induction false} DocumentHarmless(v: Cst)
    requires Valid(v) && IsCanonical(v)
    ensures Harmless(Print(v))
    decreases v, 0
  {
    match v
    case CNumber(text) => NumberChars(text);
    case CString(units) =>
      UnitsHarmless(units);
      Wrapped("\"", UnitsText(units), "\"");
    case CList(_, cells) =>
      CellsHarmless(cells);
      Wrapped("[", PrintCells(cells), "]");
    case CObject(_, members) =>
      MembersHarmless(members);
      Wrapped("{", PrintMembers(members), "}");
    case _ =>
  }

  lemma Wrapped(left: string, inner: string, right: string)
    requires Harmless(left) && Harmless(inner) && Harmless(right)
    ensures Harmless(left + inner + right)
  {
  }

  lemma {:induction false} CellsHarmless(cells: seq<Cell>)
    requires forall i :: 0 <= i < |cells| ==> ValidCell(cells[i]) && CanonicalCell(cells[i])
    ensures Harmless(PrintCells(cells))
    decreases cells, 1
  {
    if cells != [] {
      CellHarmless(cells[0]);
      CellsHarmless(cells[1..]);
    }
  }

  lemma {:induction false} CellHarmless(cell: Cell)
    requires ValidCell(cell) && CanonicalCell(cell)
    ensures Harmless(PrintCell(cell))
    decreases cell, 1
  {
    DocumentHarmless(cell.value);
  }

  lemma {:induction false} MembersHarmless(members: seq<Member>)
    requires forall i :: 0 <= i < |members| ==> ValidMember(members[i]) && CanonicalMember(members[i])
    ensures Harmless(PrintMembers(members))
    decreases members, 2
  {
    if members != [] {
      var m := members[0];
      UnitsHarmless(m.key);
      CellHarmless(m.cell);
      MembersHarmless(members[1..]);
    }
  }

  /** Canonical text holds no control character and none of `<`, `>`, `&`, U+2028 and U+2029. */
  lemma CanonicalIsHarmless(v: Lax)
    requires Writable(v)
    ensures Harmless(Canonical(v).value)
  {
    WrittenIsCanonical(v);
    DocumentHarmless(CanonCst(v));
  }
}
