/** Reading the text of a concrete document gives what the document says, whatever its white space,
    escapes and member order. */
module JsonRoundTrip {
  import opened Wrappers
  import opened JsonText
  import opened Strings

  // ---------------------------------------------------------------------------------------
  // White space, strings and numbers

  predicate NoSpaceFirst(s: string) {
    s == "" || !IsSpace(s[0])
  }

  lemma {:induction false} SpaceSkipped(space: string, rest: string)
    requires AllSpace(space) && NoSpaceFirst(rest)
    ensures SkipSpace(space + rest) == rest
  {
    if space != "" {
      assert (space + rest)[1..] == space[1..] + rest;
      SpaceSkipped(space[1..], rest);
    } else {
      assert space + rest == rest;
    }
  }

  lemma HexUnitRead(digits: string, rest: string)
    requires IsHex4(digits)
    ensures
      var s := "\\u" + digits + rest;
      |s| >= 6 && s[0] == '\\' && s[1] == 'u' && s[2..6] == digits && s[6..] == rest
  {
  }

  lemma PairRead(high: string, low: string, rest: string)
    requires ValidUnit(Pair(high, low))
    ensures ParseChar("\\u" + high + "\\u" + low + rest) == Ok(Combined(HexValue(high), HexValue(low)), rest)
  {
    var tail := "\\u" + low + rest;
    var s := "\\u" + high + tail;
    assert "\\u" + high + "\\u" + low + rest == s;
    HexUnitRead(high, tail);
    HexUnitRead(low, rest);
    assert s[12..] == s[6..][6..];
  }

  lemma UnitRead(u: Unit, rest: string)
    requires ValidUnit(u) && (IsLoneHigh(u) ==> !LowFollows(rest))
    ensures ParseChar(UnitText(u) + rest) == Ok(UnitValue(u), rest)
    ensures (UnitText(u) + rest)[0] != '"'
  {
    var s := UnitText(u) + rest;
    match u
    case Plain(c) => assert s[1..] == rest;
    case Short(letter) => assert s[2..] == rest;
    case Hex(digits) => HexUnitRead(digits, rest);
    case Pair(high, low) => PairRead(high, low, rest);
    case Lone(digits) => HexUnitRead(digits, rest);
  }

  /** Only a lone low surrogate continues like the second half of a pair. */
  lemma LowIsLone(u: Unit, rest: string)
    requires ValidUnit(u)
    ensures LowFollows(UnitText(u) + rest) <==> IsLoneLow(u)
  {
    match u
    case Plain(c) => OtherIsNotLow([c] + rest);
    case Short(letter) => OtherIsNotLow(['\\', letter] + rest);
    case Hex(digits) => EscapeIsLow(digits, rest);
    case Pair(high, low) => PairIsNotLow(high, low, rest);
    case Lone(digits) => EscapeIsLow(digits, rest);
  }

  lemma OtherIsNotLow(s: string)
    requires |s| < 2 || s[0] != '\\' || s[1] != 'u'
    ensures !LowFollows(s)
  {
  }

  lemma PairIsNotLow(high: string, low: string, rest: string)
    requires ValidUnit(Pair(high, low))
    ensures !LowFollows("\\u" + high + "\\u" + low + rest)
  {
    EscapeIsLow(high, "\\u" + low + rest);
    assert "\\u" + high + "\\u" + low + rest == "\\u" + high + ("\\u" + low + rest);
  }

  lemma EscapeIsLow(digits: string, rest: string)
    requires IsHex4(digits)
    ensures LowFollows("\\u" + digits + rest) == IsLowSurrogate(HexValue(digits))
  {
    HexUnitRead(digits, rest);
  }

  lemma {:induction false} UnitsRead(units: seq<Unit>, rest: string)
    requires ValidUnits(units)
    ensures ParseChars(UnitsText(units) + "\"" + rest) == Ok(UnitsValue(units), rest)
  {
    if units == [] {
      assert ("" + "\"" + rest)[1..] == rest;
    } else {
      var tail := UnitsText(units[1..]) + "\"" + rest;
      assert UnitsText(units) + "\"" + rest == UnitText(units[0]) + tail;
      if IsLoneHigh(units[0]) {
        NoPair(units, rest);
      }
      UnitRead(units[0], tail);
      UnitsRead(units[1..], rest);
      assert [UnitValue(units[0])] + UnitsValue(units[1..]) == UnitsValue(units);
    }
  }

  lemma {:induction false} NoPair(units: seq<Unit>, rest: string)
    requires ValidUnits(units) && units != [] && IsLoneHigh(units[0])
    ensures !LowFollows(UnitsText(units[1..]) + "\"" + rest)
  {
    var more := units[1..];
    if more == [] {
      assert (UnitsText(more) + "\"" + rest)[0] == '"';
    } else {
      assert !IsLoneLow(units[1]);
      var tail := UnitsText(more[1..]) + "\"" + rest;
      assert UnitsText(more) + "\"" + rest == UnitText(more[0]) + tail;
      LowIsLone(more[0], tail);
    }
  }

  /** What may follow a number so that it ends there. */
  predicate EndsNumber(rest: string) {
    rest == "" || !IsNumberChar(rest[0])
  }

  predicate AllNumberChars(s: string) {
    forall i :: 0 <= i < |s| ==> IsNumberChar(s[i])
  }

  lemma {:induction false} NumberRunExact(text: string, rest: string)
    requires AllNumberChars(text) && EndsNumber(rest)
    ensures NumberRun(text + rest) == |text|
  {
    if text != "" {
      assert (text + rest)[1..] == text[1..] + rest;
      NumberRunExact(text[1..], rest);
    } else {
      assert text + rest == rest;
    }
  }

  lemma {:induction false} DigitRunDigits(s: string)
    ensures forall i :: 0 <= i < DigitRun(s) ==> '0' <= s[i] <= '9'
  {
    if s != "" && '0' <= s[0] <= '9' {
      DigitRunDigits(s[1..]);
      forall i | 0 <= i < DigitRun(s)
        ensures '0' <= s[i] <= '9'
      {
        if i > 0 {
          assert s[i] == s[1..][i - 1];
        }
      }
    }
  }

  lemma ExponentChars(s: string)
    requires IsExponent(s)
    ensures AllNumberChars(s)
  {
    if s != "" {
      var k := if |s| >= 2 && (s[1] == '+' || s[1] == '-') then 2 else 1;
      DigitRunDigits(s[k..]);
      forall i | 0 <= i < |s|
        ensures IsNumberChar(s[i])
      {
        if i >= k {
          assert s[i] == s[k..][i - k];
        }
      }
    }
  }

  lemma FractionChars(s: string)
    requires IsFraction(s)
    ensures AllNumberChars(s)
  {
    if s != "" && s[0] == '.' {
      var n := DigitRun(s[1..]);
      DigitRunDigits(s[1..]);
      ExponentChars(s[1 + n..]);
      forall i | 0 <= i < |s|
        ensures IsNumberChar(s[i])
      {
        if 1 <= i < 1 + n {
          assert s[i] == s[1..][i - 1];
        } else if i >= 1 + n {
          assert s[i] == s[1 + n..][i - 1 - n];
        }
      }
    } else {
      ExponentChars(s);
    }
  }

  lemma NumberChars(s: string)
    requires IsNumber(s)
    ensures AllNumberChars(s) && s != "" && (s[0] == '-' || '0' <= s[0] <= '9')
  {
    var sign := if s != "" && s[0] == '-' then 1 else 0;
    var t := s[sign..];
    assert t == if s != "" && s[0] == '-' then s[1..] else s;
    var n := DigitRun(t);
    DigitRunDigits(t);
    FractionChars(t[n..]);
    forall i | 0 <= i < |s|
      ensures IsNumberChar(s[i])
    {
      if i >= sign + n {
        assert s[i] == t[n..][i - sign - n];
      } else if i >= sign {
        assert s[i] == t[i - sign];
      }
    }
    assert s[sign] == t[0];
  }

  lemma NumberRead(text: string, rest: string)
    requires IsNumber(text) && EndsNumber(rest)
    ensures ParseToken(text + rest) == Ok(RNumber(text), rest)
  {
    NumberChars(text);
    NumberRunExact(text, rest);
    var s := text + rest;
    assert s[..|text|] == text && s[|text|..] == rest;
    assert s[0] == text[0];
    OtherStart(s, "null");
    OtherStart(s, "true");
    OtherStart(s, "false");
  }

  lemma SameStart(s: string, word: string)
    requires StartsWith(s, word) && word != ""
    ensures s[0] == word[0]
  {
    assert s[0] == s[..|word|][0];
  }

  lemma OtherStart(s: string, word: string)
    requires s != "" && word != "" && s[0] != word[0]
    ensures !StartsWith(s, word)
  {
    if StartsWith(s, word) {
      SameStart(s, word);
    }
  }

  lemma WordsRead(rest: string)
    ensures ParseToken("null" + rest) == Ok(RNull, rest)
    ensures ParseToken("true" + rest) == Ok(RBool(true), rest)
    ensures ParseToken("false" + rest) == Ok(RBool(false), rest)
  {
    var n, t, f := "null" + rest, "true" + rest, "false" + rest;
    assert n[..4] == "null" && n[4..] == rest && n[0] == 'n';
    assert t[..4] == "true" && t[4..] == rest && t[0] == 't';
    assert f[..5] == "false" && f[5..] == rest && f[0] == 'f';
    assert t[..4][0] == 't' && f[..4][0] == 'f';
  }

  // ---------------------------------------------------------------------------------------
  // Documents

  /** A value's text starts with something other than white space or a closing mark. */
  lemma PrintStart(v: Cst)
    requires Valid(v)
    ensures Print(v) != "" && !IsSpace(Print(v)[0]) && Print(v)[0] != ']' && Print(v)[0] != '}'
  {
    if v.CNumber? {
      NumberChars(v.text);
    }
  }

  lemma StringRead(units: seq<Unit>, rest: string)
    requires ValidUnits(units)
    ensures ParseToken("\"" + UnitsText(units) + "\"" + rest) == Ok(RText(UnitsValue(units)), rest)
  {
    var s := "\"" + UnitsText(units) + "\"" + rest;
    assert s[1..] == UnitsText(units) + "\"" + rest;
    UnitsRead(units, rest);
  }

  lemma {:induction false} ValueRead(v: Cst, rest: string)
    requires Valid(v) && EndsNumber(rest)
    ensures ParseToken(Print(v) + rest) == Ok(Meaning(v), rest)
    decreases v, 0
  {
    match v
    case CNull => WordsRead(rest);
    case CBool(_) => WordsRead(rest);
    case CNumber(text) => NumberRead(text, rest);
    case CString(units) => StringRead(units, rest);
    case CList(space, cells) => ListRead(space, cells, rest);
    case CObject(space, members) => ObjectRead(space, members, rest);
  }

  lemma {:induction false} ListRead(space: string, cells: seq<Cell>, rest: string)
    requires Valid(CList(space, cells))
    ensures ParseToken(Print(CList(space, cells)) + rest) == Ok(Meaning(CList(space, cells)), rest)
    decreases cells, 3
  {
    if cells == [] {
      EmptyListRead(space, rest);
      assert Meaning(CList(space, cells)) == RList([]);
    } else {
      var u := PrintCells(cells) + "]" + rest;
      Bracketed("[", PrintCells(cells), "]", rest);
      CellsStart(cells, "]" + rest);
      CellsRead(cells, rest);
      ListFromItems(u);
      assert Meaning(CList(space, cells)) == RList(CellMeanings(cells));
    }
  }

  lemma Bracketed(a: string, b: string, c: string, d: string)
    ensures a + b + c + d == a + (b + c + d)
    ensures b + c + d == b + (c + d)
  {
  }

  lemma ListFromItems(u: string)
    requires SkipSpace(u) != "" && SkipSpace(u)[0] != ']' && ParseItems(u).Ok?
    ensures ParseToken("[" + u) == Ok(RList(ParseItems(u).value), ParseItems(u).rest)
  {
    assert ("[" + u)[1..] == u;
  }

  lemma ObjectFromMembers(u: string)
    requires SkipSpace(u) != "" && SkipSpace(u)[0] != '}' && ParseMembers(u).Ok?
    ensures ParseToken("{" + u) == Ok(RObject(ParseMembers(u).value), ParseMembers(u).rest)
  {
    assert ("{" + u)[1..] == u;
  }

  lemma EmptyListRead(space: string, rest: string)
    requires AllSpace(space)
    ensures ParseToken("[" + space + "]" + rest) == Ok(RList([]), rest)
  {
    var s := "[" + space + "]" + rest;
    assert s[1..] == space + ("]" + rest);
    SpaceSkipped(space, "]" + rest);
    assert ("]" + rest)[1..] == rest;
  }

  /** The elements of a list do not look like its end. */
  lemma {:induction false} CellsStart(cells: seq<Cell>, rest: string)
    requires cells != [] && ValidCell(cells[0])
    ensures
      var u := SkipSpace(PrintCells(cells) + rest);
      u != "" && u[0] != ']'
  {
    var cell := cells[0];
    var more := if |cells| == 1 then "" else "," + PrintCells(cells[1..]);
    PrintStart(cell.value);
    var tail := Print(cell.value) + cell.after + more + rest;
    assert PrintCells(cells) + rest == cell.before + tail;
    SpaceSkipped(cell.before, tail);
  }

  lemma {:induction false} CellRead(cell: Cell, rest: string)
    requires ValidCell(cell) && rest != "" && !IsSpace(rest[0]) && EndsNumber(rest)
    ensures
      var r := ParseValue(PrintCell(cell) + rest);
      r.Ok? && r.value == CellMeaning(cell) && SkipSpace(r.rest) == rest
    decreases cell, 1
  {
    var tail := cell.after + rest;
    PrintStart(cell.value);
    assert PrintCell(cell) + rest == cell.before + (Print(cell.value) + tail);
    SpaceSkipped(cell.before, Print(cell.value) + tail);
    assert EndsNumber(tail) by {
      if cell.after != "" {
        assert tail[0] == cell.after[0];
      }
    }
    ValueRead(cell.value, tail);
    SpaceSkipped(cell.after, rest);
  }

  function CellMeanings(cells: seq<Cell>): seq<Raw>
    requires forall i :: 0 <= i < |cells| ==> ValidCell(cells[i])
  {
    seq(|cells|, i requires 0 <= i < |cells| => CellMeaning(cells[i]))
  }

  lemma {:induction false} CellsRead(cells: seq<Cell>, rest: string)
    requires cells != [] && forall i :: 0 <= i < |cells| ==> ValidCell(cells[i])
    ensures ParseItems(PrintCells(cells) + "]" + rest) == Ok(CellMeanings(cells), rest)
    decreases cells, 2
  {
    if |cells| == 1 {
      LastCellRead(cells, rest);
    } else {
      var more := PrintCells(cells[1..]) + "]" + rest;
      CellsSplit(cells, rest, more);
      CellRead(cells[0], "," + more);
      CellsRead(cells[1..], rest);
      CellThenMore(PrintCell(cells[0]) + ("," + more), more);
    }
  }

  lemma {:induction false} LastCellRead(cells: seq<Cell>, rest: string)
    requires |cells| == 1 && ValidCell(cells[0])
    ensures ParseItems(PrintCells(cells) + "]" + rest) == Ok(CellMeanings(cells), rest)
    decreases cells, 1
  {
    var tail := "]" + rest;
    assert PrintCells(cells) + "]" + rest == PrintCell(cells[0]) + tail;
    CellRead(cells[0], tail);
    assert tail[1..] == rest;
    assert CellMeanings(cells) == [CellMeaning(cells[0])];
  }

  lemma CellThenMore(s: string, more: string)
    requires ParseValue(s).Ok? && SkipSpace(ParseValue(s).rest) == "," + more && ParseItems(more).Ok?
    ensures ParseItems(s) == Ok([ParseValue(s).value] + ParseItems(more).value, ParseItems(more).rest)
  {
    assert ("," + more)[1..] == more;
  }

  lemma {:induction false} CellsSplit(cells: seq<Cell>, rest: string, more: string)
    requires |cells| > 1 && more == PrintCells(cells[1..]) + "]" + rest
    requires forall i :: 0 <= i < |cells| ==> ValidCell(cells[i])
    ensures PrintCells(cells) + "]" + rest == PrintCell(cells[0]) + ("," + more)
    ensures CellMeanings(cells) == [CellMeaning(cells[0])] + CellMeanings(cells[1..])
  {
    Regroup(PrintCell(cells[0]), PrintCells(cells[1..]), "]", rest);
  }

  lemma {:induction false} ObjectRead(space: string, members: seq<Member>, rest: string)
    requires Valid(CObject(space, members))
    ensures ParseToken(Print(CObject(space, members)) + rest) == Ok(Meaning(CObject(space, members)), rest)
    decreases members, 3
  {
    if members == [] {
      EmptyObjectRead(space, rest);
      assert Meaning(CObject(space, members)) == RObject([]);
    } else {
      var u := PrintMembers(members) + "}" + rest;
      Bracketed("{", PrintMembers(members), "}", rest);
      MembersStart(members, "}" + rest);
      MembersRead(members, rest);
      ObjectFromMembers(u);
      assert Meaning(CObject(space, members)) == RObject(MemberMeanings(members));
    }
  }

  lemma EmptyObjectRead(space: string, rest: string)
    requires AllSpace(space)
    ensures ParseToken("{" + space + "}" + rest) == Ok(RObject([]), rest)
  {
    var s := "{" + space + "}" + rest;
    assert s[1..] == space + ("}" + rest);
    SpaceSkipped(space, "}" + rest);
    assert ("}" + rest)[1..] == rest;
  }

  lemma {:induction false} MembersStart(members: seq<Member>, rest: string)
    requires members != [] && ValidMember(members[0])
    ensures
      var u := SkipSpace(PrintMembers(members) + rest);
      u != "" && u[0] != '}'
  {
    var m := members[0];
    var more := if |members| == 1 then "" else "," + PrintMembers(members[1..]);
    Appended(PrintMember(m), more, rest);
    MemberText(m.before, UnitsText(m.key), m.colon, PrintCell(m.cell), more + rest);
    SpaceSkipped(m.before, "\"" + (UnitsText(m.key) + "\"" + (m.colon + (":" + (PrintCell(m.cell) + (more + rest))))));
  }

  lemma Appended(a: string, b: string, c: string)
    ensures a + b + c == a + (b + c)
  {
  }

  lemma {:induction false} MemberRead(m: Member, rest: string)
    requires ValidMember(m) && rest != "" && !IsSpace(rest[0]) && EndsNumber(rest)
    ensures
      var r := ParseMember(PrintMember(m) + rest);
      r.Ok? && r.value == MemberMeaning(m) && SkipSpace(r.rest) == rest
    decreases m, 1
  {
    var afterColon := PrintCell(m.cell) + rest;
    var afterKey := m.colon + (":" + afterColon);
    var chars := UnitsText(m.key) + "\"" + afterKey;
    MemberText(m.before, UnitsText(m.key), m.colon, PrintCell(m.cell), rest);
    SpaceSkipped(m.before, "\"" + chars);
    UnitsRead(m.key, afterKey);
    SpaceSkipped(m.colon, ":" + afterColon);
    CellRead(m.cell, rest);
    MemberFromParts(PrintMember(m) + rest, chars, afterColon);
  }

  lemma MemberText(before: string, key: string, colon: string, value: string, rest: string)
    ensures before + "\"" + key + "\"" + colon + ":" + value + rest ==
            before + ("\"" + (key + "\"" + (colon + (":" + (value + rest)))))
  {
  }

  lemma MemberFromParts(s: string, chars: string, afterColon: string)
    requires SkipSpace(s) == "\"" + chars && ParseChars(chars).Ok?
    requires SkipSpace(ParseChars(chars).rest) == ":" + afterColon && ParseValue(afterColon).Ok?
    ensures ParseMember(s) == Ok(RawMember(ParseChars(chars).value, ParseValue(afterColon).value), ParseValue(afterColon).rest)
  {
    assert ("\"" + chars)[1..] == chars;
    assert (":" + afterColon)[1..] == afterColon;
  }

  function MemberMeanings(members: seq<Member>): seq<RawMember>
    requires forall i :: 0 <= i < |members| ==> ValidMember(members[i])
  {
    seq(|members|, i requires 0 <= i < |members| => MemberMeaning(members[i]))
  }

  lemma {:induction false} MembersRead(members: seq<Member>, rest: string)
    requires members != [] && forall i :: 0 <= i < |members| ==> ValidMember(members[i])
    ensures ParseMembers(PrintMembers(members) + "}" + rest) == Ok(MemberMeanings(members), rest)
    decreases members, 2
  {
    if |members| == 1 {
      LastMemberRead(members, rest);
    } else {
      var more := PrintMembers(members[1..]) + "}" + rest;
      MembersSplit(members, rest, more);
      MemberRead(members[0], "," + more);
      MembersRead(members[1..], rest);
      MemberThenMore(PrintMember(members[0]) + ("," + more), more);
    }
  }

  lemma Regroup(a: string, b: string, c: string, d: string)
    ensures a + ("," + b) + c + d == a + ("," + (b + c + d))
  {
  }

  lemma {:induction false} MembersSplit(members: seq<Member>, rest: string, more: string)
    requires |members| > 1 && more == PrintMembers(members[1..]) + "}" + rest
    requires forall i :: 0 <= i < |members| ==> ValidMember(members[i])
    ensures PrintMembers(members) + "}" + rest == PrintMember(members[0]) + ("," + more)
    ensures MemberMeanings(members) == [MemberMeaning(members[0])] + MemberMeanings(members[1..])
  {
    Regroup(PrintMember(members[0]), PrintMembers(members[1..]), "}", rest);
  }

  lemma {:induction false} LastMemberRead(members: seq<Member>, rest: string)
    requires |members| == 1 && ValidMember(members[0])
    ensures ParseMembers(PrintMembers(members) + "}" + rest) == Ok(MemberMeanings(members), rest)
    decreases members, 1
  {
    var tail := "}" + rest;
    assert PrintMembers(members) + "}" + rest == PrintMember(members[0]) + tail;
    MemberRead(members[0], tail);
    assert tail[1..] == rest;
    assert MemberMeanings(members) == [MemberMeaning(members[0])];
  }

  lemma MemberThenMore(s: string, more: string)
    requires ParseMember(s).Ok? && SkipSpace(ParseMember(s).rest) == "," + more && ParseMembers(more).Ok?
    ensures ParseMembers(s) == Ok([ParseMember(s).value] + ParseMembers(more).value, ParseMembers(more).rest)
  {
    assert ("," + more)[1..] == more;
  }

  /** Reading a concrete document, with white space around it, gives exactly what it says. */
  lemma DocumentRead(doc: Cell)
    requires ValidCell(doc)
    ensures Parse(PrintCell(doc)) == Some(CellMeaning(doc))
  {
    PrintStart(doc.value);
    assert PrintCell(doc) == doc.before + (Print(doc.value) + doc.after);
    SpaceSkipped(doc.before, Print(doc.value) + doc.after);
    ValueRead(doc.value, doc.after);
    SpaceSkipped(doc.after, "");
    assert doc.after + "" == doc.after;
  }
}
