/** Every text the reader accepts is the text of a concrete document, and means what was read. */
module JsonComplete {
  import opened Wrappers
  import opened JsonText
  import opened JsonRoundTrip
  import opened Strings

  // ---------------------------------------------------------------------------------------
  // White space and strings

  lemma {:induction false} SpaceWritten(s: string) returns (space: string)
    ensures AllSpace(space) && s == space + SkipSpace(s) && NoSpaceFirst(SkipSpace(s))
  {
    if s != "" && IsSpace(s[0]) {
      var more := SpaceWritten(s[1..]);
      space := [s[0]] + more;
      FirstThenRest(s, more, SkipSpace(s[1..]));
    } else {
      space := "";
      assert space + s == s;
    }
  }

  lemma FirstThenRest(s: string, a: string, b: string)
    requires s != "" && s[1..] == a + b
    ensures s == [s[0]] + a + b
  {
    assert s == [s[0]] + s[1..];
  }

  /** A hexadecimal escape and what follows it. */
  lemma EscapeWritten(s: string)
    requires |s| >= 6 && s[0] == '\\' && s[1] == 'u'
    ensures s == "\\u" + s[2..6] + s[6..]
  {
  }

  lemma PairWritten(s: string)
    requires |s| >= 6 && s[0] == '\\' && s[1] == 'u' && LowFollows(s[6..])
    ensures s == "\\u" + s[2..6] + "\\u" + s[6..][2..6] + s[12..]
  {
    EscapeWritten(s);
    EscapeWritten(s[6..]);
    assert s[6..][6..] == s[12..];
  }

  lemma CharWritten(s: string) returns (u: Unit)
    requires ParseChar(s).Ok?
    ensures ValidUnit(u) && UnitValue(u) == ParseChar(s).value && s == UnitText(u) + ParseChar(s).rest
    ensures IsLoneHigh(u) ==> !LowFollows(ParseChar(s).rest)
  {
    if IsPlain(s[0]) {
      u := Plain(s[0]);
    } else if IsShortEscape(s[1]) {
      u := Short(s[1]);
    } else {
      EscapeWritten(s);
      var n := HexValue(s[2..6]);
      if IsHighSurrogate(n) && LowFollows(s[6..]) {
        u := Pair(s[2..6], s[6..][2..6]);
        PairWritten(s);
      } else if IsHighSurrogate(n) || IsLowSurrogate(n) {
        u := Lone(s[2..6]);
      } else {
        u := Hex(s[2..6]);
      }
    }
  }

  lemma {:induction false} CharsWritten(s: string) returns (units: seq<Unit>)
    requires ParseChars(s).Ok?
    ensures ValidUnits(units) && UnitsValue(units) == ParseChars(s).value
    ensures s == UnitsText(units) + "\"" + ParseChars(s).rest
    decreases |s|
  {
    if s != "" && s[0] == '"' {
      units := [];
    } else {
      var rest := ParseChar(s).rest;
      var u := CharWritten(s);
      var more := CharsWritten(rest);
      units := [u] + more;
      UnitBefore(u, more, rest, ParseChars(rest).rest);
    }
  }

  /** A unit may stand before others unless the two would read as a surrogate pair. */
  lemma UnitBefore(u: Unit, more: seq<Unit>, text: string, rest: string)
    requires ValidUnit(u) && ValidUnits(more) && text == UnitsText(more) + "\"" + rest && (IsLoneHigh(u) ==> !LowFollows(text))
    ensures ValidUnits([u] + more) && UnitsValue([u] + more) == [UnitValue(u)] + UnitsValue(more)
    ensures UnitText(u) + text == UnitsText([u] + more) + "\"" + rest
  {
    FirstIsNotLow(u, more, text, rest);
    OneMoreUnit(u, more);
    assert ([u] + more)[1..] == more;
    Closed(UnitText(u), UnitsText(more), "\"", rest);
  }

  lemma {:induction false} FirstIsNotLow(u: Unit, more: seq<Unit>, text: string, rest: string)
    requires ValidUnits(more) && text == UnitsText(more) + "\"" + rest && (IsLoneHigh(u) ==> !LowFollows(text))
    ensures more != [] && IsLoneHigh(u) ==> !IsLoneLow(more[0])
  {
    if more != [] {
      var tail := UnitsText(more[1..]) + "\"" + rest;
      assert text == UnitText(more[0]) + tail;
      LowIsLone(more[0], tail);
    }
  }

  lemma {:induction false} OneMoreUnit(u: Unit, more: seq<Unit>)
    requires ValidUnit(u) && ValidUnits(more) && (more != [] && IsLoneHigh(u) ==> !IsLoneLow(more[0]))
    ensures ValidUnits([u] + more) && UnitsValue([u] + more) == [UnitValue(u)] + UnitsValue(more)
  {
    var units := [u] + more;
    forall i | 0 < i < |units| && IsLoneLow(units[i])
      ensures !IsLoneHigh(units[i - 1])
    {
      assert units[i] == more[i - 1] && (i > 1 ==> units[i - 1] == more[i - 2]);
    }
  }

  // ---------------------------------------------------------------------------------------
  // Values

  lemma WordWritten(t: string, word: string)
    requires StartsWith(t, word)
    ensures t == word + t[|word|..]
  {
  }

  lemma {:induction false} TokenWritten(t: string) returns (v: Cst)
    requires ParseToken(t).Ok?
    ensures Valid(v) && Meaning(v) == ParseToken(t).value && t == Print(v) + ParseToken(t).rest
    decreases |t|, 0
  {
    if t[0] == '"' {
      var units := CharsWritten(t[1..]);
      v := CString(units);
      QuotedWritten(t, UnitsText(units), ParseChars(t[1..]).rest);
    } else if t[0] == '[' {
      v := ListWritten(t);
    } else if t[0] == '{' {
      v := ObjectWritten(t);
    } else if StartsWith(t, "null") {
      v := CNull;
      WordWritten(t, "null");
    } else if StartsWith(t, "true") {
      v := CBool(true);
      WordWritten(t, "true");
    } else if StartsWith(t, "false") {
      v := CBool(false);
      WordWritten(t, "false");
    } else {
      v := CNumber(t[..NumberRun(t)]);
    }
  }

  lemma QuotedWritten(t: string, chars: string, rest: string)
    requires t != "" && t[0] == '"' && t[1..] == chars + "\"" + rest
    ensures t == "\"" + chars + "\"" + rest
  {
    assert t == "\"" + t[1..];
  }

  lemma {:induction false} CellWritten(s: string, u: string) returns (cell: Cell)
    requires ParseValue(s).Ok? && SkipSpace(ParseValue(s).rest) == u
    ensures ValidCell(cell) && CellMeaning(cell) == ParseValue(s).value && s == PrintCell(cell) + u
    decreases |s|, 1
  {
    var before := SpaceWritten(s);
    var t := SkipSpace(s);
    var v := TokenWritten(t);
    var after := SpaceWritten(ParseToken(t).rest);
    cell := Cell(before, v, after);
    CellText(s, before, t, Print(v), ParseToken(t).rest, after, u);
  }

  lemma CellText(s: string, before: string, t: string, value: string, rest: string, after: string, u: string)
    requires s == before + t && t == value + rest && rest == after + u
    ensures s == before + value + after + u
  {
  }

  lemma {:induction false} ListWritten(t: string) returns (v: Cst)
    requires t != "" && t[0] == '[' && ParseList(t).Ok?
    ensures Valid(v) && Meaning(v) == ParseList(t).value && t == Print(v) + ParseList(t).rest
    decreases |t| - 1, 4
  {
    var space := SpaceWritten(t[1..]);
    var u := SkipSpace(t[1..]);
    assert t == "[" + t[1..];
    if u != "" && u[0] == ']' {
      v := CList(space, []);
      assert u == "]" + u[1..];
      Closed("[", space, "]", u[1..]);
      assert Meaning(v) == RList([]);
    } else {
      var cells := ItemsWritten(t[1..]);
      v := FullList(t, cells, ParseItems(t[1..]).rest);
    }
  }

  lemma {:induction false} FullList(t: string, cells: seq<Cell>, rest: string) returns (v: Cst)
    requires t == "[" + (PrintCells(cells) + "]" + rest) && cells != [] && (forall i :: 0 <= i < |cells| ==> ValidCell(cells[i]))
    ensures Valid(v) && Meaning(v) == RList(CellMeanings(cells)) && t == Print(v) + rest
  {
    v := CList("", cells);
    Closed("[", PrintCells(cells), "]", rest);
    assert Meaning(v) == RList(CellMeanings(cells));
  }

  lemma Closed(a: string, b: string, c: string, d: string)
    ensures a + (b + (c + d)) == a + b + c + d && a + (b + c + d) == a + b + c + d
  {
  }

  lemma {:induction false} ItemsWritten(s: string) returns (cells: seq<Cell>)
    requires ParseItems(s).Ok?
    ensures cells != [] && (forall i :: 0 <= i < |cells| ==> ValidCell(cells[i])) && CellMeanings(cells) == ParseItems(s).value
    ensures s == PrintCells(cells) + "]" + ParseItems(s).rest
    decreases |s|, 2
  {
    var u := ItemsPieces(s);
    var cell := CellWritten(s, u);
    if u[0] == ']' {
      cells := [cell];
      LastCell(s, cell, u);
    } else {
      var more := ItemsWritten(u[1..]);
      cells := [cell] + more;
      CellBefore(cell, more, u[1..], ParseItems(u[1..]).rest);
    }
  }

  /** What follows the first item of a list. */
  lemma {:induction false} ItemsPieces(s: string) returns (u: string)
    requires ParseItems(s).Ok?
    ensures ParseValue(s).Ok? && u == SkipSpace(ParseValue(s).rest) && u != "" && |u| < |s|
    ensures u[0] == ']' || u == "," + u[1..]
    ensures u[0] == ']' ==> ParseItems(s) == Ok([ParseValue(s).value], u[1..])
    ensures u[0] != ']' ==> ParseItems(u[1..]).Ok?
                            && ParseItems(s) == Ok([ParseValue(s).value] + ParseItems(u[1..]).value, ParseItems(u[1..]).rest)
  {
    u := SkipSpace(ParseValue(s).rest);
  }

  lemma {:induction false} LastCell(s: string, cell: Cell, u: string)
    requires ValidCell(cell) && s == PrintCell(cell) + u && u != "" && u[0] == ']'
    ensures s == PrintCells([cell]) + "]" + u[1..] && CellMeanings([cell]) == [CellMeaning(cell)]
  {
    assert u == "]" + u[1..];
    assert PrintCells([cell]) == PrintCell(cell) + "";
    Appended(PrintCell(cell), "]", u[1..]);
  }

  lemma {:induction false} CellBefore(cell: Cell, more: seq<Cell>, text: string, rest: string)
    requires ValidCell(cell) && more != [] && (forall i :: 0 <= i < |more| ==> ValidCell(more[i]))
    requires text == PrintCells(more) + "]" + rest
    ensures forall i :: 0 <= i < |[cell] + more| ==> ValidCell(([cell] + more)[i])
    ensures CellMeanings([cell] + more) == [CellMeaning(cell)] + CellMeanings(more)
    ensures PrintCell(cell) + ("," + text) == PrintCells([cell] + more) + "]" + rest
  {
    var cells := [cell] + more;
    assert cells[1..] == more;
    CellsSplit(cells, rest, text);
  }

  lemma {:induction false} ObjectWritten(t: string) returns (v: Cst)
    requires t != "" && t[0] == '{' && ParseObject(t).Ok?
    ensures Valid(v) && Meaning(v) == ParseObject(t).value && t == Print(v) + ParseObject(t).rest
    decreases |t| - 1, 4
  {
    var space := SpaceWritten(t[1..]);
    var u := SkipSpace(t[1..]);
    assert t == "{" + t[1..];
    if u != "" && u[0] == '}' {
      v := CObject(space, []);
      assert u == "}" + u[1..];
      Closed("{", space, "}", u[1..]);
      assert Meaning(v) == RObject([]);
    } else {
      var members := MembersWritten(t[1..]);
      v := FullObject(t, members, ParseMembers(t[1..]).rest);
    }
  }

  lemma {:induction false} FullObject(t: string, members: seq<Member>, rest: string) returns (v: Cst)
    requires t == "{" + (PrintMembers(members) + "}" + rest) && members != []
    requires forall i :: 0 <= i < |members| ==> ValidMember(members[i])
    ensures Valid(v) && Meaning(v) == RObject(MemberMeanings(members)) && t == Print(v) + rest
  {
    v := CObject("", members);
    Closed("{", PrintMembers(members), "}", rest);
    assert Meaning(v) == RObject(MemberMeanings(members));
  }

  lemma {:induction false} MemberWritten(s: string, after: string) returns (m: Member)
    requires ParseMember(s).Ok? && SkipSpace(ParseMember(s).rest) == after
    ensures ValidMember(m) && MemberMeaning(m) == ParseMember(s).value && s == PrintMember(m) + after
    decreases |s|, 2
  {
    var t, rest, u := MemberPieces(s);
    var before := SpaceWritten(s);
    var key := CharsWritten(t[1..]);
    var colon := SpaceWritten(rest);
    var cell := CellWritten(u[1..], after);
    m := Member(before, key, colon, cell);
    QuotedWritten(t, UnitsText(key), rest);
    MemberParts(s, before, t, UnitsText(key), rest, colon, u, PrintCell(cell), after);
  }

  /** Where the key, the colon and the value of a member are. */
  lemma {:induction false} MemberPieces(s: string) returns (t: string, rest: string, u: string)
    requires ParseMember(s).Ok?
    ensures t == SkipSpace(s) && t != "" && t[0] == '"' && |t| <= |s|
    ensures ParseChars(t[1..]).Ok? && rest == ParseChars(t[1..]).rest && |rest| < |t|
    ensures u == SkipSpace(rest) && u != "" && u == ":" + u[1..] && |u| <= |rest|
    ensures ParseValue(u[1..]).Ok? && ParseMember(s).rest == ParseValue(u[1..]).rest
    ensures ParseMember(s).value == RawMember(ParseChars(t[1..]).value, ParseValue(u[1..]).value)
  {
    t := SkipSpace(s);
    rest := ParseChars(t[1..]).rest;
    u := SkipSpace(rest);
  }

  lemma MemberParts(s: string, before: string, t: string, key: string, rest: string, colon: string, u: string, cell: string, after: string)
    requires s == before + t && t == "\"" + key + "\"" + rest && rest == colon + u && u == ":" + (cell + after)
    ensures s == before + "\"" + key + "\"" + colon + ":" + cell + after
  {
    MemberText(before, key, colon, cell, after);
    Closed("\"", key, "\"", rest);
  }

  lemma {:induction false} MembersWritten(s: string) returns (members: seq<Member>)
    requires ParseMembers(s).Ok?
    ensures members != [] && (forall i :: 0 <= i < |members| ==> ValidMember(members[i]))
    ensures MemberMeanings(members) == ParseMembers(s).value
    ensures s == PrintMembers(members) + "}" + ParseMembers(s).rest
    decreases |s|, 3
  {
    var u := MembersPieces(s);
    var m := MemberWritten(s, u);
    if u[0] == '}' {
      members := [m];
      LastMember(s, m, u);
    } else {
      var more := MembersWritten(u[1..]);
      members := [m] + more;
      MemberBefore(m, more, u[1..], ParseMembers(u[1..]).rest);
    }
  }

  /** What follows the first member of an object. */
  lemma {:induction false} MembersPieces(s: string) returns (u: string)
    requires ParseMembers(s).Ok?
    ensures ParseMember(s).Ok? && u == SkipSpace(ParseMember(s).rest) && u != "" && |u| < |s|
    ensures u[0] == '}' || u == "," + u[1..]
    ensures u[0] == '}' ==> ParseMembers(s) == Ok([ParseMember(s).value], u[1..])
    ensures u[0] != '}' ==> ParseMembers(u[1..]).Ok?
                            && ParseMembers(s) == Ok([ParseMember(s).value] + ParseMembers(u[1..]).value, ParseMembers(u[1..]).rest)
  {
    u := SkipSpace(ParseMember(s).rest);
  }

  lemma {:induction false} LastMember(s: string, m: Member, u: string)
    requires ValidMember(m) && s == PrintMember(m) + u && u != "" && u[0] == '}'
    ensures s == PrintMembers([m]) + "}" + u[1..] && MemberMeanings([m]) == [MemberMeaning(m)]
  {
    assert u == "}" + u[1..];
    assert PrintMembers([m]) == PrintMember(m) + "";
    Appended(PrintMember(m), "}", u[1..]);
  }

  lemma {:induction false} MemberBefore(m: Member, more: seq<Member>, text: string, rest: string)
    requires ValidMember(m) && more != [] && (forall i :: 0 <= i < |more| ==> ValidMember(more[i]))
    requires text == PrintMembers(more) + "}" + rest
    ensures forall i :: 0 <= i < |[m] + more| ==> ValidMember(([m] + more)[i])
    ensures MemberMeanings([m] + more) == [MemberMeaning(m)] + MemberMeanings(more)
    ensures PrintMember(m) + ("," + text) == PrintMembers([m] + more) + "}" + rest
  {
    var members := [m] + more;
    assert members[1..] == more;
    MembersSplit(members, rest, text);
  }

  /** Every accepted text is the text of a concrete document, which means what was read. */
  lemma DocumentWritten(s: string) returns (doc: Cell)
    requires Parse(s).Some?
    ensures ValidCell(doc) && s == PrintCell(doc) && Parse(s) == Some(CellMeaning(doc))
  {
    doc := CellWritten(s, "");
  }
}
