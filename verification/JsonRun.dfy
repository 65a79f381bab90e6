/** The canonical writer and the strict decoder as they run: a writer that appends to a shared
    buffer, and a decoder that fills lists and maps in loops. */
module JsonRun {
  import opened Wrappers
  import opened JsonValue
  import opened JsonText
  import opened StringOrder
  import opened CanonicalJson
  import opened StrictJson

  // ---------------------------------------------------------------------------------------
  // Writing

  function Comma(first: bool): string {
    if first then "" else ","
  }

  lemma {:induction false} CellsOneMore(cells: seq<Cell>, cell: Cell)
    ensures PrintCells(cells + [cell]) == PrintCells(cells) + Comma(cells == []) + PrintCell(cell)
  {
    var all := cells + [cell];
    if cells == [] {
      assert all == [cell];
    } else {
      assert all[0] == cells[0] && all[1..] == cells[1..] + [cell];
      CellsOneMore(cells[1..], cell);
      if |cells| == 1 {
        assert cells[1..] == [];
      }
    }
  }

  lemma {:induction false} MembersOneMore(members: seq<Member>, m: Member)
    ensures PrintMembers(members + [m]) == PrintMembers(members) + Comma(members == []) + PrintMember(m)
  {
    var all := members + [m];
    if members == [] {
      assert all == [m];
    } else {
      assert all[0] == members[0] && all[1..] == members[1..] + [m];
      MembersOneMore(members[1..], m);
      if |members| == 1 {
        assert members[1..] == [];
      }
    }
  }

  ghost function CanonCells(items: seq<Lax>): seq<Cell> {
    seq(|items|, i requires 0 <= i < |items| => Cell("", CanonCst(items[i]), ""))
  }

  ghost function CanonMembers(fields: map<string, Lax>, keys: seq<string>): seq<Member>
    requires forall i :: 0 <= i < |keys| ==> keys[i] in fields
  {
    seq(|keys|, i requires 0 <= i < |keys| => CanonMember(fields, keys[i]))
  }

  lemma CanonCellsOneMore(items: seq<Lax>, i: nat)
    requires i < |items|
    ensures PrintCells(CanonCells(items[..i + 1])) ==
            PrintCells(CanonCells(items[..i])) + Comma(i == 0) + Print(CanonCst(items[i]))
  {
    var cell := Cell("", CanonCst(items[i]), "");
    assert CanonCells(items[..i + 1]) == CanonCells(items[..i]) + [cell];
    CellsOneMore(CanonCells(items[..i]), cell);
  }

  lemma CanonMembersOneMore(fields: map<string, Lax>, keys: seq<string>, i: nat)
    requires i < |keys| && forall j :: 0 <= j < |keys| ==> keys[j] in fields
    ensures PrintMembers(CanonMembers(fields, keys)[..i + 1]) ==
            PrintMembers(CanonMembers(fields, keys)[..i])
            + (Comma(i == 0) + QuotedText(keys[i]) + ":" + Print(CanonCst(fields[keys[i]])))
  {
    var m := CanonMember(fields, keys[i]);
    var front := CanonMembers(fields, keys)[..i];
    assert CanonMembers(fields, keys)[..i + 1] == front + [m];
    MembersOneMore(front, m);
    MemberPlain(UnitsText(WriteText(keys[i])), Print(CanonCst(fields[keys[i]])));
    Concat(PrintMembers(front), Comma(i == 0), QuotedText(keys[i]), Print(CanonCst(fields[keys[i]])));
  }

  lemma MemberPlain(key: string, value: string)
    ensures "" + "\"" + key + "\"" + "" + ":" + ("" + value + "") == "\"" + key + "\"" + ":" + value
  {
  }

  lemma Concat(a: string, b: string, c: string, d: string)
    ensures a + b + (c + ":" + d) == a + (b + c + ":" + d)
  {
  }

  class CanonicalWriter {
    var buf: string

    constructor ()
      ensures buf == ""
    {
      buf := "";
    }

    /** Appends the canonical text of a value. */
    method Write(v: Lax) returns (ok: bool)
      modifies this
      ensures ok <==> Writable(v)
      ensures ok ==> buf == old(buf) + Print(CanonCst(v))
      decreases v, 1
    {
      ok := true;
      match v {
        case LNull => buf := buf + "null";
        case LBool(b) => buf := buf + (if b then "true" else "false");
        case LNumber(text) =>
          if !IsIntegerText(text) {
            return false;
          }
          buf := buf + text;
        case LText(s) => buf := buf + ("\"" + UnitsText(WriteText(s)) + "\"");
        case LList(items) => ok := WriteList(items);
        case LObject(fields) => ok := WriteObject(fields);
      }
    }

    method WriteItem(first: bool, v: Lax) returns (ok: bool)
      modifies this
      ensures ok <==> Writable(v)
      ensures ok ==> buf == old(buf) + Comma(first) + Print(CanonCst(v))
      decreases v, 2
    {
      if !first {
        buf := buf + ",";
      }
      ok := Write(v);
    }

    method WriteList(items: seq<Lax>) returns (ok: bool)
      modifies this
      ensures ok <==> Writable(LList(items))
      ensures ok ==> buf == old(buf) + Print(CanonCst(LList(items)))
      decreases LList(items), 0
    {
      buf := buf + "[";
      ghost var start := buf;
      for i := 0 to |items|
        invariant buf == start + PrintCells(CanonCells(items[..i]))
        invariant forall k :: 0 <= k < i ==> Writable(items[k])
      {
        CanonCellsOneMore(items, i);
        Joined(start, PrintCells(CanonCells(items[..i])), Comma(i == 0), Print(CanonCst(items[i])));
        ok := WriteItem(i == 0, items[i]);
        if !ok {
          return;
        }
      }
      assert items[..|items|] == items;
      buf := buf + "]";
      ok := true;
      ListText(items);
      Joined(old(buf), "[", PrintCells(CanonCells(items)), "]");
    }

    method WriteField(first: bool, key: string, v: Lax) returns (ok: bool)
      modifies this
      ensures ok <==> Writable(v)
      ensures ok ==> buf == old(buf) + (Comma(first) + QuotedText(key) + ":" + Print(CanonCst(v)))
      decreases v, 2
    {
      if !first {
        buf := buf + ",";
      }
      FieldText(old(buf), Comma(first), QuotedText(key), Print(CanonCst(v)));
      buf := buf + QuotedText(key);
      buf := buf + ":";
      ok := Write(v);
    }

    method WriteObject(fields: map<string, Lax>) returns (ok: bool)
      modifies this
      ensures ok <==> Writable(LObject(fields))
      ensures ok ==> buf == old(buf) + Print(CanonCst(LObject(fields)))
      decreases LObject(fields), 0
    {
      var keys := SortKeys(fields.Keys);
      assert forall i :: 0 <= i < |keys| ==> keys[i] in keys;
      buf := buf + "{";
      ghost var start := buf;
      ghost var members := CanonMembers(fields, keys);
      for i := 0 to |keys|
        invariant buf == start + PrintMembers(members[..i])
        invariant AllWritable(fields, keys[..i])
      {
        CanonMembersOneMore(fields, keys, i);
        ok := WriteField(i == 0, keys[i], fields[keys[i]]);
        if !ok {
          return;
        }
        Appended(start, PrintMembers(members[..i]), Comma(i == 0) + QuotedText(keys[i]) + ":" + Print(CanonCst(fields[keys[i]])));
      }
      assert keys[..|keys|] == keys && members[..|keys|] == members;
      buf := buf + "}";
      ok := true;
      ObjectText(fields, keys);
      Joined(old(buf), "{", PrintMembers(CanonMembers(fields, keys)), "}");
    }
  }

  function QuotedText(s: string): string {
    "\"" + UnitsText(WriteText(s)) + "\""
  }

  predicate AllWritable(fields: map<string, Lax>, keys: seq<string>) {
    forall k :: k in keys && k in fields ==> Writable(fields[k])
  }

  lemma Appended(a: string, b: string, c: string)
    ensures a + b + c == a + (b + c)
  {
  }

  lemma FieldText(a: string, b: string, c: string, d: string)
    ensures a + b + c + ":" + d == a + (b + c + ":" + d)
    ensures b == "" ==> a + b == a
  {
  }

  lemma Joined(a: string, b: string, c: string, d: string)
    ensures a + b + c + d == a + (b + c + d)
  {
  }

  lemma {:induction false} ListText(items: seq<Lax>)
    ensures Print(CanonCst(LList(items))) == "[" + PrintCells(CanonCells(items)) + "]"
  {
    assert CanonCst(LList(items)).cells == CanonCells(items);
  }

  lemma {:induction false} ObjectText(fields: map<string, Lax>, keys: seq<string>)
    requires keys == SortedKeys(fields.Keys) && forall i :: 0 <= i < |keys| ==> keys[i] in fields
    ensures Print(CanonCst(LObject(fields))) == "{" + PrintMembers(CanonMembers(fields, keys)) + "}"
  {
    assert CanonCst(LObject(fields)).members == CanonMembers(fields, keys);
  }

  // ---------------------------------------------------------------------------------------
  // Decoding

  lemma DecodedOneMore(members: seq<RawMember>, i: nat)
    requires i < |members| && forall k :: 0 <= k <= i ==> DecodableMember(members[k])
    ensures DecodedFields(members[..i + 1]) == DecodedFields(members[..i])[members[i].key := Decoded(members[i].value)]
  {
    assert members[..i + 1][..i] == members[..i];
    assert DecodableMember(members[i]);
  }

  method DecodeValue(v: Raw) returns (r: Option<Json>)
    ensures r == StrictOf(v)
    decreases v, 0
  {
    match v {
      case RNull => r := None;
      case RBool(b) => r := Some(Bool(b));
      case RNumber(text) => r := if IsInt64Text(text) then Some(Int(IntegerValue(text))) else None;
      case RText(s) => r := Some(Text(s));
      case RList(items) => r := DecodeArray(items);
      case RObject(members) => r := DecodeObject(members);
    }
  }

  method DecodeArray(items: seq<Raw>) returns (r: Option<Json>)
    ensures r == StrictOf(RList(items))
    decreases items, 1
  {
    var values: seq<Json> := [];
    for i := 0 to |items|
      invariant |values| == i
      invariant forall k :: 0 <= k < i ==> Decodable(items[k]) && values[k] == Decoded(items[k])
    {
      var value := DecodeValue(items[i]);
      if value.None? {
        return None;
      }
      values := values + [value.value];
    }
    assert values == Decoded(RList(items)).items;
    r := Some(List(values));
  }

  method DecodeMember(m: RawMember) returns (r: Option<Json>)
    ensures r == StrictOf(m.value)
    decreases m, 1
  {
    r := DecodeValue(m.value);
  }

  /** Fills a map member by member, refusing a repeated key. */
  method DecodeObject(members: seq<RawMember>) returns (r: Option<Json>)
    ensures r == StrictOf(RObject(members))
    decreases members, 2
  {
    var values: Fields := map[];
    for i := 0 to |members|
      invariant forall k :: 0 <= k < i ==> DecodableMember(members[k])
      invariant values == DecodedFields(members[..i])
      invariant forall key :: key in values <==> exists k :: 0 <= k < i && members[k].key == key
      invariant DistinctKeys(members[..i])
    {
      if members[i].key in values {
        var k :| 0 <= k < i && members[k].key == members[i].key;
        assert !DistinctKeys(members);
        return None;
      }
      var value := DecodeMember(members[i]);
      if value.None? {
        assert !DecodableMember(members[i]);
        return None;
      }
      assert DecodableMember(members[i]);
      DecodedOneMore(members, i);
      values := values[members[i].key := value.value];
    }
    assert members[..|members|] == members;
    r := Some(Object(values));
  }
}
