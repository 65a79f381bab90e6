/** The strict document decoder against the canonical writer, and the two ways an output text is
    canonicalised: as reported, and by resolving it and writing it again. */
module StrictJson {
  import opened Wrappers
  import opened JsonValue
  import opened JsonText
  import opened JsonRoundTrip
  import opened StringOrder
  import opened CanonicalJson
  import Decimal

  predicate InInt64(n: int) {
    -0x8000_0000_0000_0000 <= n <= 0x7fff_ffff_ffff_ffff
  }

  predicate IsInt64Text(s: string) {
    IsIntegerText(s) && InInt64(IntegerValue(s))
  }

  // ---------------------------------------------------------------------------------------
  // Strict decoding: no nulls, no repeated keys, 64-bit integers only

  predicate Decodable(v: Raw)
    decreases v, 0
  {
    match v
    case RNull => false
    case RNumber(text) => IsInt64Text(text)
    case RList(items) => forall i :: 0 <= i < |items| ==> Decodable(items[i])
    case RObject(members) => DistinctKeys(members) && forall i :: 0 <= i < |members| ==> DecodableMember(members[i])
    case _ => true
  }

  predicate DecodableMember(m: RawMember)
    decreases m, 1
  {
    Decodable(m.value)
  }

  function Decoded(v: Raw): Json
    requires Decodable(v)
    decreases v, 0
  {
    match v
    case RBool(b) => Bool(b)
    case RNumber(text) => Int(IntegerValue(text))
    case RText(s) => Text(s)
    case RList(items) => List(seq(|items|, i requires 0 <= i < |items| => Decoded(items[i])))
    case RObject(members) => Object(DecodedFields(members))
  }

  function DecodedFields(members: seq<RawMember>): Fields
    requires forall i :: 0 <= i < |members| ==> DecodableMember(members[i])
    decreases members, 1
  {
    if members == [] then map[]
    else
      var last := members[|members| - 1];
      assert DecodableMember(last);
      DecodedFields(members[..|members| - 1])[last.key := Decoded(last.value)]
  }

  function StrictOf(v: Raw): Option<Json> {
    if Decodable(v) then Some(Decoded(v)) else None
  }

  function StrictDecode(text: string): Option<Json> {
    match Parse(text)
    case None => None
    case Some(raw) => StrictOf(raw)
  }

  // ---------------------------------------------------------------------------------------
  // Resolving a generically decoded output

  predicate Resolvable(v: Lax) {
    match v
    case LNull => false
    case LNumber(text) => IsInt64Text(text)
    case LList(items) => forall i :: 0 <= i < |items| ==> Resolvable(items[i])
    case LObject(fields) => forall k :: k in fields ==> Resolvable(fields[k])
    case _ => true
  }

  function Resolved(v: Lax): Json
    requires Resolvable(v)
  {
    match v
    case LBool(b) => Bool(b)
    case LNumber(text) => Int(IntegerValue(text))
    case LText(s) => Text(s)
    case LList(items) => List(seq(|items|, i requires 0 <= i < |items| => Resolved(items[i])))
    case LObject(fields) => Object(map k | k in fields :: Resolved(fields[k]))
  }

  /** A value as the canonical writer sees it. */
  function Embed(v: Json): Lax {
    match v
    case Null => LNull
    case Bool(b) => LBool(b)
    case Int(n) => LNumber(Decimal.OfInt(n))
    case Text(s) => LText(s)
    case List(items) => LList(seq(|items|, i requires 0 <= i < |items| => Embed(items[i])))
    case Object(fields) => LObject(map k | k in fields :: Embed(fields[k]))
  }

  /** The canonical text of a value. */
  ghost function CanonicalText(v: Json): string {
    Print(CanonCst(Embed(v)))
  }

  predicate InRange(v: Json) {
    match v
    case Int(n) => InInt64(n)
    case List(items) => forall i :: 0 <= i < |items| ==> InRange(items[i])
    case Object(fields) => forall k :: k in fields ==> InRange(fields[k])
    case _ => true
  }

  /** The only number text in a resolvable value that is not how its number is written. */
  predicate HasMinusZero(v: Lax) {
    match v
    case LNumber(text) => text == "-0"
    case LList(items) => exists i :: 0 <= i < |items| && HasMinusZero(items[i])
    case LObject(fields) => exists k :: k in fields && HasMinusZero(fields[k])
    case _ => false
  }

  // ---------------------------------------------------------------------------------------
  // Embedding and resolving

  lemma {:induction false} EmbedWritable(v: Json)
    ensures Writable(Embed(v))
    decreases v
  {
    match v
    case Int(n) => OfIntIsInteger(n);
    case List(items) =>
      forall i | 0 <= i < |items|
        ensures Writable(Embed(items[i]))
      {
        EmbedWritable(items[i]);
      }
    case Object(fields) =>
      forall k | k in fields
        ensures Writable(Embed(fields[k]))
      {
        EmbedWritable(fields[k]);
      }
    case _ =>
  }

  lemma {:induction false} EmbedResolves(v: Json)
    requires !HasNull(v) && InRange(v)
    ensures Resolvable(Embed(v)) && Resolved(Embed(v)) == v && !HasMinusZero(Embed(v))
    decreases v
  {
    match v
    case Int(n) => OfIntIsInteger(n);
    case List(items) =>
      forall i | 0 <= i < |items|
        ensures Resolvable(Embed(items[i])) && Resolved(Embed(items[i])) == items[i] && !HasMinusZero(Embed(items[i]))
      {
        assert !HasNull(items[i]);
        EmbedResolves(items[i]);
      }
    case Object(fields) =>
      forall k | k in fields
        ensures Resolvable(Embed(fields[k])) && Resolved(Embed(fields[k])) == fields[k] && !HasMinusZero(Embed(fields[k]))
      {
        assert !HasNull(fields[k]);
        EmbedResolves(fields[k]);
      }
    case _ =>
  }

  lemma {:induction false} ResolvableWritable(v: Lax)
    requires Resolvable(v)
    ensures Writable(v)
    decreases v
  {
    match v
    case LList(items) =>
      forall i | 0 <= i < |items|
        ensures Writable(items[i])
      {
        ResolvableWritable(items[i]);
      }
    case LObject(fields) =>
      forall k | k in fields
        ensures Writable(fields[k])
      {
        ResolvableWritable(fields[k]);
      }
    case _ =>
  }

  lemma {:induction false} ResolvedInRange(v: Lax)
    requires Resolvable(v)
    ensures !HasNull(Resolved(v)) && InRange(Resolved(v))
    decreases v
  {
    match v
    case LList(items) =>
      forall i | 0 <= i < |items|
        ensures !HasNull(Resolved(items[i])) && InRange(Resolved(items[i]))
      {
        ResolvedInRange(items[i]);
      }
    case LObject(fields) =>
      forall k | k in fields
        ensures !HasNull(Resolved(fields[k])) && InRange(Resolved(fields[k]))
      {
        ResolvedInRange(fields[k]);
      }
    case _ =>
  }

  /** Resolving loses only how zero was written. */
  lemma {:induction false} ResolvedEmbeds(v: Lax)
    requires Resolvable(v)
    ensures Embed(Resolved(v)) == v <==> !HasMinusZero(v)
    decreases v
  {
    match v
    case LNumber(text) => IntegerTextOfValue(text);
    case LList(items) =>
      forall i | 0 <= i < |items|
        ensures Embed(Resolved(items[i])) == items[i] <==> !HasMinusZero(items[i])
      {
        ResolvedEmbeds(items[i]);
      }
      ListEmbeds(items);
    case LObject(fields) =>
      forall k | k in fields
        ensures Embed(Resolved(fields[k])) == fields[k] <==> !HasMinusZero(fields[k])
      {
        ResolvedEmbeds(fields[k]);
      }
      ObjectEmbeds(fields);
    case _ =>
  }

  lemma ListEmbeds(items: seq<Lax>)
    requires Resolvable(LList(items))
    requires forall i :: 0 <= i < |items| ==> (Embed(Resolved(items[i])) == items[i] <==> !HasMinusZero(items[i]))
    ensures Embed(Resolved(LList(items))) == LList(items) <==> !HasMinusZero(LList(items))
  {
    var back := Embed(Resolved(LList(items))).items;
    assert |back| == |items| && forall i :: 0 <= i < |items| ==> back[i] == Embed(Resolved(items[i]));
  }

  lemma ObjectEmbeds(fields: map<string, Lax>)
    requires Resolvable(LObject(fields))
    requires forall k :: k in fields ==> (Embed(Resolved(fields[k])) == fields[k] <==> !HasMinusZero(fields[k]))
    ensures Embed(Resolved(LObject(fields))) == LObject(fields) <==> !HasMinusZero(LObject(fields))
  {
    var back := Embed(Resolved(LObject(fields))).fields;
    assert back.Keys == fields.Keys && forall k :: k in fields ==> back[k] == Embed(Resolved(fields[k]));
    if !HasMinusZero(LObject(fields)) {
      assert back == fields;
    }
  }

  // ---------------------------------------------------------------------------------------
  // Strict decoding is generic decoding without repeated keys

  predicate NoDuplicates(v: Raw)
    decreases v, 0
  {
    match v
    case RList(items) => forall i :: 0 <= i < |items| ==> NoDuplicates(items[i])
    case RObject(members) => DistinctKeys(members) && forall i :: 0 <= i < |members| ==> NoDuplicatesIn(members[i])
    case _ => true
  }

  predicate NoDuplicatesIn(m: RawMember)
    decreases m, 1
  {
    NoDuplicates(m.value)
  }

  ghost predicate StrictMatches(v: Raw) {
    && (Decodable(v) <==> NoDuplicates(v) && Resolvable(LaxOf(v)))
    && (Decodable(v) ==> Decoded(v) == Resolved(LaxOf(v)))
  }

  lemma {:induction false} StrictIsLaxWithoutDuplicates(v: Raw)
    ensures StrictMatches(v)
    decreases v, 0
  {
    match v
    case RList(items) =>
      forall i | 0 <= i < |items|
        ensures StrictMatches(items[i])
      {
        StrictIsLaxWithoutDuplicates(items[i]);
      }
      StrictList(items);
    case RObject(members) =>
      forall i | 0 <= i < |members|
        ensures StrictMatches(members[i].value)
      {
        StrictMember(members[i]);
      }
      StrictObject(members);
    case _ =>
  }

  lemma {:induction false} StrictMember(m: RawMember)
    ensures StrictMatches(m.value)
    decreases m, 1
  {
    StrictIsLaxWithoutDuplicates(m.value);
  }

  lemma StrictList(items: seq<Raw>)
    requires forall i :: 0 <= i < |items| ==> StrictMatches(items[i])
    ensures StrictMatches(RList(items))
  {
    var lax := LaxOf(RList(items)).items;
    assert |lax| == |items| && forall i :: 0 <= i < |items| ==> lax[i] == LaxOf(items[i]);
    if Decodable(RList(items)) {
      assert Decoded(RList(items)).items == Resolved(LList(lax)).items;
    }
  }

  lemma StrictObject(members: seq<RawMember>)
    requires forall i :: 0 <= i < |members| ==> StrictMatches(members[i].value)
    ensures StrictMatches(RObject(members))
  {
    if DistinctKeys(members) {
      StrictFields(members);
      forall i | 0 <= i < |members|
        ensures DecodableMember(members[i]) <==> NoDuplicatesIn(members[i]) && Resolvable(LaxOf(members[i].value))
      {
        assert StrictMatches(members[i].value);
      }
      if Decodable(RObject(members)) {
        DecodedFieldsMatch(members);
      }
    }
  }

  lemma StrictFields(members: seq<RawMember>)
    requires DistinctKeys(members)
    ensures Resolvable(LObject(LaxFields(members))) <==> forall i :: 0 <= i < |members| ==> Resolvable(LaxOf(members[i].value))
  {
    var fields := LaxFields(members);
    if Resolvable(LObject(fields)) {
      forall i | 0 <= i < |members|
        ensures Resolvable(LaxOf(members[i].value))
      {
        LaxFieldsLookup(members, i);
      }
    }
    if forall i :: 0 <= i < |members| ==> Resolvable(LaxOf(members[i].value)) {
      forall k | k in fields
        ensures Resolvable(fields[k])
      {
        LaxFieldsKeys(members, k);
        var i :| 0 <= i < |members| && members[i].key == k;
        LaxFieldsLookup(members, i);
      }
    }
  }

  lemma {:induction false} DecodedFieldsMatch(members: seq<RawMember>)
    requires forall i :: 0 <= i < |members| ==> DecodableMember(members[i]) && StrictMatches(members[i].value)
    requires Resolvable(LObject(LaxFields(members))) && DistinctKeys(members)
    ensures Object(DecodedFields(members)) == Resolved(LObject(LaxFields(members)))
  {
    if members != [] {
      var front, last := members[..|members| - 1], members[|members| - 1];
      FrontResolvable(members);
      DecodedFieldsMatch(front);
      assert DecodableMember(last) && StrictMatches(last.value);
      LastField(LaxFields(front), last.key, LaxOf(last.value));
    }
  }

  lemma FrontResolvable(members: seq<RawMember>)
    requires members != [] && DistinctKeys(members) && Resolvable(LObject(LaxFields(members)))
    ensures Resolvable(LObject(LaxFields(members[..|members| - 1]))) && Resolvable(LaxOf(members[|members| - 1].value))
  {
    StrictFields(members);
    StrictFields(members[..|members| - 1]);
  }

  lemma LastField(fields: map<string, Lax>, key: string, v: Lax)
    requires Resolvable(LObject(fields)) && Resolvable(v) && Resolvable(LObject(fields[key := v]))
    ensures Resolved(LObject(fields[key := v])) == Object(Resolved(LObject(fields)).fields[key := Resolved(v)])
  {
    var a, b := Resolved(LObject(fields[key := v])).fields, Resolved(LObject(fields)).fields[key := Resolved(v)];
    assert a == b;
  }

  // ---------------------------------------------------------------------------------------
  // The round trip

  lemma {:induction false} CanonHasNoDuplicates(v: Lax)
    requires Writable(v) && Valid(CanonCst(v))
    ensures NoDuplicates(Meaning(CanonCst(v)))
    decreases v
  {
    match v
    case LList(items) =>
      var cst := CanonCst(v);
      var raw := Meaning(cst);
      forall i | 0 <= i < |items|
        ensures NoDuplicates(raw.items[i])
      {
        assert ValidCell(cst.cells[i]) && raw.items[i] == CellMeaning(cst.cells[i]);
        CanonHasNoDuplicates(items[i]);
      }
    case LObject(fields) => CanonObjectDistinct(fields);
    case _ =>
  }

  lemma {:induction false} CanonObjectDistinct(fields: map<string, Lax>)
    requires Writable(LObject(fields)) && Valid(CanonCst(LObject(fields)))
    ensures NoDuplicates(Meaning(CanonCst(LObject(fields))))
    decreases LObject(fields), 0
  {
    var keys := SortedKeys(fields.Keys);
    var cst := CanonCst(LObject(fields));
    var raw := Meaning(cst);
    forall i | 0 <= i < |keys|
      ensures raw.members[i].key == keys[i] && NoDuplicatesIn(raw.members[i])
    {
      assert keys[i] in keys;
      assert cst.members[i] == CanonMember(fields, keys[i]) && ValidMember(cst.members[i]);
      assert raw.members[i] == MemberMeaning(cst.members[i]);
      assert raw.members[i].value == CellMeaning(cst.members[i].cell);
      CanonHasNoDuplicates(fields[keys[i]]);
    }
    SortedMembersDistinct(raw.members, keys);
  }

  lemma CanonicalParses(v: Lax)
    requires Writable(v)
    ensures
      var raw := Parse(Print(CanonCst(v)));
      raw.Some? && NoDuplicates(raw.value) && LaxOf(raw.value) == v
  {
    CanonMeaning(v);
    CanonHasNoDuplicates(v);
    var doc := Cell("", CanonCst(v), "");
    DocumentRead(doc);
    assert PrintCell(doc) == Print(CanonCst(v));
  }

  /** Decoding the canonical text of a value without nulls and with 64-bit integers returns it. */
  lemma StrictRoundTrip(v: Json)
    requires !HasNull(v) && InRange(v)
    ensures StrictDecode(CanonicalText(v)) == Some(v)
  {
    EmbedWritable(v);
    EmbedResolves(v);
    CanonicalParses(Embed(v));
    StrictIsLaxWithoutDuplicates(Parse(CanonicalText(v)).value);
  }

  /** Distinct values have distinct canonical texts. */
  lemma CanonicalTextInjective(a: Json, b: Json)
    requires !HasNull(a) && InRange(a) && !HasNull(b) && InRange(b)
    requires CanonicalText(a) == CanonicalText(b)
    ensures a == b
  {
    StrictRoundTrip(a);
    StrictRoundTrip(b);
  }

  /** Whatever decodes strictly has a canonical text that decodes to the same value. */
  lemma DecodedIsCanonicalizable(text: string)
    requires StrictDecode(text).Some?
    ensures StrictDecode(CanonicalText(StrictDecode(text).value)) == StrictDecode(text)
  {
    var raw := Parse(text).value;
    StrictIsLaxWithoutDuplicates(raw);
    ResolvedInRange(LaxOf(raw));
    StrictRoundTrip(StrictDecode(text).value);
  }
}
