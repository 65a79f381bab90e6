/** The two ways an output text is canonicalised: on the report side, and by resolving it into a
    value and writing that. */
module OutputText {
  import opened Wrappers
  import opened JsonText
  import opened JsonRoundTrip
  import opened CanonicalJson
  import opened StrictJson

  /** The text recorded for a reported document. */
  ghost function ReportText(text: string): Option<string> {
    match Parse(text)
    case None => None
    case Some(raw) => Canonical(LaxOf(raw))
  }

  /** The text after resolving the document into a value. */
  ghost function ResolvedText(text: string): Option<string> {
    match Parse(text)
    case None => None
    case Some(raw) => if Resolvable(LaxOf(raw)) then Some(CanonicalText(Resolved(LaxOf(raw)))) else None
  }

  /** The document has a zero written with a minus sign. */
  predicate WritesMinusZero(text: string) {
    Parse(text).Some? && HasMinusZero(LaxOf(Parse(text).value))
  }

  lemma FractionStart(f: string)
    requires IsFraction(f) && f != ""
    ensures f[0] == '.' || f[0] == 'e' || f[0] == 'E'
  {
  }

  /** In the number grammar, a text without point and exponent is an integer text: what the resolver
      lets through to the 64-bit parser. */
  lemma PlainNumberIsInteger(s: string)
    requires IsNumber(s) && forall i :: 0 <= i < |s| ==> s[i] != '.' && s[i] != 'e' && s[i] != 'E'
    ensures IsIntegerText(s)
  {
    var sign := if s != "" && s[0] == '-' then 1 else 0;
    var t := s[sign..];
    assert t == if s != "" && s[0] == '-' then s[1..] else s;
    var n := DigitRun(t);
    var f := t[n..];
    assert forall i :: 0 <= i < |f| ==> f[i] == s[sign + n + i];
    if f != "" {
      FractionStart(f);
      assert false;
    }
    DigitRunDigits(t);
  }

  /** The two texts agree exactly when no zero is written with a minus sign. */
  lemma PipelinesAgreeIff(text: string)
    requires ResolvedText(text).Some?
    ensures ReportText(text).Some?
    ensures ReportText(text) == ResolvedText(text) <==> !WritesMinusZero(text)
  {
    var v := LaxOf(Parse(text).value);
    ResolvableWritable(v);
    ResolvedEmbeds(v);
    EmbedWritable(Resolved(v));
    if Canonical(v) == Canonical(Embed(Resolved(v))) {
      CanonicalInjective(v, Embed(Resolved(v)));
    }
  }

  /** Canonicalising a canonical text changes nothing. */
  lemma ReportIdempotent(text: string)
    requires ReportText(text).Some?
    ensures ReportText(ReportText(text).value) == ReportText(text)
  {
    CanonicalReads(LaxOf(Parse(text).value));
  }

  /** The resolved text is a fixed point of both ways. */
  lemma ResolvedIdempotent(text: string)
    requires ResolvedText(text).Some?
    ensures ResolvedText(ResolvedText(text).value) == ResolvedText(text)
    ensures ReportText(ResolvedText(text).value) == ResolvedText(text)
  {
    var v := Resolved(LaxOf(Parse(text).value));
    ResolvedInRange(LaxOf(Parse(text).value));
    EmbedWritable(v);
    EmbedResolves(v);
    CanonicalReads(Embed(v));
  }

  /** Recording a completed output resolves the reported text again and compares hashes. */
  ghost predicate HashCheckPasses(text: string, hash: string -> string)
    requires ReportText(text).Some? && ResolvedText(ReportText(text).value).Some?
  {
    hash(ReportText(text).value) == hash(ResolvedText(ReportText(text).value).value)
  }

  ghost predicate CollisionFree(hash: string -> string) {
    forall a, b :: hash(a) == hash(b) ==> a == b
  }

  lemma ReportedSame(text: string)
    requires ReportText(text).Some?
    ensures Parse(ReportText(text).value).Some? && LaxOf(Parse(ReportText(text).value).value) == LaxOf(Parse(text).value)
  {
    CanonicalReads(LaxOf(Parse(text).value));
  }

  /** For every document that is reported and can be resolved the check on the recorded hash passes
      when no zero is written with a minus sign, and only then if the hash has no collisions. */
  lemma HashCheckIff(text: string, hash: string -> string)
    requires ReportText(text).Some? && ResolvedText(ReportText(text).value).Some?
    ensures !WritesMinusZero(text) ==> HashCheckPasses(text, hash)
    ensures CollisionFree(hash) ==> (HashCheckPasses(text, hash) <==> !WritesMinusZero(text))
  {
    ReportedSame(text);
    ReportIdempotent(text);
    PipelinesAgreeIff(ReportText(text).value);
  }

  /** The document "-0" is reported as it stands but resolves to "0". */
  lemma MinusZeroDisagrees()
    ensures ReportText("-0") == Some("-0") && ResolvedText("-0") == Some("0")
    ensures WritesMinusZero("-0")
  {
    var doc := Cell("", CNumber("-0"), "");
    assert "-0"[1..] == "0";
    assert IsIntegerText("-0");
    IntegerIsNumber("-0");
    DocumentRead(doc);
    assert PrintCell(doc) == "-0";
    assert "0"[..0] == "";
    assert IntegerValue("-0") == 0;
  }
}
