/** The text recorded for a step is the one list of its items' outputs: with the aggregation of step
    outputs in place, the recorded fact decodes to the values of all recorded items by increasing index. */
module StepOutputFacts {
  import opened Wrappers
  import opened JsonValue
  import opened PlanModel
  import opened DependencyStore
  import opened StoreView
  import opened StoreEffects
  import opened RebuiltPlan
  import opened StepFacts
  import StepOutput
  import StrictJson

  /** The aggregation of step outputs with a digest for its text. */
  ghost function Aggregation(cfg: StepOutput.Config, digest: string -> string): Step -> Option<Output> {
    (step: Step) =>
      match StepOutput.Aggregate(cfg, step.workItems)
      case None => None
      case Some(text) => Some(Output(text, digest(text), |text|, false))
  }

  /** The item is that of the record, with the text of its attempt. */
  predicate IsItemOf(s: Store, x: Membership, k: MemberRecord) {
    x.id == k.id && x.index == k.index && k.id in s.terminal && x.output.json == s.terminal[k.id].outputJson
  }

  /** The memberships as the last report leaves them, item by item. */
  lemma ReportedItem(s: Store, r: StepRecord, m: MemberRecord, sha256: string, i: nat) returns (k: MemberRecord)
    requires Healthy(s) && UniqueIds(s) && r in s.steps && r.stepIndex !in s.facts && AllTerminal(s, r)
    requires m in s.members && Matches(m, r) && m.id in s.terminal && HasMember(RebuiltMembers(s, r), m.id)
    requires i < |Reported(s, r, m.id, s.terminal[m.id].outputJson, sha256)|
    ensures k == MembersOf(s.members, r.stageIndex, r.stepIndex)[i] && k in s.members && Matches(k, r)
    ensures IsItemOf(s, Reported(s, r, m.id, s.terminal[m.id].outputJson, sha256)[i], k)
  {
    k := MembersOf(s.members, r.stageIndex, r.stepIndex)[i];
    RebuiltItems(s, r, i);
    MembershipShown(s, k, false);
    NoRecordedFailure(s, r, k);
  }

  lemma ItemOfRecord(s: Store, r: StepRecord, m: MemberRecord, sha256: string, k: MemberRecord) returns (x: Membership)
    requires Healthy(s) && UniqueIds(s) && r in s.steps && r.stepIndex !in s.facts && AllTerminal(s, r)
    requires m in s.members && Matches(m, r) && m.id in s.terminal && HasMember(RebuiltMembers(s, r), m.id)
    requires k in s.members && Matches(k, r)
    ensures x in Reported(s, r, m.id, s.terminal[m.id].outputJson, sha256) && IsItemOf(s, x, k)
  {
    var i := MemberHasItem(s, r, k);
    var q := ReportedItem(s, r, m, sha256, i);
    x := Reported(s, r, m.id, s.terminal[m.id].outputJson, sha256)[i];
  }

  /** The value of the text an item's attempt left. */
  function AttemptValue(s: Store, id: string): Json
    requires id in s.terminal
  {
    var v := StepOutput.OutputValue(s.terminal[id].outputJson);
    if v.Some? then v.value else Null
  }

  /** The records of a step by strictly increasing index, all of them. */
  ghost predicate ByIndex(s: Store, r: StepRecord, records: seq<MemberRecord>) {
    && (forall i :: 0 <= i < |records| ==> records[i] in s.members && Matches(records[i], r))
    && (forall k :: k in s.members && Matches(k, r) ==> k in records)
    && (forall i, j :: 0 <= i < j < |records| ==> records[i].index < records[j].index)
  }

  lemma SortedRecords(s: Store, r: StepRecord, m: MemberRecord, sha256: string, sorted: seq<Membership>) returns (records: seq<MemberRecord>)
    requires Healthy(s) && UniqueIds(s) && r in s.steps && r.stepIndex !in s.facts && AllTerminal(s, r)
    requires m in s.members && Matches(m, r) && m.id in s.terminal && HasMember(RebuiltMembers(s, r), m.id)
    requires multiset(sorted) == multiset(Reported(s, r, m.id, s.terminal[m.id].outputJson, sha256)) && StepOutput.IncreasingIndexes(sorted)
    ensures |records| == |sorted| && ByIndex(s, r, records)
    ensures forall i :: 0 <= i < |sorted| ==> IsItemOf(s, sorted[i], records[i])
  {
    var items := Reported(s, r, m.id, s.terminal[m.id].outputJson, sha256);
    records := RecordsFor(s, r, m, sha256, sorted, |sorted|);
    forall k | k in s.members && Matches(k, r)
      ensures k in records
    {
      var x := ItemOfRecord(s, r, m, sha256, k);
      assert x in multiset(sorted);
      var i :| 0 <= i < |sorted| && sorted[i] == x;
      assert records[i].id == k.id && records[i] in s.members;
    }
  }

  lemma {:induction false} RecordsFor(s: Store, r: StepRecord, m: MemberRecord, sha256: string, sorted: seq<Membership>, n: nat)
      returns (records: seq<MemberRecord>)
    requires Healthy(s) && UniqueIds(s) && r in s.steps && r.stepIndex !in s.facts && AllTerminal(s, r)
    requires m in s.members && Matches(m, r) && m.id in s.terminal && HasMember(RebuiltMembers(s, r), m.id)
    requires multiset(sorted) == multiset(Reported(s, r, m.id, s.terminal[m.id].outputJson, sha256)) && n <= |sorted|
    ensures |records| == n
    ensures forall i :: 0 <= i < n ==> records[i] in s.members && Matches(records[i], r) && IsItemOf(s, sorted[i], records[i])
  {
    if n == 0 {
      records := [];
    } else {
      var front := RecordsFor(s, r, m, sha256, sorted, n - 1);
      var k := RecordFor(s, r, m, sha256, sorted, n - 1);
      records := front + [k];
    }
  }

  lemma RecordFor(s: Store, r: StepRecord, m: MemberRecord, sha256: string, sorted: seq<Membership>, i: nat) returns (k: MemberRecord)
    requires Healthy(s) && UniqueIds(s) && r in s.steps && r.stepIndex !in s.facts && AllTerminal(s, r)
    requires m in s.members && Matches(m, r) && m.id in s.terminal && HasMember(RebuiltMembers(s, r), m.id)
    requires multiset(sorted) == multiset(Reported(s, r, m.id, s.terminal[m.id].outputJson, sha256)) && i < |sorted|
    ensures k in s.members && Matches(k, r) && IsItemOf(s, sorted[i], k)
  {
    var items := Reported(s, r, m.id, s.terminal[m.id].outputJson, sha256);
    assert sorted[i] in multiset(items);
    var j :| 0 <= j < |items| && items[j] == sorted[i];
    k := ReportedItem(s, r, m, sha256, j);
  }

  /** What is recorded for a step of ordinary items when its last attempt is reported and accepted: the
      canonical text, digest and length of its one value, or of the list of all its values by
      increasing index; without the text if every other step is done. */
  lemma RecordedText(cfg: StepOutput.Config, digest: string -> string, s: Store, r: StepRecord, m: MemberRecord)
      returns (records: seq<MemberRecord>, text: string)
    requires Healthy(s) && DistinctStepRecords(s) && UniqueIds(s) && OutputsKept(s) && r in s.steps && r.stepIndex !in s.facts && AllTerminal(s, r)
    requires m in s.members && Matches(m, r) && m.id in s.terminal
    requires
      HasMember(RebuiltMembers(s, r), m.id) ==>
        StepOutput.AllOrdinary(cfg, Reported(s, r, m.id, s.terminal[m.id].outputJson, s.terminal[m.id].outputSha256))
    requires RecordOutput(s, m.id, s.terminal[m.id].outputJson, s.terminal[m.id].outputSha256, Aggregation(cfg, digest)).1
    ensures ByIndex(s, r, records) && (forall i :: 0 <= i < |records| ==> records[i].id in s.terminal)
    ensures StrictJson.StrictDecode(text) ==
            Some(if |records| == 1 then AttemptValue(s, records[0].id)
                 else List(seq(|records|, i requires 0 <= i < |records| => AttemptValue(s, records[i].id))))
    ensures
      var s' := RecordOutput(s, m.id, s.terminal[m.id].outputJson, s.terminal[m.id].outputSha256, Aggregation(cfg, digest)).0;
      s' == s.(facts := s.facts[r.stepIndex :=
        if OthersDone(s, r) then Output("", digest(text), |text|, true) else Output(text, digest(text), |text|, false)])
  {
    var json, sha256 := s.terminal[m.id].outputJson, s.terminal[m.id].outputSha256;
    OutputExact(s, r, m, json, sha256, Aggregation(cfg, digest));
    NoRecordedFailure(s, r, m);
    ReportedReady(s, r, m.id, json, sha256);
    var step := ReportedStep(s, r, m.id, json, sha256);
    text := StepOutput.Aggregate(cfg, step.workItems).value;
    records := AggregateDecodes(cfg, s, r, m, sha256, text);
    NotEmpty(text);
  }

  lemma NotEmpty(text: string)
    requires StrictJson.StrictDecode(text).Some?
    ensures text != ""
  {
  }

  lemma AggregateDecodes(cfg: StepOutput.Config, s: Store, r: StepRecord, m: MemberRecord, sha256: string, text: string)
      returns (records: seq<MemberRecord>)
    requires Healthy(s) && UniqueIds(s) && r in s.steps && r.stepIndex !in s.facts && AllTerminal(s, r)
    requires m in s.members && Matches(m, r) && m.id in s.terminal && HasMember(RebuiltMembers(s, r), m.id)
    requires StepOutput.AllOrdinary(cfg, Reported(s, r, m.id, s.terminal[m.id].outputJson, sha256))
    requires StepOutput.Aggregate(cfg, Reported(s, r, m.id, s.terminal[m.id].outputJson, sha256)) == Some(text)
    ensures ByIndex(s, r, records) && (forall i :: 0 <= i < |records| ==> records[i].id in s.terminal)
    ensures StrictJson.StrictDecode(text) ==
            Some(if |records| == 1 then AttemptValue(s, records[0].id)
                 else List(seq(|records|, i requires 0 <= i < |records| => AttemptValue(s, records[i].id))))
  {
    var sorted := StepOutput.OrdinaryAggregate(cfg, Reported(s, r, m.id, s.terminal[m.id].outputJson, sha256));
    records := SortedRecords(s, r, m, sha256, sorted);
    AttemptValues(cfg, s, sorted, records);
  }

  lemma AttemptValues(cfg: StepOutput.Config, s: Store, sorted: seq<Membership>, records: seq<MemberRecord>)
    requires StepOutput.AllReady(cfg, sorted) && |records| == |sorted| && forall i :: 0 <= i < |sorted| ==> IsItemOf(s, sorted[i], records[i])
    ensures forall i :: 0 <= i < |records| ==> records[i].id in s.terminal
    ensures StepOutput.Values(cfg, sorted) == seq(|records|, i requires 0 <= i < |records| => AttemptValue(s, records[i].id))
    ensures |sorted| == 1 ==> StepOutput.ItemValue(sorted[0]) == AttemptValue(s, records[0].id)
  {
    forall i | 0 <= i < |records|
      ensures records[i].id in s.terminal && StepOutput.ItemValue(sorted[i]) == AttemptValue(s, records[i].id)
    {
      assert IsItemOf(s, sorted[i], records[i]);
    }
  }
}
