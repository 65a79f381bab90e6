/** Entries of a source bundle archive: which lists of entries are accepted for extraction, and
    where they are extracted to. */
module SourceBundle {
  import opened Wrappers
  import opened Strings

  // ---------------------------------------------------------------------------------------
  // Paths

  /** The text between slashes. */
  function Parts(s: string): (r: seq<string>)
    ensures r != []
  {
    if s == "" then [""]
    else if s[0] == '/' then [""] + Parts(s[1..])
    else
      var rest := Parts(s[1..]);
      [[s[0]] + rest[0]] + rest[1..]
  }

  predicate IsName(part: string) {
    part != "" && part != "."
  }

  function Names(parts: seq<string>): seq<string> {
    if parts == [] then [] else (if IsName(parts[0]) then [parts[0]] else []) + Names(parts[1..])
  }

  /** The names on a path; joined by slashes they are its clean form when it has no parent
      traversal. */
  function Components(s: string): seq<string> {
    Names(Parts(s))
  }

  function Joined(names: seq<string>): string {
    if names == [] then "" else if |names| == 1 then names[0] else names[0] + "/" + Joined(names[1..])
  }

  predicate PlainName(name: string) {
    IsName(name) && '/' !in name
  }

  predicate PlainNames(names: seq<string>) {
    forall i :: 0 <= i < |names| ==> PlainName(names[i])
  }

  lemma {:induction false} PartsOfConcat(a: string, b: string)
    ensures Parts(a + "/" + b) == Parts(a) + Parts(b)
  {
    var s := a + "/" + b;
    if a == "" {
      assert s[1..] == b;
    } else {
      assert s[1..] == a[1..] + "/" + b;
      PartsOfConcat(a[1..], b);
    }
  }

  lemma {:induction false} PartsOfName(s: string)
    requires '/' !in s
    ensures Parts(s) == [s]
  {
    if s != "" {
      PartsOfName(s[1..]);
      assert s == [s[0]] + s[1..];
    }
  }

  lemma {:induction false} PartsHaveNoSlash(s: string)
    ensures forall i :: 0 <= i < |Parts(s)| ==> '/' !in Parts(s)[i]
  {
    if s != "" {
      PartsHaveNoSlash(s[1..]);
    }
  }

  lemma {:induction false} NamesOfConcat(a: seq<string>, b: seq<string>)
    ensures Names(a + b) == Names(a) + Names(b)
  {
    if a == [] {
      assert a + b == b;
    } else {
      assert (a + b)[0] == a[0] && (a + b)[1..] == a[1..] + b;
      NamesOfConcat(a[1..], b);
    }
  }

  lemma {:induction false} NamesPlain(parts: seq<string>)
    requires forall i :: 0 <= i < |parts| ==> '/' !in parts[i]
    ensures PlainNames(Names(parts))
  {
    if parts != [] {
      NamesPlain(parts[1..]);
    }
  }

  lemma ComponentsPlain(s: string)
    ensures PlainNames(Components(s))
  {
    PartsHaveNoSlash(s);
    NamesPlain(Parts(s));
  }

  lemma ComponentsOfConcat(a: string, b: string)
    ensures Components(a + "/" + b) == Components(a) + Components(b)
  {
    PartsOfConcat(a, b);
    NamesOfConcat(Parts(a), Parts(b));
  }

  lemma ComponentsOfName(name: string)
    requires PlainName(name)
    ensures Components(name) == [name]
  {
    PartsOfName(name);
    assert Names([name][1..]) == [];
  }

  /** Joining names and taking the path apart again gives the names. */
  lemma {:induction false} ComponentsOfJoined(names: seq<string>)
    requires PlainNames(names)
    ensures Components(Joined(names)) == names
  {
    if names == [] {
      assert Parts("") == [""] && [""][1..] == [];
    } else {
      ComponentsOfName(names[0]);
      if |names| > 1 {
        ComponentsOfJoined(names[1..]);
        ComponentsOfConcat(names[0], Joined(names[1..]));
        assert names == [names[0]] + names[1..];
      } else {
        assert names == [names[0]];
      }
    }
  }

  lemma JoinedInjective(a: seq<string>, b: seq<string>)
    requires PlainNames(a) && PlainNames(b) && Joined(a) == Joined(b)
    ensures a == b
  {
    ComponentsOfJoined(a);
    ComponentsOfJoined(b);
  }

  lemma {:induction false} JoinedOfConcat(a: seq<string>, b: seq<string>)
    requires a != [] && b != []
    ensures Joined(a + b) == Joined(a) + "/" + Joined(b)
  {
    var all := a + b;
    if |a| == 1 {
      assert all[1..] == b;
    } else {
      assert all[0] == a[0] && all[1..] == a[1..] + b;
      JoinedOfConcat(a[1..], b);
    }
  }

  /** One path lies strictly above another. */
  predicate IsAncestor(a: seq<string>, b: seq<string>) {
    |a| < |b| && b[..|a|] == a
  }

  /** Comparing texts with a slash appended compares paths name by name. */
  lemma PrefixIsAncestor(a: seq<string>, b: seq<string>)
    requires PlainNames(a) && PlainNames(b) && a != []
    ensures StartsWith(Joined(b), Joined(a) + "/") <==> IsAncestor(a, b)
  {
    if StartsWith(Joined(b), Joined(a) + "/") {
      var rest := Joined(b)[|Joined(a)| + 1..];
      assert Joined(b) == Joined(a) + "/" + rest;
      ComponentsOfConcat(Joined(a), rest);
      ComponentsOfJoined(a);
      ComponentsOfJoined(b);
      assert b == a + Components(rest);
      assert |Joined(b)| > |Joined(a)|;
      assert b != a;
    }
    if IsAncestor(a, b) {
      var c := b[|a|..];
      assert b == a + c;
      JoinedOfConcat(a, c);
      assert Joined(b)[..|Joined(a)| + 1] == Joined(a) + "/";
    }
  }

  // ---------------------------------------------------------------------------------------
  // Entries

  datatype Entry = Entry(name: string, isDirectory: bool, isLink: bool)

  predicate HasDrive(s: string) {
    |s| >= 2 && ('A' <= s[0] <= 'Z' || 'a' <= s[0] <= 'z') && s[1] == ':'
  }

  predicate ValidName(name: string) {
    && !IsBlank(name) && '\\' !in name && !HasDrive(name)
    && !StartsWith(name, "/")
    && ".." !in Parts(name)
    && Components(name) != []
    && !HasDrive(Joined(Components(name)))
  }

  function Path(e: Entry): seq<string> {
    Components(e.name)
  }

  predicate IsFile(e: Entry) {
    !e.isDirectory && !EndsWith(e.name, "/")
  }

  predicate ValidEntry(e: Entry) {
    ValidName(e.name) && !e.isLink
  }

  /** Two entries can be extracted side by side. */
  predicate Fit(a: Entry, b: Entry) {
    && Path(a) != Path(b)
    && !(IsFile(a) && IsAncestor(Path(a), Path(b)))
    && !(IsFile(b) && IsAncestor(Path(b), Path(a)))
  }

  predicate AllFit(entries: seq<Entry>) {
    forall i, j :: 0 <= i < j < |entries| ==> Fit(entries[i], entries[j])
  }

  predicate AllValid(entries: seq<Entry>) {
    forall i :: 0 <= i < |entries| ==> ValidEntry(entries[i])
  }

  /** Every entry is valid by itself, all paths differ, and no file is a proper ancestor of an
      entry. */
  predicate Acceptable(entries: seq<Entry>) {
    AllValid(entries) && AllFit(entries)
  }

  datatype Planned = Planned(entry: Entry, normalized: string, isDir: bool)

  function PlanOf(e: Entry): Planned {
    Planned(e, Joined(Path(e)), !IsFile(e))
  }

  // ---------------------------------------------------------------------------------------
  // The loop over the entries

  /** What is taken so far: the normalized paths with whether they are files. */
  type Occupied = map<string, bool>

  ghost predicate Holds(occupied: Occupied, entries: seq<Entry>) {
    && (forall s :: s in occupied ==> exists e :: e in entries && s == Joined(Path(e)) && occupied[s] == IsFile(e))
    && (forall e :: e in entries ==> Joined(Path(e)) in occupied && occupied[Joined(Path(e))] == IsFile(e))
  }

  function ParentOf(names: seq<string>): seq<string> {
    if names == [] then [] else names[..|names| - 1]
  }

  /** Walks up from a path looking for a file. */
  method FileAbove(path: seq<string>, occupied: Occupied) returns (found: bool)
    requires path != []
    ensures found <==> FileOnPath(path, occupied)
  {
    var parent := ParentOf(path);
    while parent != []
      invariant |parent| < |path| && parent == path[..|parent|]
      invariant forall k :: |parent| < k < |path| ==> !(Joined(path[..k]) in occupied && occupied[Joined(path[..k])])
    {
      if Joined(parent) in occupied && occupied[Joined(parent)] {
        return true;
      }
      parent := ParentOf(parent);
    }
    assert path[..|path|] == path;
    found := Joined(path) in occupied && occupied[Joined(path)];
  }

  /** Looks for a path below this one. */
  method AnyBelow(normalized: string, occupied: Occupied) returns (found: bool)
    ensures found <==> PathBelow(normalized, occupied)
  {
    var todo := occupied.Keys;
    while todo != {}
      invariant todo <= occupied.Keys
      invariant forall s :: s in occupied && s !in todo ==> !StartsWith(s, normalized + "/")
    {
      var s :| s in todo;
      if StartsWith(s, normalized + "/") {
        return true;
      }
      todo := todo - {s};
    }
    found := false;
  }

  predicate FileOnPath(path: seq<string>, occupied: Occupied) {
    exists k :: 0 < k <= |path| && Joined(path[..k]) in occupied && occupied[Joined(path[..k])]
  }

  predicate PathBelow(normalized: string, occupied: Occupied) {
    exists s :: s in occupied && StartsWith(s, normalized + "/")
  }

  /** What the loop refuses an entry for, besides the entry itself. */
  predicate Collides(e: Entry, occupied: Occupied) {
    || FileOnPath(Path(e), occupied)
    || Joined(Path(e)) in occupied
    || (IsFile(e) && PathBelow(Joined(Path(e)), occupied))
  }

  lemma OccupiedBy(entries: seq<Entry>, occupied: Occupied, path: seq<string>)
    requires Holds(occupied, entries) && PlainNames(path)
    ensures Joined(path) in occupied <==> exists f :: f in entries && Path(f) == path
    ensures Joined(path) in occupied ==> exists f :: f in entries && Path(f) == path && occupied[Joined(path)] == IsFile(f)
  {
    if Joined(path) in occupied {
      var f :| f in entries && Joined(path) == Joined(Path(f)) && occupied[Joined(path)] == IsFile(f);
      ComponentsPlain(f.name);
      JoinedInjective(path, Path(f));
    }
  }

  lemma FileOnPathExact(entries: seq<Entry>, occupied: Occupied, path: seq<string>)
    requires Holds(occupied, entries) && PlainNames(path) && FileOnPath(path, occupied)
    ensures exists f :: f in entries && IsFile(f) && (Path(f) == path || IsAncestor(Path(f), path))
  {
    var k :| 0 < k <= |path| && Joined(path[..k]) in occupied && occupied[Joined(path[..k])];
    OccupiedBy(entries, occupied, path[..k]);
    var f :| f in entries && Path(f) == path[..k] && occupied[Joined(path[..k])] == IsFile(f);
    if k == |path| {
      assert path[..k] == path;
    }
  }

  lemma PathBelowExact(entries: seq<Entry>, occupied: Occupied, path: seq<string>)
    requires Holds(occupied, entries) && PlainNames(path) && path != []
    ensures PathBelow(Joined(path), occupied) <==> exists f :: f in entries && IsAncestor(path, Path(f))
  {
    if PathBelow(Joined(path), occupied) {
      var s :| s in occupied && StartsWith(s, Joined(path) + "/");
      var f :| f in entries && s == Joined(Path(f)) && occupied[s] == IsFile(f);
      ComponentsPlain(f.name);
      PrefixIsAncestor(path, Path(f));
    }
    if f :| f in entries && IsAncestor(path, Path(f)) {
      ComponentsPlain(f.name);
      PrefixIsAncestor(path, Path(f));
      assert Joined(Path(f)) in occupied;
    }
  }

  /** The loop refuses an entry exactly when it does not fit an earlier one. */
  lemma CollidesExact(entries: seq<Entry>, occupied: Occupied, e: Entry)
    requires Holds(occupied, entries) && Path(e) != [] && (forall f :: f in entries ==> Path(f) != [])
    ensures Collides(e, occupied) <==> exists f :: f in entries && !Fit(f, e)
  {
    var path := Path(e);
    ComponentsPlain(e.name);
    OccupiedBy(entries, occupied, path);
    PathBelowExact(entries, occupied, path);
    if Collides(e, occupied) {
      CollisionFound(entries, occupied, e);
    }
    if f :| f in entries && !Fit(f, e) {
      if IsFile(f) && IsAncestor(Path(f), path) {
        assert path[..|Path(f)|] == Path(f);
        assert FileOnPath(path, occupied);
      }
    }
  }

  lemma CollisionFound(entries: seq<Entry>, occupied: Occupied, e: Entry)
    requires Holds(occupied, entries) && Path(e) != [] && PlainNames(Path(e)) && Collides(e, occupied)
    ensures exists f :: f in entries && !Fit(f, e)
  {
    var path := Path(e);
    OccupiedBy(entries, occupied, path);
    PathBelowExact(entries, occupied, path);
    if FileOnPath(path, occupied) {
      FileOnPathExact(entries, occupied, path);
      var f :| f in entries && IsFile(f) && (Path(f) == path || IsAncestor(Path(f), path));
      assert !Fit(f, e);
    } else if Joined(path) in occupied {
      var f :| f in entries && Path(f) == path;
      assert !Fit(f, e);
    } else {
      var f :| f in entries && IsAncestor(path, Path(f));
      assert !Fit(f, e);
    }
  }

  lemma HoldsOneMore(entries: seq<Entry>, occupied: Occupied, e: Entry)
    requires Holds(occupied, entries) && Joined(Path(e)) !in occupied
    ensures Holds(occupied[Joined(Path(e)) := IsFile(e)], entries + [e])
  {
    var text, all := Joined(Path(e)), entries + [e];
    var occupied' := occupied[text := IsFile(e)];
    forall s | s in occupied'
      ensures exists f :: f in all && s == Joined(Path(f)) && occupied'[s] == IsFile(f)
    {
      if s == text {
        assert e in all;
      } else {
        var f :| f in entries && s == Joined(Path(f)) && occupied[s] == IsFile(f);
        assert f in all;
      }
    }
    forall f | f in all
      ensures Joined(Path(f)) in occupied' && occupied'[Joined(Path(f))] == IsFile(f)
    {
      if f in entries {
        assert Joined(Path(f)) in occupied && occupied[Joined(Path(f))] == IsFile(f);
      }
    }
  }

  lemma FitOneMore(entries: seq<Entry>, e: Entry)
    requires AllFit(entries)
    ensures AllFit(entries + [e]) <==> forall f :: f in entries ==> Fit(f, e)
  {
    var all := entries + [e];
    if AllFit(all) {
      forall f | f in entries
        ensures Fit(f, e)
      {
        var i :| 0 <= i < |entries| && entries[i] == f;
        assert Fit(all[i], all[|entries|]);
      }
    }
    if forall f :: f in entries ==> Fit(f, e) {
      forall i, j | 0 <= i < j < |all|
        ensures Fit(all[i], all[j])
      {
        if j < |entries| {
          assert Fit(entries[i], entries[j]);
        } else {
          assert entries[i] in entries;
        }
      }
    }
  }

  /** What is taken after one more entry, if it is accepted. */
  function Placed(occupied: Occupied, e: Entry): Option<Occupied> {
    if !ValidName(e.name) || Collides(e, occupied) || e.isLink then None else Some(occupied[Joined(Path(e)) := IsFile(e)])
  }

  function Scan(entries: seq<Entry>): Option<Occupied> {
    if entries == [] then Some(map[])
    else
      match Scan(entries[..|entries| - 1])
      case None => None
      case Some(occupied) => Placed(occupied, entries[|entries| - 1])
  }

  lemma ScanNext(entries: seq<Entry>, i: nat)
    requires i < |entries| && Scan(entries[..i]).Some?
    ensures Scan(entries[..i + 1]) == Placed(Scan(entries[..i]).value, entries[i])
  {
    assert entries[..i + 1][..i] == entries[..i];
  }

  lemma {:induction false} ScanFails(entries: seq<Entry>, i: nat)
    requires i <= |entries| && Scan(entries[..i]).None?
    ensures Scan(entries).None?
    decreases |entries|
  {
    if i < |entries| {
      assert entries[..|entries| - 1][..i] == entries[..i];
      ScanFails(entries[..|entries| - 1], i);
    } else {
      assert entries[..i] == entries;
    }
  }

  lemma {:induction false} ScanExact(entries: seq<Entry>)
    ensures Scan(entries).Some? <==> Acceptable(entries)
    ensures Scan(entries).Some? ==> Holds(Scan(entries).value, entries)
  {
    if entries != [] {
      var front, e := entries[..|entries| - 1], entries[|entries| - 1];
      assert entries == front + [e];
      ScanExact(front);
      FrontAcceptable(front, e);
      if Scan(front).Some? && ValidEntry(e) {
        CollidesExact(front, Scan(front).value, e);
        if !Collides(e, Scan(front).value) {
          HoldsOneMore(front, Scan(front).value, e);
        }
      }
    }
  }

  lemma FrontAcceptable(front: seq<Entry>, e: Entry)
    ensures Acceptable(front + [e]) <==> Acceptable(front) && ValidEntry(e) && forall f :: f in front ==> Fit(f, e)
  {
    var all := front + [e];
    assert all[|front|] == e && forall k :: 0 <= k < |front| ==> all[k] == front[k];
    if AllFit(front) {
      FitOneMore(front, e);
    }
    if AllValid(all) {
      assert ValidEntry(all[|front|]);
    }
  }

  /** Whether the loop refuses an entry with a valid name. */
  method Check(e: Entry, occupied: Occupied) returns (collides: bool)
    requires Path(e) != []
    ensures collides <==> Collides(e, occupied)
  {
    var above := FileAbove(Path(e), occupied);
    if above || Joined(Path(e)) in occupied {
      return true;
    }
    collides := false;
    if IsFile(e) {
      collides := AnyBelow(Joined(Path(e)), occupied);
    }
  }

  method PlaceEntry(e: Entry, occupied: Occupied) returns (r: Option<Occupied>)
    ensures r == Placed(occupied, e)
  {
    if !ValidName(e.name) {
      return None;
    }
    var collides := Check(e, occupied);
    r := if collides || e.isLink then None else Some(occupied[Joined(Path(e)) := IsFile(e)]);
  }

  function Plans(entries: seq<Entry>): seq<Planned> {
    seq(|entries|, i requires 0 <= i < |entries| => PlanOf(entries[i]))
  }

  lemma PlansNext(entries: seq<Entry>, i: nat)
    requires i < |entries|
    ensures Plans(entries[..i + 1]) == Plans(entries[..i]) + [PlanOf(entries[i])]
  {
  }

  lemma ScanStops(entries: seq<Entry>, i: nat)
    requires i <= |entries| && Scan(entries[..i]).None?
    ensures !Acceptable(entries)
  {
    ScanFails(entries, i);
    ScanExact(entries);
  }

  /** A list of entries is accepted exactly when it is acceptable, and then planned in order. */
  method ValidateEntries(entries: seq<Entry>) returns (plan: Option<seq<Planned>>)
    ensures plan.Some? <==> Acceptable(entries)
    ensures plan.Some? ==> |plan.value| == |entries| && forall i :: 0 <= i < |entries| ==> plan.value[i] == PlanOf(entries[i])
  {
    var occupied: Occupied, planned: seq<Planned> := map[], [];
    for i := 0 to |entries|
      invariant Scan(entries[..i]) == Some(occupied)
      invariant planned == Plans(entries[..i])
    {
      ScanNext(entries, i);
      PlansNext(entries, i);
      var next := PlaceEntry(entries[i], occupied);
      if next.None? {
        ScanStops(entries, i + 1);
        return None;
      }
      occupied, planned := next.value, planned + [PlanOf(entries[i])];
    }
    assert entries[..|entries|] == entries;
    ScanExact(entries);
    plan := Some(planned);
  }

  // ---------------------------------------------------------------------------------------
  // Order of the entries, and where they go

  /** Acceptability in terms of which entries there are. */
  ghost predicate FitsByElements(entries: seq<Entry>) {
    && (forall e :: e in entries ==> ValidEntry(e) && multiset(entries)[e] == 1)
    && (forall e, f :: e in entries && f in entries && e != f ==> Fit(e, f))
  }

  lemma AcceptableFits(entries: seq<Entry>)
    requires Acceptable(entries)
    ensures FitsByElements(entries)
  {
    forall e | e in entries
      ensures ValidEntry(e) && multiset(entries)[e] == 1
    {
      OnceIfFit(entries, e);
    }
    forall e, f | e in entries && f in entries && e != f
      ensures Fit(e, f)
    {
      TwoFit(entries, e, f);
    }
  }

  lemma TwoFit(entries: seq<Entry>, e: Entry, f: Entry)
    requires AllFit(entries) && e in entries && f in entries && e != f
    ensures Fit(e, f)
  {
    var i :| 0 <= i < |entries| && entries[i] == e;
    var j :| 0 <= j < |entries| && entries[j] == f;
    if i < j {
      assert Fit(entries[i], entries[j]);
    } else {
      assert Fit(entries[j], entries[i]);
      FitEitherWay(f, e);
    }
  }

  lemma FitEitherWay(e: Entry, f: Entry)
    requires Fit(e, f)
    ensures Fit(f, e)
  {
  }

  lemma FittingAcceptable(entries: seq<Entry>)
    requires FitsByElements(entries)
    ensures Acceptable(entries)
  {
    forall i, j | 0 <= i < j < |entries|
      ensures Fit(entries[i], entries[j])
    {
      if entries[i] == entries[j] {
        RepeatedCount(entries, i, j);
      }
      assert entries[i] in entries && entries[j] in entries;
    }
  }

  lemma RepeatedCount(entries: seq<Entry>, i: nat, j: nat)
    requires i < j < |entries| && entries[i] == entries[j]
    ensures multiset(entries)[entries[i]] >= 2
  {
    var a, b := entries[..j], entries[j..];
    assert entries == a + b;
    assert a[i] in multiset(a) && b[0] in multiset(b);
    assert multiset(entries) == multiset(a) + multiset(b);
  }

  lemma CountAround(a: seq<Entry>, e: Entry, b: seq<Entry>)
    requires e !in a && e !in b
    ensures multiset(a + [e] + b)[e] == 1
  {
    assert e !in multiset(a) && e !in multiset(b);
  }

  lemma OnceIfFit(entries: seq<Entry>, e: Entry)
    requires AllFit(entries) && e in entries
    ensures multiset(entries)[e] == 1
  {
    var i :| 0 <= i < |entries| && entries[i] == e;
    var a, b := entries[..i], entries[i + 1..];
    assert entries == a + [e] + b;
    forall k | 0 <= k < |a|
      ensures a[k] != e
    {
      SelfUnfit(entries, k, i);
    }
    forall k | 0 <= k < |b|
      ensures b[k] != e
    {
      SelfUnfit(entries, i, i + 1 + k);
    }
    CountAround(a, e, b);
  }

  lemma SelfUnfit(entries: seq<Entry>, i: nat, j: nat)
    requires AllFit(entries) && i < j < |entries|
    ensures entries[i] != entries[j]
  {
    assert Fit(entries[i], entries[j]);
  }

  /** Whether a list is accepted does not depend on its order. */
  lemma OrderIsIrrelevant(xs: seq<Entry>, ys: seq<Entry>)
    requires multiset(xs) == multiset(ys)
    ensures Acceptable(xs) <==> Acceptable(ys)
  {
    assert forall e :: e in xs <==> e in multiset(xs);
    assert forall e :: e in ys <==> e in multiset(ys);
    if Acceptable(xs) {
      AcceptableFits(xs);
      FittingAcceptable(ys);
    }
    if Acceptable(ys) {
      AcceptableFits(ys);
      FittingAcceptable(xs);
    }
  }

  lemma {:induction false} NamesAmong(parts: seq<string>, name: string)
    requires name in Names(parts)
    ensures name in parts
  {
    if !(IsName(parts[0]) && name == parts[0]) {
      NamesAmong(parts[1..], name);
    }
  }

  /** Every extraction target lies under the root: below it only proper names are added, none of
      them a step up. */
  lemma TargetUnderRoot(root: string, e: Entry)
    requires ValidEntry(e)
    ensures Components(root + "/" + PlanOf(e).normalized) == Components(root) + Path(e)
    ensures IsAncestor(Components(root), Components(root + "/" + PlanOf(e).normalized))
    ensures PlainNames(Path(e)) && ".." !in Path(e)
  {
    ComponentsPlain(e.name);
    ComponentsOfJoined(Path(e));
    ComponentsOfConcat(root, Joined(Path(e)));
    if ".." in Path(e) {
      NamesAmong(Parts(e.name), "..");
    }
  }

  /** Different accepted entries go to different targets. */
  lemma TargetsDiffer(root: string, entries: seq<Entry>, i: nat, j: nat)
    requires Acceptable(entries) && i < j < |entries|
    ensures root + "/" + PlanOf(entries[i]).normalized != root + "/" + PlanOf(entries[j]).normalized
  {
    var a, b := entries[i], entries[j];
    assert Fit(a, b);
    ComponentsPlain(a.name);
    ComponentsPlain(b.name);
    if root + "/" + Joined(Path(a)) == root + "/" + Joined(Path(b)) {
      var n := |root| + 1;
      assert Joined(Path(a)) == (root + "/" + Joined(Path(a)))[n..];
      assert Joined(Path(b)) == (root + "/" + Joined(Path(b)))[n..];
      JoinedInjective(Path(a), Path(b));
    }
  }

  // ---------------------------------------------------------------------------------------
  // Archives of a tree

  /** A name that no rule objects to. */
  predicate SafeName(name: string) {
    PlainName(name) && name != ".." && '\\' !in name && ':' !in name && !IsBlank(name)
  }

  predicate SafePath(path: seq<string>) {
    path != [] && forall i :: 0 <= i < |path| ==> SafeName(path[i])
  }

  /** The entry an archiver writes for a file or a directory. */
  function Listed(path: seq<string>, isDir: bool): Entry {
    Entry(Joined(path) + (if isDir then "/" else ""), isDir, false)
  }

  lemma {:induction false} JoinedSafe(path: seq<string>)
    requires SafePath(path)
    ensures Parts(Joined(path)) == path && '\\' !in Joined(path) && ':' !in Joined(path) && !IsBlank(Joined(path))
    ensures Joined(path) != "" && Joined(path)[0] != '/' && Joined(path)[|Joined(path)| - 1] != '/'
  {
    PartsOfName(path[0]);
    var k :| 0 <= k < |path[0]| && !IsSpaceChar(path[0][k]);
    assert Joined(path)[k] == path[0][k] && Joined(path)[0] == path[0][0];
    if |path| > 1 {
      JoinedSafe(path[1..]);
      PartsOfConcat(path[0], Joined(path[1..]));
      assert path == [path[0]] + path[1..];
      assert Joined(path)[|Joined(path)| - 1] == Joined(path[1..])[|Joined(path[1..])| - 1];
    } else {
      assert path == [path[0]];
      assert path[0][|path[0]| - 1] in path[0];
    }
  }

  lemma {:induction false} NamesAll(path: seq<string>)
    requires forall i :: 0 <= i < |path| ==> IsName(path[i])
    ensures Names(path) == path
  {
    if path != [] {
      NamesAll(path[1..]);
      assert path == [path[0]] + path[1..];
    }
  }

  lemma ListedParts(path: seq<string>, isDir: bool)
    requires SafePath(path)
    ensures Parts(Listed(path, isDir).name) == path + (if isDir then [""] else [])
    ensures Path(Listed(path, isDir)) == path
  {
    JoinedSafe(path);
    NamesAll(path);
    if isDir {
      PartsOfConcat(Joined(path), "");
      assert Joined(path) + "/" + "" == Joined(path) + "/";
      assert [""][1..] == [] && Names([""]) == Names([]) == [];
      NamesOfConcat(path, [""]);
    } else {
      assert Joined(path) + "" == Joined(path);
      assert path + [] == path;
    }
  }

  /** Such an entry is valid, is a file exactly when it is meant to be one, and is planned where it
      belongs. */
  lemma ListedValid(path: seq<string>, isDir: bool)
    requires SafePath(path)
    ensures ValidEntry(Listed(path, isDir)) && (IsFile(Listed(path, isDir)) <==> !isDir)
    ensures PlanOf(Listed(path, isDir)) == Planned(Listed(path, isDir), Joined(path), isDir)
  {
    JoinedSafe(path);
    ListedParts(path, isDir);
    PlainText(Joined(path), isDir);
    NoStepUp(path, isDir);
  }

  lemma NoStepUp(path: seq<string>, isDir: bool)
    requires SafePath(path)
    ensures ".." !in path + (if isDir then [""] else [])
  {
    assert forall i :: 0 <= i < |path| ==> path[i] != "..";
  }

  lemma PlainText(text: string, isDir: bool)
    requires text != "" && text[0] != '/' && text[|text| - 1] != '/' && !IsBlank(text) && ':' !in text && '\\' !in text
    ensures
      var name := text + (if isDir then "/" else "");
      && !IsBlank(name) && '\\' !in name && !HasDrive(name) && !HasDrive(text) && !StartsWith(name, "/") && (EndsWith(name, "/") <==> isDir)
  {
    var name := text + (if isDir then "/" else "");
    var k :| 0 <= k < |text| && !IsSpaceChar(text[k]);
    assert name[k] == text[k] && name[0] == text[0];
    assert ':' !in name;
    assert !isDir ==> name == text;
  }

  /** The listing of files and directories is accepted exactly when no path occurs twice and nothing lies
      below a file. */
  lemma TreeAcceptedIff(paths: seq<seq<string>>, dirs: seq<bool>)
    requires |paths| == |dirs| && forall i :: 0 <= i < |paths| ==> SafePath(paths[i])
    ensures
      Acceptable(seq(|paths|, i requires 0 <= i < |paths| => Listed(paths[i], dirs[i]))) <==>
      forall i, j :: 0 <= i < |paths| && 0 <= j < |paths| && i != j ==> paths[i] != paths[j] && (IsAncestor(paths[i], paths[j]) ==> dirs[i])
  {
    var entries := seq(|paths|, i requires 0 <= i < |paths| => Listed(paths[i], dirs[i]));
    forall i | 0 <= i < |paths|
      ensures ValidEntry(entries[i]) && Path(entries[i]) == paths[i] && (IsFile(entries[i]) <==> !dirs[i])
    {
      ListedParts(paths[i], dirs[i]);
      ListedValid(paths[i], dirs[i]);
    }
    if AllFit(entries) {
      forall i, j | 0 <= i < |paths| && 0 <= j < |paths| && i != j
        ensures paths[i] != paths[j] && (IsAncestor(paths[i], paths[j]) ==> dirs[i])
      {
        assert if i < j then Fit(entries[i], entries[j]) else Fit(entries[j], entries[i]);
      }
    }
  }
}
