/** The process list of the default display mode: running services first,
    then running applications whose id is not already shown, within a budget
    of 23 rows. */
module ProcList {

  /** One row, already split at ";" into name, numeric id and detail text. */
  datatype ProcEntry = ProcEntry(name: string, id: int, detail: string)

  const RowBudget: int := 23

  /** How many services are drawn: the budget left after counting every
      application, never below zero, and no more than there are services. */
  function ServiceCount(services: nat, apps: nat): (k: nat)
    ensures k <= services
    ensures k + apps <= RowBudget || k == 0
    ensures apps < RowBudget && services >= RowBudget - apps ==> k == RowBudget - apps
    ensures services <= RowBudget - apps ==> k == services
  {
    if RowBudget - apps <= 0 then 0
    else if RowBudget - apps < services then RowBudget - apps
    else services
  }

  function AppCount(apps: nat): (m: nat)
    ensures m <= apps && m <= RowBudget
    ensures m == apps || m == RowBudget
  {
    if apps < RowBudget then apps else RowBudget
  }

  function Ids(rows: seq<ProcEntry>): (ids: seq<int>)
    ensures |ids| == |rows|
    ensures forall i :: 0 <= i < |rows| ==> ids[i] == rows[i].id
  {
    if |rows| == 0 then [] else Ids(rows[..|rows| - 1]) + [rows[|rows| - 1].id]
  }

  /** The rows of `xs` whose id is not in `ids`, in their original order;
      rows are compared by id only, so duplicates among `xs` survive. */
  function Unlisted(xs: seq<ProcEntry>, ids: seq<int>): (r: seq<ProcEntry>)
    ensures |r| <= |xs|
  {
    if |xs| == 0 then []
    else
      var init := xs[..|xs| - 1];
      var last := xs[|xs| - 1];
      assert xs == init + [last];
      Unlisted(init, ids) + (if last.id in ids then [] else [last])
  }

  lemma UnlistedSnoc(xs: seq<ProcEntry>, x: ProcEntry, ids: seq<int>)
    ensures Unlisted(xs + [x], ids) == Unlisted(xs, ids) + (if x.id in ids then [] else [x])
  {
    assert (xs + [x])[..|xs|] == xs;
  }

  /** A row is kept exactly when it is a row of `xs` whose id is not listed. */
  lemma {:induction false} UnlistedMember(xs: seq<ProcEntry>, ids: seq<int>, e: ProcEntry)
    ensures e in Unlisted(xs, ids) <==> e in xs && e.id !in ids
  {
    if |xs| > 0 {
      var init := xs[..|xs| - 1];
      assert xs == init + [xs[|xs| - 1]];
      UnlistedMember(init, ids, e);
    }
  }

  /** Each row `e` of `Unlisted(xs, ids)` occurs there as often as in `xs`
      when its id is not listed, and not at all otherwise. */
  lemma {:induction false} UnlistedMultiplicity(xs: seq<ProcEntry>, ids: seq<int>, e: ProcEntry)
    ensures multiset(Unlisted(xs, ids))[e] == if e.id in ids then 0 else multiset(xs)[e]
  {
    if |xs| > 0 {
      var init := xs[..|xs| - 1];
      var last := xs[|xs| - 1];
      assert xs == init + [last];
      UnlistedMultiplicity(init, ids, e);
    }
  }

  /** `r` can be obtained from `xs` by deleting rows, keeping the order of
      the rest (matched greedily from the end). */
  predicate IsSubsequence(r: seq<ProcEntry>, xs: seq<ProcEntry>) {
    if |r| == 0 then true
    else if |xs| == 0 then false
    else if r[|r| - 1] == xs[|xs| - 1] then IsSubsequence(r[..|r| - 1], xs[..|xs| - 1])
    else IsSubsequence(r, xs[..|xs| - 1])
  }

  /** `Unlisted` keeps the relative order of the rows it keeps. */
  lemma {:induction false} UnlistedIsSubsequence(xs: seq<ProcEntry>, ids: seq<int>)
    ensures IsSubsequence(Unlisted(xs, ids), xs)
  {
    if |xs| > 0 {
      var init := xs[..|xs| - 1];
      var last := xs[|xs| - 1];
      UnlistedIsSubsequence(init, ids);
      var r0 := Unlisted(init, ids);
      if last.id !in ids {
        assert (r0 + [last])[..|r0|] == r0;
      } else {
        assert Unlisted(xs, ids) == r0 + [] == r0;
        SubsequenceExtend(r0, init, last);
        assert init + [last] == xs;
      }
    }
  }

  /** Appending a row to `xs` keeps every subsequence of `xs` one. */
  lemma {:induction false} SubsequenceExtend(r: seq<ProcEntry>, xs: seq<ProcEntry>, x: ProcEntry)
    requires IsSubsequence(r, xs)
    ensures IsSubsequence(r, xs + [x])
    decreases |xs|, 1
  {
    var ys := xs + [x];
    assert ys[..|ys| - 1] == xs;
    if |r| > 0 && r[|r| - 1] == x {
      SubsequenceDropLast(r, xs);
    }
  }

  lemma {:induction false} SubsequenceDropLast(r: seq<ProcEntry>, xs: seq<ProcEntry>)
    requires |r| > 0 && IsSubsequence(r, xs)
    ensures IsSubsequence(r[..|r| - 1], xs)
    decreases |xs|, 0
  {
    var init := r[..|r| - 1];
    if |xs| > 0 {
      var xinit := xs[..|xs| - 1];
      if r[|r| - 1] == xs[|xs| - 1] {
        SubsequenceExtend(init, xinit, xs[|xs| - 1]);
        assert xinit + [xs[|xs| - 1]] == xs;
      } else {
        SubsequenceDropLast(r, xinit);
        SubsequenceExtend(init, xinit, xs[|xs| - 1]);
        assert xinit + [xs[|xs| - 1]] == xs;
      }
    }
  }

  /** The rows `drawProcText` draws, as a reference definition: the first
      `ServiceCount` services, then those of the first `AppCount` apps whose
      id is not the id of a drawn service. */
  function MergedRows(services: seq<ProcEntry>, apps: seq<ProcEntry>): seq<ProcEntry> {
    var drawn := services[..ServiceCount(|services|, |apps|)];
    drawn + Unlisted(apps[..AppCount(|apps|)], Ids(drawn))
  }

  /** The first loop of `drawProcText`: draws services while fewer than
      `23 - |apps|` rows are drawn, collecting their ids. */
  method DrawServiceRows(services: seq<ProcEntry>, appCount: nat) returns (rows: seq<ProcEntry>, list: seq<int>)
    ensures rows == services[..ServiceCount(|services|, appCount)]
    ensures list == Ids(rows)
  {
    list := [];
    rows := [];
    var i := 0;
    while i < RowBudget - appCount && i < |services|
      invariant 0 <= i <= ServiceCount(|services|, appCount)
      invariant rows == services[..i]
      invariant list == Ids(rows)
    {
      assert (rows + [services[i]])[..i] == rows;
      list := list + [services[i].id];
      rows := rows + [services[i]];
      i := i + 1;
    }
  }

  /** The second loop of `drawProcText`: draws each of the first 23 apps
      whose id is not in `list`. */
  method DrawAppRows(apps: seq<ProcEntry>, list: seq<int>) returns (rows: seq<ProcEntry>)
    ensures rows == Unlisted(apps[..AppCount(|apps|)], list)
  {
    rows := [];
    var j := 0;
    while j < RowBudget && j < |apps|
      invariant 0 <= j <= AppCount(|apps|)
      invariant rows == Unlisted(apps[..j], list)
    {
      UnlistedSnoc(apps[..j], apps[j], list);
      assert apps[..j] + [apps[j]] == apps[..j + 1];
      if apps[j].id !in list {
        rows := rows + [apps[j]];
      }
      j := j + 1;
    }
  }

  /** `drawProcText`: the service rows, then the app rows, as drawn top to
      bottom. */
  method DrawProcRows(services: seq<ProcEntry>, apps: seq<ProcEntry>) returns (rows: seq<ProcEntry>)
    ensures rows == MergedRows(services, apps)
  {
    var serviceRows, list := DrawServiceRows(services, |apps|);
    var appRows := DrawAppRows(apps, list);
    rows := serviceRows + appRows;
  }

  /** The merged list never exceeds the 23-row budget. */
  lemma MergedRowsWithinBudget(services: seq<ProcEntry>, apps: seq<ProcEntry>)
    ensures |MergedRows(services, apps)| <= RowBudget
  {
  }

  /** Shape of the merge: the service rows are a prefix of `services` of
      length `min(max(0, 23 - |apps|), |services|)`; every later row is one
      of the first 23 apps, and no such row shares an id with a drawn
      service; apps are kept in their order. */
  lemma MergedRowsShape(services: seq<ProcEntry>, apps: seq<ProcEntry>)
    ensures var k := ServiceCount(|services|, |apps|);
      var rows := MergedRows(services, apps);
      var head := services[..k];
      var tail := rows[k..];
      && k <= |rows|
      && rows[..k] == head
      && (forall e :: e in tail ==> e in apps[..AppCount(|apps|)])
      && (forall e, s :: e in tail && s in head ==> e.id != s.id)
      && IsSubsequence(tail, apps[..AppCount(|apps|)])
  {
    var k := ServiceCount(|services|, |apps|);
    var head := services[..k];
    var firstApps := apps[..AppCount(|apps|)];
    var tail := Unlisted(firstApps, Ids(head));
    assert MergedRows(services, apps)[k..] == tail;
    forall e | e in tail ensures e in firstApps {
      UnlistedMember(firstApps, Ids(head), e);
    }
    forall e, s | e in tail && s in head ensures e.id != s.id {
      UnlistedMember(firstApps, Ids(head), e);
      var i :| 0 <= i < |head| && head[i] == s;
      assert Ids(head)[i] == s.id;
    }
    UnlistedIsSubsequence(firstApps, Ids(head));
  }

  /** An app appears among the drawn rows as often as in the first 23 apps,
      unless its id belongs to a drawn service, in which case not at all. */
  lemma MergedAppMultiplicity(services: seq<ProcEntry>, apps: seq<ProcEntry>, e: ProcEntry)
    ensures var k := ServiceCount(|services|, |apps|);
      var tail := MergedRows(services, apps)[k..];
      multiset(tail)[e] ==
        if e.id in Ids(services[..k]) then 0 else multiset(apps[..AppCount(|apps|)])[e]
  {
    var k := ServiceCount(|services|, |apps|);
    assert MergedRows(services, apps)[k..] == Unlisted(apps[..AppCount(|apps|)], Ids(services[..k]));
    UnlistedMultiplicity(apps[..AppCount(|apps|)], Ids(services[..k]), e);
  }

  /** Duplicates within one list are not removed: two apps with the same id
      are both drawn when no drawn service carries that id. */
  lemma DuplicateAppsBothDrawn()
    ensures var a := ProcEntry("mail", 7, "1M");
      MergedRows([], [a, a]) == [a, a]
  {
    var a := ProcEntry("mail", 7, "1M");
    var none: seq<ProcEntry> := [];
    assert none[..ServiceCount(0, 2)] == [] && Ids([]) == [];
    assert [a, a][..AppCount(2)] == [a, a];
    UnlistedSnoc([], a, []);
    UnlistedSnoc([a], a, []);
    assert [] + [a] == [a] && [a] + [a] == [a, a];
  }
}
