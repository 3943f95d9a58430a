/**
 The KPM module's extraction of measurements from indication messages of format 1
 and format 3: values are filed under the metric at their position.
 */
module Kpm {
  import opened Common

  type Ue = nat
  type Metrics = map<string, seq<nat>>

  /** One measurement report: metric names in order, and records of values in that order. */
  datatype Report = Report(names: seq<string>, records: seq<seq<nat>>)

  // ---------------------------------------------------------- specification

  /** The first `upTo` values of a record that stand under the given name, in order. */
  function Under(names: seq<string>, record: seq<nat>, upTo: nat, name: string): seq<nat>
    requires upTo <= |record| && upTo <= |names|
  {
    if upTo == 0 then []
    else Under(names, record, upTo - 1, name) + if names[upTo-1] == name then [record[upTo-1]] else []
  }

  /** No record is longer than the list of names. */
  predicate Fits(r: Report) {
    forall i :: 0 <= i < |r.records| ==> |r.records[i]| <= |r.names|
  }

  /** All values of the first `upTo` records under the given name, in order. */
  function Gathered(r: Report, upTo: nat, name: string): seq<nat>
    requires Fits(r) && upTo <= |r.records|
  {
    if upTo == 0 then []
    else Gathered(r, upTo - 1, name) + Under(r.names, r.records[upTo-1], |r.records[upTo-1]|, name)
  }

  predicate Distinct<T(==)>(s: seq<T>) {
    forall i, j :: 0 <= i < j < |s| ==> s[i] != s[j]
  }

  /** Column k of the records, where they are long enough. */
  function Column(records: seq<seq<nat>>, upTo: nat, k: nat): seq<nat>
    requires upTo <= |records|
  {
    if upTo == 0 then []
    else Column(records, upTo - 1, k) + if k < |records[upTo-1]| then [records[upTo-1][k]] else []
  }

  /** The name stands at position k and nowhere else. */
  ghost predicate OnlyAt(names: seq<string>, name: string, k: nat) {
    k < |names| && forall i :: 0 <= i < |names| ==> (names[i] == name <==> i == k)
  }

  lemma {:induction false} UnderDistinct(names: seq<string>, record: seq<nat>, upTo: nat, name: string, k: nat)
    requires OnlyAt(names, name, k) && upTo <= |record| <= |names|
    ensures Under(names, record, upTo, name) == if k < upTo then [record[k]] else []
  {
    if upTo > 0 { UnderDistinct(names, record, upTo - 1, name, k); }
  }

  /** A name that stands once gets exactly its column. */
  lemma {:induction false} GatheredIsColumn(r: Report, upTo: nat, name: string, k: nat)
    requires Fits(r) && OnlyAt(r.names, name, k) && upTo <= |r.records|
    ensures Gathered(r, upTo, name) == Column(r.records, upTo, k)
  {
    if upTo > 0 {
      var record := r.records[upTo-1];
      GatheredIsColumn(r, upTo - 1, name, k);
      UnderDistinct(r.names, record, |record|, name, k);
      assert Gathered(r, upTo, name) == Gathered(r, upTo - 1, name) + Under(r.names, record, |record|, name);
    }
  }

  /** The metrics of a report. */
  ghost predicate IsExtract(r: Report, data: Metrics) {
    && Fits(r)
    && (forall n :: n in data <==> n in r.names)
    && forall n :: n in r.names ==> data[n] == Gathered(r, |r.records|, n)
  }

  /** With distinct names, an extract is the table of columns. */
  lemma ExtractIsColumns(r: Report, data: Metrics, k: nat)
    requires IsExtract(r, data) && Distinct(r.names) && k < |r.names|
    ensures r.names[k] in data && data[r.names[k]] == Column(r.records, |r.records|, k)
  {
    GatheredIsColumn(r, |r.records|, r.names[k], k);
  }

  // -------------------------------------------------------------- extraction

  /** The first loop: an empty list for every name. */
  method EmptyTable(names: seq<string>) returns (found: Metrics)
    ensures forall n :: n in found <==> n in names
    ensures forall n :: n in found ==> found[n] == []
  {
    found := map[];
    for i := 0 to |names|
      invariant forall n :: n in found <==> n in names[..i]
      invariant forall n :: n in found ==> found[n] == []
    {
      found := found[names[i] := []];
    }
    assert names[..|names|] == names;
  }

  /** Format 1. A record longer than the list of names is an IndexError. */
  method ExtractFormat1(r: Report) returns (data: Option<Metrics>)
    ensures data.Some? <==> Fits(r)
    ensures data.Some? ==> IsExtract(r, data.value)
  {
    var found := EmptyTable(r.names);
    for j := 0 to |r.records|
      invariant forall i :: 0 <= i < j ==> |r.records[i]| <= |r.names|
      invariant forall n :: n in found <==> n in r.names
      invariant Filed(r, j, found)
    {
      var more := FileRecord(r, j, found);
      if more.None? {
        return None;
      }
      found := more.value;
    }
    assert Prefix(r, |r.records|) == r;
    return Some(found);
  }

  function Prefix(r: Report, j: nat): Report
    requires j <= |r.records|
  {
    r.(records := r.records[..j])
  }

  ghost predicate Filed(r: Report, j: nat, found: Metrics)
    requires j <= |r.records| && forall i :: 0 <= i < j ==> |r.records[i]| <= |r.names|
  {
    forall n :: n in found ==> found[n] == Gathered(Prefix(r, j), j, n)
  }

  lemma {:induction false} GatheredPrefix(r: Report, j: nat, upTo: nat, name: string)
    requires upTo <= j < |r.records| && Fits(Prefix(r, j)) && Fits(Prefix(r, j + 1))
    ensures Gathered(Prefix(r, j), upTo, name) == Gathered(Prefix(r, j + 1), upTo, name)
  {
    if upTo > 0 { GatheredPrefix(r, j, upTo - 1, name); }
  }

  lemma FiledNext(r: Report, j: nat, found: Metrics, now: Metrics)
    requires j < |r.records| && (forall i :: 0 <= i < j + 1 ==> |r.records[i]| <= |r.names|)
    requires Filed(r, j, found) && forall n :: n in now ==> n in found
    requires forall n :: n in now ==> now[n] == found[n] + Under(r.names, r.records[j], |r.records[j]|, n)
    ensures Filed(r, j + 1, now)
  {
    forall n | n in now ensures now[n] == Gathered(Prefix(r, j + 1), j + 1, n) {
      GatheredPrefix(r, j, j, n);
      assert found[n] == Gathered(Prefix(r, j), j, n);
    }
  }

  /** The inner loop: record j, value by value. */
  method FileRecord(r: Report, j: nat, found: Metrics) returns (more: Option<Metrics>)
    requires j < |r.records| && (forall i :: 0 <= i < j ==> |r.records[i]| <= |r.names|)
    requires forall n :: n in found <==> n in r.names
    requires Filed(r, j, found)
    ensures more.Some? <==> |r.records[j]| <= |r.names|
    ensures more.Some? ==> (forall n :: n in more.value <==> n in r.names) && Filed(r, j + 1, more.value)
  {
    var record, now, idx := r.records[j], found, 0;
    while idx < |record|
      invariant 0 <= idx <= |record| && idx <= |r.names|
      invariant forall n :: n in now <==> n in r.names
      invariant forall n :: n in now ==> now[n] == found[n] + Under(r.names, record, idx, n)
    {
      if idx >= |r.names| {
        return None;
      }
      var name := r.names[idx];
      now := now[name := now[name] + [record[idx]]];
      idx := idx + 1;
    }
    FiledNext(r, j, found, now);
    return Some(now);
  }

  /** Some of the first k reports is about this UE. */
  ghost predicate Reports(reports: seq<(Ue, Report)>, k: nat, u: Ue)
    requires k <= |reports|
  {
    exists i :: 0 <= i < k && reports[i].0 == u
  }

  /** Report i is the last of its UE among the first k. */
  ghost predicate LastUpTo(reports: seq<(Ue, Report)>, i: nat, k: nat)
    requires i < k <= |reports|
  {
    forall j :: i < j < k ==> reports[j].0 != reports[i].0
  }

  ghost predicate Extracted(reports: seq<(Ue, Report)>, k: nat, found: map<Ue, Metrics>, i: nat)
    requires i < k <= |reports|
  {
    LastUpTo(reports, i, k) ==> reports[i].0 in found && IsExtract(reports[i].1, found[reports[i].0])
  }

  lemma ExtractNext(reports: seq<(Ue, Report)>, k: nat, found: map<Ue, Metrics>, one: Metrics, i: nat)
    requires i <= k < |reports| && IsExtract(reports[k].1, one) && (i < k ==> Extracted(reports, k, found, i))
    ensures Extracted(reports, k + 1, found[reports[k].0 := one], i)
  {
    if i < k && LastUpTo(reports, i, k + 1) {
      assert reports[k].0 != reports[i].0;
      assert LastUpTo(reports, i, k);
    }
  }

  /** Format 3: one report per UE; a later report of the same UE replaces an earlier one. */
  method ExtractFormat3(reports: seq<(Ue, Report)>) returns (data: Option<map<Ue, Metrics>>)
    ensures data.Some? <==> forall i :: 0 <= i < |reports| ==> Fits(reports[i].1)
    ensures data.Some? ==> forall u :: u in data.value <==> Reports(reports, |reports|, u)
    ensures data.Some? ==>
      forall i :: 0 <= i < |reports| && Last(reports, i) ==>
        reports[i].0 in data.value && IsExtract(reports[i].1, data.value[reports[i].0])
  {
    var found: map<Ue, Metrics> := map[];
    for k := 0 to |reports|
      invariant forall i :: 0 <= i < k ==> Fits(reports[i].1)
      invariant forall u :: u in found <==> Reports(reports, k, u)
      invariant forall i :: 0 <= i < k ==> Extracted(reports, k, found, i)
    {
      var one := ExtractFormat1(reports[k].1);
      if one.None? {
        return None;
      }
      var more := found[reports[k].0 := one.value];
      ghost var n := k + 1;
      forall i | 0 <= i < n ensures Extracted(reports, n, more, i) {
        ExtractNext(reports, k, found, one.value, i);
      }
      forall u ensures u in more <==> Reports(reports, n, u) {
        assert u in found <==> Reports(reports, k, u);
        assert u == reports[k].0 ==> Reports(reports, n, u);
      }
      found := more;
    }
    forall i | 0 <= i < |reports| && Last(reports, i)
      ensures reports[i].0 in found && IsExtract(reports[i].1, found[reports[i].0])
    {
      assert Extracted(reports, |reports|, found, i);
    }
    return Some(found);
  }

  /** The last report of its UE. With distinct UE ids, every report is. */
  ghost predicate Last(reports: seq<(Ue, Report)>, i: nat)
    requires i < |reports|
  {
    LastUpTo(reports, i, |reports|)
  }
}
