/** Broker fills and their merge: what a list of fills comes to, whatever the order, the
    batching and the repetition in which its reports arrive. */
module FillMerge {
  import opened Common

  // ---------------------------------------------------------------- fills

  /** The broker's execution identifier, or the one made up from a report that lacks it. */
  datatype ExecId = Given(id: string) | MadeUp(order: int, quantity: real, price: real, time: string)

  datatype Field = OrderId | Quantity | Price | Commission | Timestamp | Symbol | Side | Exchange | Liquidity

  datatype Value = Whole(whole: int) | Number(number: real) | Text(text: string)

  /** A fill report or record: the fields that are present, by name. */
  datatype Fill = Fill(exec: ExecId, fields: map<Field, Value>)

  /** What `_merge_fill` makes of a record and a report with the same execution id. */
  function Merged(record: Fill, e: Fill): Fill {
    record.(fields := record.fields + e.fields)
  }

  function Merge(fills: seq<Fill>, e: Fill): seq<Fill> {
    if |fills| == 0 then [e]
    else if fills[0].exec == e.exec then [Merged(fills[0], e)] + fills[1..]
    else [fills[0]] + Merge(fills[1..], e)
  }

  /** The loop of `_merge_fill`: the first record with the report's identifier is updated
      in place, a new identifier is appended. */
  method MergeFill(fills: seq<Fill>, e: Fill) returns (out: seq<Fill>, changed: bool)
    ensures out == Merge(fills, e)
    ensures changed <==> out != fills
  {
    for n := 0 to |fills|
      invariant forall i :: 0 <= i < n ==> fills[i].exec != e.exec
    {
      if fills[n].exec == e.exec {
        var merged := Merged(fills[n], e);
        MergeAt(fills, e, n);
        return fills[n := merged], merged != fills[n];
      }
    }
    MergeNew(fills, e);
    return fills + [e], true;
  }

  lemma {:induction false} MergeAt(fills: seq<Fill>, e: Fill, n: nat)
    requires n < |fills| && fills[n].exec == e.exec
    requires forall i :: 0 <= i < n ==> fills[i].exec != e.exec
    ensures Merge(fills, e) == fills[n := Merged(fills[n], e)]
    ensures Merge(fills, e) == fills <==> Merged(fills[n], e) == fills[n]
    decreases n
  {
    var m := Merged(fills[n], e);
    if n > 0 {
      MergeAt(fills[1..], e, n - 1);
      assert fills[n := m] == [fills[0]] + fills[1..][n - 1 := m];
    } else {
      assert fills[0 := m] == [m] + fills[1..];
    }
    assert fills[n := m][n] == m;
  }

  lemma {:induction false} MergeNew(fills: seq<Fill>, e: Fill)
    requires forall i :: 0 <= i < |fills| ==> fills[i].exec != e.exec
    ensures Merge(fills, e) == fills + [e]
    decreases |fills|
  {
    if |fills| > 0 {
      MergeNew(fills[1..], e);
      assert fills + [e] == [fills[0]] + (fills[1..] + [e]);
    }
  }

  function MergeAll(fills: seq<Fill>, events: seq<Fill>): seq<Fill> {
    if |events| == 0 then fills else Merge(MergeAll(fills, Front(events)), Last(events))
  }

  // ---------------------------------------------------------------- the map a list stands for

  ghost predicate UniqueIds(fills: seq<Fill>) {
    forall i, j :: 0 <= i < j < |fills| ==> fills[i].exec != fills[j].exec
  }

  function Records(fills: seq<Fill>): map<ExecId, map<Field, Value>> {
    if |fills| == 0 then map[] else Records(Front(fills))[Last(fills).exec := Last(fills).fields]
  }

  predicate HeldBy(m: map<ExecId, map<Field, Value>>, f: Fill) {
    f.exec in m && m[f.exec] == f.fields
  }

  predicate Listed(fills: seq<Fill>, id: ExecId) {
    exists i :: 0 <= i < |fills| && fills[i].exec == id
  }

  lemma {:induction false} RecordsAt(fills: seq<Fill>)
    requires UniqueIds(fills)
    ensures forall id :: id in Records(fills) <==> Listed(fills, id)
    ensures forall i :: 0 <= i < |fills| ==> HeldBy(Records(fills), fills[i])
    decreases |fills|
  {
    if |fills| > 0 {
      RecordsAt(Front(fills));
      forall id ensures id in Records(fills) <==> Listed(fills, id) {
        if id == Last(fills).exec {
          assert fills[|fills| - 1].exec == id;
        } else if Listed(fills, id) {
          var i :| 0 <= i < |fills| && fills[i].exec == id;
          assert Front(fills)[i].exec == id;
        } else {
          assert forall i :: 0 <= i < |Front(fills)| ==> Front(fills)[i].exec == fills[i].exec;
        }
      }
      forall i | 0 <= i < |fills| ensures HeldBy(Records(fills), fills[i]) {
        if i < |fills| - 1 {
          assert HeldBy(Records(Front(fills)), Front(fills)[i]);
          assert fills[i].exec != fills[|fills| - 1].exec;
        }
      }
    }
  }

  /** A report joins what is known under its identifier; its fields win. */
  function Put(m: map<ExecId, map<Field, Value>>, e: Fill): map<ExecId, map<Field, Value>> {
    m[e.exec := if e.exec in m then m[e.exec] + e.fields else e.fields]
  }

  function PutAll(events: seq<Fill>): map<ExecId, map<Field, Value>> {
    if |events| == 0 then map[] else Put(PutAll(Front(events)), Last(events))
  }

  function Position(fills: seq<Fill>, id: ExecId): nat
    ensures Position(fills, id) <= |fills|
    ensures forall i :: 0 <= i < Position(fills, id) ==> fills[i].exec != id
    ensures Position(fills, id) < |fills| ==> fills[Position(fills, id)].exec == id
  {
    if |fills| == 0 || fills[0].exec == id then 0 else 1 + Position(fills[1..], id)
  }

  lemma {:induction false} RecordsOfUpdate(fills: seq<Fill>, n: nat, f: Fill)
    requires UniqueIds(fills) && n < |fills| && f.exec == fills[n].exec
    ensures UniqueIds(fills[n := f]) && Records(fills[n := f]) == Records(fills)[f.exec := f.fields]
    decreases |fills|
  {
    var updated := fills[n := f];
    if n == |fills| - 1 {
      assert Front(updated) == Front(fills);
    } else {
      assert Front(updated) == Front(fills)[n := f];
      RecordsOfUpdate(Front(fills), n, f);
      assert fills[n].exec != fills[|fills| - 1].exec;
    }
  }

  /** Merging into a list with unique identifiers is putting into its map. */
  lemma MergeIsPut(fills: seq<Fill>, e: Fill)
    requires UniqueIds(fills)
    ensures UniqueIds(Merge(fills, e)) && Records(Merge(fills, e)) == Put(Records(fills), e)
  {
    var n := Position(fills, e.exec);
    RecordsAt(fills);
    if n < |fills| {
      MergeAt(fills, e, n);
      assert HeldBy(Records(fills), fills[n]);
      RecordsOfUpdate(fills, n, Merged(fills[n], e));
    } else {
      MergeNew(fills, e);
      SnocFront(fills, e);
    }
  }

  lemma {:induction false} MergeAllIsPutAll(fills: seq<Fill>, events: seq<Fill>)
    requires UniqueIds(fills)
    ensures UniqueIds(MergeAll(fills, events))
    ensures Records(MergeAll(fills, events)) == PutAll(fills + events)
    decreases |events|
  {
    if |events| == 0 {
      assert fills + events == fills;
      RecordsArePuts(fills);
    } else {
      assert Front(fills + events) == fills + Front(events);
      MergeAllIsPutAll(fills, Front(events));
      MergeIsPut(MergeAll(fills, Front(events)), Last(events));
    }
  }

  lemma {:induction false} RecordsArePuts(fills: seq<Fill>)
    requires UniqueIds(fills)
    ensures PutAll(fills) == Records(fills)
    decreases |fills|
  {
    if |fills| > 0 {
      RecordsArePuts(Front(fills));
      RecordsAt(Front(fills));
      assert forall i :: 0 <= i < |fills| - 1 ==> fills[i].exec != fills[|fills| - 1].exec;
    }
  }

  // ---------------------------------------------------------------- confluence

  /** Two reports of one execution give no field two values. */
  predicate Agree(a: Fill, b: Fill) {
    a.exec == b.exec ==> forall k :: k in a.fields && k in b.fields ==> a.fields[k] == b.fields[k]
  }

  predicate Compatible(events: seq<Fill>) {
    forall a, b :: a in events && b in events ==> Agree(a, b)
  }

  predicate SameReports(a: seq<Fill>, b: seq<Fill>) {
    (forall e :: e in a ==> e in b) && (forall e :: e in b ==> e in a)
  }

  predicate Knows(m: map<ExecId, map<Field, Value>>, e: Fill) {
    e.exec in m && forall k :: k in e.fields ==> k in m[e.exec] && m[e.exec][k] == e.fields[k]
  }

  predicate Says(e: Fill, id: ExecId, k: Field, v: Value) {
    e.exec == id && k in e.fields && e.fields[k] == v
  }

  /** Everything in the map was reported. */
  lemma {:induction false} PutAllWasReported(events: seq<Fill>, id: ExecId)
    requires id in PutAll(events)
    ensures exists e :: e in events && e.exec == id
    ensures forall k :: k in PutAll(events)[id] ==> exists e :: e in events && Says(e, id, k, PutAll(events)[id][k])
    decreases |events|
  {
    var last, before := Last(events), PutAll(Front(events));
    assert last in events && forall e :: e in Front(events) ==> e in events;
    if id in before {
      PutAllWasReported(Front(events), id);
    }
    forall k | k in PutAll(events)[id] ensures exists e :: e in events && Says(e, id, k, PutAll(events)[id][k]) {
      if last.exec == id && k in last.fields {
        assert Says(last, id, k, PutAll(events)[id][k]);
      } else {
        var e :| e in Front(events) && Says(e, id, k, before[id][k]);
        assert Says(e, id, k, PutAll(events)[id][k]);
      }
    }
  }

  /** Of compatible reports, everything reported stays in the map. */
  lemma {:induction false} PutAllKnows(events: seq<Fill>, e: Fill)
    requires Compatible(events) && e in events
    ensures Knows(PutAll(events), e)
    decreases |events|
  {
    var last := Last(events);
    if e in Front(events) {
      assert Compatible(Front(events));
      PutAllKnows(Front(events), e);
      assert Agree(e, last);
    } else {
      assert e == last;
    }
  }

  lemma SameReportsSameMap(a: seq<Fill>, b: seq<Fill>)
    requires Compatible(a) && SameReports(a, b)
    ensures PutAll(a) == PutAll(b)
  {
    assert Compatible(b);
    forall id | id in PutAll(a) || id in PutAll(b) ensures id in PutAll(a) && id in PutAll(b) && PutAll(a)[id] == PutAll(b)[id] {
      if id in PutAll(a) {
        PartOf(a, b, id);
      }
      if id in PutAll(b) {
        PartOf(b, a, id);
      }
      PartOf(a, b, id);
      PartOf(b, a, id);
      assert PutAll(a)[id].Keys == PutAll(b)[id].Keys;
    }
  }

  lemma PartOf(a: seq<Fill>, b: seq<Fill>, id: ExecId)
    requires Compatible(b) && SameReports(a, b) && id in PutAll(a)
    ensures id in PutAll(b) && PutAll(a)[id].Keys <= PutAll(b)[id].Keys
    ensures forall k :: k in PutAll(a)[id] ==> PutAll(a)[id][k] == PutAll(b)[id][k]
  {
    PutAllWasReported(a, id);
    var some :| some in a && some.exec == id;
    PutAllKnows(b, some);
    forall k | k in PutAll(a)[id] ensures k in PutAll(b)[id] && PutAll(a)[id][k] == PutAll(b)[id][k] {
      var e :| e in a && Says(e, id, k, PutAll(a)[id][k]);
      PutAllKnows(b, e);
    }
  }

  /** All arrangements of these reports, repetitions included, come to the same map. */
  ghost predicate Confluent(events: seq<Fill>) {
    forall p, q :: SameReports(p, events) && SameReports(q, events) ==> Records(MergeAll([], p)) == Records(MergeAll([], q))
  }

  lemma PutLast(events: seq<Fill>, a: Fill, k: Field)
    requires k in a.fields
    ensures a.exec in PutAll(events + [a]) && k in PutAll(events + [a])[a.exec] && PutAll(events + [a])[a.exec][k] == a.fields[k]
  {
    SnocFront(events, a);
  }

  lemma MergeFromNothing(events: seq<Fill>)
    ensures Records(MergeAll([], events)) == PutAll(events)
  {
    MergeAllIsPutAll([], events);
    assert [] + events == events;
  }

  lemma CompatibleIsConfluent(events: seq<Fill>)
    requires Compatible(events)
    ensures Confluent(events)
  {
    forall p, q | SameReports(p, events) && SameReports(q, events) ensures Records(MergeAll([], p)) == Records(MergeAll([], q)) {
      SameReportsSameMap(events, p);
      SameReportsSameMap(events, q);
      MergeFromNothing(p);
      MergeFromNothing(q);
    }
  }

  lemma ContradictionShows(events: seq<Fill>, a: Fill, b: Fill, k: Field)
    requires a in events && b in events && a.exec == b.exec && k in a.fields && k in b.fields && a.fields[k] != b.fields[k]
    ensures !Confluent(events)
  {
    var p, q := events + [a], events + [b];
    PutLast(events, a, k);
    PutLast(events, b, k);
    MergeFromNothing(p);
    MergeFromNothing(q);
    assert SameReports(p, events) && SameReports(q, events);
    assert PutAll(p)[a.exec][k] != PutAll(q)[a.exec][k];
  }

  /** Order, batching and repetition do not matter exactly when no two reports of one
      execution contradict each other. */
  lemma ConfluentExactly(events: seq<Fill>)
    ensures Confluent(events) <==> Compatible(events)
  {
    if Compatible(events) {
      CompatibleIsConfluent(events);
    } else {
      var a, b :| a in events && b in events && !Agree(a, b);
      var k :| k in a.fields && k in b.fields && a.fields[k] != b.fields[k];
      ContradictionShows(events, a, b, k);
    }
  }

  /** The same from any list with unique identifiers. */
  lemma MergeConfluent(fills: seq<Fill>, a: seq<Fill>, b: seq<Fill>)
    requires UniqueIds(fills) && Compatible(fills + a) && SameReports(a, b)
    ensures UniqueIds(MergeAll(fills, a)) && UniqueIds(MergeAll(fills, b))
    ensures Records(MergeAll(fills, a)) == Records(MergeAll(fills, b))
  {
    MergeAllIsPutAll(fills, a);
    MergeAllIsPutAll(fills, b);
    SameReportsSameMap(fills + a, fills + b);
  }

  /** A report changes nothing exactly when it is known already. */
  lemma RedeliveryExactly(fills: seq<Fill>, e: Fill)
    requires UniqueIds(fills)
    ensures Merge(fills, e) == fills <==> Knows(Records(fills), e)
  {
    hide Records, Merge, UniqueIds;
    var n := Position(fills, e.exec);
    RecordsAt(fills);
    if n < |fills| {
      MergeAt(fills, e, n);
      assert HeldBy(Records(fills), fills[n]);
      if Knows(Records(fills), e) {
        assert fills[n].fields + e.fields == fills[n].fields;
      }
      if Merged(fills[n], e) == fills[n] {
        assert forall k :: k in e.fields ==> (fills[n].fields + e.fields)[k] == e.fields[k];
      }
    } else {
      MergeNew(fills, e);
      assert !Listed(fills, e.exec);
    }
  }

  /** Redelivering any report ever merged changes nothing. */
  lemma RedeliveryIsIdle(fills: seq<Fill>, events: seq<Fill>, e: Fill)
    requires UniqueIds(fills) && Compatible(fills + events) && e in events
    ensures Merge(MergeAll(fills, events), e) == MergeAll(fills, events)
  {
    MergeAllIsPutAll(fills, events);
    PutAllKnows(fills + events, e);
    RedeliveryExactly(MergeAll(fills, events), e);
  }

  // ---------------------------------------------------------------- totals

  function Shares(f: Fill): int {
    if Quantity in f.fields && f.fields[Quantity].Number? then f.fields[Quantity].number.Floor else 0
  }

  function PriceOf(f: Fill): real {
    if Price in f.fields && f.fields[Price].Number? then f.fields[Price].number else 0.0
  }

  function CommissionOf(f: Fill): real {
    if Commission in f.fields && f.fields[Commission].Number? then f.fields[Commission].number else 0.0
  }

  datatype Totals = Totals(quantity: int, value: real, commission: real)

  const Zero: Totals := Totals(0, 0.0, 0.0)

  function Plus(a: Totals, b: Totals): Totals {
    Totals(a.quantity + b.quantity, a.value + b.value, a.commission + b.commission)
  }

  /** One fill's part: quantities are truncated to whole shares, others do not count. */
  function Part(f: Fill): Totals {
    if Shares(f) <= 0 || PriceOf(f) <= 0.0 then Zero else Counted(f)
  }

  function Counted(f: Fill): Totals {
    Totals(Shares(f), Shares(f) as real * PriceOf(f), CommissionOf(f))
  }

  function Sum(fills: seq<Fill>): Totals {
    if |fills| == 0 then Zero else Plus(Sum(Front(fills)), Part(Last(fills)))
  }

  function Without(fills: seq<Fill>, n: nat): seq<Fill>
    requires n < |fills|
  {
    fills[..n] + fills[n + 1..]
  }

  lemma {:induction false} SumWithout(fills: seq<Fill>, n: nat)
    requires n < |fills|
    ensures Sum(fills) == Plus(Sum(Without(fills, n)), Part(fills[n]))
    decreases |fills|
  {
    if n == |fills| - 1 {
      assert Without(fills, n) == Front(fills);
    } else {
      SumWithout(Front(fills), n);
      assert Front(Without(fills, n)) == Without(Front(fills), n);
      assert Last(Without(fills, n)) == Last(fills);
    }
  }

  lemma ListedWithout(fills: seq<Fill>, n: nat, id: ExecId)
    requires UniqueIds(fills) && n < |fills|
    ensures Listed(Without(fills, n), id) <==> Listed(fills, id) && id != fills[n].exec
  {
    var rest := Without(fills, n);
    if Listed(rest, id) {
      var i :| 0 <= i < |rest| && rest[i].exec == id;
      assert fills[if i < n then i else i + 1].exec == id;
    }
    if Listed(fills, id) && id != fills[n].exec {
      var j :| 0 <= j < |fills| && fills[j].exec == id;
      assert rest[if j < n then j else j - 1].exec == id;
    }
  }

  lemma HeldWithout(fills: seq<Fill>, n: nat, id: ExecId)
    requires n < |fills| && UniqueIds(fills) && UniqueIds(Without(fills, n)) && Listed(Without(fills, n), id)
    ensures id in Records(Without(fills, n)) && id in Records(fills)
    ensures Records(Without(fills, n))[id] == Records(fills)[id]
  {
    hide Records, UniqueIds;
    var rest := Without(fills, n);
    RecordsAt(fills);
    RecordsAt(rest);
    var i :| 0 <= i < |rest| && rest[i].exec == id;
    var j := if i < n then i else i + 1;
    assert rest[i] == fills[j];
    assert HeldBy(Records(rest), rest[i]) && HeldBy(Records(fills), fills[j]);
  }

  lemma WithoutIsUnique(fills: seq<Fill>, n: nat)
    requires UniqueIds(fills) && n < |fills|
    ensures UniqueIds(Without(fills, n))
  {
    var rest := Without(fills, n);
    forall i, j | 0 <= i < j < |rest| ensures rest[i].exec != rest[j].exec {
      assert rest[i] == fills[if i < n then i else i + 1] && rest[j] == fills[if j < n then j else j + 1];
    }
  }

  lemma RecordAtWithout(fills: seq<Fill>, n: nat, id: ExecId)
    requires n < |fills| && UniqueIds(fills) && UniqueIds(Without(fills, n))
    ensures id in Records(Without(fills, n)) <==> id in Records(fills) && id != fills[n].exec
    ensures id in Records(Without(fills, n)) ==> Records(Without(fills, n))[id] == Records(fills)[id]
  {
    hide Records, UniqueIds, Without;
    RecordsAt(fills);
    RecordsAt(Without(fills, n));
    ListedWithout(fills, n, id);
    if Listed(Without(fills, n), id) {
      HeldWithout(fills, n, id);
    }
  }

  lemma RecordsWithout(fills: seq<Fill>, n: nat)
    requires UniqueIds(fills) && n < |fills|
    ensures UniqueIds(Without(fills, n)) && Records(Without(fills, n)) == Records(fills) - {fills[n].exec}
  {
    hide Records, UniqueIds, Without;
    WithoutIsUnique(fills, n);
    forall id
      ensures id in Records(Without(fills, n)) <==> id in Records(fills) && id != fills[n].exec
      ensures id in Records(Without(fills, n)) ==> Records(Without(fills, n))[id] == Records(fills)[id]
    {
      RecordAtWithout(fills, n, id);
    }
  }

  /** Totals depend on the records only, not on their order. */
  lemma {:induction false} SameRecordsSameSum(a: seq<Fill>, b: seq<Fill>)
    requires UniqueIds(a) && UniqueIds(b) && Records(a) == Records(b)
    ensures Sum(a) == Sum(b)
    decreases |a|
  {
    RecordsAt(a);
    RecordsAt(b);
    if |a| == 0 {
      assert |b| > 0 ==> HeldBy(Records(b), b[0]);
    } else {
      var x := Last(a);
      assert HeldBy(Records(a), a[|a| - 1]) && Listed(b, x.exec);
      var n :| 0 <= n < |b| && b[n].exec == x.exec;
      assert HeldBy(Records(b), b[n]);
      assert Without(a, |a| - 1) == Front(a);
      RecordsWithout(a, |a| - 1);
      RecordsWithout(b, n);
      SameRecordsSameSum(Front(a), Without(b, n));
      SumWithout(b, n);
    }
  }
}
