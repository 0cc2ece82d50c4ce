/** Bounded newest-first reads of the evidence log, file by file, and the simple form they
    agree with: the first so many of everything, newest first. */
module EvidenceReads {
  import opened Common

  // ---------------------------------------------------------------- the log

  datatype Record = Record(outcome: bool, payload: int)

  datatype Line = Blank | Garbled | Parsed(record: Record)

  /** One dated file; `Unreadable` when opening or reading it fails. */
  datatype File = Unreadable | Lines(lines: seq<Line>)

  function Parsable(lines: seq<Line>): seq<Record> {
    if |lines| == 0 then []
    else if Last(lines).Parsed? then Parsable(Front(lines)) + [Last(lines).record]
    else Parsable(Front(lines))
  }

  function RecordsOf(file: File): seq<Record> {
    if file.Unreadable? then [] else Parsable(file.lines)
  }

  /** Every parsable record, files in date order. */
  function Everything(files: seq<File>): seq<Record> {
    if |files| == 0 then [] else Everything(Front(files)) + RecordsOf(Last(files))
  }

  function Outcomes(records: seq<Record>): seq<Record> {
    if |records| == 0 then []
    else if Last(records).outcome then Outcomes(Front(records)) + [Last(records)]
    else Outcomes(Front(records))
  }

  function Reversed<T>(s: seq<T>): (r: seq<T>)
    ensures |r| == |s| && forall i :: 0 <= i < |s| ==> r[i] == s[|s| - 1 - i]
  {
    seq(|s|, i requires 0 <= i < |s| => s[|s| - 1 - i])
  }

  function Take<T>(s: seq<T>, n: nat): seq<T> {
    if |s| <= n then s else s[..n]
  }

  function Newest<T>(s: seq<T>, n: nat): seq<T> {
    if |s| <= n then s else s[|s| - n..]
  }

  /** Zero asks for the default of a hundred; the rest is clamped to 1..1000. */
  function Limit(asked: int): (n: nat)
    ensures 1 <= n <= 1000
  {
    var limit := if asked == 0 then 100 else asked;
    if limit < 1 then 1 else if limit > 1000 then 1000 else limit
  }

  /** How many records are read for `asked`: a hundred by default, at least one, at most a
      thousand, and otherwise as many as asked for. */
  predicate ReadsFor(asked: int, n: int) {
    && (asked == 0 ==> n == 100) && (asked < 0 ==> n == 1) && (asked > 1000 ==> n == 1000)
    && (1 <= asked <= 1000 ==> n == asked)
  }

  lemma LimitExactly(asked: int)
    ensures forall n :: ReadsFor(asked, n) <==> n == Limit(asked)
  {
  }

  /** `records` are the newest of `all`, newest first: as many as `asked` stands for, or all. */
  ghost predicate NewestFirst(records: seq<Record>, all: seq<Record>, asked: int) {
    && (forall n :: ReadsFor(asked, n) ==> |records| == if |all| < n then |all| else n)
    && (forall i :: 0 <= i < |records| ==> |records| <= |all| && records[i] == all[|all| - 1 - i])
  }

  lemma TakenAreNewest(all: seq<Record>, asked: int)
    ensures NewestFirst(Take(Reversed(all), Limit(asked)), all, asked)
  {
    LimitExactly(asked);
  }

  // ---------------------------------------------------------------- the reads

  method Recent(files: seq<File>, asked: int) returns (records: seq<Record>)
    ensures records == Take(Reversed(Everything(files)), Limit(asked))
    ensures NewestFirst(records, Everything(files), asked)
  {
    TakenAreNewest(Everything(files), asked);
    hide NewestFirst, Limit;
    var limit := Limit(asked);
    records := [];
    var n := |files|;
    while n > 0
      invariant 0 <= n <= |files|
      invariant records == Take(Reversed(Everything(files[n..])), limit)
    {
      var remaining := limit - |records|;
      if remaining <= 0 {
        FullAlready(files, n, limit);
        return;
      }
      EverythingSplit(files, n - 1);
      n := n - 1;
      if files[n].Unreadable? {
        assert RecordsOf(files[n]) == [];
        assert [] + Everything(files[n + 1..]) == Everything(files[n + 1..]);
        continue;
      }
      var fileRecords := LastParsed(files[n].lines, remaining);
      TakeMore(RecordsOf(files[n]), Everything(files[n + 1..]), limit);
      records := records + Reversed(fileRecords);
    }
    assert files[0..] == files;
  }

  method RecentOutcomes(files: seq<File>, asked: int) returns (records: seq<Record>)
    ensures records == Take(Reversed(Outcomes(Everything(files))), Limit(asked))
    ensures NewestFirst(records, Outcomes(Everything(files)), asked)
  {
    TakenAreNewest(Outcomes(Everything(files)), asked);
    hide NewestFirst, Limit;
    var limit := Limit(asked);
    records := [];
    var n := |files|;
    while n > 0
      invariant 0 <= n <= |files|
      invariant records == Take(Reversed(Outcomes(Everything(files[n..]))), limit)
    {
      var remaining := limit - |records|;
      if remaining <= 0 {
        OutcomesFullAlready(files, n, limit);
        return;
      }
      EverythingSplit(files, n - 1);
      OutcomesConcat(RecordsOf(files[n - 1]), Everything(files[n..]));
      n := n - 1;
      if files[n].Unreadable? {
        assert Outcomes(RecordsOf(files[n])) == [];
        assert [] + Outcomes(Everything(files[n + 1..])) == Outcomes(Everything(files[n + 1..]));
        continue;
      }
      var fileOutcomes := ParsedOutcomes(files[n].lines);
      TakeMore(Outcomes(RecordsOf(files[n])), Outcomes(Everything(files[n + 1..])), limit);
      records := records + Reversed(Newest(fileOutcomes, remaining));
    }
    assert files[0..] == files;
  }

  /** A bounded queue of the file's records: the newest push out the oldest. */
  method LastParsed(lines: seq<Line>, bound: nat) returns (queue: seq<Record>)
    requires bound > 0
    ensures queue == Newest(Parsable(lines), bound)
  {
    queue := [];
    for n := 0 to |lines|
      invariant queue == Newest(Parsable(lines[..n]), bound)
    {
      assert Front(lines[..n + 1]) == lines[..n];
      if lines[n].Parsed? {
        queue := queue + [lines[n].record];
        if |queue| > bound {
          queue := queue[1..];
        }
      }
    }
    assert lines[..|lines|] == lines;
  }

  method ParsedOutcomes(lines: seq<Line>) returns (out: seq<Record>)
    ensures out == Outcomes(Parsable(lines))
  {
    out := [];
    for n := 0 to |lines|
      invariant out == Outcomes(Parsable(lines[..n]))
    {
      assert Front(lines[..n + 1]) == lines[..n];
      if lines[n].Parsed? {
        SnocFront(Parsable(lines[..n]), lines[n].record);
        if lines[n].record.outcome {
          out := out + [lines[n].record];
        }
      }
    }
    assert lines[..|lines|] == lines;
  }

  // ---------------------------------------------------------------- why they agree

  lemma {:induction false} EverythingConcat(a: seq<File>, b: seq<File>)
    ensures Everything(a + b) == Everything(a) + Everything(b)
    decreases |b|
  {
    if |b| == 0 {
      assert a + b == a;
    } else {
      hide RecordsOf;
      assert Front(a + b) == a + Front(b) && Last(a + b) == Last(b);
      EverythingConcat(a, Front(b));
      Associates(Everything(a), Everything(Front(b)), RecordsOf(Last(b)));
    }
  }

  lemma EverythingSplit(files: seq<File>, n: nat)
    requires n < |files|
    ensures Everything(files[n..]) == RecordsOf(files[n]) + Everything(files[n + 1..])
  {
    assert files[n..] == [files[n]] + files[n + 1..];
    EverythingConcat([files[n]], files[n + 1..]);
    assert Front([files[n]]) == [];
    assert Everything([files[n]]) == RecordsOf(files[n]);
  }

  lemma {:induction false} OutcomesConcat(a: seq<Record>, b: seq<Record>)
    ensures Outcomes(a + b) == Outcomes(a) + Outcomes(b)
    decreases |b|
  {
    if |b| == 0 {
      assert a + b == a;
    } else {
      assert Front(a + b) == a + Front(b);
      OutcomesConcat(a, Front(b));
    }
  }

  /** The newest of an older part follow what a newer part already gives. */
  lemma TakeMore<T>(older: seq<T>, newer: seq<T>, n: nat)
    ensures Take(Reversed(older + newer), n) ==
            Take(Reversed(newer), n) + Reversed(Newest(older, if |newer| <= n then n - |newer| else 0))
  {
    var all := Reversed(older + newer);
    assert all == Reversed(newer) + Reversed(older);
    if |newer| <= n {
      var rest := Newest(older, n - |newer|);
      assert Reversed(rest) == Take(Reversed(older), n - |newer|);
    } else {
      assert Newest(older, 0) == [];
      assert all[..n] == Reversed(newer)[..n];
    }
  }

  lemma TakeFull<T>(older: seq<T>, newer: seq<T>, n: nat)
    requires |Take(Reversed(newer), n)| >= n
    ensures Take(Reversed(older + newer), n) == Take(Reversed(newer), n)
  {
    TakeMore(older, newer, n);
    assert Newest(older, 0) == [];
  }

  lemma FullAlready(files: seq<File>, n: nat, limit: nat)
    requires n <= |files| && |Take(Reversed(Everything(files[n..])), limit)| >= limit
    ensures Take(Reversed(Everything(files)), limit) == Take(Reversed(Everything(files[n..])), limit)
  {
    hide Everything, Take, Reversed;
    assert files == files[..n] + files[n..];
    EverythingConcat(files[..n], files[n..]);
    TakeFull(Everything(files[..n]), Everything(files[n..]), limit);
  }

  lemma OutcomesFullAlready(files: seq<File>, n: nat, limit: nat)
    requires n <= |files| && |Take(Reversed(Outcomes(Everything(files[n..]))), limit)| >= limit
    ensures Take(Reversed(Outcomes(Everything(files))), limit) == Take(Reversed(Outcomes(Everything(files[n..]))), limit)
  {
    hide Everything, Outcomes, Take, Reversed;
    assert files == files[..n] + files[n..];
    EverythingConcat(files[..n], files[n..]);
    OutcomesConcat(Everything(files[..n]), Everything(files[n..]));
    TakeFull(Outcomes(Everything(files[..n])), Outcomes(Everything(files[n..])), limit);
  }

  // ---------------------------------------------------------------- what it promises

  /** The log after more lines have been appended to its last file. */
  function AppendedAll(files: seq<File>, lines: seq<Line>): seq<File>
    requires |files| > 0 && Last(files).Lines?
  {
    Front(files) + [Lines(Last(files).lines + lines)]
  }

  lemma EverythingAppended(files: seq<File>, lines: seq<Line>)
    requires |files| > 0 && Last(files).Lines?
    ensures Everything(AppendedAll(files, lines)) == Everything(files) + Parsable(lines)
  {
    var last := Lines(Last(files).lines + lines);
    SnocFront(Front(files), last);
    ParsableConcat(Last(files).lines, lines);
    assert RecordsOf(last) == RecordsOf(Last(files)) + Parsable(lines);
    Associates(Everything(Front(files)), RecordsOf(Last(files)), Parsable(lines));
  }

  lemma Associates(a: seq<Record>, b: seq<Record>, c: seq<Record>)
    ensures a + (b + c) == (a + b) + c
  {
  }

  lemma ReversedSnoc(all: seq<Record>, r: Record)
    ensures Reversed(all + [r]) == [r] + Reversed(all)
  {
  }

  /** A logged record is the first one read back; what was read before follows it. */
  lemma LoggedComesFirst(files: seq<File>, r: Record, asked: int)
    requires |files| > 0 && Last(files).Lines?
    ensures Take(Reversed(Everything(AppendedAll(files, [Parsed(r)]))), Limit(asked)) ==
            Take([r] + Reversed(Everything(files)), Limit(asked))
  {
    EverythingAppended(files, [Parsed(r)]);
    assert Front([Parsed(r)]) == [] && Parsable([Parsed(r)]) == [r];
    ReversedSnoc(Everything(files), r);
  }

  /** However many decision records are logged, in whatever lines, no outcome leaves the
      window of outcomes. */
  lemma DecisionsNeverEvict(files: seq<File>, lines: seq<Line>, asked: int)
    requires |files| > 0 && Last(files).Lines?
    requires forall i :: 0 <= i < |lines| ==> lines[i].Parsed? ==> !lines[i].record.outcome
    ensures Take(Reversed(Outcomes(Everything(AppendedAll(files, lines)))), Limit(asked)) ==
            Take(Reversed(Outcomes(Everything(files))), Limit(asked))
  {
    hide Everything, Outcomes, Parsable, Take, Reversed, AppendedAll;
    EverythingAppended(files, lines);
    NoOutcomes(lines);
    OutcomesConcat(Everything(files), Parsable(lines));
    assert Outcomes(Everything(files)) + [] == Outcomes(Everything(files));
  }

  lemma {:induction false} ParsableConcat(a: seq<Line>, b: seq<Line>)
    ensures Parsable(a + b) == Parsable(a) + Parsable(b)
    decreases |b|
  {
    if |b| == 0 {
      assert a + b == a;
    } else {
      assert Front(a + b) == a + Front(b);
      ParsableConcat(a, Front(b));
    }
  }

  lemma {:induction false} NoOutcomes(lines: seq<Line>)
    requires forall i :: 0 <= i < |lines| ==> lines[i].Parsed? ==> !lines[i].record.outcome
    ensures Outcomes(Parsable(lines)) == []
    decreases |lines|
  {
    if |lines| > 0 {
      NoOutcomes(Front(lines));
      if Last(lines).Parsed? {
        assert lines[|lines| - 1] == Last(lines);
        SnocFront(Parsable(Front(lines)), Last(lines).record);
      }
    }
  }
}
