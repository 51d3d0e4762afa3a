/** The scan in OemKill.RunRestore that walks the output of `pnputil -e` and
    collects the driver packages published by known OEM providers. */
module OemScan {
  import opened Wrappers
  import opened PnpText

  /** A driver package found on line `index` (OemKill.cs, IndexedInf):
      `name` is its provider as the next line gives it, `inf` the published
      `.inf` file name. */
  datatype IndexedInf = IndexedInf(index: nat, name: string, inf: string)

  /** The IndexOutOfRangeException the scan throws when it reads the line
      after the last one. */
  datatype ScanError = IndexOutOfRange(index: nat)

  /** The scan from line `i` on, as the loop body does it: a line that the
      `inf` regex matches contributes a record when the `driver` regex's group
      on the next line is a known OEM driver; the next line is then still
      tested as an `inf` line itself. */
  function ScanFrom(lines: seq<Line>, known: set<string>, i: nat): Result<seq<IndexedInf>, ScanError>
    requires i <= |lines|
    decreases |lines| - i
  {
    if i == |lines| then Ok([])
    else
      match InfMatch(lines[i])
      case None => ScanFrom(lines, known, i + 1)
      case Some(infName) =>
        if i + 1 == |lines| then Err(IndexOutOfRange(i + 1))
        else
          var name := DriverGroup(lines[i + 1]);
          var rest := ScanFrom(lines, known, i + 1);
          if rest.Ok? && name in known then Ok([IndexedInf(i, name, infName)] + rest.value)
          else rest
  }

  /** The whole scan: it throws exactly when the last line matches `inf`,
      reading past the end, with the line count as the bad index.
      `ScanFindsExactlyKnownDrivers` states what it returns otherwise. */
  function Scan(lines: seq<Line>, known: set<string>): (r: Result<seq<IndexedInf>, ScanError>)
    ensures r.Err? <==> |lines| > 0 && InfMatch(lines[|lines| - 1]).Some?
    ensures r.Err? ==> r.error == IndexOutOfRange(|lines|)
  {
    ScanFromFails(lines, known, 0);
    ScanFrom(lines, known, 0)
  }

  /** Line `j` holds a known OEM package: it matches `inf` and the provider
      on the line after it is known. */
  ghost predicate Qualifies(lines: seq<Line>, known: set<string>, j: nat) {
    j + 1 < |lines| && InfMatch(lines[j]).Some? && DriverGroup(lines[j + 1]) in known
  }

  /** The record for line `j`. */
  ghost function RecordAt(lines: seq<Line>, j: nat): IndexedInf
    requires j + 1 < |lines| && InfMatch(lines[j]).Some?
  {
    IndexedInf(j, DriverGroup(lines[j + 1]), InfMatch(lines[j]).value)
  }

  /** Every record of `rs` belongs to a qualifying line from `i` on and is
      the record of that line. */
  ghost predicate RecordsSound(lines: seq<Line>, known: set<string>, i: nat, rs: seq<IndexedInf>) {
    forall k :: 0 <= k < |rs| ==>
      i <= rs[k].index && Qualifies(lines, known, rs[k].index) && rs[k] == RecordAt(lines, rs[k].index)
  }

  /** The records of `rs` are in strictly increasing line order. */
  ghost predicate RecordsOrdered(rs: seq<IndexedInf>) {
    forall a, b :: 0 <= a < b < |rs| ==> rs[a].index < rs[b].index
  }

  /** Every qualifying line from `i` on has a record in `rs`. */
  ghost predicate RecordsComplete(lines: seq<Line>, known: set<string>, i: nat, rs: seq<IndexedInf>) {
    forall j: nat :: i <= j && Qualifies(lines, known, j) ==> exists k :: 0 <= k < |rs| && rs[k].index == j
  }

  /** `rs` lists, in line order, exactly the qualifying lines from `i` on. */
  ghost predicate ExactRecords(lines: seq<Line>, known: set<string>, i: nat, rs: seq<IndexedInf>) {
    RecordsSound(lines, known, i, rs) && RecordsOrdered(rs) && RecordsComplete(lines, known, i, rs)
  }

  lemma {:induction false} ScanFromFails(lines: seq<Line>, known: set<string>, i: nat)
    requires i <= |lines|
    ensures ScanFrom(lines, known, i).Err? <==> i < |lines| && InfMatch(lines[|lines| - 1]).Some?
    ensures ScanFrom(lines, known, i).Err? ==> ScanFrom(lines, known, i).error == IndexOutOfRange(|lines|)
    decreases |lines| - i
  {
    if i + 1 < |lines| {
      ScanFromFails(lines, known, i + 1);
      var rest := ScanFrom(lines, known, i + 1);
      assert ScanFrom(lines, known, i).Err? <==> rest.Err?;
      assert ScanFrom(lines, known, i).Err? ==> ScanFrom(lines, known, i) == rest;
    }
  }

  lemma {:induction false} ScanFromExact(lines: seq<Line>, known: set<string>, i: nat)
    requires i <= |lines| && ScanFrom(lines, known, i).Ok?
    ensures ExactRecords(lines, known, i, ScanFrom(lines, known, i).value)
    decreases |lines| - i
  {
    if i < |lines| {
      ScanFromFails(lines, known, i);
      ScanFromFails(lines, known, i + 1);
      ScanFromExact(lines, known, i + 1);
      var rest := ScanFrom(lines, known, i + 1).value;
      if Qualifies(lines, known, i) {
        assert ScanFrom(lines, known, i).value == [RecordAt(lines, i)] + rest;
        ExactCons(lines, known, i, rest);
      } else {
        assert ScanFrom(lines, known, i).value == rest;
        ExactSkip(lines, known, i, rest);
      }
    }
  }

  lemma ExactSkip(lines: seq<Line>, known: set<string>, i: nat, rs: seq<IndexedInf>)
    requires ExactRecords(lines, known, i + 1, rs) && !Qualifies(lines, known, i)
    ensures ExactRecords(lines, known, i, rs)
  {
    forall j: nat | i <= j && Qualifies(lines, known, j)
      ensures exists k :: 0 <= k < |rs| && rs[k].index == j
    {
      assert i + 1 <= j;
    }
  }

  lemma ExactCons(lines: seq<Line>, known: set<string>, i: nat, rs: seq<IndexedInf>)
    requires ExactRecords(lines, known, i + 1, rs) && Qualifies(lines, known, i)
    ensures ExactRecords(lines, known, i, [RecordAt(lines, i)] + rs)
  {
    SoundCons(lines, known, i, rs);
    OrderedCons(lines, known, i, rs);
    CompleteCons(lines, known, i, rs);
  }

  lemma SoundCons(lines: seq<Line>, known: set<string>, i: nat, rs: seq<IndexedInf>)
    requires RecordsSound(lines, known, i + 1, rs) && Qualifies(lines, known, i)
    ensures RecordsSound(lines, known, i, [RecordAt(lines, i)] + rs)
  {
    var all := [RecordAt(lines, i)] + rs;
    forall k | 0 <= k < |all|
      ensures i <= all[k].index && Qualifies(lines, known, all[k].index) && all[k] == RecordAt(lines, all[k].index)
    {
      if k > 0 {
        assert all[k] == rs[k - 1];
      }
    }
  }

  lemma OrderedCons(lines: seq<Line>, known: set<string>, i: nat, rs: seq<IndexedInf>)
    requires RecordsOrdered(rs) && RecordsSound(lines, known, i + 1, rs) && Qualifies(lines, known, i)
    ensures RecordsOrdered([RecordAt(lines, i)] + rs)
  {
    var all := [RecordAt(lines, i)] + rs;
    forall a, b | 0 <= a < b < |all|
      ensures all[a].index < all[b].index
    {
      assert all[b] == rs[b - 1];
      if a > 0 {
        assert all[a] == rs[a - 1];
      }
    }
  }

  lemma CompleteCons(lines: seq<Line>, known: set<string>, i: nat, rs: seq<IndexedInf>)
    requires RecordsComplete(lines, known, i + 1, rs) && Qualifies(lines, known, i)
    ensures RecordsComplete(lines, known, i, [RecordAt(lines, i)] + rs)
  {
    var all := [RecordAt(lines, i)] + rs;
    forall j: nat | i <= j && Qualifies(lines, known, j)
      ensures exists k :: 0 <= k < |all| && all[k].index == j
    {
      if j == i {
        assert all[0].index == j;
      } else {
        var k :| 0 <= k < |rs| && rs[k].index == j;
        assert all[k + 1].index == j;
      }
    }
  }

  /** The scan fails exactly when the last line matches the `inf` regex: the
      provider is then read from a line past the end. */
  lemma ScanFailsIffLastLineIsInf(lines: seq<Line>, known: set<string>)
    ensures Scan(lines, known).Err? <==> |lines| > 0 && ':' in lines[|lines| - 1] && EndsWith(lines[|lines| - 1], ".inf")
    ensures Scan(lines, known).Err? ==> Scan(lines, known).error == IndexOutOfRange(|lines|)
  {
    ScanFromFails(lines, known, 0);
  }

  /** A successful scan returns one record per qualifying line, in line order,
      each built from its own line and the line after it. */
  lemma ScanFindsExactlyKnownDrivers(lines: seq<Line>, known: set<string>)
    requires Scan(lines, known).Ok?
    ensures ExactRecords(lines, known, 0, Scan(lines, known).value)
  {
    ScanFromExact(lines, known, 0);
  }

  /** What each record of a successful scan says about the input lines. */
  lemma ScanRecordFacts(lines: seq<Line>, known: set<string>, k: nat)
    requires Scan(lines, known).Ok? && k < |Scan(lines, known).value|
    ensures var r := Scan(lines, known).value[k];
      && r.index + 1 < |lines|
      && r.name in known
      && ':' in lines[r.index] && EndsWith(lines[r.index], ".inf")
      && EndsWith(r.inf, ".inf")
      && r.inf == lines[r.index][GroupStart(lines[r.index]).value..]
      && r.name == DriverGroup(lines[r.index + 1])
  {
    ScanFromExact(lines, known, 0);
  }

  /** The loop of RunRestore: lines in order, records appended to a list;
      it throws when it reads past the last line. */
  method CollectOemDrivers(enumOutput: seq<Line>, known: set<string>) returns (r: Result<seq<IndexedInf>, ScanError>)
    ensures r == Scan(enumOutput, known)
  {
    var oemDrivers: seq<IndexedInf> := [];
    var i := 0;
    assert Scan(enumOutput, known).Ok? ==> [] + Scan(enumOutput, known).value == Scan(enumOutput, known).value;
    while i < |enumOutput|
      invariant 0 <= i <= |enumOutput|
      invariant Scan(enumOutput, known) == Prepend(oemDrivers, ScanFrom(enumOutput, known, i))
    {
      var infMatch := InfMatch(enumOutput[i]);
      if infMatch.Some? {
        var infName := infMatch.value;
        if i + 1 >= |enumOutput| {
          return Err(IndexOutOfRange(i + 1));
        }
        var driverName := DriverGroup(enumOutput[i + 1]);
        if driverName in known {
          StepRecord(enumOutput, known, i, oemDrivers);
          oemDrivers := oemDrivers + [IndexedInf(i, driverName, infName)];
        } else {
          StepNoRecord(enumOutput, known, i, oemDrivers);
        }
      } else {
        StepNoRecord(enumOutput, known, i, oemDrivers);
      }
      i := i + 1;
    }
    assert oemDrivers + [] == oemDrivers;
    return Ok(oemDrivers);
  }

  /** `done` found so far, followed by what the rest of the scan yields. */
  function Prepend(done: seq<IndexedInf>, rest: Result<seq<IndexedInf>, ScanError>): Result<seq<IndexedInf>, ScanError> {
    if rest.Ok? then Ok(done + rest.value) else rest
  }

  lemma StepNoRecord(lines: seq<Line>, known: set<string>, i: nat, done: seq<IndexedInf>)
    requires i < |lines|
    requires InfMatch(lines[i]).None? || (i + 1 < |lines| && DriverGroup(lines[i + 1]) !in known)
    ensures Prepend(done, ScanFrom(lines, known, i)) == Prepend(done, ScanFrom(lines, known, i + 1))
  {
  }

  lemma StepRecord(lines: seq<Line>, known: set<string>, i: nat, done: seq<IndexedInf>)
    requires i + 1 < |lines| && InfMatch(lines[i]).Some? && DriverGroup(lines[i + 1]) in known
    ensures Prepend(done, ScanFrom(lines, known, i))
         == Prepend(done + [IndexedInf(i, DriverGroup(lines[i + 1]), InfMatch(lines[i]).value)], ScanFrom(lines, known, i + 1))
  {
    var rest := ScanFrom(lines, known, i + 1);
    var x := IndexedInf(i, DriverGroup(lines[i + 1]), InfMatch(lines[i]).value);
    if rest.Ok? {
      assert done + ([x] + rest.value) == (done + [x]) + rest.value;
    }
  }
}
