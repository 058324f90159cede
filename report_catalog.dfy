/**
 * The catalog: the `list<AccidentReport>` that main owns and the free
 * functions that read and change it. The list is a class whose one field
 * the operations loadReports, addReport and sortReports reassign;
 * compareReports is a pure query over the list's contents.
 */
module ReportCatalog {
  import opened Wrappers
  import opened Accident
  import opened ReportCodec
  import opened ReportSort

  // ---------------------------------------------------------------------
  // compareReports
  // ---------------------------------------------------------------------

  ghost predicate HasId(rs: seq<Report>, id: string) {
    exists i :: 0 <= i < |rs| && rs[i].reportId == id
  }

  /** i is the position `find_if` stops at: the first report with this id. */
  ghost predicate IsFirstWithId(rs: seq<Report>, id: string, i: int) {
    0 <= i < |rs| && rs[i].reportId == id && forall k :: 0 <= k < i ==> rs[k].reportId != id
  }

  /** `find_if` on the report id: the first position holding that id, or none. */
  function FindFirst(rs: seq<Report>, id: string): (r: Option<nat>)
    ensures r.None? <==> !HasId(rs, id)
    ensures r.Some? ==> IsFirstWithId(rs, id, r.value)
  {
    if rs == [] then None
    else if rs[0].reportId == id then Some(0)
    else
      match FindFirst(rs[1..], id)
      case None =>
        assert forall i :: 0 < i < |rs| ==> rs[i] == rs[1..][i - 1];
        None
      case Some(k) =>
        assert rs[k + 1] == rs[1..][k];
        assert forall i :: 0 < i <= k ==> rs[i] == rs[1..][i - 1];
        Some(k + 1)
  }

  /** The four messages compareReports can print. */
  datatype Severity = FirstHigher | SecondHigher | Same | NotFound

  /**
   * compareReports: "not found" exactly when either id is absent; otherwise the
   * strict comparison of the first report with each id, first one way, then the
   * other, and "same" when neither cost is greater.
   */
  function Compare(rs: seq<Report>, id1: string, id2: string): (o: Severity)
    ensures o == NotFound <==> !HasId(rs, id1) || !HasId(rs, id2)
    ensures forall i, j :: IsFirstWithId(rs, id1, i) && IsFirstWithId(rs, id2, j) ==>
              (o == FirstHigher <==> MoreSevere(rs[i], rs[j])) &&
              (o == SecondHigher <==> MoreSevere(rs[j], rs[i])) &&
              (o == Same <==> rs[i].damageCost == rs[j].damageCost)
  {
    match (FindFirst(rs, id1), FindFirst(rs, id2))
    case (Some(i), Some(j)) =>
      FirstIsUnique(rs, id1, i);
      FirstIsUnique(rs, id2, j);
      if MoreSevere(rs[i], rs[j]) then FirstHigher
      else if MoreSevere(rs[j], rs[i]) then SecondHigher
      else Same
    case _ => NotFound
  }

  /** There is only one first position. */
  lemma FirstIsUnique(rs: seq<Report>, id: string, i: int)
    requires IsFirstWithId(rs, id, i)
    ensures forall k :: IsFirstWithId(rs, id, k) ==> k == i
  {
  }

  /** Comparing a report with itself always gives "same". */
  lemma CompareWithItself(rs: seq<Report>, id: string)
    requires HasId(rs, id)
    ensures Compare(rs, id, id) == Same
  {
    var i := FindFirst(rs, id).value;
    assert IsFirstWithId(rs, id, i);
  }

  /** Swapping the two ids swaps the two "higher" outcomes. */
  lemma {:induction false} CompareSwapped(rs: seq<Report>, id1: string, id2: string)
    ensures Compare(rs, id2, id1) == match Compare(rs, id1, id2)
                                     case FirstHigher => SecondHigher
                                     case SecondHigher => FirstHigher
                                     case other => other
  {
    var o1, o2 := FindFirst(rs, id1), FindFirst(rs, id2);
    if o1.Some? && o2.Some? {
      assert IsFirstWithId(rs, id1, o1.value) && IsFirstWithId(rs, id2, o2.value);
    }
  }

  // ---------------------------------------------------------------------
  // The list itself
  // ---------------------------------------------------------------------

  /** The messages addReport prints: success, the constructor's error, the file error. */
  datatype AddOutcome = Added | InvalidCost | FileError

  class ReportList {
    var reports: seq<Report>

    /**
     * Every report in the list came through the constructor, so its cost is
     * positive. This is the class invariant: the constructor establishes it and
     * every operation that changes the list keeps it.
     */
    ghost predicate Valid()
      reads this
    {
      AllValid(reports)
    }

    constructor ()
      ensures Valid() && reports == []
    {
      reports := [];
    }

    /**
     * loadReports: `file` is the text of the file, or None when it cannot be
     * opened. The reports read from it are appended after the ones already
     * in the list.
     */
    method Load(file: Option<string>)
      requires Valid()
      modifies this
      ensures Valid()
      ensures file.None? ==> reports == old(reports)
      ensures file.Some? ==> reports == old(reports) + LoadedFrom(file.value)
    {
      if file.None? {
        return;
      }
      var rest := file.value;
      while true
        invariant Valid()
        invariant reports + LoadedFrom(rest) == old(reports) + LoadedFrom(file.value)
        decreases |rest|
      {
        var id := ReadField(rest);
        if id.None? { break; }
        var vnum := ReadField(id.value.rest);
        if vnum.None? { break; }
        var loc := ReadField(vnum.value.rest);
        if loc.None? { break; }
        var cost := ReadCost(loc.value.rest);
        if cost.None? { break; }
        ghost var before := rest;
        rest := Ignore(cost.value.rest);
        var made := NewReport(id.value.got, vnum.value.got, loc.value.got, cost.value.got);
        LoadedFromStep(before, Report(id.value.got, vnum.value.got, loc.value.got, cost.value.got), rest);
        if made.Ok? {
          SeqAssoc(reports, [made.value], LoadedFrom(rest));
          reports := reports + [made.value];
        }
      }
    }

    /**
     * addReport with the values read from the console. `file` is the log
     * file's text and `opens` says whether it can be opened for appending;
     * `newFile` is its text afterwards. The report is put in the list before
     * the file is written, so a file error leaves it in the list.
     */
    method Add(id: string, vnum: string, loc: string, cost: int, file: string, opens: bool)
      returns (outcome: AddOutcome, newFile: string)
      requires Valid()
      modifies this
      ensures Valid()
      ensures cost <= 0 ==> outcome == InvalidCost && reports == old(reports) && newFile == file
      ensures cost > 0 ==> reports == old(reports) + [Report(id, vnum, loc, cost)]
      ensures cost > 0 && !opens ==> outcome == FileError && newFile == file
      ensures cost > 0 && opens ==> outcome == Added && newFile == file + LogLine(Report(id, vnum, loc, cost))
    {
      var made := NewReport(id, vnum, loc, cost);
      if made.Err? {
        return InvalidCost, file;
      }
      reports := reports + [made.value];
      var written := LogAccident(made.value, file, opens);
      if written.Err? {
        return FileError, file;
      }
      return Added, written.value;
    }

    /**
     * viewReports: one line "No reports found." for an empty list, otherwise
     * the display block of every report, in list order.
     */
    method View() returns (lines: seq<string>)
      ensures reports == [] ==> lines == [NoReports]
      ensures reports != [] ==> |lines| == BlockSize * |reports|
      ensures reports != [] ==> forall i :: 0 <= i < |reports| ==>
                lines[BlockSize * i] == IdLabel + reports[i].reportId &&
                lines[BlockSize * i + 1] == VehicleLabel + reports[i].vehicleNumber &&
                lines[BlockSize * i + 2] == LocationLabel + reports[i].location &&
                lines[BlockSize * i + 3] == CostLabel + ShowInt(reports[i].damageCost) &&
                lines[BlockSize * i + 4] == Separator
    {
      if reports == [] {
        return [NoReports];
      }
      lines := [];
      for n := 0 to |reports|
        invariant |lines| == BlockSize * n
        invariant forall i :: 0 <= i < n ==>
                    lines[BlockSize * i] == IdLabel + reports[i].reportId &&
                    lines[BlockSize * i + 1] == VehicleLabel + reports[i].vehicleNumber &&
                    lines[BlockSize * i + 2] == LocationLabel + reports[i].location &&
                    lines[BlockSize * i + 3] == CostLabel + ShowInt(reports[i].damageCost) &&
                    lines[BlockSize * i + 4] == Separator
      {
        lines := lines + DisplayLines(reports[n]);
      }
    }

    /**
     * sortReports: the list is reordered, highest cost first; it is a
     * permutation of what it was, and reports of equal cost keep their order.
     */
    method Sort()
      requires Valid()
      modifies this
      ensures Valid()
      ensures NonIncreasing(reports)
      ensures multiset(reports) == multiset(old(reports))
      ensures SameTies(old(reports), reports)
    {
      var sorted := SortByCost(reports);
      SortIsNonIncreasing(reports);
      SortIsStable(reports);
      assert forall k :: 0 <= k < |sorted| ==> sorted[k] in multiset(reports);
      reports := sorted;
    }
  }

  const NoReports: string := "No reports found."
}
