/**
 * The report run from the exclusion step to the rendered sheet, in the order the
 * script performs them.
 */
module Pipeline {
  import opened Wrappers
  import Exclusion
  import Telemetry
  import Worksheet

  /**
   * How a run ends: the exclusion step's fatal exit, before the sheet is touched; an
   * error raised while writing the sheet, after the records were classified into
   * `rows`, so that no report is saved; or the rendered sheet holding `rows`.
   */
  datatype Outcome =
    | TagsFailed
    | SheetFailed(rows: seq<Telemetry.Row>)
    | Done(rows: seq<Telemetry.Row>)

  /**
   * Builds the exclusion set, classifies the vehicle records against it and renders
   * the rows into the template sheet.
   */
  method Run(tags: Exclusion.TagResponse, vehicles: seq<Telemetry.Vehicle>, now: int,
             parse: string -> Option<int>, sheet: Worksheet.Sheet, date: string, time: string)
    returns (outcome: Outcome)
    modifies sheet
    ensures outcome.TagsFailed? <==> Exclusion.Build(tags).None?
    ensures outcome.TagsFailed? ==> unchanged(sheet)
    ensures !outcome.TagsFailed? ==>
      outcome.rows == Telemetry.Report(vehicles, Telemetry.Context(Exclusion.Build(tags).value, now, parse))
    ensures outcome.SheetFailed? <==>
      !outcome.TagsFailed? && !Worksheet.Fits(old(sheet.merged), outcome.rows, date, time)
    ensures outcome.Done? ==> forall rg :: rg in sheet.merged <==>
                                (rg in old(sheet.merged) && rg.minRow < Worksheet.StartRow)
                                || rg in Worksheet.PlaceMerges(|outcome.rows|)
    ensures outcome.Done? ==> forall r, c ::
                                sheet.At(r, c) == Worksheet.Rendered(old(sheet.cells), old(sheet.merged), outcome.rows, date, time, r, c)
  {
    var excluded := Exclusion.Build(tags);
    if excluded.None? {
      return TagsFailed;
    }
    var results := Telemetry.Process(vehicles, Telemetry.Context(excluded.value, now, parse));
    if !Worksheet.Fits(sheet.merged, results, date, time) {
      return SheetFailed(results);
    }
    sheet.Render(results, date, time);
    outcome := Done(results);
  }
}
