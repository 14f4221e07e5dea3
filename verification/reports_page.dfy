/** The reports page (pages/ReportsPage.tsx): the checkbox selection of saved influencers
    and the export of the selected ones as CSV text or as the PDF placeholder. */
module ReportsPage {
  import opened Wrappers
  import opened Model
  import opened Text
  import Seqs
  import AppState

  /** The English fallback texts of the export toasts. */
  const NoDataDefault: string := "No data selected to export."
  const CsvExportedDefault: string := "CSV report exported successfully!"
  const PdfMockDefault: string := "PDF generation is a premium feature (mock)."
  const NoneSelectedDefault: string := "Please select influencers to export."

  /** `handleCheckboxChange(id)`: a ticked id is unticked, an unticked one is added at the end. */
  function ToggleSelection(selected: seq<string>, id: string): (r: seq<string>)
    ensures id in r <==> id !in selected
    ensures forall other :: other != id ==> (other in r <==> other in selected)
    ensures id !in selected ==> r == selected + [id]
    ensures Seqs.NoDuplicates(selected) ==> Seqs.NoDuplicates(r)
  {
    assert Seqs.NoDuplicates(selected) ==> Seqs.NoDuplicates(Seqs.Toggle(selected, id)) by {
      if Seqs.NoDuplicates(selected) {
        Seqs.ToggleKeepsNoDuplicates(selected, id);
      }
    }
    Seqs.Toggle(selected, id)
  }

  /** Ticking the same box twice gives back the same selection. */
  lemma ToggleSelectionTwice(selected: seq<string>, id: string)
    ensures forall other :: other in ToggleSelection(ToggleSelection(selected, id), id) <==> other in selected
    ensures id !in selected ==> ToggleSelection(ToggleSelection(selected, id), id) == selected
  {
    Seqs.ToggleTwice(selected, id);
  }

  /** The saved influencers whose id is ticked, in the order of the saved list. */
  function ExportSelection(saved: seq<Influencer>, selected: seq<string>): (r: seq<Influencer>)
    ensures forall x :: x in r <==> x in saved && x.id in selected
    ensures Seqs.Sublist(r, saved)
    ensures |r| <= |saved|
    ensures forall x :: multiset(r)[x] == if x.id in selected then multiset(saved)[x] else 0
  {
    Seqs.Filter(saved, (x: Influencer) => x.id in selected)
  }

  /** The prefix that makes the CSV text a data URI. */
  const CsvPrefix: string := "data:text/csv;charset=utf-8,"

  const CsvHeaders: seq<string> := ["ID", "Name", "Platform", "Followers", "Engagement Rate", "Niche"]

  /** The six exported properties of one influencer, in column order. */
  function CsvFields(inf: Influencer): seq<string> {
    [inf.id, inf.name, PlatformName(inf.platform), inf.followers, inf.engagementRate, inf.niche]
  }

  /** One data line: the fields joined by bare commas, nothing quoted. */
  function CsvRow(inf: Influencer): string {
    Join(CsvFields(inf), ",")
  }

  /** One data line per influencer, in order. */
  function Rows(data: seq<Influencer>): (r: seq<string>)
    ensures |r| == |data|
    ensures forall i :: 0 <= i < |data| ==> r[i] == CsvRow(data[i])
  {
    seq(|data|, i requires 0 <= i < |data| => CsvRow(data[i]))
  }

  /** The header line and then one line per influencer, separated by newlines. */
  function CsvBody(data: seq<Influencer>): string {
    Join([Join(CsvHeaders, ",")] + Rows(data), "\n")
  }

  lemma PlatformNamePlain(p: Platform)
    ensures ',' !in PlatformName(p) && '\n' !in PlatformName(p)
  {
  }

  /** A row reads back as its six fields when no field holds a comma. */
  lemma CsvRowColumns(inf: Influencer)
    requires ',' !in inf.id && ',' !in inf.name && ',' !in inf.followers
    requires ',' !in inf.engagementRate && ',' !in inf.niche
    ensures Split(CsvRow(inf), ',') == CsvFields(inf)
    ensures |Split(CsvRow(inf), ',')| == 6
  {
    PlatformNamePlain(inf.platform);
    SplitJoin(CsvFields(inf), ',');
  }

  /** Without quoting, every comma inside a field becomes one more column. */
  lemma CsvRowExtraColumns(inf: Influencer)
    ensures |Split(CsvRow(inf), ',')| == 6 + CountAll(CsvFields(inf), ',')
  {
    CountJoin(CsvFields(inf), ',');
  }

  /** With no newline inside a field, the body has one line for the header and one per influencer. */
  lemma CsvBodyLines(data: seq<Influencer>)
    requires forall i :: 0 <= i < |data| ==>
               '\n' !in data[i].id && '\n' !in data[i].name && '\n' !in data[i].followers &&
               '\n' !in data[i].engagementRate && '\n' !in data[i].niche
    ensures Split(CsvBody(data), '\n') == [Join(CsvHeaders, ",")] + Rows(data)
    ensures |Split(CsvBody(data), '\n')| == |data| + 1
  {
    var header := Join(CsvHeaders, ",");
    var rows := Rows(data);
    var lines := [header] + rows;
    HeaderColumns();
    RowsPlain(data);
    forall k | 0 <= k < |lines|
      ensures '\n' !in lines[k]
    {
      if k > 0 {
        assert lines[k] == rows[k - 1];
      }
    }
    SplitJoin(lines, '\n');
    assert "\n" == ['\n'];
  }

  lemma RowsPlain(data: seq<Influencer>)
    requires forall i :: 0 <= i < |data| ==>
               '\n' !in data[i].id && '\n' !in data[i].name && '\n' !in data[i].followers &&
               '\n' !in data[i].engagementRate && '\n' !in data[i].niche
    ensures forall i :: 0 <= i < |data| ==> '\n' !in Rows(data)[i]
  {
    forall i | 0 <= i < |data|
      ensures '\n' !in CsvRow(data[i])
    {
      PlatformNamePlain(data[i].platform);
      NoCharInJoin(CsvFields(data[i]), ',', '\n');
    }
  }

  /** The header line reads back as the six column names and holds no newline. */
  lemma HeaderColumns()
    ensures Split(Join(CsvHeaders, ","), ',') == CsvHeaders
    ensures '\n' !in Join(CsvHeaders, ",")
  {
    HeadersPlain();
    SplitJoin(CsvHeaders, ',');
    NoCharInJoin(CsvHeaders, ',', '\n');
  }

  lemma HeadersPlain()
    ensures forall i :: 0 <= i < |CsvHeaders| ==> ',' !in CsvHeaders[i] && '\n' !in CsvHeaders[i]
  {
    forall i | 0 <= i < |CsvHeaders|
      ensures ',' !in CsvHeaders[i] && '\n' !in CsvHeaders[i]
    {
      var h := CsvHeaders[i];
      assert forall k :: 0 <= k < |h| ==> h[k] != ',' && h[k] != '\n';
    }
  }

  /** A join with a separator other than `d` has `d` only where a piece has it. */
  lemma {:induction false} NoCharInJoin(xs: seq<string>, c: char, d: char)
    requires c != d
    requires forall i :: 0 <= i < |xs| ==> d !in xs[i]
    ensures d !in Join(xs, [c])
    decreases |xs|
  {
    if |xs| > 1 {
      NoCharInJoin(xs[1..], c, d);
    }
  }

  /** `generateCSV(data)`: nothing and a warning for no data, otherwise the CSV text and a success toast. */
  function GenerateCsv(ctx: AppState.State, data: seq<Influencer>, ms: nat): (r: AppState.Outcome<Option<string>>)
    ensures |r.emitted| == 1
    ensures |data| == 0 ==> r.value.None? && r.emitted[0].kind == Warning
    ensures |data| == 0 ==>
              r.emitted[0].message == AppState.T(ctx, "noDataToExport", [("default", NoDataDefault)])
    ensures |data| > 0 ==> r.value == Some(CsvPrefix + CsvBody(data)) && r.emitted[0].kind == Success
    ensures |data| > 0 ==>
              r.emitted[0].message == AppState.T(ctx, "csvExported", [("default", CsvExportedDefault)])
  {
    if |data| == 0 then
      AppState.Outcome(None, [AppState.NewToast(AppState.T(ctx, "noDataToExport", [("default", NoDataDefault)]), Warning, ms)])
    else
      AppState.Outcome(Some(CsvPrefix + CsvBody(data)),
                       [AppState.NewToast(AppState.T(ctx, "csvExported", [("default", CsvExportedDefault)]), Success, ms)])
  }

  /** `generatePDF(data)`: only a toast; a warning for no data, otherwise the premium-feature notice. */
  function GeneratePdf(ctx: AppState.State, data: seq<Influencer>, ms: nat): (r: seq<ToastMessage>)
    ensures |r| == 1
    ensures r[0].kind == if |data| == 0 then Warning else Info
    ensures |data| == 0 ==> r[0].message == AppState.T(ctx, "noDataToExport", [("default", NoDataDefault)])
    ensures |data| > 0 ==> r[0].message == AppState.T(ctx, "pdfGenerationMock", [("default", PdfMockDefault)])
    ensures r[0].id == Stamp(ms)
  {
    if |data| == 0 then
      [AppState.NewToast(AppState.T(ctx, "noDataToExport", [("default", NoDataDefault)]), Warning, ms)]
    else
      [AppState.NewToast(AppState.T(ctx, "pdfGenerationMock", [("default", PdfMockDefault)]), Info, ms)]
  }

  datatype Format = Csv | Pdf

  /** `handleExport(format)`: an empty selection only warns; otherwise the chosen generator runs on it. */
  function HandleExport(ctx: AppState.State, selected: seq<string>, format: Format, ms: nat)
    : (r: AppState.Outcome<Option<string>>)
    ensures |r.emitted| == 1
    ensures |ExportSelection(ctx.saved, selected)| == 0 ==>
              r.value.None? && r.emitted[0].kind == Warning &&
              r.emitted[0].message == AppState.T(ctx, "noInfluencersSelectedForExport",
                                                 [("default", NoneSelectedDefault)])
    ensures r.value.Some? <==> format == Csv && |ExportSelection(ctx.saved, selected)| > 0
    ensures r.value.Some? ==> r.value.value == CsvPrefix + CsvBody(ExportSelection(ctx.saved, selected))
    ensures |ExportSelection(ctx.saved, selected)| > 0 ==> r.emitted[0].kind == (if format == Csv then Success else Info)
  {
    var data := ExportSelection(ctx.saved, selected);
    if |data| == 0 then
      var message := AppState.T(ctx, "noInfluencersSelectedForExport", [("default", NoneSelectedDefault)]);
      AppState.Outcome(None, [AppState.NewToast(message, Warning, ms)])
    else if format == Csv then GenerateCsv(ctx, data, ms)
    else AppState.Outcome(None, GeneratePdf(ctx, data, ms))
  }
}
