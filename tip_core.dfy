/**
 * The analysis-selection state of the TIP-for-PATLIBs notebook, the widget
 * callbacks that change it, the validation of custom IPC/CPC input and the
 * small helpers used by the result display and the exporter.
 */
module TipCore {
  import opened Base
  import opened Text

  // ---------------------------------------------------------------------
  // Selection values and their read-only views
  // ---------------------------------------------------------------------

  /** The value of every field of an `AnalysisState` at one moment. */
  datatype Selection = Selection(
    country: Option<string>,
    region: Option<string>,
    techMode: string,
    techField: Option<int>,
    ipcCodes: seq<string>,
    yearStart: int,
    yearEnd: int,
    smeFilter: bool)
  {
    /** `is_valid()`: a country, and a technology field or at least one code, must be chosen. */
    function IsValid(): (r: (bool, string))
      ensures country.None? ==> r == (false, "Please select a country")
      ensures r.0 <==> country.Some? && (if techMode == "field" then techField.Some? else ipcCodes != [])
      ensures r.0 ==> r.1 == "Ready"
      ensures country.Some? && techMode == "field" && techField.None? ==>
                r == (false, "Please select a technology field")
      ensures country.Some? && techMode != "field" && ipcCodes == [] ==>
                r == (false, "Please enter at least one IPC/CPC code")
    {
      if country.None? then (false, "Please select a country")
      else if techMode == "field" && techField.None? then (false, "Please select a technology field")
      else if techMode != "field" && ipcCodes == [] then (false, "Please enter at least one IPC/CPC code")
      else (true, "Ready")
    }

    /** The text after the technology emoji of the summary. */
    function TechLine(): string {
      if techMode == "field" then
        TechnologyLabel
        + (if techField.Some? && techField.value != 0 then "Field " + IntToString(techField.value) else "Not selected")
      else
        IpcLabel + (if ipcCodes != [] then Join(ipcCodes, ", ") else "None entered")
    }

    function PeriodLine(): string {
      PeriodLabel + IntToString(yearStart) + "-" + IntToString(yearEnd)
    }

    /** The lines of `summary()`, in display order. */
    function SummaryLines(): seq<string> {
      [CountryLabel + OrElse(country, "Not selected"),
       RegionLabel + OrElse(region, "All regions"),
       TechLine(),
       PeriodLine()]
      + (if smeFilter then [SmeLine] else [])
    }

    /** `summary()`: the selection as newline-separated lines, country first. */
    function Summary(): (r: string)
      ensures (CountryLabel + OrElse(country, "Not selected")) <= r
      ensures EndsWith(r, if smeFilter then SmeLine else PeriodLine())
    {
      JoinEnds(SummaryLines(), "\n");
      Join(SummaryLines(), "\n")
    }
  }

  const CountryLabel := "\U{1F4CD} Country: "
  const RegionLabel := "\U{1F5FA}\U{FE0F} Region: "
  const TechnologyLabel := "\U{1F52C} Technology: "
  const IpcLabel := "\U{1F52C} IPC/CPC: "
  const PeriodLabel := "\U{1F4C5} Period: "
  const SmeLine := "\U{1F3E2} SME Focus: Yes (<100 applications)"

  /** The dataclass defaults of `AnalysisState`. */
  const DefaultSelection := Selection(None, None, "field", None, [], 2019, 2023, false)

  /** A string that fits on one summary line. */
  predicate SingleLine(s: string) { '\n' !in s }

  predicate SingleLineOption(o: Option<string>) { o.Some? ==> SingleLine(o.value) }

  /** The decimal text of a number never holds a newline or an underscore. */
  lemma IntTextPlain(i: int)
    ensures '\n' !in IntToString(i) && '_' !in IntToString(i)
  {
    var s := IntToString(i);
    assert forall k :: 0 <= k < |s| ==> s[k] != '\n' && s[k] != '_';
  }

  /** None of the fixed texts of the summary holds a newline. */
  lemma LabelsSingleLine()
    ensures SingleLine(CountryLabel) && SingleLine(RegionLabel) && SingleLine(TechnologyLabel)
    ensures SingleLine(IpcLabel) && SingleLine(PeriodLabel)
  {
    NoNewline(CountryLabel);
    NoNewline(RegionLabel);
    NoNewline(TechnologyLabel);
    NoNewline(IpcLabel);
    NoNewline(PeriodLabel);
  }

  /** Nor do the fallback texts and the SME line. */
  lemma FallbacksSingleLine()
    ensures SingleLine(SmeLine)
    ensures SingleLine("Not selected") && SingleLine("All regions") && SingleLine("None entered")
  {
    NoNewline(SmeLine);
    NoNewline("Not selected");
    NoNewline("All regions");
    NoNewline("None entered");
  }

  /** A text made only of characters from the space onwards holds no newline. */
  lemma NoNewline(s: string)
    requires forall k :: 0 <= k < |s| ==> s[k] >= ' '
    ensures SingleLine(s)
  {
  }

  /** A list joined with `", "` holds a newline only if one of its items does. */
  lemma {:induction false} JoinKeepsSingleLine(items: seq<string>)
    requires forall k :: 0 <= k < |items| ==> SingleLine(items[k])
    ensures SingleLine(Join(items, ", "))
    decreases |items|
  {
    if |items| >= 2 {
      JoinKeepsSingleLine(items[1..]);
      assert items[0] + ", " + Join(items[1..], ", ") == Join(items, ", ");
    }
  }

  lemma TechLineSingle(sel: Selection)
    requires forall k :: 0 <= k < |sel.ipcCodes| ==> SingleLine(sel.ipcCodes[k])
    ensures SingleLine(sel.TechLine())
  {
    LabelsSingleLine();
    FallbacksSingleLine();
    if sel.techMode == "field" {
      var shown := if sel.techField.Some? && sel.techField.value != 0
                   then "Field " + IntToString(sel.techField.value) else "Not selected";
      if sel.techField.Some? {
        IntTextPlain(sel.techField.value);
      }
      assert SingleLine(shown);
      assert sel.TechLine() == TechnologyLabel + shown;
    } else {
      var shown := if sel.ipcCodes != [] then Join(sel.ipcCodes, ", ") else "None entered";
      JoinKeepsSingleLine(sel.ipcCodes);
      assert SingleLine(shown);
      assert sel.TechLine() == IpcLabel + shown;
    }
  }

  /** No summary line holds a newline when no chosen value does. */
  lemma SummaryLinesSingle(sel: Selection)
    requires SingleLineOption(sel.country) && SingleLineOption(sel.region)
    requires forall k :: 0 <= k < |sel.ipcCodes| ==> SingleLine(sel.ipcCodes[k])
    ensures forall k :: 0 <= k < |sel.SummaryLines()| ==> SingleLine(sel.SummaryLines()[k])
  {
    LabelsSingleLine();
    FallbacksSingleLine();
    var country := CountryLabel + OrElse(sel.country, "Not selected");
    var region := RegionLabel + OrElse(sel.region, "All regions");
    assert SingleLine(country);
    assert SingleLine(region);
    TechLineSingle(sel);
    IntTextPlain(sel.yearStart);
    IntTextPlain(sel.yearEnd);
    assert SingleLine(sel.PeriodLine());
    var lines := [country, region, sel.TechLine(), sel.PeriodLine()] + (if sel.smeFilter then [SmeLine] else []);
    assert lines == sel.SummaryLines();
    assert forall k :: 0 <= k < |lines| ==> SingleLine(lines[k]);
  }

  /**
   * When no chosen value spans several lines, splitting the summary at its
   * newlines gives back exactly the summary lines, so each selection is
   * shown on a line of its own.
   */
  lemma SummaryReadBack(sel: Selection)
    requires SingleLineOption(sel.country) && SingleLineOption(sel.region)
    requires forall k :: 0 <= k < |sel.ipcCodes| ==> SingleLine(sel.ipcCodes[k])
    ensures Split(sel.Summary(), '\n') == sel.SummaryLines()
  {
    SummaryLinesSingle(sel);
    SplitJoin(sel.SummaryLines(), '\n');
  }

  /** The opening tag of the summary panel. */
  const PanelOpen := "<div style=\"background: #f8f9fa; padding: 10px; border-radius: 5px; border-left: 3px solid #007bff;\">"

  /** `_update_summary_panel`'s HTML: the summary with every newline turned into `<br>`. */
  function SummaryHtml(summary: string): (html: string)
    ensures '\n' !in summary ==> html == PanelOpen + summary + "</div>"
  {
    ReplaceCharFixes(summary, '\n', "<br>");
    PanelOpen + ReplaceChar(summary, '\n', "<br>") + "</div>"
  }

  /** The summary panel shows the summary lines separated by `<br>`. */
  lemma SummaryPanelShowsLines(sel: Selection)
    requires SingleLineOption(sel.country) && SingleLineOption(sel.region)
    requires forall k :: 0 <= k < |sel.ipcCodes| ==> SingleLine(sel.ipcCodes[k])
    ensures SummaryHtml(sel.Summary()) == PanelOpen + Join(sel.SummaryLines(), "<br>") + "</div>"
  {
    SummaryLinesSingle(sel);
    ReplaceCharJoin(sel.SummaryLines(), '\n', "<br>");
  }

  /** The validation message widget's HTML for an `is_valid()` verdict. */
  function ValidationHtml(verdict: (bool, string)): string {
    if verdict.0 then "" else "<span style=\"color: #dc3545;\">\U{26A0}\U{FE0F} " + verdict.1 + "</span>"
  }

  // ---------------------------------------------------------------------
  // The mutable state object shared by the widgets
  // ---------------------------------------------------------------------

  /** `AnalysisState`: one object, shared by every widget callback and updated in place. */
  class AnalysisState {
    var country: Option<string>
    var region: Option<string>
    var techMode: string
    var techField: Option<int>
    var ipcCodes: seq<string>
    var yearStart: int
    var yearEnd: int
    var smeFilter: bool

    function Current(): Selection
      reads this
    {
      Selection(country, region, techMode, techField, ipcCodes, yearStart, yearEnd, smeFilter)
    }

    /** Every field back to its dataclass default, as the reset button does it. */
    method Reset()
      modifies this
      ensures Current() == DefaultSelection
    {
      country := None;
      region := None;
      techMode := "field";
      techField := None;
      ipcCodes := [];
      yearStart := 2019;
      yearEnd := 2023;
      smeFilter := false;
    }

    /** A new state holds the dataclass defaults. */
    constructor ()
      ensures Current() == DefaultSelection
    {
      country := None;
      region := None;
      techMode := "field";
      techField := None;
      ipcCodes := [];
      yearStart := 2019;
      yearEnd := 2023;
      smeFilter := false;
    }
  }

  // ---------------------------------------------------------------------
  // IPC/CPC input validation
  // ---------------------------------------------------------------------

  /** `^[A-H]\d{2}[A-Z]?$`: a section letter, two class digits and an optional subclass letter. */
  predicate IsIpcCode(code: string)
    ensures IsIpcCode(code) ==> Trimmed(code) && ',' !in code
  {
    (|code| == 3 || |code| == 4)
    && 'A' <= code[0] <= 'H' && IsDigit(code[1]) && IsDigit(code[2])
    && (|code| == 4 ==> IsAsciiUpper(code[3]))
  }

  /** `[c.strip().upper() for c in pieces if c.strip()]` */
  function NormalizeCodes(pieces: seq<string>): (codes: seq<string>)
    ensures |codes| <= |pieces|
    decreases |pieces|
  {
    if pieces == [] then []
    else (if Strip(pieces[0]) != [] then [Upper(Strip(pieces[0]))] else []) + NormalizeCodes(pieces[1..])
  }

  /** The outcome of `_validate_ipc_codes`: the accepted codes, the flag and the feedback HTML. */
  datatype IpcCheck = IpcCheck(codes: seq<string>, valid: bool, message: string)

  const InvalidFormatHtml := "<span style=\"color: red;\">\U{2717} Invalid format</span>"
  const TooManyCodesHtml := "<span style=\"color: orange;\">\U{26A0} Maximum 5 codes (showing first 5)</span>"

  /**
   * `_validate_ipc_codes`: split at commas, trim and upper-case every
   * non-blank piece, keep those with the IPC shape, at most five of them.
   */
  function ValidateIpcCodes(inputText: string): (r: IpcCheck)
    ensures AllSpace(inputText) ==> r == IpcCheck([], false, "")
    ensures |r.codes| <= 5
    ensures forall k :: 0 <= k < |r.codes| ==> IsIpcCode(r.codes[k])
    ensures r.valid <==> r.codes != []
    ensures r.message == "" ==> !r.valid
  {
    if AllSpace(inputText) then IpcCheck([], false, "")
    else
      var codes := NormalizeCodes(Split(inputText, ','));
      var valid := Filter(codes, IsIpcCode);
      var invalid := Filter(codes, c => !IsIpcCode(c));
      var kept := Take(valid, 5);
      if codes == [] then IpcCheck([], false, "")
      else if invalid != [] && valid == [] then IpcCheck([], false, InvalidFormatHtml)
      else if invalid != [] then
        IpcCheck(kept, true, "<span style=\"color: orange;\">\U{26A0} " + IntToString(|kept|) + " valid, "
                             + IntToString(|invalid|) + " invalid</span>")
      else if |valid| > 5 then IpcCheck(kept, true, TooManyCodesHtml)
      else
        assert codes[0] in valid;
        IpcCheck(kept, true, "<span style=\"color: green;\">\U{2713} Valid (" + IntToString(|kept|) + " code"
                             + (if |kept| > 1 then "s" else "") + ")</span>")
  }

  /** A comma-separated piece that names a valid code once trimmed and upper-cased. */
  predicate ValidPiece(piece: string) {
    IsIpcCode(Upper(Strip(piece)))
  }

  /** The valid codes of the normalised pieces: the first piece's code, if valid, then the rest's. */
  lemma FilterNormalizeStep(pieces: seq<string>)
    requires pieces != []
    ensures Filter(NormalizeCodes(pieces), IsIpcCode)
            == (if ValidPiece(pieces[0]) then [Upper(Strip(pieces[0]))] else []) + Filter(NormalizeCodes(pieces[1..]), IsIpcCode)
  {
    var stripped := Strip(pieces[0]);
    var code := Upper(stripped);
    var head := if stripped != [] then [code] else [];
    var tail := NormalizeCodes(pieces[1..]);
    assert NormalizeCodes(pieces) == head + tail;
    FilterAppend(head, tail, IsIpcCode);
    if stripped != [] {
      assert head[1..] == [];
    }
  }

  /** Some normalised piece is a valid code exactly when some piece, trimmed and upper-cased, is one. */
  lemma {:induction false} NormalizedValidIff(pieces: seq<string>)
    ensures Filter(NormalizeCodes(pieces), IsIpcCode) == [] <==> forall j :: 0 <= j < |pieces| ==> !ValidPiece(pieces[j])
    decreases |pieces|
  {
    if pieces != [] {
      var all := Filter(NormalizeCodes(pieces), IsIpcCode);
      var rest := Filter(NormalizeCodes(pieces[1..]), IsIpcCode);
      FilterNormalizeStep(pieces);
      if ValidPiece(pieces[0]) {
        assert |all| == 1 + |rest|;
      } else {
        assert all == rest;
        NormalizedValidIff(pieces[1..]);
        assert forall j :: 1 <= j < |pieces| ==> pieces[j] == pieces[1..][j - 1];
      }
    }
  }

  /** Every piece of a blank text is blank. */
  lemma {:induction false} SplitKeepsBlank(s: string, sep: char)
    requires AllSpace(s)
    ensures forall k :: 0 <= k < |Split(s, sep)| ==> AllSpace(Split(s, sep)[k])
    decreases |s|
  {
    if s != [] {
      SplitKeepsBlank(s[1..], sep);
    }
  }

  /**
   * The codes `_validate_ipc_codes` returns are the first five valid codes
   * in input order, and the flag is false exactly when no piece of the
   * input is a valid code.
   */
  lemma ValidateIpcCodesKeepsFirstFive(inputText: string)
    ensures ValidateIpcCodes(inputText).codes == FirstMatching(NormalizeCodes(Split(inputText, ',')), IsIpcCode, 5)
    ensures ValidateIpcCodes(inputText).valid <==>
              exists j :: 0 <= j < |Split(inputText, ',')| && ValidPiece(Split(inputText, ',')[j])
  {
    var pieces := Split(inputText, ',');
    FilterThenTake(NormalizeCodes(pieces), IsIpcCode, 5);
    NormalizedValidIff(pieces);
    AcceptedCodes(inputText);
  }

  /** The accepted codes are the first five valid ones, also for a blank input. */
  lemma AcceptedCodes(inputText: string)
    ensures ValidateIpcCodes(inputText).codes == Take(Filter(NormalizeCodes(Split(inputText, ',')), IsIpcCode), 5)
  {
    var pieces := Split(inputText, ',');
    var valid := Filter(NormalizeCodes(pieces), IsIpcCode);
    if AllSpace(inputText) {
      SplitKeepsBlank(inputText, ',');
      BlankPiecesVanish(pieces);
    } else if valid == [] {
      assert Take(valid, 5) == [];
    }
  }

  /** Blank pieces leave no code behind. */
  lemma {:induction false} BlankPiecesVanish(pieces: seq<string>)
    requires forall j :: 0 <= j < |pieces| ==> AllSpace(pieces[j])
    ensures NormalizeCodes(pieces) == []
    decreases |pieces|
  {
    if pieces != [] {
      assert Strip(pieces[0]) == [];
      BlankPiecesVanish(pieces[1..]);
    }
  }

  // ---------------------------------------------------------------------
  // The widget factory and its callbacks
  // ---------------------------------------------------------------------

  const FastQueryTip := "<span style=\"color: #28a745;\">\U{26A1} Fast query (~10 sec)</span>"
  const MediumQueryTip := "<span style=\"color: #ffc107;\">\U{23F1}\U{FE0F} Medium query (~30 sec)</span>"
  const LargeQueryTip := "<span style=\"color: #dc3545;\">\U{1F422} Large query (~2 min)</span>"

  /** `_get_performance_tip_text`: up to 5 years is fast, up to 10 medium, longer spans large. */
  function PerformanceTipText(yearSpan: int): (tip: string)
    ensures tip == FastQueryTip <==> yearSpan <= 5
    ensures tip == MediumQueryTip <==> 5 < yearSpan <= 10
    ensures tip == LargeQueryTip <==> 10 < yearSpan
  {
    assert FastQueryTip[21] != MediumQueryTip[21] && FastQueryTip[21] != LargeQueryTip[21]
      && MediumQueryTip[21] != LargeQueryTip[21];
    if yearSpan <= 5 then FastQueryTip
    else if yearSpan <= 10 then MediumQueryTip
    else LargeQueryTip
  }

  /**
   * `WidgetFactory`: holds the shared state and the widgets whose values the
   * callbacks rewrite. A widget that has not been created yet is `None`; a
   * created one holds its current value (the run button: its `disabled` flag).
   */
  class WidgetFactory {
    const state: AnalysisState
    var ipcFeedback: Option<string>
    var performanceTip: Option<string>
    var summaryPanel: Option<string>
    var runDisabled: Option<bool>
    var validationMessage: Option<string>

    /** The review widgets show the current state. */
    predicate PanelsCurrent()
      reads this, state
    {
      (summaryPanel.Some? ==> summaryPanel.value == SummaryHtml(state.Current().Summary()))
      && (runDisabled.Some? ==>
            runDisabled.value == !state.Current().IsValid().0
            && (validationMessage.Some? ==> validationMessage.value == ValidationHtml(state.Current().IsValid())))
    }

    /** The performance tip matches the selected year span. */
    predicate TipCurrent()
      reads this, state
    {
      performanceTip.Some? ==> performanceTip.value == PerformanceTipText(state.yearEnd - state.yearStart + 1)
    }

    predicate Valid()
      reads this, state
    {
      PanelsCurrent() && TipCurrent()
    }

    constructor (state: AnalysisState)
      ensures this.state == state
      ensures ipcFeedback.None? && performanceTip.None? && summaryPanel.None?
      ensures runDisabled.None? && validationMessage.None?
      ensures Valid()
    {
      this.state := state;
      ipcFeedback := None;
      performanceTip := None;
      summaryPanel := None;
      runDisabled := None;
      validationMessage := None;
    }

    /** `create_technology_section`: registers the IPC feedback widget, empty. */
    method CreateTechnologySection()
      requires Valid()
      modifies this
      ensures ipcFeedback == Some("")
      ensures performanceTip == old(performanceTip) && summaryPanel == old(summaryPanel)
      ensures runDisabled == old(runDisabled) && validationMessage == old(validationMessage)
      ensures Valid()
    {
      ipcFeedback := Some("");
    }

    /** `create_date_range_section`: registers the performance tip for the current span. */
    method CreateDateRangeSection()
      requires Valid()
      modifies this
      ensures performanceTip == Some(PerformanceTipText(state.yearEnd - state.yearStart + 1))
      ensures ipcFeedback == old(ipcFeedback) && summaryPanel == old(summaryPanel)
      ensures runDisabled == old(runDisabled) && validationMessage == old(validationMessage)
      ensures Valid()
    {
      performanceTip := Some(PerformanceTipText(state.yearEnd - state.yearStart + 1));
    }

    /** `create_review_section`: registers the summary panel, run button and validation message. */
    method CreateReviewSection()
      requires Valid()
      modifies this
      ensures summaryPanel.Some? && runDisabled.Some? && validationMessage.Some?
      ensures runDisabled.value <==> !state.Current().IsValid().0
      ensures ipcFeedback == old(ipcFeedback) && performanceTip == old(performanceTip)
      ensures Valid()
    {
      summaryPanel := Some(SummaryHtml(state.Current().Summary()));
      runDisabled := Some(false);
      validationMessage := Some(ValidationHtml(state.Current().IsValid()));
      UpdateRunButtonState();
    }

    /** `_update_summary_panel`: rewrites the panel when it exists. */
    method UpdateSummaryPanel()
      modifies this
      ensures summaryPanel == if old(summaryPanel).Some? then Some(SummaryHtml(state.Current().Summary())) else None
      ensures ipcFeedback == old(ipcFeedback) && performanceTip == old(performanceTip)
      ensures runDisabled == old(runDisabled) && validationMessage == old(validationMessage)
    {
      if summaryPanel.Some? {
        summaryPanel := Some(SummaryHtml(state.Current().Summary()));
      }
    }

    /** `_update_run_button_state`: nothing without a run button; else enable it exactly when valid. */
    method UpdateRunButtonState()
      modifies this
      ensures old(runDisabled).None? ==> runDisabled.None? && validationMessage == old(validationMessage)
      ensures old(runDisabled).Some? ==>
                runDisabled == Some(!state.Current().IsValid().0)
                && validationMessage == if old(validationMessage).Some?
                                        then Some(ValidationHtml(state.Current().IsValid())) else None
      ensures ipcFeedback == old(ipcFeedback) && performanceTip == old(performanceTip)
      ensures summaryPanel == old(summaryPanel)
    {
      if runDisabled.Some? {
        var verdict := state.Current().IsValid();
        runDisabled := Some(!verdict.0);
        if validationMessage.Some? {
          validationMessage := Some(ValidationHtml(verdict));
        }
      }
    }

    /** Both review updates, as every selection callback ends with them. */
    method RefreshReview()
      requires TipCurrent()
      modifies this
      ensures ipcFeedback == old(ipcFeedback) && performanceTip == old(performanceTip)
      ensures summaryPanel.Some? == old(summaryPanel).Some? && runDisabled.Some? == old(runDisabled).Some?
      ensures validationMessage.Some? == old(validationMessage).Some?
      ensures Valid()
    {
      UpdateSummaryPanel();
      UpdateRunButtonState();
    }

    /** `_on_tech_field_change`: a real field (not `None`, not the `-1` header) selects field mode. */
    method OnTechFieldChange(newValue: Option<int>)
      requires Valid()
      modifies this, state
      ensures newValue.None? || newValue.value == -1 ==> state.Current() == old(state.Current())
      ensures newValue.Some? && newValue.value != -1 ==>
                state.Current() == old(state.Current()).(techField := newValue, techMode := "field")
      ensures ipcFeedback == old(ipcFeedback) && performanceTip == old(performanceTip)
      ensures summaryPanel.Some? == old(summaryPanel).Some? && runDisabled.Some? == old(runDisabled).Some?
      ensures validationMessage.Some? == old(validationMessage).Some?
      ensures Valid()
    {
      if newValue.Some? && newValue.value != -1 {
        state.techField := newValue;
        state.techMode := "field";
        RefreshReview();
      }
    }

    /** `_on_ipc_input_change`: keep the accepted codes, switch to IPC mode when there is one. */
    method OnIpcInputChange(inputText: string)
      requires Valid()
      modifies this, state
      ensures state.Current() == old(state.Current()).(
                ipcCodes := ValidateIpcCodes(inputText).codes,
                techMode := if ValidateIpcCodes(inputText).valid then "ipc" else old(state.techMode))
      ensures ipcFeedback == if old(ipcFeedback).Some? then Some(ValidateIpcCodes(inputText).message) else None
      ensures performanceTip == old(performanceTip)
      ensures summaryPanel.Some? == old(summaryPanel).Some? && runDisabled.Some? == old(runDisabled).Some?
      ensures validationMessage.Some? == old(validationMessage).Some?
      ensures Valid()
    {
      var check := ValidateIpcCodes(inputText);
      if check.valid {
        state.ipcCodes := check.codes;
        state.techMode := "ipc";
      } else {
        state.ipcCodes := [];
      }
      if ipcFeedback.Some? {
        ipcFeedback := Some(check.message);
      }
      RefreshReview();
    }

    /** `_on_tech_mode_change`: entering IPC mode clears the field; leaving it clears the codes. */
    method OnTechModeChange(newMode: string)
      requires Valid()
      modifies this, state
      ensures newMode == "Custom IPC/CPC" ==>
                state.Current() == old(state.Current()).(techMode := "ipc", techField := None)
      ensures newMode != "Custom IPC/CPC" ==>
                state.Current() == old(state.Current()).(techMode := "field", ipcCodes := [])
      ensures ipcFeedback == old(ipcFeedback) && performanceTip == old(performanceTip)
      ensures summaryPanel.Some? == old(summaryPanel).Some? && runDisabled.Some? == old(runDisabled).Some?
      ensures validationMessage.Some? == old(validationMessage).Some?
      ensures Valid()
    {
      if newMode == "Custom IPC/CPC" {
        state.techMode := "ipc";
        state.techField := None;
      } else {
        state.techMode := "field";
        state.ipcCodes := [];
      }
      RefreshReview();
    }

    /** `_on_year_range_change`: store the range and show the tip for its span. */
    method OnYearRangeChange(newStart: int, newEnd: int)
      requires Valid()
      modifies this, state
      ensures state.Current() == old(state.Current()).(yearStart := newStart, yearEnd := newEnd)
      ensures performanceTip == if old(performanceTip).Some? then Some(PerformanceTipText(newEnd - newStart + 1)) else None
      ensures ipcFeedback == old(ipcFeedback)
      ensures summaryPanel.Some? == old(summaryPanel).Some? && runDisabled.Some? == old(runDisabled).Some?
      ensures validationMessage.Some? == old(validationMessage).Some?
      ensures Valid()
    {
      state.yearStart := newStart;
      state.yearEnd := newEnd;
      if performanceTip.Some? {
        performanceTip := Some(PerformanceTipText(newEnd - newStart + 1));
      }
      RefreshReview();
    }

    /** `_on_sme_change` */
    method OnSmeChange(newValue: bool)
      requires Valid()
      modifies this, state
      ensures state.Current() == old(state.Current()).(smeFilter := newValue)
      ensures ipcFeedback == old(ipcFeedback) && performanceTip == old(performanceTip)
      ensures summaryPanel.Some? == old(summaryPanel).Some? && runDisabled.Some? == old(runDisabled).Some?
      ensures validationMessage.Some? == old(validationMessage).Some?
      ensures Valid()
    {
      state.smeFilter := newValue;
      RefreshReview();
    }

    /** `_on_reset_click`: every selection back to its default, the run button disabled. */
    method OnResetClick()
      requires Valid()
      modifies this, state
      ensures state.Current() == DefaultSelection
      ensures ipcFeedback == if old(ipcFeedback).Some? then Some("") else None
      ensures performanceTip == if old(performanceTip).Some? then Some(FastQueryTip) else None
      ensures summaryPanel.Some? == old(summaryPanel).Some? && runDisabled.Some? == old(runDisabled).Some?
      ensures validationMessage.Some? == old(validationMessage).Some?
      ensures runDisabled.Some? ==> runDisabled.value
      ensures Valid()
    {
      state.Reset();
      if ipcFeedback.Some? {
        ipcFeedback := Some("");
      }
      if performanceTip.Some? {
        performanceTip := Some(PerformanceTipText(5));
      }
      RefreshReview();
    }
  }

  // ---------------------------------------------------------------------
  // Display and export helpers
  // ---------------------------------------------------------------------

  /** `truncate_name`: long names keep their first `maxLength - 3` characters and gain `"..."`. */
  function TruncateName(name: Option<string>, maxLength: int): (r: string)
    ensures name.None? || name.value == [] ==> r == ""
    ensures name.Some? && |name.value| <= maxLength ==> r == name.value
    ensures name.Some? && |name.value| > maxLength >= 3 ==>
              |r| == maxLength && name.value[..maxLength - 3] <= r && EndsWith(r, "...")
  {
    if name.Some? && name.value != [] && |name.value| > maxLength then PrefixTo(name.value, maxLength - 3) + "..."
    else OrElse(name, "")
  }

  /** The shape of a result table: a pandas frame is empty when either dimension is zero. */
  datatype Frame = Frame(rows: nat, columns: nat)

  predicate HasCells(f: Option<Frame>) { f.Some? && f.value.rows > 0 && f.value.columns > 0 }

  /** `_is_zero_results`: neither the trend nor the applicant table has any cell. */
  function IsZeroResults(trend: Option<Frame>, applicants: Option<Frame>): (r: bool)
    ensures r <==> !HasCells(trend) && !HasCells(applicants)
  {
    var trendEmpty := trend.None? || trend.value.rows == 0 || trend.value.columns == 0;
    var applicantsEmpty := applicants.None? || applicants.value.rows == 0 || applicants.value.columns == 0;
    trendEmpty && applicantsEmpty
  }

  const SmeSuggestion := "Try disabling the SME filter"
  const RegionSuggestion := "Try selecting 'All regions'"
  const IpcSuggestion := "Try using a " + "WIPO Technology Field instead of custom IPC codes"

  function DateRangeSuggestion(span: int): string {
    "Try expanding the date range (currently " + IntToString(span) + " years)"
  }

  /** 1 when `b` holds, else 0: how many hints a condition contributes. */
  function Flag(b: bool): nat { if b then 1 else 0 }

  /** The position a hint takes in the list: date range, SME, region, IPC. */
  function HintRank(span: int, hint: string): nat {
    if hint == DateRangeSuggestion(span) then 0
    else if hint == SmeSuggestion then 1
    else if hint == RegionSuggestion then 2
    else 3
  }

  /** `_generate_suggestions`: one hint per filter that narrows the query, in a fixed order. */
  method GenerateSuggestions(sel: Selection) returns (suggestions: seq<string>)
    ensures var span := sel.yearEnd - sel.yearStart + 1;
            forall k :: 0 <= k < |suggestions| ==>
              suggestions[k] in {DateRangeSuggestion(span), SmeSuggestion, RegionSuggestion, IpcSuggestion}
    ensures (sel.yearStart != 0 && sel.yearEnd != 0 && sel.yearEnd - sel.yearStart + 1 <= 3) <==>
              DateRangeSuggestion(sel.yearEnd - sel.yearStart + 1) in suggestions
    ensures sel.smeFilter <==> SmeSuggestion in suggestions
    ensures sel.region.Some? <==> RegionSuggestion in suggestions
    ensures sel.techMode == "ipc" <==> IpcSuggestion in suggestions
    ensures RankedHints(sel.yearEnd - sel.yearStart + 1, suggestions)
    ensures |suggestions| == Flag(sel.yearStart != 0 && sel.yearEnd != 0 && sel.yearEnd - sel.yearStart + 1 <= 3)
                             + Flag(sel.smeFilter) + Flag(sel.region.Some?) + Flag(sel.techMode == "ipc")
  {
    var span := sel.yearEnd - sel.yearStart + 1;
    var dated := sel.yearStart != 0 && sel.yearEnd != 0 && span <= 3;
    suggestions := AppendIf([], dated, DateRangeSuggestion(span));
    assert suggestions == Hint(dated, DateRangeSuggestion(span));
    suggestions := AppendIf(suggestions, sel.smeFilter, SmeSuggestion);
    suggestions := AppendIf(suggestions, sel.region.Some?, RegionSuggestion);
    suggestions := AppendIf(suggestions, sel.techMode == "ipc", IpcSuggestion);
    assert suggestions == HintList(span, dated, sel.smeFilter, sel.region.Some?, sel.techMode == "ipc");
    HintListMembers(span, dated, sel.smeFilter, sel.region.Some?, sel.techMode == "ipc");
    HintListRanked(span, dated, sel.smeFilter, sel.region.Some?, sel.techMode == "ipc");
  }

  function Hint(cond: bool, hint: string): seq<string> {
    if cond then [hint] else []
  }

  /** The four hints in their order, each present when its condition holds. */
  function HintList(span: int, dated: bool, sme: bool, region: bool, ipc: bool): seq<string> {
    Hint(dated, DateRangeSuggestion(span)) + Hint(sme, SmeSuggestion) + Hint(region, RegionSuggestion)
    + Hint(ipc, IpcSuggestion)
  }

  /** The four hints differ from each other: they already differ in their fifth character. */
  lemma HintsDiffer(span: int)
    ensures HintRank(span, DateRangeSuggestion(span)) == 0 && HintRank(span, SmeSuggestion) == 1
    ensures HintRank(span, RegionSuggestion) == 2 && HintRank(span, IpcSuggestion) == 3
  {
    assert DateRangeSuggestion(span)[4] == 'e';
    assert SmeSuggestion[4] == 'd';
    assert RegionSuggestion[4] == 's';
    assert IpcSuggestion[4] == 'u';
  }

  /** Each hint is in the list exactly when its condition holds, and nothing else is. */
  lemma HintListMembers(span: int, dated: bool, sme: bool, region: bool, ipc: bool)
    ensures var hints := HintList(span, dated, sme, region, ipc);
            (forall k :: 0 <= k < |hints| ==>
               hints[k] in {DateRangeSuggestion(span), SmeSuggestion, RegionSuggestion, IpcSuggestion})
            && (dated <==> DateRangeSuggestion(span) in hints)
            && (sme <==> SmeSuggestion in hints)
            && (region <==> RegionSuggestion in hints)
            && (ipc <==> IpcSuggestion in hints)
  {
    HintsDiffer(span);
  }

  /** The list keeps the fixed order and holds one hint per condition that holds. */
  lemma HintListRanked(span: int, dated: bool, sme: bool, region: bool, ipc: bool)
    ensures RankedHints(span, HintList(span, dated, sme, region, ipc))
    ensures |HintList(span, dated, sme, region, ipc)| == Flag(dated) + Flag(sme) + Flag(region) + Flag(ipc)
  {
    HintsDiffer(span);
    var h0 := Hint(dated, DateRangeSuggestion(span));
    var h1 := h0 + Hint(sme, SmeSuggestion);
    var h2 := h1 + Hint(region, RegionSuggestion);
    RankedAddHint(span, [], dated, DateRangeSuggestion(span));
    assert [] + h0 == h0;
    RankedAddHint(span, h0, sme, SmeSuggestion);
    RankedAddHint(span, h1, region, RegionSuggestion);
    RankedAddHint(span, h2, ipc, IpcSuggestion);
  }

  /** A hint of higher rank than all before it keeps the list ranked. */
  lemma RankedAddHint(span: int, hints: seq<string>, cond: bool, hint: string)
    requires RankedHints(span, hints)
    requires forall k :: 0 <= k < |hints| ==> HintRank(span, hints[k]) < HintRank(span, hint)
    ensures RankedHints(span, hints + Hint(cond, hint))
    ensures forall k :: 0 <= k < |hints + Hint(cond, hint)| ==> HintRank(span, (hints + Hint(cond, hint))[k]) <= HintRank(span, hint)
    ensures |hints + Hint(cond, hint)| == |hints| + Flag(cond)
  {
  }

  /** `if cond: hints.append(hint)` */
  method AppendIf(hints: seq<string>, cond: bool, hint: string) returns (r: seq<string>)
    ensures r == hints + Hint(cond, hint)
  {
    r := hints;
    if cond {
      r := r + [hint];
    }
  }

  /** The hints stand in strictly increasing rank, so none is repeated. */
  predicate RankedHints(span: int, hints: seq<string>) {
    forall i, j :: 0 <= i < j < |hints| ==> HintRank(span, hints[i]) < HintRank(span, hints[j])
  }

  lemma RankedSnoc(span: int, hints: seq<string>, hint: string)
    requires RankedHints(span, hints)
    requires forall k :: 0 <= k < |hints| ==> HintRank(span, hints[k]) < HintRank(span, hint)
    ensures RankedHints(span, hints + [hint])
  {
  }

  /** The technology part of an export file name. */
  function TechTag(sel: Selection): string {
    if sel.techMode == "field" && sel.techField.Some? && sel.techField.value != 0 then
      "field" + IntToString(sel.techField.value)
    else if sel.techMode == "ipc" then "ipc"
    else "all"
  }

  /** The year part of an export file name; a zero year falls back to the default range. */
  function YearsTag(sel: Selection): string {
    IntToString(if sel.yearStart != 0 then sel.yearStart else 2019) + "-"
    + IntToString(if sel.yearEnd != 0 then sel.yearEnd else 2023)
  }

  function FilenameParts(sel: Selection, chartName: Option<string>, timestamp: string): seq<string> {
    FilenameFront(sel) + [timestamp] + (if chartName.Some? && chartName.value != [] then [chartName.value] else [])
  }

  const FilePrefix := "tip4patlibs"

  /** `Exporter.generate_filename`, with the clock reading passed in as `timestamp`. */
  function GenerateFilename(sel: Selection, extension: string, chartName: Option<string>, timestamp: string): (name: string)
    ensures FilePrefix + "_" + OrElse(sel.country, "XX") + "_" <= name
    ensures EndsWith(name, "." + extension)
    ensures EndsWith(name, "_" + timestamp + ChartTag(chartName) + "." + extension)
  {
    FilenameStarts(sel, chartName, timestamp, extension);
    FilenameEnds(sel, chartName, timestamp);
    PrefixOfAppend(Join(FilenameFront(sel), "_"), "", "_" + timestamp + ChartTag(chartName) + "." + extension);
    Join(FilenameParts(sel, chartName, timestamp), "_") + "." + extension
  }

  /** The prefix and the country open the joined parts. */
  lemma FilenameStarts(sel: Selection, chartName: Option<string>, timestamp: string, extension: string)
    ensures var name := Join(FilenameParts(sel, chartName, timestamp), "_") + "." + extension;
            FilePrefix + "_" + OrElse(sel.country, "XX") + "_" <= name && EndsWith(name, "." + extension)
  {
    var parts := FilenameParts(sel, chartName, timestamp);
    JoinFront(parts, "_");
    PrefixOfAppend(parts[0] + "_" + parts[1] + "_", Join(parts[2..], "_"), "." + extension);
  }

  /** The chart part of an export file name, with its separator; none for a missing or empty name. */
  function ChartTag(chartName: Option<string>): string {
    if chartName.Some? && chartName.value != [] then "_" + chartName.value else ""
  }

  function FilenameFront(sel: Selection): seq<string> {
    [FilePrefix, OrElse(sel.country, "XX"), TechTag(sel), YearsTag(sel)]
  }

  /** The timestamp and the chart name close the joined parts. */
  lemma FilenameEnds(sel: Selection, chartName: Option<string>, timestamp: string)
    ensures Join(FilenameParts(sel, chartName, timestamp), "_")
            == Join(FilenameFront(sel), "_") + ("_" + timestamp + ChartTag(chartName))
  {
    var front := FilenameFront(sel);
    JoinSnoc(front, "_", timestamp);
    if chartName.Some? && chartName.value != [] {
      JoinSnoc(front + [timestamp], "_", chartName.value);
    } else {
      assert front + [timestamp] + [] == front + [timestamp];
    }
  }

  /** The fixed prefix, the technology tag and the years hold no underscore. */
  lemma TagsPlain(sel: Selection)
    ensures '_' !in FilePrefix && '_' !in TechTag(sel) && '_' !in YearsTag(sel)
  {
    IntTextPlain(if sel.yearStart != 0 then sel.yearStart else 2019);
    IntTextPlain(if sel.yearEnd != 0 then sel.yearEnd else 2023);
    if sel.techField.Some? {
      IntTextPlain(sel.techField.value);
    }
  }

  /**
   * The first four underscore-separated fields of an export file name are
   * the fixed prefix, the country code, the technology tag and the years,
   * whenever the country code holds no underscore.
   */
  lemma FilenameFields(sel: Selection, extension: string, chartName: Option<string>, timestamp: string)
    requires '_' !in OrElse(sel.country, "XX")
    ensures var fields := Split(GenerateFilename(sel, extension, chartName, timestamp), '_');
            |fields| >= 5 && fields[..4] == [FilePrefix, OrElse(sel.country, "XX"), TechTag(sel), YearsTag(sel)]
  {
    var parts := FilenameParts(sel, chartName, timestamp);
    TagsPlain(sel);
    assert GenerateFilename(sel, extension, chartName, timestamp) == Join(parts, ['_']) + ("." + extension);
    SplitJoinHead(parts, '_', "." + extension, 4);
    assert parts[..4] == [FilePrefix, OrElse(sel.country, "XX"), TechTag(sel), YearsTag(sel)];
  }
}
