/** The order wizard: the form record the steps fill in, the per-step gate
    `validateStep`, the derived sample count and expected yield, and the
    form object whose handlers move between steps and edit the categories,
    the service items and the three sample tables. */
module Wizard {
  import opened Seqs
  import opened Text
  import opened Email
  import opened Categories
  import opened Services
  import opened Sheets

  // ---------------------------------------------------------------- the form

  /** The titles 基本驗證, 基本資訊, 委託內容, 送測樣品, 簽名確認, 預覽提交. */
  const StepCount: nat := 6

  /** The sample type meaning "no samples sent". */
  const NoSampleType: string := "無送樣"
  /** The sample type whose manifest is the two library tables. */
  const LibrarySampleType: string := "Library"
  /** The first entry of the sales-person list, which selects nobody. */
  const NoSalesPerson: string := "請選擇業務人員"

  /** The part of the order form the rules read or write. `signature` is
      `""` while nothing is signed; `sampleCount` is `None` while it still
      holds its initial `''`. */
  datatype FormData = FormData(
    salesCode: string,
    salesPerson: string,
    organization: string,
    contactPerson: string,
    email: string,
    selectedServiceCategories: seq<Category>,
    serviceItems: seq<ServiceItem>,
    sampleType: string,
    librarySampleSheet: seq<Row>,   // libraryInfo.sampleSheet
    libraryDetailSheet: seq<Row>,   // libraryInfo.librarySampleSheet
    sampleInfoSheet: seq<Row>,      // sampleInfo.sampleSheet
    sampleCount: Option<nat>,
    signature: string)

  /** The form as a session starts: one item still reading 請選擇服務類別,
      no samples, one blank row in each table. */
  const InitialForm: FormData := FormData(
    "", "", "", "", "", [], [FreshItem(None)], NoSampleType,
    [BlankRow(LibrarySamples, 1)], [BlankRow(LibraryDetails, 1)], [BlankRow(SampleInfo, 1)],
    None, "")

  /** A table as the form shows it: at least one row, each with the
      columns of its table. */
  predicate SheetReady(sheet: seq<Row>, kind: SheetKind) {
    |sheet| >= 1 && WellFormed(sheet, kind)
  }

  /** What every handler keeps of the form: the selected categories are
      closed under the companion rules and free of repeats, there is at
      least one service item and each has a line, and every table is ready. */
  predicate Consistent(f: FormData) {
    && Closed(f.selectedServiceCategories) && NoDuplicates(f.selectedServiceCategories)
    && |f.serviceItems| >= 1 && EveryItemHasLines(f.serviceItems)
    && SheetReady(f.librarySampleSheet, LibrarySamples)
    && SheetReady(f.libraryDetailSheet, LibraryDetails)
    && SheetReady(f.sampleInfoSheet, SampleInfo)
  }

  /** A session starts from a consistent form. */
  lemma InitialFormConsistent()
    ensures Consistent(InitialForm)
  {
  }

  /** The table of the given kind. */
  function SheetOf(f: FormData, kind: SheetKind): seq<Row> {
    match kind
    case LibrarySamples => f.librarySampleSheet
    case LibraryDetails => f.libraryDetailSheet
    case SampleInfo => f.sampleInfoSheet
  }

  /** The form with the table of the given kind replaced. */
  function WithSheet(f: FormData, kind: SheetKind, sheet: seq<Row>): (r: FormData)
    ensures SheetOf(r, kind) == sheet
    ensures forall other :: other != kind ==> SheetOf(r, other) == SheetOf(f, other)
    ensures r.sampleCount == f.sampleCount && r.sampleType == f.sampleType && r.serviceItems == f.serviceItems
    ensures r.selectedServiceCategories == f.selectedServiceCategories && r.signature == f.signature
    ensures r == f.(librarySampleSheet := SheetOf(r, LibrarySamples),
                    libraryDetailSheet := SheetOf(r, LibraryDetails),
                    sampleInfoSheet := SheetOf(r, SampleInfo))
    ensures Consistent(f) && SheetReady(sheet, kind) ==> Consistent(r)
  {
    match kind
    case LibrarySamples => f.(librarySampleSheet := sheet)
    case LibraryDetails => f.(libraryDetailSheet := sheet)
    case SampleInfo => f.(sampleInfoSheet := sheet)
  }

  // ---------------------------------------------------------------- derived values

  /** The table whose named rows make the sample count for a sample type:
      the library Sample Sheet for `Library`, none for 無送樣, the sample
      information sheet otherwise. */
  function CountedSheet(sampleType: string): Option<SheetKind> {
    if sampleType == LibrarySampleType then Some(LibrarySamples)
    else if sampleType != NoSampleType then Some(SampleInfo)
    else None
  }

  /** `calculateSampleCount`: the rows of the counted table whose name is
      not blank; 0 for 無送樣. */
  function SampleCountOf(f: FormData): nat {
    match CountedSheet(f.sampleType)
    case None => 0
    case Some(kind) => CountNamed(SheetOf(f, kind))
  }

  /** The sample count is bounded by the counted table, is 0 exactly when
      no row of it is named, and is 0 for 無送樣. */
  lemma SampleCountBounds(f: FormData)
    ensures f.sampleType == NoSampleType ==> SampleCountOf(f) == 0
    ensures CountedSheet(f.sampleType).Some? ==>
              var sheet := SheetOf(f, CountedSheet(f.sampleType).value);
              && SampleCountOf(f) <= |sheet|
              && (SampleCountOf(f) == 0 <==> forall i :: 0 <= i < |sheet| ==> !IsNamed(sheet[i]))
  {
    if CountedSheet(f.sampleType).Some? {
      CountNamedBounds(SheetOf(f, CountedSheet(f.sampleType).value));
    }
  }

  /** The yield the manifest asks for; `yieldOf` stands for
      `parseFloat(…) || 0`. */
  function ExpectedSequencing(f: FormData, yieldOf: string -> real): real {
    match CountedSheet(f.sampleType)
    case None => 0.0
    case Some(kind) => TotalYield(SheetOf(f, kind), kind, yieldOf)
  }

  /** `calculateExpectedSequencing`: one `forEach` over the counted table. */
  method CalculateExpectedSequencing(f: FormData, yieldOf: string -> real) returns (total: real)
    ensures total == ExpectedSequencing(f, yieldOf)
    ensures f.sampleType == NoSampleType ==> total == 0.0
  {
    total := 0.0;
    if f.sampleType == LibrarySampleType {
      total := SumYields(f.librarySampleSheet, LibrarySamples, yieldOf);
    } else if f.sampleType != NoSampleType {
      total := SumYields(f.sampleInfoSheet, SampleInfo, yieldOf);
    }
  }

  // ---------------------------------------------------------------- step gates

  /** Why a step refused to advance. */
  datatype StepError =
    | MissingSalesCode                 // 請輸入業務代碼
    | UnknownSalesCode                 // 業務代碼不存在
    | MissingSalesPerson               // 請選擇業務人員
    | MissingRequiredField             // 請填寫所有必填欄位
    | BadEmail                         // Email 格式不正確
    | NoCategory                       // 請至少勾選一個服務類別
    | IncompleteServices               // 請填寫所有服務品項與數量
    | LibraryMismatch(extraction: ExtractionType)   // 建庫服務與萃取類型不符
    | DuplicateSampleNames(table: SheetKind, names: seq<string>)
    | MissingSignature                 // 請先簽名確認訂單內容

  datatype StepCheck = Pass | Fail(error: StepError)

  /** `item.services.some(s => s.service && s.quantity)`. */
  predicate HasCompleteLine(lines: seq<ServiceLine>) {
    exists j :: 0 <= j < |lines| && lines[j].service != "" && lines[j].quantity != ""
  }

  /** The step-2 library rule: with an extraction type known, no line of the
      first 建庫服務 item may carry a code the type rules out. */
  function LibraryCheck(items: seq<ServiceItem>): StepCheck {
    var t := ExtractionTypeOf(items);
    var library := FirstItem(items, Library);
    if t.Some? && library.Some? &&
       exists j :: 0 <= j < |library.value.services| && !LibraryCodeAllowed(t, library.value.services[j].service)
    then Fail(LibraryMismatch(t.value))
    else Pass
  }

  /** The step-3 rule for one table: its repeated trimmed names, if any. */
  function DuplicateCheck(sheet: seq<Row>, kind: SheetKind): StepCheck {
    var duplicates := DuplicateNames(sheet);
    if duplicates != [] then Fail(DuplicateSampleNames(kind, duplicates)) else Pass
  }

  /** Step 0, 基本驗證: a sales code was entered and the directory knows it. */
  function IdentityCheck(f: FormData, salesCodes: map<string, string>): StepCheck {
    if f.salesCode == "" then Fail(MissingSalesCode)
    else if f.salesCode !in salesCodes then Fail(UnknownSalesCode)
    else Pass
  }

  /** Step 1, 基本資訊: sales person, required fields, e-mail, categories. */
  function ProfileCheck(f: FormData): StepCheck {
    if f.salesPerson == "" || f.salesPerson == NoSalesPerson then Fail(MissingSalesPerson)
    else if f.organization == "" || f.contactPerson == "" || f.email == "" then Fail(MissingRequiredField)
    else if !ValidateEmail(f.email) then Fail(BadEmail)
    else if |f.selectedServiceCategories| == 0 then Fail(NoCategory)
    else Pass
  }

  /** Step 2, 委託內容: every item has a complete line, then the library rule. */
  function ItemSelectionCheck(items: seq<ServiceItem>): StepCheck {
    if exists k :: 0 <= k < |items| && !HasCompleteLine(items[k].services) then Fail(IncompleteServices)
    else LibraryCheck(items)
  }

  /** Step 3, 送測樣品: the tables the sample type shows, in order. */
  function SampleManifestCheck(f: FormData): StepCheck {
    if f.sampleType == LibrarySampleType then
      var first := DuplicateCheck(f.librarySampleSheet, LibrarySamples);
      if first.Fail? then first else DuplicateCheck(f.libraryDetailSheet, LibraryDetails)
    else if f.sampleType != NoSampleType then DuplicateCheck(f.sampleInfoSheet, SampleInfo)
    else Pass
  }

  /** `validateStep`: the gate of each step, in the order the source checks
      its conditions; steps without a gate pass. `salesCodes` is the sales
      directory, code to sales person. */
  function ValidateStep(step: int, f: FormData, salesCodes: map<string, string>): StepCheck {
    if step == 0 then IdentityCheck(f, salesCodes)
    else if step == 1 then ProfileCheck(f)
    else if step == 2 then ItemSelectionCheck(f.serviceItems)
    else if step == 3 then SampleManifestCheck(f)
    else if step == 4 then
      if f.signature == "" then Fail(MissingSignature) else Pass
    else Pass
  }

  /** Step 0 passes exactly when a sales code was entered and the directory
      knows it. */
  lemma IdentityGate(f: FormData, salesCodes: map<string, string>)
    ensures ValidateStep(0, f, salesCodes).Pass? <==> f.salesCode != "" && f.salesCode in salesCodes
  {
  }

  /** Step 1 passes exactly when a sales person is chosen, the required
      fields are filled, every address piece of the e-mail field matches
      the pattern (and there is one), and some category is selected. */
  lemma ProfileGate(f: FormData, salesCodes: map<string, string>)
    ensures var pieces := Split(f.email, {',', ';'});
      ValidateStep(1, f, salesCodes).Pass? <==>
        && f.salesPerson != "" && f.salesPerson != NoSalesPerson
        && f.organization != "" && f.contactPerson != ""
        && (exists k :: 0 <= k < |pieces| && !IsBlank(pieces[k]))
        && (forall k :: 0 <= k < |pieces| && !IsBlank(pieces[k]) ==> MatchesEmailPattern(Trim(pieces[k])))
        && |f.selectedServiceCategories| > 0
  {
    ValidateEmailMeaning(f.email);
    if f.email == "" {
      assert Split(f.email, {',', ';'}) == [""];
    }
  }

  /** Every library line is compatible with the extraction type: the
      declarative form of the step-2 library rule. */
  predicate LibraryLinesCompatible(items: seq<ServiceItem>) {
    var library := FirstItem(items, Library);
    library.Some? ==>
      forall j :: 0 <= j < |library.value.services| ==>
        LibraryCodeAllowed(ExtractionTypeOf(items), library.value.services[j].service)
  }

  /** Step 2 passes exactly when every item has a line with both a code and
      a quantity and the first library item is compatible with the
      extraction type; a refusal for the library names that type. */
  lemma ItemSelectionGate(f: FormData, salesCodes: map<string, string>)
    ensures ValidateStep(2, f, salesCodes).Pass? <==>
              && (forall k :: 0 <= k < |f.serviceItems| ==> HasCompleteLine(f.serviceItems[k].services))
              && LibraryLinesCompatible(f.serviceItems)
    ensures ValidateStep(2, f, salesCodes) == Fail(IncompleteServices) <==>
              exists k :: 0 <= k < |f.serviceItems| && !HasCompleteLine(f.serviceItems[k].services)
    ensures ValidateStep(2, f, salesCodes).Fail? && ValidateStep(2, f, salesCodes).error.LibraryMismatch? ==>
              ExtractionTypeOf(f.serviceItems) == Some(ValidateStep(2, f, salesCodes).error.extraction)
  {
  }

  /** Every line's code is empty or the value of an offered option. */
  predicate ChosenFrom(lines: seq<ServiceLine>, offered: seq<CatalogOption>) {
    forall j :: 0 <= j < |lines| ==> lines[j].service == "" || exists o :: o in offered && o.value == lines[j].service
  }

  /** Choosing library codes only from the filtered option list always
      satisfies the step-2 library rule: the filter offers nothing the gate
      refuses. */
  lemma FilteredChoicesPassLibraryCheck(items: seq<ServiceItem>, options: seq<CatalogOption>)
    requires FirstItem(items, Library).Some? ==>
      ChosenFrom(FirstItem(items, Library).value.services, FilterLibraryOptions(options, ExtractionTypeOf(items)))
    ensures LibraryCheck(items) == Pass
  {
    var t := ExtractionTypeOf(items);
    var offered := FilterLibraryOptions(options, t);
    FilterAgreesWithCheck(options, t);
    if FirstItem(items, Library).Some? {
      var lines := FirstItem(items, Library).value.services;
      forall j | 0 <= j < |lines| ensures LibraryCodeAllowed(t, lines[j].service) {
        if lines[j].service != "" {
          assert exists o :: o in offered && o.value == lines[j].service;
          var o :| o in offered && o.value == lines[j].service;
        }
      }
    }
  }

  /** The step-3 rule for one table passes exactly when its non-empty
      trimmed names are all different. */
  lemma DuplicateCheckPasses(sheet: seq<Row>, kind: SheetKind)
    ensures DuplicateCheck(sheet, kind).Pass? <==> NoDuplicates(TrimmedNames(sheet))
  {
    DuplicateNamesExact(sheet);
  }

  /** A refusal of the step-3 rule names the table and lists each repeated
      trimmed name exactly once. */
  lemma DuplicateCheckReport(sheet: seq<Row>, kind: SheetKind)
    requires DuplicateCheck(sheet, kind).Fail?
    ensures var e := DuplicateCheck(sheet, kind).error;
      && e == DuplicateSampleNames(kind, DuplicateNames(sheet))
      && NoDuplicates(e.names)
      && forall x :: x in e.names <==>
           exists i, j :: 0 <= i < j < |TrimmedNames(sheet)| &&
             TrimmedNames(sheet)[i] == x && TrimmedNames(sheet)[j] == x
  {
    DuplicateNamesExact(sheet);
  }

  /** Step 3 passes exactly when, in each table the sample type shows, the
      non-empty trimmed names are all different. */
  lemma SampleManifestGate(f: FormData, salesCodes: map<string, string>)
    ensures ValidateStep(3, f, salesCodes).Pass? <==>
              (f.sampleType == LibrarySampleType ==>
                 NoDuplicates(TrimmedNames(f.librarySampleSheet)) && NoDuplicates(TrimmedNames(f.libraryDetailSheet))) &&
              (f.sampleType != LibrarySampleType && f.sampleType != NoSampleType ==>
                 NoDuplicates(TrimmedNames(f.sampleInfoSheet)))
  {
    DuplicateCheckPasses(f.librarySampleSheet, LibrarySamples);
    DuplicateCheckPasses(f.libraryDetailSheet, LibraryDetails);
    DuplicateCheckPasses(f.sampleInfoSheet, SampleInfo);
  }

  /** A step-3 refusal is the refusal of one shown table: the sample
      information sheet for a sample order, otherwise the library Sample
      Sheet, or the detail table once the Sample Sheet is free of repeats. */
  lemma SampleManifestRefusal(f: FormData, salesCodes: map<string, string>)
    requires ValidateStep(3, f, salesCodes).Fail?
    ensures var e := ValidateStep(3, f, salesCodes).error;
      && e.DuplicateSampleNames?
      && ValidateStep(3, f, salesCodes) == DuplicateCheck(SheetOf(f, e.table), e.table)
      && (e.table == SampleInfo <==> f.sampleType != LibrarySampleType)
      && (e.table == LibraryDetails ==> NoDuplicates(TrimmedNames(f.librarySampleSheet)))
  {
    if f.sampleType == LibrarySampleType && DuplicateCheck(f.librarySampleSheet, LibrarySamples).Pass? {
      DuplicateCheckPasses(f.librarySampleSheet, LibrarySamples);
    }
  }

  /** Step 4 passes exactly when something was signed. */
  lemma SignatureGate(f: FormData, salesCodes: map<string, string>)
    ensures ValidateStep(4, f, salesCodes).Pass? <==> f.signature != ""
  {
  }

  // ---------------------------------------------------------------- which handlers store the count

  /** Editing a cell stores the count only in the sample information table
      (`handleSampleSheetChange`); the library handler computes it and
      drops it, the detail handler does not compute it. */
  predicate StoresCountOnEdit(kind: SheetKind) {
    kind == SampleInfo
  }

  /** Pasting stores the count only in the sample information table. */
  predicate StoresCountOnPaste(kind: SheetKind) {
    kind == SampleInfo
  }

  /** Adding or removing a row stores the count in the library Sample Sheet
      and the sample information table, not in the detail table. */
  predicate StoresCountOnResize(kind: SheetKind) {
    kind != LibraryDetails
  }

  /** The form with a new table, and the count of its named rows stored
      when `store` holds. */
  function UpdateSheet(f: FormData, kind: SheetKind, sheet: seq<Row>, store: bool): (r: FormData)
    ensures SheetOf(r, kind) == sheet
    ensures forall other :: other != kind ==> SheetOf(r, other) == SheetOf(f, other)
    ensures r.sampleCount == if store then Some(CountNamed(sheet)) else f.sampleCount
    ensures r.sampleType == f.sampleType && r.serviceItems == f.serviceItems
    ensures store && CountedSheet(f.sampleType) == Some(kind) ==> r.sampleCount == Some(SampleCountOf(r))
    ensures r == f.(librarySampleSheet := SheetOf(r, LibrarySamples),
                    libraryDetailSheet := SheetOf(r, LibraryDetails),
                    sampleInfoSheet := SheetOf(r, SampleInfo),
                    sampleCount := r.sampleCount)
    ensures Consistent(f) && SheetReady(sheet, kind) ==> Consistent(r)
  {
    var g := WithSheet(f, kind, sheet);
    if store then g.(sampleCount := Some(CountNamed(sheet))) else g
  }

  /** A session's form can show a stored count that no longer matches the
      library Sample Sheet: on a Library order, naming the blank first row
      through the library cell handler leaves the count at `''`. */
  lemma LibraryEditLeavesCountStale(name: string)
    requires Sanitize(name) != ""
    ensures var f := InitialForm.(sampleType := LibrarySampleType);
      var g := UpdateSheet(f, LibrarySamples, ChangeCell(f.librarySampleSheet, 0, NameField, name), StoresCountOnEdit(LibrarySamples));
      g.sampleCount == None && SampleCountOf(g) == 1
  {
    var f := InitialForm.(sampleType := LibrarySampleType);
    var sheet := ChangeCell(f.librarySampleSheet, 0, NameField, name);
    SanitizedNotBlank(sheet[0].sampleName);
    assert sheet[..0] == [];
  }

  /** `toUpperCase` on the ASCII letters. */
  function UpperAscii(s: string): (r: string)
    ensures |r| == |s|
    ensures forall k :: 0 <= k < |s| ==> r[k] == if 'a' <= s[k] <= 'z' then (s[k] as int - 32) as char else s[k]
  {
    if s == [] then []
    else [if 'a' <= s[0] <= 'z' then (s[0] as int - 32) as char else s[0]] + UpperAscii(s[1..])
  }

  // ---------------------------------------------------------------- the form object

  /** Position after a successful `nextStep`: one forward, never past the
      number of steps. */
  function Advance(step: nat): (r: nat)
    ensures r <= StepCount
    ensures step < StepCount ==> r == step + 1
    ensures step >= StepCount ==> r == StepCount
  {
    if step + 1 <= StepCount then step + 1 else StepCount
  }

  /** The form after a successful `nextStep` from `step`: leaving step 1
      with categories selected rebuilds the service items. */
  function AfterAdvance(step: nat, f: FormData): FormData {
    if step == 1 && |f.selectedServiceCategories| > 0 then f.(serviceItems := RebuildServiceItems(f.selectedServiceCategories))
    else f
  }

  /** Leaving step 1 gives one fresh item per selected category in the
      canonical order, so step 2 starts from exactly the chosen categories. */
  lemma LeavingProfileStep(f: FormData)
    requires |f.selectedServiceCategories| > 0
    ensures var items := AfterAdvance(1, f).serviceItems;
      && |items| >= 1
      && (forall c :: c in f.selectedServiceCategories <==> FreshItem(Some(c)) in items)
      && (forall i, j :: 0 <= i < j < |items| ==> Rank(items[i].category.value) < Rank(items[j].category.value))
  {
    RebuildCoversSelection(f.selectedServiceCategories);
  }

  /** The order form: the current step and the form data, changed only by
      its handlers. */
  class OrderForm {
    var currentStep: nat
    var form: FormData

    /** The step counter stays within the number of steps and the form
        stays consistent. */
    ghost predicate Valid()
      reads this
    {
      currentStep <= StepCount && Consistent(form)
    }

    constructor ()
      ensures Valid() && currentStep == 0 && form == InitialForm
    {
      currentStep := 0;
      form := InitialForm;
      InitialFormConsistent();
    }

    /** `handleSalesCodeChange`: the code is stored upper-cased and the
        sales person is looked up from it (cleared for an unknown code); the
        step-0 gate then passes exactly for a code the directory knows. */
    method ChangeSalesCode(code: string, salesCodes: map<string, string>)
      requires Valid()
      modifies this`form
      ensures Valid()
      ensures form == old(form).(salesCode := UpperAscii(code),
                                 salesPerson := if UpperAscii(code) in salesCodes then salesCodes[UpperAscii(code)] else "")
      ensures IdentityCheck(form, salesCodes).Pass? <==> code != "" && UpperAscii(code) in salesCodes
    {
      var upper := UpperAscii(code);
      form := form.(salesCode := upper, salesPerson := if upper in salesCodes then salesCodes[upper] else "");
    }

    /** `nextStep`: advances (and, from step 1, rebuilds the items) only
      when the current step's gate passes. */
    method NextStep(salesCodes: map<string, string>) returns (check: StepCheck)
      requires Valid()
      modifies this
      ensures Valid()
      ensures check == ValidateStep(old(currentStep), old(form), salesCodes)
      ensures check.Fail? ==> currentStep == old(currentStep) && form == old(form)
      ensures check.Pass? ==> currentStep == Advance(old(currentStep)) && form == AfterAdvance(old(currentStep), old(form))
    {
      check := ValidateStep(currentStep, form, salesCodes);
      if check.Pass? {
        if currentStep == 1 && |form.selectedServiceCategories| > 0 {
          RebuildCoversSelection(form.selectedServiceCategories);
          form := form.(serviceItems := RebuildServiceItems(form.selectedServiceCategories));
        }
        currentStep := Advance(currentStep);
      }
    }

    /** `prevStep`: one step back, never before the first; nothing else changes. */
    method PrevStep()
      requires Valid()
      modifies this`currentStep
      ensures Valid()
      ensures currentStep == if old(currentStep) == 0 then 0 else old(currentStep) - 1
    {
      if currentStep > 0 {
        currentStep := currentStep - 1;
      }
    }

    /** `handleServiceCategoryToggle`. */
    method ToggleServiceCategory(c: Category) returns (outcome: ToggleOutcome)
      requires Valid()
      modifies this`form
      ensures Valid()
      ensures form == old(form).(selectedServiceCategories := Toggle(old(form).selectedServiceCategories, c).selected)
      ensures outcome == Toggle(old(form).selectedServiceCategories, c).outcome
      ensures Closed(old(form).selectedServiceCategories) ==> Closed(form.selectedServiceCategories)
    {
      var selected;
      selected, outcome := Categories.ToggleCategory(form.selectedServiceCategories, c);
      if Closed(form.selectedServiceCategories) {
        ToggleKeepsClosed(form.selectedServiceCategories, c);
      }
      form := form.(selectedServiceCategories := selected);
    }

    /** `handleServiceItemChange`. */
    method ChangeServiceItem(index: nat, change: ItemChange)
      requires Valid()
      requires index < |form.serviceItems|
      modifies this`form
      ensures Valid()
      ensures form == old(form).(serviceItems := Services.ChangeServiceItem(old(form).serviceItems, index, change))
    {
      form := form.(serviceItems := Services.ChangeServiceItem(form.serviceItems, index, change));
    }

    /** `handleServiceChange`. */
    method ChangeService(itemIndex: nat, serviceIndex: nat, field: LineField, value: string)
      requires Valid()
      requires itemIndex < |form.serviceItems| && serviceIndex < |form.serviceItems[itemIndex].services|
      modifies this`form
      ensures Valid()
      ensures form == old(form).(serviceItems := Services.ChangeService(old(form).serviceItems, itemIndex, serviceIndex, field, value))
    {
      form := form.(serviceItems := Services.ChangeService(form.serviceItems, itemIndex, serviceIndex, field, value));
    }

    /** `addService`. */
    method AddService(itemIndex: nat)
      requires Valid()
      requires itemIndex < |form.serviceItems|
      modifies this`form
      ensures Valid()
      ensures form == old(form).(serviceItems := Services.AddService(old(form).serviceItems, itemIndex))
    {
      form := form.(serviceItems := Services.AddService(form.serviceItems, itemIndex));
    }

    /** `removeService`: refused when the item has one line left. */
    method RemoveService(itemIndex: nat, serviceIndex: nat) returns (removed: bool)
      requires Valid()
      requires itemIndex < |form.serviceItems|
      modifies this`form
      ensures Valid()
      ensures removed <==> |old(form).serviceItems[itemIndex].services| != 1
      ensures removed ==> form == old(form).(serviceItems := Services.RemoveService(old(form).serviceItems, itemIndex, serviceIndex).value)
      ensures !removed ==> form == old(form)
    {
      var r := Services.RemoveService(form.serviceItems, itemIndex, serviceIndex);
      removed := r.Some?;
      if removed {
        form := form.(serviceItems := r.value);
      }
    }

    /** `addServiceItem`. */
    method AddServiceItem()
      requires Valid()
      modifies this`form
      ensures Valid()
      ensures form == old(form).(serviceItems := Services.AddServiceItem(old(form).serviceItems))
    {
      form := form.(serviceItems := Services.AddServiceItem(form.serviceItems));
    }

    /** `removeServiceItem`: refused when one item is left. */
    method RemoveServiceItem(index: nat) returns (removed: bool)
      requires Valid()
      modifies this`form
      ensures Valid()
      ensures removed <==> |old(form).serviceItems| != 1
      ensures removed ==> form == old(form).(serviceItems := RemoveAt(old(form).serviceItems, index))
      ensures !removed ==> form == old(form)
    {
      var r := Services.RemoveServiceItem(form.serviceItems, index);
      removed := r.Some?;
      if removed {
        form := form.(serviceItems := r.value);
      }
    }

    /** `handleLibrarySampleSheetChange`, `handleLibraryDetailChange` and
        `handleSampleSheetChange`: one cell written; only the last stores
        the count. */
    method ChangeCell(kind: SheetKind, index: nat, field: RowField, value: string)
      requires Valid()
      requires index < |SheetOf(form, kind)|
      requires field.DataField? ==> field.column < FieldCount(kind)
      modifies this`form
      ensures Valid()
      ensures form == UpdateSheet(old(form), kind, Sheets.ChangeCell(SheetOf(old(form), kind), index, field, value), StoresCountOnEdit(kind))
    {
      var sheet := Sheets.ChangeCell(SheetOf(form, kind), index, field, value);
      form := UpdateSheet(form, kind, sheet, StoresCountOnEdit(kind));
    }

    /** `handleTablePaste`, `handleLibraryDetailTablePaste` and
        `handleSampleTablePaste`; only the last stores the count. */
    method PasteTable(kind: SheetKind, text: string, startIndex: nat) returns (pasted: nat)
      requires Valid()
      modifies this`form
      ensures Valid()
      ensures pasted == |PastedLines(text)|
      ensures |SheetOf(form, kind)| == PastedLength(|SheetOf(old(form), kind)|, startIndex, pasted)
      ensures forall i :: 0 <= i < |SheetOf(form, kind)| ==>
                SheetOf(form, kind)[i] == AfterPaste(SheetOf(old(form), kind), kind, PastedLines(text), startIndex, i)
      ensures form == UpdateSheet(old(form), kind, SheetOf(form, kind), StoresCountOnPaste(kind))
    {
      var sheet;
      sheet, pasted := Sheets.Paste(SheetOf(form, kind), kind, text, startIndex);
      form := UpdateSheet(form, kind, sheet, StoresCountOnPaste(kind));
    }

    /** `addLibrarySampleSheetRow`, `addLibraryDetailRow`, `addSampleSheetRow`. */
    method AddRow(kind: SheetKind)
      requires Valid()
      modifies this`form
      ensures Valid()
      ensures form == UpdateSheet(old(form), kind, Sheets.AddRow(SheetOf(old(form), kind), kind), StoresCountOnResize(kind))
    {
      form := UpdateSheet(form, kind, Sheets.AddRow(SheetOf(form, kind), kind), StoresCountOnResize(kind));
    }

    /** `removeLibrarySampleSheetRow`, `removeLibraryDetailRow`,
        `removeSampleSheetRow`: refused when one row is left. */
    method RemoveRow(kind: SheetKind, index: nat) returns (removed: bool)
      requires Valid()
      modifies this`form
      ensures Valid()
      ensures removed <==> |SheetOf(old(form), kind)| != 1
      ensures removed ==> form == UpdateSheet(old(form), kind, RemoveAt(SheetOf(old(form), kind), index), StoresCountOnResize(kind))
      ensures !removed ==> form == old(form)
    {
      var r := Sheets.RemoveRow(SheetOf(form, kind), index);
      removed := r.Some?;
      if removed {
        form := UpdateSheet(form, kind, r.value, StoresCountOnResize(kind));
      }
    }

    /** `clearSampleSheet`, `clearLibrarySheet`, `clearSampleInfoSheet`
        (after the confirmation): back to one blank row; the count is left
        as it was. */
    method ClearSheet(kind: SheetKind)
      requires Valid()
      modifies this`form
      ensures Valid()
      ensures form == WithSheet(old(form), kind, [BlankRow(kind, 1)])
      ensures form.sampleCount == old(form).sampleCount
    {
      form := WithSheet(form, kind, [BlankRow(kind, 1)]);
    }

    /** `autoFillSampleCount`: stores the count the sample type asks for. */
    method AutoFillSampleCount() returns (count: nat)
      requires Valid()
      modifies this`form
      ensures Valid()
      ensures count == SampleCountOf(old(form))
      ensures form == old(form).(sampleCount := Some(count))
    {
      count := 0;
      if form.sampleType == LibrarySampleType {
        count := CountNamed(form.librarySampleSheet);
      } else if form.sampleType != NoSampleType {
        count := CountNamed(form.sampleInfoSheet);
      }
      form := form.(sampleCount := Some(count));
    }

    /** `handleSignatureSave`: the signature pad's image becomes the
        signature; a non-empty one opens the step-4 gate. */
    method SaveSignature(signatureData: string)
      requires Valid()
      modifies this`form
      ensures Valid()
      ensures form == old(form).(signature := signatureData)
      ensures signatureData != "" ==> forall codes :: ValidateStep(4, form, codes).Pass?
    {
      form := form.(signature := signatureData);
    }

    /** `clearSignature`: the step-4 gate closes again. */
    method ClearSignature()
      requires Valid()
      modifies this`form
      ensures Valid()
      ensures form == old(form).(signature := "")
      ensures forall codes :: ValidateStep(4, form, codes) == Fail(MissingSignature)
    {
      form := form.(signature := "");
    }

    /** `handleExcelUpload` after parsing: each table that received rows
        replaces the old one; the library Sample Sheet and the sample
        information sheet store their count, the detail table does not. */
    method UploadWorkbook(fileName: string, worksheets: seq<seq<seq<Cell>>>) returns (outcome: ImportOutcome)
      requires Valid()
      modifies this`form
      ensures Valid()
      ensures outcome == ImportWorkbook(fileName, worksheets)
      ensures outcome.LibraryFile? ==>
                var f1 := if outcome.samples.Some? then UpdateSheet(old(form), LibrarySamples, outcome.samples.value, true) else old(form);
                form == if outcome.details.Some? then UpdateSheet(f1, LibraryDetails, outcome.details.value, false) else f1
      ensures outcome.SampleFile? ==> form == UpdateSheet(old(form), SampleInfo, outcome.rows, true)
      ensures !outcome.LibraryFile? && !outcome.SampleFile? ==> form == old(form)
    {
      outcome := ImportWorkbook(fileName, worksheets);
      match outcome {
        case LibraryFile(samples, details) =>
          if samples.Some? {
            ImportedWellFormed(worksheets[0], LibrarySamples, 2);
            form := UpdateSheet(form, LibrarySamples, samples.value, true);
          }
          if details.Some? {
            ImportedWellFormed(worksheets[1], LibraryDetails, 2);
            form := UpdateSheet(form, LibraryDetails, details.value, false);
          }
        case SampleFile(rows) =>
          ImportedWellFormed(worksheets[0], SampleInfo, 3);
          form := UpdateSheet(form, SampleInfo, rows, true);
        case _ =>
      }
    }
  }
}
