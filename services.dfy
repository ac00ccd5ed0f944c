/** The service items of an order (one per chosen category, each holding
    catalogue codes with quantities), the extraction-type classifier over
    the 萃取/QC item, the library-option filter that follows from it, the
    step-2 library compatibility rule, and the purchased sequencing total. */
module Services {
  import opened Seqs
  import opened Text
  import opened Categories

  /** One `{ service, quantity }` row: a catalogue code (empty until chosen)
      and the quantity as typed. */
  datatype ServiceLine = ServiceLine(service: string, quantity: string)

  /** One `{ category, services, libraryType, seqSpec }` entry; the category
      is `None` while it still reads 請選擇服務類別. */
  datatype ServiceItem = ServiceItem(category: Option<Category>, services: seq<ServiceLine>, libraryType: string, seqSpec: string)

  const EmptyLine: ServiceLine := ServiceLine("", "")

  /** The entry a category gets when the items are rebuilt, or when an item's
      category is changed: one empty line, library type 無, no spec. */
  function FreshItem(category: Option<Category>): ServiceItem {
    ServiceItem(category, [EmptyLine], "無", "")
  }

  /** `items.find(item => item.category === c)`. */
  function FirstItem(items: seq<ServiceItem>, c: Category): (r: Option<ServiceItem>)
    ensures r.Some? ==> r.value in items && r.value.category == Some(c)
    ensures r.Some? ==> exists k :: 0 <= k < |items| && items[k] == r.value &&
                          forall j :: 0 <= j < k ==> items[j].category != Some(c)
    ensures r.None? <==> forall k :: 0 <= k < |items| ==> items[k].category != Some(c)
  {
    if items == [] then None
    else if items[0].category == Some(c) then Some(items[0])
    else
      var r := FirstItem(items[1..], c);
      if r.Some? then FirstAfterHead(items, c, r.value); r else r
  }

  /** An item that comes first with its category in the tail also comes
      first in the whole list when the head has another category. */
  lemma FirstAfterHead(items: seq<ServiceItem>, c: Category, v: ServiceItem)
    requires items != [] && items[0].category != Some(c)
    requires exists k :: 0 <= k < |items[1..]| && items[1..][k] == v &&
               forall j :: 0 <= j < k ==> items[1..][j].category != Some(c)
    ensures exists k :: 0 <= k < |items| && items[k] == v &&
              forall j :: 0 <= j < k ==> items[j].category != Some(c)
  {
    var k :| 0 <= k < |items[1..]| && items[1..][k] == v &&
             forall j :: 0 <= j < k ==> items[1..][j].category != Some(c);
    assert items[k + 1] == v;
    forall j | 0 < j < k + 1 ensures items[j].category != Some(c) {
      assert items[j] == items[1..][j - 1];
    }
  }

  // ---------------------------------------------------------------- extraction type

  datatype ExtractionType = DNA | RNA | Mixed

  /** A DNA extraction code: `Q-ED…` or mentioning `cfDNA`. */
  predicate IsDnaExtraction(code: string) {
    StartsWith(code, "Q-ED") || Contains(code, "cfDNA")
  }

  /** An RNA extraction code: `Q-ER…` or mentioning `cfRNA`. */
  predicate IsRnaExtraction(code: string) {
    StartsWith(code, "Q-ER") || Contains(code, "cfRNA")
  }

  predicate HasDna(lines: seq<ServiceLine>) {
    exists k :: 0 <= k < |lines| && lines[k].service != "" && IsDnaExtraction(lines[k].service)
  }

  predicate HasRna(lines: seq<ServiceLine>) {
    exists k :: 0 <= k < |lines| && lines[k].service != "" && IsRnaExtraction(lines[k].service)
  }

  /** DNA when only DNA flags were seen, RNA when only RNA flags, MIXED when
      both, `null` (`None`) when neither. */
  function Classify(dna: bool, rna: bool): Option<ExtractionType> {
    if dna && !rna then Some(DNA)
    else if rna && !dna then Some(RNA)
    else if dna && rna then Some(Mixed)
    else None
  }

  /** The classification of the first 萃取/QC item; `None` when there is none. */
  function ExtractionTypeOf(items: seq<ServiceItem>): Option<ExtractionType> {
    match FirstItem(items, Extraction)
    case None => None
    case Some(eq) => Classify(HasDna(eq.services), HasRna(eq.services))
  }

  /** The classifier as the source runs it: find the 萃取/QC item, then one
      pass over its lines raising a DNA flag and an RNA flag. */
  method GetExtractionType(items: seq<ServiceItem>) returns (t: Option<ExtractionType>)
    ensures t == ExtractionTypeOf(items)
    ensures FirstItem(items, Extraction).None? ==> t.None?
    ensures FirstItem(items, Extraction).Some? ==>
      var lines := FirstItem(items, Extraction).value.services;
      && (t == Some(DNA) <==> HasDna(lines) && !HasRna(lines))
      && (t == Some(RNA) <==> HasRna(lines) && !HasDna(lines))
      && (t == Some(Mixed) <==> HasDna(lines) && HasRna(lines))
      && (t.None? <==> !HasDna(lines) && !HasRna(lines))
  {
    var found := FirstItem(items, Extraction);
    if found.None? {
      return None;
    }
    var lines := found.value.services;
    var hasDna, hasRna := false, false;
    var i := 0;
    while i < |lines|
      invariant 0 <= i <= |lines|
      invariant hasDna <==> HasDna(lines[..i])
      invariant hasRna <==> HasRna(lines[..i])
    {
      var s := lines[i].service;
      if s != "" {
        if IsDnaExtraction(s) {
          hasDna := true;
        }
        if IsRnaExtraction(s) {
          hasRna := true;
        }
      }
      assert lines[..i + 1][..i] == lines[..i];
      assert lines[..i + 1][i] == lines[i];
      i := i + 1;
    }
    assert lines[..i] == lines;
    t := Classify(hasDna, hasRna);
  }

  // ---------------------------------------------------------------- library options

  /** One catalogue option `{ value, description }`. */
  datatype CatalogOption = CatalogOption(value: string, description: string)

  /** An RNA library code: `L-RN…`. */
  predicate IsRnaLibrary(code: string) {
    StartsWith(code, "L-RN")
  }

  /** The options whose code is (`wantRna`) or is not an RNA library code,
      in catalogue order. */
  function KeepLibraries(options: seq<CatalogOption>, wantRna: bool): (r: seq<CatalogOption>)
    ensures |r| <= |options|
    ensures forall o :: o in r <==> o in options && IsRnaLibrary(o.value) == wantRna
    ensures |options| == 1 ==> r == if IsRnaLibrary(options[0].value) == wantRna then options else []
  {
    if options == [] then []
    else
      var rest := KeepLibraries(options[1..], wantRna);
      if IsRnaLibrary(options[0].value) == wantRna then [options[0]] + rest else rest
  }

  /** The filter works option by option: the kept options of two catalogue
      parts are those of each part, in catalogue order, with their repeats. */
  lemma {:induction false} KeepLibrariesAppend(a: seq<CatalogOption>, b: seq<CatalogOption>, wantRna: bool)
    ensures KeepLibraries(a + b, wantRna) == KeepLibraries(a, wantRna) + KeepLibraries(b, wantRna)
  {
    if a == [] {
      EmptyAppend(a, b);
      EmptyAppend(KeepLibraries(a, wantRna), KeepLibraries(b, wantRna));
    } else {
      KeepLibrariesAppend(a[1..], b, wantRna);
      TailOfAppend(a, b);
      AppendAssoc([a[0]], KeepLibraries(a[1..], wantRna), KeepLibraries(b, wantRna));
    }
  }

  /** The 建庫服務 options offered for the current extraction type: DNA hides
      the `L-RN` codes, RNA keeps only them, MIXED or none keeps everything. */
  function FilterLibraryOptions(options: seq<CatalogOption>, t: Option<ExtractionType>): seq<CatalogOption> {
    match t
    case Some(DNA) => KeepLibraries(options, false)
    case Some(RNA) => KeepLibraries(options, true)
    case _ => options
  }

  /** The step-2 rule for one chosen library code: an empty code is not
      checked; under DNA an `L-RN` code is refused; under RNA any other code
      is refused. */
  predicate LibraryCodeAllowed(t: Option<ExtractionType>, code: string) {
    code == "" ||
    match t
    case Some(DNA) => !IsRnaLibrary(code)
    case Some(RNA) => IsRnaLibrary(code)
    case _ => true
  }

  /** The filter and the step-2 rule agree: every option offered passes the
      rule, and every non-empty catalogue code that passes the rule is offered. */
  lemma FilterAgreesWithCheck(options: seq<CatalogOption>, t: Option<ExtractionType>)
    ensures forall o :: o in FilterLibraryOptions(options, t) ==> o in options && LibraryCodeAllowed(t, o.value)
    ensures forall o :: o in options && o.value != "" && LibraryCodeAllowed(t, o.value) ==> o in FilterLibraryOptions(options, t)
  {
  }

  /** What the filter keeps for each extraction type, stated as membership. */
  lemma FilterByType(options: seq<CatalogOption>)
    ensures forall o :: o in FilterLibraryOptions(options, Some(DNA)) <==> o in options && !IsRnaLibrary(o.value)
    ensures forall o :: o in FilterLibraryOptions(options, Some(RNA)) <==> o in options && IsRnaLibrary(o.value)
    ensures FilterLibraryOptions(options, Some(Mixed)) == options
    ensures FilterLibraryOptions(options, None) == options
  {
  }

  // ---------------------------------------------------------------- sequencing total

  /** GB of sequencing data bought per unit of each 定序服務 code; codes not
      listed (and those marked 需要補充 with 0) buy nothing yet. */
  const GbPerUnit: map<string, nat> := map[
    "S-G000 二代定序 - 定序量購買" := 1,
    "S-LN01 二代定序 - NoveSeq 6000, S4 包Lane 定序" := 600,
    "S-LN02 二代定序 - NovaSeq X Plus, 10B 包Lane 定序" := 350,
    "S-LN03 二代定序 - NovaSeq X Plus, 25B 包Lane 定序" := 1000,
    "S-FC01 二代定序 - NoveSeq 6000, SP 包Run 定序" := 0,
    "S-FC02 二代定序 - NovaSeq X Plus, 1.5B (100cycle) 包 Run 定序" := 0
  ]

  /** `sequencingDataMap[code] || 0`. */
  function Coefficient(code: string): nat {
    if code in GbPerUnit then GbPerUnit[code] else 0
  }

  /** What one line buys: coefficient times `parseInt(quantity) || 0`. */
  function LineGb(line: ServiceLine): int {
    Scale(Coefficient(line.service), ParseIntOrZero(line.quantity))
  }

  /** `gbPerUnit * quantity`. */
  function Scale(gbPerUnit: nat, quantity: int): int {
    gbPerUnit * quantity
  }

  function LinesGb(lines: seq<ServiceLine>): int {
    if lines == [] then 0 else LinesGb(lines[..|lines| - 1]) + LineGb(lines[|lines| - 1])
  }

  /** What one item buys: its lines when it is a 定序服務 item, else nothing. */
  function ItemGb(item: ServiceItem): int {
    if item.category == Some(Sequencing) then LinesGb(item.services) else 0
  }

  /** The purchased sequencing data over all items. */
  function TotalSequencing(items: seq<ServiceItem>): int {
    if items == [] then 0 else TotalSequencing(items[..|items| - 1]) + ItemGb(items[|items| - 1])
  }

  /** The inner `forEach` over one item's lines. */
  method SumLines(lines: seq<ServiceLine>) returns (sub: int)
    ensures sub == LinesGb(lines)
  {
    sub := 0;
    var j := 0;
    while j < |lines|
      invariant 0 <= j <= |lines|
      invariant sub == LinesGb(lines[..j])
    {
      var gbPerUnit := Coefficient(lines[j].service);
      var quantity := ParseIntOrZero(lines[j].quantity);
      sub := sub + Scale(gbPerUnit, quantity);
      assert lines[..j + 1][..j] == lines[..j];
      assert LinesGb(lines[..j + 1]) == LinesGb(lines[..j]) + LineGb(lines[j]);
      j := j + 1;
    }
    assert lines[..j] == lines;
  }

  /** `calculateTotalSequencing`: the outer `forEach` accumulating `total`
      over the 定序服務 items. */
  method CalculateTotalSequencing(items: seq<ServiceItem>) returns (total: int)
    ensures total == TotalSequencing(items)
  {
    total := 0;
    var i := 0;
    while i < |items|
      invariant 0 <= i <= |items|
      invariant total == TotalSequencing(items[..i])
    {
      assert items[..i + 1][..i] == items[..i];
      if items[i].category == Some(Sequencing) {
        var sub := SumLines(items[i].services);
        total := total + sub;
      }
      i := i + 1;
    }
    assert items[..i] == items;
  }

  lemma {:induction false} LinesGbAppend(a: seq<ServiceLine>, b: seq<ServiceLine>)
    ensures LinesGb(a + b) == LinesGb(a) + LinesGb(b)
    decreases |b|
  {
    if b != [] {
      LinesGbAppend(a, b[..|b| - 1]);
      assert (a + b)[..|a + b| - 1] == a + b[..|b| - 1];
    } else {
      assert a + b == a;
    }
  }

  /** The lines of all 定序服務 items, in order. */
  function SequencingLines(items: seq<ServiceItem>): seq<ServiceLine> {
    if items == [] then []
    else SequencingLines(items[..|items| - 1]) +
         (if items[|items| - 1].category == Some(Sequencing) then items[|items| - 1].services else [])
  }

  /** The total is the per-line sum over the lines of 定序服務 items only:
      lines of every other category are never counted. */
  lemma {:induction false} TotalIsSequencingLinesOnly(items: seq<ServiceItem>)
    ensures TotalSequencing(items) == LinesGb(SequencingLines(items))
  {
    if items != [] {
      var front := items[..|items| - 1];
      var last := items[|items| - 1];
      TotalIsSequencingLinesOnly(front);
      LinesGbAppend(SequencingLines(front), if last.category == Some(Sequencing) then last.services else []);
      if last.category != Some(Sequencing) {
        assert SequencingLines(items) == SequencingLines(front) + [];
      }
    }
  }

  /** Lines whose code has no coefficient, or whose quantity does not parse,
      buy nothing. */
  lemma {:induction false} UnpricedLinesBuyNothing(lines: seq<ServiceLine>)
    requires forall k :: 0 <= k < |lines| ==> lines[k].service !in GbPerUnit || ParseInt(lines[k].quantity).None?
    ensures LinesGb(lines) == 0
  {
    if lines != [] {
      UnpricedLinesBuyNothing(lines[..|lines| - 1]);
    }
  }

  // ---------------------------------------------------------------- rebuilt items

  /** Position of a category in the canonical order. */
  function Rank(c: Category): (k: nat)
    ensures k < |CanonicalOrder| && CanonicalOrder[k] == c
  {
    match c
    case QC => 0
    case Extraction => 1
    case Library => 2
    case Sequencing => 3
    case Analysis => 4
    case Package => 5
  }

  /** `CanonicalOrder.slice(k).filter(c => selected.includes(c))`. */
  function SelectedFrom(k: nat, selected: seq<Category>): (r: seq<Category>)
    requires k <= |CanonicalOrder|
    ensures forall c :: c in r <==> c in selected && Rank(c) >= k
    ensures forall i, j :: 0 <= i < j < |r| ==> Rank(r[i]) < Rank(r[j])
    ensures forall i :: 0 <= i < |r| ==> Rank(r[i]) >= k
    decreases |CanonicalOrder| - k
  {
    if k == |CanonicalOrder| then []
    else
      var c := CanonicalOrder[k];
      assert Rank(c) == k;
      var rest := SelectedFrom(k + 1, selected);
      if c in selected then [c] + rest else rest
  }

  /** One fresh item per category of `order`, in that order. */
  function FreshItems(order: seq<Category>): (items: seq<ServiceItem>)
    ensures |items| == |order|
    ensures forall k :: 0 <= k < |items| ==> items[k] == FreshItem(Some(order[k]))
  {
    if order == [] then [] else [FreshItem(Some(order[0]))] + FreshItems(order[1..])
  }

  /** The service items built when leaving step 1: one fresh item per
      selected category, ordered by the canonical order QC, EQ, L, S, A, AP. */
  function RebuildServiceItems(selected: seq<Category>): (items: seq<ServiceItem>)
    ensures EveryItemHasLines(items)
    ensures forall k :: 0 <= k < |items| ==> items[k].category.Some? && items[k].services == [EmptyLine]
    ensures forall k :: 0 <= k < |items| ==> items[k].category.value in selected
    ensures forall i, j :: 0 <= i < j < |items| ==>
              Rank(items[i].category.value) < Rank(items[j].category.value)
  {
    FreshItems(SelectedFrom(0, selected))
  }

  lemma {:induction false} FreshItemsCover(order: seq<Category>)
    ensures forall c :: FreshItem(Some(c)) in FreshItems(order) <==> c in order
  {
    if order != [] {
      FreshItemsCover(order[1..]);
      assert FreshItems(order) == [FreshItem(Some(order[0]))] + FreshItems(order[1..]);
      assert order == [order[0]] + order[1..];
    }
  }

  /** Every selected category gets its fresh item and no other category
      does, so a non-empty selection gives a non-empty item list. */
  lemma RebuildCoversSelection(selected: seq<Category>)
    ensures forall c :: c in selected <==> FreshItem(Some(c)) in RebuildServiceItems(selected)
    ensures selected != [] ==> |RebuildServiceItems(selected)| >= 1
  {
    var order := SelectedFrom(0, selected);
    FreshItemsCover(order);
    if selected != [] {
      assert selected[0] in order;
      assert FreshItem(Some(selected[0])) in RebuildServiceItems(selected);
    }
  }

  // ---------------------------------------------------------------- editing the items

  /** Every item still has at least one service line. */
  predicate EveryItemHasLines(items: seq<ServiceItem>) {
    forall k :: 0 <= k < |items| ==> |items[k].services| >= 1
  }

  /** Which of a line's two fields a change writes. */
  datatype LineField = ServiceField | QuantityField

  /** `handleServiceChange`: writes one field of one line. */
  function ChangeService(items: seq<ServiceItem>, itemIndex: nat, serviceIndex: nat, field: LineField, value: string): (r: seq<ServiceItem>)
    requires itemIndex < |items| && serviceIndex < |items[itemIndex].services|
    ensures |r| == |items|
    ensures forall k :: 0 <= k < |r| && k != itemIndex ==> r[k] == items[k]
    ensures var before, after := items[itemIndex], r[itemIndex];
      && after.category == before.category && after.libraryType == before.libraryType && after.seqSpec == before.seqSpec
      && |after.services| == |before.services|
      && (forall j :: 0 <= j < |after.services| && j != serviceIndex ==> after.services[j] == before.services[j])
      && after.services[serviceIndex].service == (if field == ServiceField then value else before.services[serviceIndex].service)
      && after.services[serviceIndex].quantity == (if field == QuantityField then value else before.services[serviceIndex].quantity)
    ensures EveryItemHasLines(items) ==> EveryItemHasLines(r)
  {
    var item := items[itemIndex];
    var line := item.services[serviceIndex];
    var line' := if field == ServiceField then line.(service := value) else line.(quantity := value);
    items[itemIndex := item.(services := item.services[serviceIndex := line'])]
  }

  /** `addService`: appends an empty line to one item. */
  function AddService(items: seq<ServiceItem>, itemIndex: nat): (r: seq<ServiceItem>)
    requires itemIndex < |items|
    ensures |r| == |items|
    ensures forall k :: 0 <= k < |r| && k != itemIndex ==> r[k] == items[k]
    ensures r[itemIndex].services == items[itemIndex].services + [EmptyLine]
    ensures r[itemIndex].category == items[itemIndex].category
    ensures r[itemIndex].libraryType == items[itemIndex].libraryType && r[itemIndex].seqSpec == items[itemIndex].seqSpec
    ensures EveryItemHasLines(items) ==> EveryItemHasLines(r)
  {
    var item := items[itemIndex];
    items[itemIndex := item.(services := item.services + [EmptyLine])]
  }

  /** `removeService`: refused (至少需要保留一項服務品項) when the item has
      exactly one line; otherwise drops the line at `serviceIndex`. */
  function RemoveService(items: seq<ServiceItem>, itemIndex: nat, serviceIndex: nat): (r: Option<seq<ServiceItem>>)
    requires itemIndex < |items|
    ensures r.None? <==> |items[itemIndex].services| == 1
    ensures r.Some? ==>
              && |r.value| == |items|
              && (forall k :: 0 <= k < |items| && k != itemIndex ==> r.value[k] == items[k])
              && r.value[itemIndex] == items[itemIndex].(services := RemoveAt(items[itemIndex].services, serviceIndex))
    ensures r.Some? && EveryItemHasLines(items) ==> EveryItemHasLines(r.value)
  {
    var item := items[itemIndex];
    match RemoveKeepingOne(item.services, serviceIndex)
    case None => None
    case Some(services) => Some(items[itemIndex := item.(services := services)])
  }

  /** `addServiceItem`: appends an item still reading 請選擇服務類別. */
  function AddServiceItem(items: seq<ServiceItem>): (r: seq<ServiceItem>)
    ensures |r| == |items| + 1 && r[..|items|] == items
    ensures r[|items|].category.None? && r[|items|].services == [EmptyLine]
    ensures EveryItemHasLines(items) ==> EveryItemHasLines(r)
  {
    items + [FreshItem(None)]
  }

  /** `removeServiceItem`: refused (至少需要保留一組服務類別) when one item is
      left; otherwise drops the item at `index`. */
  function RemoveServiceItem(items: seq<ServiceItem>, index: nat): (r: Option<seq<ServiceItem>>)
    ensures r.None? <==> |items| == 1
    ensures r.Some? ==> r.value == RemoveAt(items, index)
    ensures |items| >= 1 && r.Some? ==> |r.value| >= 1
    ensures r.Some? && EveryItemHasLines(items) ==> EveryItemHasLines(r.value)
  {
    RemoveKeepingOne(items, index)
  }

  /** Which item field `handleServiceItemChange` writes, with its new value. */
  datatype ItemChange = SetCategory(category: Option<Category>) | SetLibraryType(libraryType: string) | SetSeqSpec(seqSpec: string)

  /** `handleServiceItemChange`: writes one field; a new category also
      resets the item's lines to a single empty one. */
  function ChangeServiceItem(items: seq<ServiceItem>, index: nat, change: ItemChange): (r: seq<ServiceItem>)
    requires index < |items|
    ensures |r| == |items|
    ensures forall k :: 0 <= k < |r| && k != index ==> r[k] == items[k]
    ensures change.SetCategory? ==> r[index] == items[index].(category := change.category, services := [EmptyLine])
    ensures change.SetLibraryType? ==> r[index] == items[index].(libraryType := change.libraryType)
    ensures change.SetSeqSpec? ==> r[index] == items[index].(seqSpec := change.seqSpec)
    ensures EveryItemHasLines(items) ==> EveryItemHasLines(r)
  {
    var item := items[index];
    var item' := match change
      case SetCategory(c) => item.(category := c, services := [EmptyLine])
      case SetLibraryType(t) => item.(libraryType := t)
      case SetSeqSpec(p) => item.(seqSpec := p);
    items[index := item']
  }
}
