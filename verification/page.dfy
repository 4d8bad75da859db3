/**
 * The solid-inventory page controller: the displayed page of items, the
 * reference lists, the three popups, the selected item and the error line,
 * together with the requests the page issues. Every request's answer arrives
 * later as an event; the page never patches its item list locally, it only
 * replaces it with a fetched page.
 */
module Page {
  import opened Options
  import opened Inventory
  import opened Errors
  import opened Forms
  import Decimal
  import Debounce

  // ---------------------------------------------------------------------------
  // List requests

  const DefaultColumn: string := Debounce.DefaultColumn
  const DefaultValue: string := ""
  const DefaultPageIndex: int := 0
  const DefaultPageSize: int := 10

  /** The query parameters of the item-list request. */
  datatype FetchParams = FetchParams(searchColumn: string, searchValue: string, page: int, size: int)

  /** The list fetch's parameters; an omitted argument takes its default. */
  function ListParams(column: Option<string>, value: Option<string>, page: Option<int>, size: Option<int>): (p: FetchParams)
    ensures column.None? ==> p.searchColumn == "Inventory Item"
    ensures value.None? ==> p.searchValue == ""
    ensures page.None? ==> p.page == 0
    ensures size.None? ==> p.size == 10
    ensures column.Some? ==> p.searchColumn == column.value
    ensures value.Some? ==> p.searchValue == value.value
    ensures page.Some? ==> p.page == page.value
    ensures size.Some? ==> p.size == size.value
  {
    FetchParams(column.GetOr(DefaultColumn), value.GetOr(DefaultValue),
                page.GetOr(DefaultPageIndex), size.GetOr(DefaultPageSize))
  }

  /** The list fetch called with no arguments. */
  function DefaultParams(): FetchParams {
    ListParams(None, None, None, None)
  }

  /** The list fetch issued by the search timer: column and term given, page and size defaulted. */
  function SearchParams(k: Debounce.SearchKey): FetchParams {
    ListParams(Some(k.column), Some(k.term), None, None)
  }

  /** Every request the page sends to the backend. */
  datatype Request =
    | GetItems(params: FetchParams)
    | GetLocations
    | GetCategories
    | GetUnits
    | PostItem(payload: AddPayload)
    | PatchQuantity(id: int, quantityUsed: int)
    | PatchDetails(id: int, details: DetailsPayload)
    | DeleteItem(id: int)

  datatype Endpoint = Endpoint(verb: string, path: string)

  const ItemsPath: string := "/inventory/solid"

  function ItemPath(id: int): string {
    ItemsPath + "/" + Decimal.FromInt(id)
  }

  function EndpointOf(r: Request): Endpoint {
    match r
    case GetItems(_) => Endpoint("GET", ItemsPath + "/pageable")
    case GetLocations => Endpoint("GET", "/system/location")
    case GetCategories => Endpoint("GET", "/system/category")
    case GetUnits => Endpoint("GET", "/system/unit/solid")
    case PostItem(_) => Endpoint("POST", ItemsPath)
    case PatchQuantity(id, _) => Endpoint("PATCH", ItemPath(id) + "/quantity")
    case PatchDetails(id, _) => Endpoint("PATCH", ItemPath(id))
    case DeleteItem(id) => Endpoint("DELETE", ItemPath(id))
  }

  predicate TargetsItem(r: Request) {
    r.PatchQuantity? || r.PatchDetails? || r.DeleteItem?
  }

  function TargetId(r: Request): int
    requires TargetsItem(r)
  {
    match r
    case PatchQuantity(id, _) => id
    case PatchDetails(id, _) => id
    case DeleteItem(id) => id
  }

  lemma PrefixCancel(p: string, a: string, b: string)
    ensures p + a == p + b ==> a == b
  {
    assert a == (p + a)[|p|..];
    assert b == (p + b)[|p|..];
  }

  lemma SuffixCancel(a: string, b: string, q: string)
    ensures a + q == b + q ==> a == b
  {
    assert a == (a + q)[..|a|];
    assert b == (b + q)[..|b|];
  }

  lemma ItemPathEndsInDigit(id: int)
    ensures Decimal.IsDigit(ItemPath(id)[|ItemPath(id)| - 1])
  {
    var s := Decimal.FromInt(id);
    if id < 0 {
      var n := Decimal.FromNat(-id);
      assert s[|s| - 1] == n[|n| - 1];
    }
    assert ItemPath(id)[|ItemPath(id)| - 1] == s[|s| - 1];
  }

  lemma ItemPathInjective(a: int, b: int)
    ensures ItemPath(a) == ItemPath(b) ==> a == b
  {
    PrefixCancel(ItemsPath + "/", Decimal.FromInt(a), Decimal.FromInt(b));
    Decimal.FromIntInjective(a, b);
  }

  /** A quantity path ends in 'y', an item path in a digit. */
  lemma QuantityPathIsNotItemPath(a: int, b: int)
    ensures ItemPath(a) + "/quantity" != ItemPath(b)
  {
    ItemPathEndsInDigit(b);
    var q := ItemPath(a) + "/quantity";
    assert q[|q| - 1] == 'y';
  }

  predicate SameKind(r1: Request, r2: Request) {
    && r1.PatchQuantity? == r2.PatchQuantity?
    && r1.PatchDetails? == r2.PatchDetails?
    && r1.DeleteItem? == r2.DeleteItem?
  }

  /**
   * Two item requests hit the same method and path exactly when they are the
   * same kind of request on the same item id.
   */
  lemma EndpointIdentifiesTarget(r1: Request, r2: Request)
    requires TargetsItem(r1) && TargetsItem(r2)
    ensures EndpointOf(r1) == EndpointOf(r2) <==> SameKind(r1, r2) && TargetId(r1) == TargetId(r2)
  {
    var a, b := TargetId(r1), TargetId(r2);
    ItemPathInjective(a, b);
    SuffixCancel(ItemPath(a), ItemPath(b), "/quantity");
    QuantityPathIsNotItemPath(a, b);
    QuantityPathIsNotItemPath(b, a);
  }

  // ---------------------------------------------------------------------------
  // The view state

  datatype Popup = AddPopup | QuantityPopup | DetailsPopup

  datatype View = View(
    items: seq<Item>,
    locations: seq<Location>,
    categories: seq<Category>,
    units: seq<Unit>,
    showAdd: bool,
    showQuantity: bool,
    showDetails: bool,
    selected: Option<Item>,
    error: Option<string>)

  const InitialView: View := View([], [], [], [], false, false, false, None, None)

  function IsOpen(v: View, p: Popup): bool {
    match p
    case AddPopup => v.showAdd
    case QuantityPopup => v.showQuantity
    case DetailsPopup => v.showDetails
  }

  function SetOpen(v: View, p: Popup, b: bool): (v': View)
    ensures IsOpen(v', p) == b
    ensures forall q :: q != p ==> IsOpen(v', q) == IsOpen(v, q)
    ensures v'.items == v.items && v'.error == v.error && v'.selected == v.selected
    ensures v'.locations == v.locations && v'.categories == v.categories && v'.units == v.units
  {
    match p
    case AddPopup => v.(showAdd := b)
    case QuantityPopup => v.(showQuantity := b)
    case DetailsPopup => v.(showDetails := b)
  }

  /** The four mutations the page can submit. */
  datatype Mutation =
    | AddItem(payload: AddPayload)
    | UpdateQuantity(id: int, quantityUsed: int)
    | UpdateDetails(id: int, details: DetailsPayload)
    | Delete(id: int)

  function MutationRequest(m: Mutation): Request {
    match m
    case AddItem(p) => PostItem(p)
    case UpdateQuantity(id, q) => PatchQuantity(id, q)
    case UpdateDetails(id, d) => PatchDetails(id, d)
    case Delete(id) => DeleteItem(id)
  }

  /** The popup a successful mutation closes; deleting is done from the row menu and closes none. */
  function OwnPopup(m: Mutation): Option<Popup> {
    match m
    case AddItem(_) => Some(AddPopup)
    case UpdateQuantity(_, _) => Some(QuantityPopup)
    case UpdateDetails(_, _) => Some(DetailsPopup)
    case Delete(_) => None
  }

  datatype Event =
    | ItemsLoaded(itemsReply: Reply<seq<Item>>)
    | LocationsLoaded(locationsReply: Reply<seq<Location>>)
    | CategoriesLoaded(categoriesReply: Reply<seq<Category>>)
    | UnitsLoaded(unitsReply: Reply<seq<Unit>>)
    | Submitted(mutation: Mutation)
    | Completed(completed: Mutation, reply: Reply<()>)
    | OpenAdd
    | OpenQuantity(quantityItem: Item)
    | OpenDetails(detailsItem: Item)
    | Close(popup: Popup)
    | DismissError

  /** The next view and the requests issued while getting there. */
  datatype Transition = Transition(view: View, requests: seq<Request>)

  function ReportError(v: View, e: HttpError): View {
    v.(error := Some(FormatError(e)))
  }

  /** The answer to a list fetch: replace the items wholesale, or keep them and report. */
  function LoadItems(v: View, reply: Reply<seq<Item>>): (t: Transition)
    ensures t.requests == []
    ensures reply.Ok? ==> t.view == v.(items := reply.value)
    ensures reply.Failed? ==> t.view.items == v.items && t.view.error == Some(FormatError(reply.error))
    ensures forall p :: IsOpen(t.view, p) == IsOpen(v, p)
  {
    match reply
    case Ok(content) => Transition(v.(items := content), [])
    case Failed(e) => Transition(ReportError(v, e), [])
  }

  /**
   * The answer to a mutation. On success the list is fetched again with no
   * arguments and the mutation's own popup is closed; on failure only the
   * error line changes.
   */
  function Complete(v: View, m: Mutation, reply: Reply<()>): (t: Transition)
    ensures t.view.items == v.items && t.view.selected == v.selected
    ensures t.view.locations == v.locations && t.view.categories == v.categories && t.view.units == v.units
    ensures reply.Ok? ==> t.requests == [GetItems(DefaultParams())] && t.view.error == v.error
    ensures reply.Ok? ==> forall p :: IsOpen(t.view, p) == (IsOpen(v, p) && OwnPopup(m) != Some(p))
    ensures reply.Failed? ==> t.requests == [] && t.view == v.(error := Some(FormatError(reply.error)))
  {
    match reply
    case Failed(e) => Transition(ReportError(v, e), [])
    case Ok(_) =>
      var refetch := [GetItems(DefaultParams())];
      match OwnPopup(m)
      case None => Transition(v, refetch)
      case Some(p) => Transition(SetOpen(v, p, false), refetch)
  }

  function Step(v: View, e: Event): Transition {
    match e
    case ItemsLoaded(r) => LoadItems(v, r)
    case LocationsLoaded(r) =>
      (match r
       case Ok(xs) => Transition(v.(locations := xs), [])
       case Failed(err) => Transition(ReportError(v, err), []))
    case CategoriesLoaded(r) =>
      (match r
       case Ok(xs) => Transition(v.(categories := xs), [])
       case Failed(err) => Transition(ReportError(v, err), []))
    case UnitsLoaded(r) =>
      (match r
       case Ok(xs) => Transition(v.(units := xs), [])
       case Failed(err) => Transition(ReportError(v, err), []))
    case Submitted(m) => Transition(v, [MutationRequest(m)])
    case Completed(m, r) => Complete(v, m, r)
    case OpenAdd => Transition(v.(showAdd := true), [])
    case OpenQuantity(item) => Transition(v.(selected := Some(item), showQuantity := true), [])
    case OpenDetails(item) => Transition(v.(selected := Some(item), showDetails := true), [])
    case Close(p) => Transition(SetOpen(v, p, false), [])
    case DismissError => Transition(v.(error := None), [])
  }

  /** A quantity or details popup is only ever open with an item selected. */
  predicate SelectionValid(v: View) {
    (v.showQuantity || v.showDetails) ==> v.selected.Some?
  }

  lemma StepKeepsSelection(v: View, e: Event)
    requires SelectionValid(v)
    ensures SelectionValid(Step(v, e).view)
  {
  }

  /** The displayed items change only when a list fetch succeeds, and then become its content. */
  lemma ItemsOnlyFromListFetch(v: View, e: Event)
    ensures Step(v, e).view.items ==
            (if e.ItemsLoaded? && e.itemsReply.Ok? then e.itemsReply.value else v.items)
  {
  }

  /** A failed answer of any kind leaves everything but the error line as it was. */
  lemma FailureOnlySetsError(v: View, e: Event, err: HttpError)
    requires e == ItemsLoaded(Failed(err)) || e == LocationsLoaded(Failed(err)) ||
             e == CategoriesLoaded(Failed(err)) || e == UnitsLoaded(Failed(err)) ||
             (e.Completed? && e.reply == Failed(err))
    ensures Step(v, e) == Transition(v.(error := Some(FormatError(err))), [])
  {
  }

  /** Only answers to mutations issue a list fetch, and it is always the default one. */
  lemma RefetchOnlyAfterMutation(v: View, e: Event)
    ensures (exists i :: 0 <= i < |Step(v, e).requests| && Step(v, e).requests[i].GetItems?) <==>
              (e.Completed? && e.reply.Ok?)
    ensures forall i :: 0 <= i < |Step(v, e).requests| && Step(v, e).requests[i].GetItems? ==>
              Step(v, e).requests[i].params == FetchParams("Inventory Item", "", 0, 10)
  {
    var t := Step(v, e);
    if e.Completed? && e.reply.Ok? {
      assert t.requests[0].GetItems?;
    }
  }

  // ---------------------------------------------------------------------------
  // The whole page: view and search debounce together

  datatype PageState = PageState(view: View, search: Debounce.Search)

  datatype PageTransition = PageTransition(page: PageState, requests: seq<Request>)

  datatype Input = ViewInput(event: Event) | SearchInput(searchInput: Debounce.Input)

  /**
   * Mounting the page fetches the default list and the three reference lists
   * at once, and starts the search timer for the initial key.
   */
  function Mount(): (t: PageTransition)
    ensures t.page.view == InitialView && t.page.search == Debounce.Mount()
    ensures t.page.search.key == Debounce.InitialKey && t.page.search.deadline == Some(Debounce.Delay)
    ensures Debounce.Valid(t.page.search)
    ensures |t.requests| == 4 && t.requests[0] == GetItems(FetchParams("Inventory Item", "", 0, 10))
    ensures multiset(t.requests[1..]) == multiset{GetLocations, GetCategories, GetUnits}
  {
    Debounce.MountValid();
    PageTransition(PageState(InitialView, Debounce.Mount()),
                   [GetItems(DefaultParams()), GetLocations, GetCategories, GetUnits])
  }

  function PageStep(p: PageState, i: Input): PageTransition {
    match i
    case ViewInput(e) =>
      var t := Step(p.view, e);
      PageTransition(p.(view := t.view), t.requests)
    case SearchInput(si) =>
      var s' := Debounce.Step(p.search, si);
      var fired := if |s'.fetches| > |p.search.fetches| then [GetItems(SearchParams(p.search.key))] else [];
      PageTransition(p.(search := s'), fired)
  }

  /**
   * The timer's fetch carries the current column and term with page 0 and
   * size 10, and a tick issues it exactly when the search deadline is reached.
   */
  lemma SearchFetchCarriesKey(p: PageState)
    requires Debounce.Valid(p.search)
    ensures var t := PageStep(p, SearchInput(Debounce.Tick));
            && (|t.requests| > 0 <==> p.search.deadline == Some(p.search.now + 1))
            && (|t.requests| > 0 ==>
                  t.requests == [GetItems(FetchParams(p.search.key.column, p.search.key.term, 0, 10))])
  {
  }

  /**
   * The refetch after a successful mutation ignores the active search: it asks
   * for the default column, an empty term and page 0, so a filtered view is
   * replaced by the unfiltered first page when the answer arrives.
   */
  lemma MutationRefetchIgnoresSearch(p: PageState, m: Mutation)
    requires p.search.key.term != ""
    ensures var t := PageStep(p, ViewInput(Completed(m, Ok(()))));
            && t.requests == [GetItems(FetchParams("Inventory Item", "", 0, 10))]
            && t.requests[0].params != SearchParams(p.search.key)
            && t.page.search == p.search
  {
  }

  /** The page after a sequence of inputs, with every request issued on the way. */
  function PageRun(p: PageState, ins: seq<Input>): PageTransition
    decreases |ins|
  {
    if |ins| == 0 then PageTransition(p, [])
    else
      var first := PageStep(p, ins[0]);
      var rest := PageRun(first.page, ins[1..]);
      PageTransition(rest.page, first.requests + rest.requests)
  }

  function TickInputs(k: nat): (ins: seq<Input>)
    ensures |ins| == k && forall i :: 0 <= i < k ==> ins[i] == SearchInput(Debounce.Tick)
  {
    seq(k, _ => SearchInput(Debounce.Tick))
  }

  /** Quiet ticks issue at most the pending search fetch, once its deadline is reached. */
  lemma {:induction false} PageTicks(p: PageState, k: nat)
    requires Debounce.Valid(p.search)
    ensures var d := p.search.deadline;
            PageRun(p, TickInputs(k)).requests ==
              (if d.Some? && d.value <= p.search.now + k then [GetItems(SearchParams(p.search.key))] else [])
    ensures PageRun(p, TickInputs(k)).page.view == p.view
    decreases k
  {
    if k > 0 {
      var first := PageStep(p, SearchInput(Debounce.Tick));
      assert TickInputs(k)[1..] == TickInputs(k - 1);
      SearchFetchCarriesKey(p);
      Debounce.StepValid(p.search, Debounce.Tick);
      PageTicks(first.page, k - 1);
      assert first.page.search.key == p.search.key;
    }
  }

  /**
   * Mounting issues the immediate default fetch; 500 quiet ticks later the
   * search timer issues the same default fetch once more, and nothing else.
   */
  lemma MountThenQuietFetchesDefaultTwice()
    ensures var m := Mount();
            && m.requests[0] == GetItems(DefaultParams())
            && PageRun(m.page, TickInputs(Debounce.Delay)).requests == [GetItems(DefaultParams())]
  {
    PageTicks(Mount().page, Debounce.Delay);
  }
}
