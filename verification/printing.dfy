/**
 * The print-label workflow of the inventory page. Printing one item takes four
 * steps, each waiting for the previous one:
 *   1. ask the backend to render a ZPL label for the item,
 *   2. ask the backend for the operator's default printer id,
 *   3. enumerate the local printers through the browser print SDK,
 *   4. send the label to the first enumerated printer whose uid or connection
 *      string equals the default printer id.
 * The backend and SDK answers are parameters; the workflow returns the alert
 * shown to the user and the trace of calls it made.
 */
module Printing {
  import opened Options
  import opened Inventory
  import opened Errors

  /** The device kind passed to the SDK enumeration. */
  const PrinterKind: string := "printer"

  /** The body of the label request. */
  datatype LabelBody = LabelBody(itemId: int, inventoryItemId: string, name: string, location: string)

  /** What the SDK enumeration does: the SDK may be absent, fail, or list printers. */
  datatype Discovery = SdkMissing | DiscoveryFailed | Discovered(printers: seq<Printer>)

  datatype SendResult = SendCompleted | SendRejected

  /** One call to the backend or to the SDK. */
  datatype Call =
    | PostLabel(body: LabelBody)
    | GetDefaultPrinter
    | GetLocalDevices(deviceType: string)
    | SendZpl(printer: Printer, zpl: string)

  /** The three alerts the workflow can end with. */
  datatype Outcome = Sent | PrinterNotFound | PrintError

  datatype PrintRun = PrintRun(outcome: Outcome, calls: seq<Call>)

  function AlertText(o: Outcome): string {
    match o
    case Sent => "Print job sent successfully"
    case PrinterNotFound => "Default printer not found"
    case PrintError => "Error printing label"
  }

  function LabelFor(item: Item): LabelBody {
    LabelBody(item.id, item.inventoryItemId, item.name, item.location.name)
  }

  predicate Matches(p: Printer, defaultUid: string) {
    p.uid == defaultUid || p.connection == defaultUid
  }

  /** The position of the first printer matching the default id (`Array.prototype.find`). */
  function FindPrinter(printers: seq<Printer>, defaultUid: string): (r: Option<nat>)
    ensures r.Some? ==> r.value < |printers| && Matches(printers[r.value], defaultUid)
    ensures r.Some? ==> forall j :: 0 <= j < r.value ==> !Matches(printers[j], defaultUid)
    ensures r.None? <==> forall j :: 0 <= j < |printers| ==> !Matches(printers[j], defaultUid)
    decreases |printers|
  {
    if |printers| == 0 then None
    else if Matches(printers[0], defaultUid) then Some(0)
    else
      match FindPrinter(printers[1..], defaultUid)
      case None => None
      case Some(i) => Some(i + 1)
  }

  /** The position of a call in the fixed order of the four steps. */
  function StepOf(c: Call): nat {
    match c
    case PostLabel(_) => 0
    case GetDefaultPrinter => 1
    case GetLocalDevices(_) => 2
    case SendZpl(_, _) => 3
  }

  /** The calls made are a prefix of the four steps, in order. */
  predicate InStepOrder(calls: seq<Call>) {
    forall i :: 0 <= i < |calls| ==> StepOf(calls[i]) == i
  }

  function PrintLabel(item: Item, zplReply: Reply<string>, printerReply: Reply<string>,
                      discovery: Discovery, send: SendResult): (r: PrintRun)
    ensures InStepOrder(r.calls)
    ensures |r.calls| >= 1 && r.calls[0] == PostLabel(LabelFor(item))
    ensures r.outcome == Sent ==> |r.calls| == 4
  {
    var posted := [PostLabel(LabelFor(item))];
    match zplReply
    case Failed(_) => PrintRun(PrintError, posted)
    case Ok(zpl) =>
      var resolved := posted + [GetDefaultPrinter];
      match printerReply
      case Failed(_) => PrintRun(PrintError, resolved)
      case Ok(defaultUid) =>
        match discovery
        case SdkMissing => PrintRun(PrintError, resolved)
        case DiscoveryFailed => PrintRun(PrintError, resolved + [GetLocalDevices(PrinterKind)])
        case Discovered(printers) =>
          var enumerated := resolved + [GetLocalDevices(PrinterKind)];
          match FindPrinter(printers, defaultUid)
          case None => PrintRun(PrinterNotFound, enumerated)
          case Some(i) =>
            var sent := enumerated + [SendZpl(printers[i], zpl)];
            if send == SendCompleted then PrintRun(Sent, sent) else PrintRun(PrintError, sent)
  }

  predicate HasMatch(printers: seq<Printer>, defaultUid: string) {
    exists j :: 0 <= j < |printers| && Matches(printers[j], defaultUid)
  }

  /** The first printer matching the default id, described without FindPrinter. */
  predicate IsFirstMatch(p: Printer, printers: seq<Printer>, defaultUid: string) {
    exists i :: 0 <= i < |printers| && printers[i] == p && Matches(p, defaultUid) &&
                (forall j :: 0 <= j < i ==> !Matches(printers[j], defaultUid))
  }

  /** Which of the three alerts is shown, in terms of the step results. */
  lemma PrintOutcomes(item: Item, zplReply: Reply<string>, printerReply: Reply<string>,
                      discovery: Discovery, send: SendResult)
    ensures var r := PrintLabel(item, zplReply, printerReply, discovery, send);
            && (r.outcome == Sent <==>
                  zplReply.Ok? && printerReply.Ok? && discovery.Discovered? &&
                  HasMatch(discovery.printers, printerReply.value) && send == SendCompleted)
            && (r.outcome == PrinterNotFound <==>
                  zplReply.Ok? && printerReply.Ok? && discovery.Discovered? &&
                  !HasMatch(discovery.printers, printerReply.value))
            && (r.outcome == PrintError <==>
                  zplReply.Failed? || printerReply.Failed? || !discovery.Discovered? ||
                  (HasMatch(discovery.printers, printerReply.value) && send == SendRejected))
  {
    if zplReply.Ok? && printerReply.Ok? && discovery.Discovered? {
      var f := FindPrinter(discovery.printers, printerReply.value);
      if f.Some? {
        assert HasMatch(discovery.printers, printerReply.value);
      }
    }
  }

  /**
   * A successful print makes exactly the four calls: the label request with the
   * item's id, code, name and location name, the default-printer request, the
   * enumeration, and one send of the returned label to the first matching printer.
   */
  lemma PrintSuccessCalls(item: Item, zplReply: Reply<string>, printerReply: Reply<string>,
                          discovery: Discovery, send: SendResult)
    requires PrintLabel(item, zplReply, printerReply, discovery, send).outcome == Sent
    ensures zplReply.Ok? && printerReply.Ok? && discovery.Discovered?
    ensures var calls := PrintLabel(item, zplReply, printerReply, discovery, send).calls;
            && |calls| == 4
            && calls[0] == PostLabel(LabelBody(item.id, item.inventoryItemId, item.name, item.location.name))
            && calls[1] == GetDefaultPrinter
            && calls[2] == GetLocalDevices(PrinterKind)
            && calls[3].SendZpl? && calls[3].zpl == zplReply.value
            && IsFirstMatch(calls[3].printer, discovery.printers, printerReply.value)
  {
    var i := FindPrinter(discovery.printers, printerReply.value).value;
    assert discovery.printers[i] == PrintLabel(item, zplReply, printerReply, discovery, send).calls[3].printer;
  }

  /** The send primitive is called at most once, and only after a printer matched. */
  lemma {:induction false} SendAtMostOnce(item: Item, zplReply: Reply<string>, printerReply: Reply<string>,
                                          discovery: Discovery, send: SendResult)
    ensures var calls := PrintLabel(item, zplReply, printerReply, discovery, send).calls;
            && (forall i, j :: 0 <= i < |calls| && 0 <= j < |calls| && calls[i].SendZpl? && calls[j].SendZpl? ==> i == j)
            && ((exists i :: 0 <= i < |calls| && calls[i].SendZpl?) <==>
                  zplReply.Ok? && printerReply.Ok? && discovery.Discovered? &&
                  HasMatch(discovery.printers, printerReply.value))
  {
    var r := PrintLabel(item, zplReply, printerReply, discovery, send);
    forall i, j | 0 <= i < |r.calls| && 0 <= j < |r.calls| && r.calls[i].SendZpl? && r.calls[j].SendZpl?
      ensures i == j
    {
      assert StepOf(r.calls[i]) == i && StepOf(r.calls[j]) == j;
    }
    if zplReply.Ok? && printerReply.Ok? && discovery.Discovered? {
      var f := FindPrinter(discovery.printers, printerReply.value);
      if f.Some? {
        assert r.calls[3].SendZpl?;
      } else {
        assert |r.calls| == 3;
      }
    }
    if exists i :: 0 <= i < |r.calls| && r.calls[i].SendZpl? {
      var i :| 0 <= i < |r.calls| && r.calls[i].SendZpl?;
      assert StepOf(r.calls[i]) == i;
    }
  }

  /** A failing step ends the workflow: no later step is called. */
  lemma FailureStopsWorkflow(item: Item, zplReply: Reply<string>, printerReply: Reply<string>,
                             discovery: Discovery, send: SendResult)
    ensures var calls := PrintLabel(item, zplReply, printerReply, discovery, send).calls;
            && (zplReply.Failed? ==> |calls| == 1)
            && (zplReply.Ok? && printerReply.Failed? ==> |calls| == 2)
            && (zplReply.Ok? && printerReply.Ok? && discovery.SdkMissing? ==> |calls| == 2)
            && (zplReply.Ok? && printerReply.Ok? && discovery.DiscoveryFailed? ==> |calls| == 3)
            && ((zplReply.Ok? && printerReply.Ok? && discovery.Discovered? &&
                 !HasMatch(discovery.printers, printerReply.value)) ==> |calls| == 3)
  {
    if zplReply.Ok? && printerReply.Ok? && discovery.Discovered? &&
       !HasMatch(discovery.printers, printerReply.value) {
      assert FindPrinter(discovery.printers, printerReply.value).None?;
    }
  }

  /**
   * Default printer "ZD500" with a printer {uid: "ZD500", connection: "usb:001"}
   * enumerated after a non-matching one: that printer gets the label, once.
   */
  lemma PrintExampleZD500(item: Item)
    ensures var zd := Printer("Zebra", "ZD500", "usb:001");
            var other := Printer("Other", "GK420", "usb:002");
            var r := PrintLabel(item, Ok("^XA^XZ"), Ok("ZD500"), Discovered([other, zd]), SendCompleted);
            && r.outcome == Sent
            && r.calls[3] == SendZpl(zd, "^XA^XZ")
            && AlertText(r.outcome) == "Print job sent successfully"
  {
  }
}
