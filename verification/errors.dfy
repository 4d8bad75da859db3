/**
 * The page's error reporting: every failed request is turned into the line
 * "Error: <status> - <message>" shown in the error popup.
 */
module Errors {
  import opened Options
  import Decimal

  /** What the HTTP client reports when the server answered with an error status. */
  datatype Response = Response(status: nat, dataMessage: Option<string>)

  /**
   * A rejected request: `response` is absent for transport errors (no answer
   * received); `message` is the client's own error text.
   */
  datatype HttpError = HttpError(response: Option<Response>, message: Option<string>)

  /** The result of one request. */
  datatype Reply<+T> = Ok(value: T) | Failed(error: HttpError)

  /** How an absent value prints inside a template literal. */
  const Undefined: string := "undefined"

  const Prefix: string := "Error: "
  const Separator: string := " - "

  function Show(s: Option<string>): string {
    s.GetOr(Undefined)
  }

  /** `err.response?.status` as printed. */
  function StatusText(e: HttpError): string {
    match e.response
    case None => Undefined
    case Some(r) => Decimal.FromNat(r.status)
  }

  /** `err.response?.data?.message || err.message`: an empty backend message is falsy. */
  function Detail(e: HttpError): string {
    if e.response.Some? && e.response.value.dataMessage.Some? && e.response.value.dataMessage.value != ""
    then e.response.value.dataMessage.value
    else Show(e.message)
  }

  function FormatError(e: HttpError): (msg: string)
    ensures |msg| >= |Prefix| + |Separator| + 1 && msg[..|Prefix|] == Prefix
    ensures var k := |Prefix| + |StatusText(e)|;
            k + |Separator| <= |msg| && msg[k..k + |Separator|] == Separator
  {
    Prefix + StatusText(e) + Separator + Detail(e)
  }

  // ---------------------------------------------------------------------------
  // The inverse: reading the status and the detail back out of a message.

  /** What a reader of the error popup can tell: the status (if any) and the detail. */
  datatype Report = Report(status: Option<nat>, detail: string)

  function IndexOfSpace(s: string): (k: nat)
    ensures k <= |s|
    ensures k < |s| ==> s[k] == ' '
    ensures forall i :: 0 <= i < k ==> s[i] != ' '
  {
    if |s| == 0 then 0
    else if s[0] == ' ' then 0
    else 1 + IndexOfSpace(s[1..])
  }

  function ParseStatus(t: string): Option<Option<nat>> {
    if t == Undefined then Some(None)
    else if |t| > 0 && Decimal.AllDigits(t) then Some(Some(Decimal.ToNat(t)))
    else None
  }

  function ParseError(msg: string): Option<Report> {
    if |msg| < |Prefix| || msg[..|Prefix|] != Prefix then None
    else
      var rest := msg[|Prefix|..];
      var k := IndexOfSpace(rest);
      if |rest| < k + |Separator| || rest[k..k + |Separator|] != Separator then None
      else
        match ParseStatus(rest[..k])
        case None => None
        case Some(status) => Some(Report(status, rest[k + |Separator|..]))
  }

  function StatusOf(e: HttpError): Option<nat> {
    match e.response
    case None => None
    case Some(r) => Some(r.status)
  }

  lemma {:induction false} IndexOfSpaceAfterWord(w: string, tail: string)
    requires forall i :: 0 <= i < |w| ==> w[i] != ' '
    requires |tail| > 0 && tail[0] == ' '
    ensures IndexOfSpace(w + tail) == |w|
    decreases |w|
  {
    if |w| > 0 {
      assert (w + tail)[1..] == w[1..] + tail;
      IndexOfSpaceAfterWord(w[1..], tail);
    } else {
      assert w + tail == tail;
    }
  }

  /** The status and the detail can be read back from the formatted message. */
  lemma FormatErrorRoundTrip(e: HttpError)
    ensures ParseError(FormatError(e)) == Some(Report(StatusOf(e), Detail(e)))
  {
    var msg := FormatError(e);
    var st := StatusText(e);
    var rest := msg[|Prefix|..];
    assert rest == st + (Separator + Detail(e));
    assert forall i :: 0 <= i < |st| ==> st[i] != ' ' by {
      if e.response.Some? {
        assert Decimal.AllDigits(st);
      }
    }
    IndexOfSpaceAfterWord(st, Separator + Detail(e));
    assert rest[..|st|] == st;
    assert rest[|st|..|st| + |Separator|] == Separator;
    assert rest[|st| + |Separator|..] == Detail(e);
    match e.response {
      case None =>
      case Some(r) =>
        assert st != Undefined by {
          assert Decimal.IsDigit(st[0]);
        }
        Decimal.ToNatFromNat(r.status);
    }
  }

  /** Two errors produce the same line only if they agree on status and detail. */
  lemma FormatErrorDistinguishes(e1: HttpError, e2: HttpError)
    requires FormatError(e1) == FormatError(e2)
    ensures StatusOf(e1) == StatusOf(e2) && Detail(e1) == Detail(e2)
  {
    FormatErrorRoundTrip(e1);
    FormatErrorRoundTrip(e2);
  }
}
