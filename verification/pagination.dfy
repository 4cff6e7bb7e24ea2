/**
 * Query-parameter handling of the transactions endpoint (`GET
 * /api/transactions?address=…&page=…&offset=…`): defaults, validation and
 * the `limit`/`skip` window handed to the database query.
 */
module Pagination {
  import opened Wrappers
  import opened Decimal

  const BadRequest: int := 400
  const AddressRequired := "Address is required"
  const InvalidNumber := "Invalid page or offset value"
  const DefaultPage := "1"
  const DefaultOffset := "50"

  /** Either a 400 reply with its error text, or the window to query. */
  datatype Reply = Error(status: int, message: string) | Window(limit: nat, skip: nat)

  /** `searchParams.get(name) || fallback`: an absent or empty parameter takes the fallback. */
  function OrDefault(param: Option<string>, fallback: string): (r: string)
    ensures param.Some? && param.value != "" ==> r == param.value
    ensures param.None? || param.value == "" ==> r == fallback
  {
    if param.Some? && param.value != "" then param.value else fallback
  }

  /** `Math.max(0, x)`. */
  function ClampNonNegative(x: int): (r: nat)
    ensures x >= 0 ==> r == x
    ensures x < 0 ==> r == 0
  {
    if x < 0 then 0 else x
  }

  /** The page window: `limit` is the offset clamped at 0, `skip` skips the
      `page - 1` earlier pages of that size, clamped at 0. */
  function WindowOf(pageNumber: int, offsetNumber: int): (w: Reply)
    ensures w.Window?
    ensures w.limit as int >= offsetNumber && (offsetNumber >= 0 ==> w.limit == offsetNumber)
    ensures w.limit == 0 ==> offsetNumber <= 0
    ensures offsetNumber < 0 ==> w.limit == 0
    ensures pageNumber <= 1 ==> w.skip == 0
    ensures pageNumber >= 1 ==> w.skip == (pageNumber - 1) * w.limit
  {
    var limit := ClampNonNegative(offsetNumber);
    Window(limit, ClampNonNegative((pageNumber - 1) * limit))
  }

  /** The parameter handling of `GET`: the address is checked first, then both
      numbers; otherwise the window of the requested page. */
  function Paginate(address: Option<string>, page: Option<string>, offset: Option<string>): (r: Reply)
    ensures r.Error? ==> r.status == BadRequest
    ensures r == Error(BadRequest, AddressRequired) <==> address.None? || address.value == ""
    ensures r == Error(BadRequest, InvalidNumber)
        <==> address.Some? && address.value != ""
             && (ParseInt(OrDefault(page, DefaultPage)).None? || ParseInt(OrDefault(offset, DefaultOffset)).None?)
    ensures r.Window? ==> r == WindowOf(ParseInt(OrDefault(page, DefaultPage)).value,
                                         ParseInt(OrDefault(offset, DefaultOffset)).value)
  {
    var pageText := OrDefault(page, DefaultPage);
    var offsetText := OrDefault(offset, DefaultOffset);
    if address.None? || address.value == "" then Error(BadRequest, AddressRequired)
    else
      var pageNumber := ParseInt(pageText);
      var offsetNumber := ParseInt(offsetText);
      if pageNumber.None? || offsetNumber.None? then Error(BadRequest, InvalidNumber)
      else WindowOf(pageNumber.value, offsetNumber.value)
  }

  /** The default texts read as 1 and 50. The texts are parameters pinned by
      the precondition rather than literals in the conclusion, so that the
      verifier reasons about their characters one by one instead of
      evaluating `ParseInt` on a literal. */
  lemma DefaultsRead(one: string, fifty: string)
    requires one == "1" && fifty == "50"
    ensures ParseInt(one) == Some(1) && ParseInt(fifty) == Some(50)
  {
    assert one == ['1'] && IsDigit(one[0]) && one[..1] == one;
    ParseUnsignedOf(one, 1);
    assert DigitsValue(one[..0]) == 0;
    assert fifty == ['5', '0'] && IsDigit(fifty[0]) && IsDigit(fifty[1]) && fifty[..2] == fifty;
    ParseUnsignedOf(fifty, 2);
    assert fifty[..1] == ['5'];
    assert DigitsValue(fifty[..1]) == 5;
  }

  /** Without `page` and `offset` (or with them empty) the first page of 50 is served. */
  lemma DefaultWindow(address: string, page: Option<string>, offset: Option<string>)
    requires address != ""
    requires page.None? || page.value == ""
    requires offset.None? || offset.value == ""
    ensures Paginate(Some(address), page, offset) == Window(50, 0)
  {
    var one, fifty := OrDefault(page, DefaultPage), OrDefault(offset, DefaultOffset);
    assert one == "1" && fifty == "50";
    DefaultsRead(one, fifty);
  }

  /** A decimal page or offset is cut to its integer part. */
  lemma DecimalsTruncated(address: Option<string>, page: int, offset: int, pageFraction: string, offsetFraction: string)
    ensures Paginate(address, Some(Format(page) + "." + pageFraction), Some(Format(offset) + "." + offsetFraction))
         == Paginate(address, Some(Format(page)), Some(Format(offset)))
  {
    ParseTruncates(page, pageFraction);
    ParseTruncates(offset, offsetFraction);
    ParseFormat(page);
    ParseFormat(offset);
  }

  /** For instance, a page given as `"2.7"` is page 2 (the text is a parameter
      for the reason given at `DefaultsRead`). */
  lemma TwoPointSevenIsTwo(text: string)
    requires text == "2.7"
    ensures ParseInt(text) == Some(2)
  {
    assert text[0] == '2' && text[1] == '.';
    assert text[..1] == ['2'] && ['2'][..0] == [];
    ParseUnsignedOf(text, 1);
    assert DigitsValue(['2']) == 2;
  }

  /** The window of a well-formed request for page `p` with size `n`. */
  lemma WindowOfPage(address: string, p: int, n: int)
    requires address != ""
    ensures Paginate(Some(address), Some(Format(p)), Some(Format(n))) == WindowOf(p, n)
  {
    var pageText, offsetText := Format(p), Format(n);
    assert OrDefault(Some(pageText), DefaultPage) == pageText;
    assert OrDefault(Some(offsetText), DefaultOffset) == offsetText;
    ParseFormat(p);
    ParseFormat(n);
  }

  /** Consecutive pages from the first on start exactly one page size apart, so
      the windows tile the result without gap or overlap. */
  lemma {:induction false} ConsecutivePages(address: string, p: int, n: int)
    requires address != "" && p >= 1
    ensures var here := Paginate(Some(address), Some(Format(p)), Some(Format(n)));
            var next := Paginate(Some(address), Some(Format(p + 1)), Some(Format(n)));
            here.Window? && next.Window? && next.limit == here.limit && next.skip == here.skip + here.limit
  {
    WindowOfPage(address, p, n);
    WindowOfPage(address, p + 1, n);
    var limit := WindowOf(p, n).limit;
    assert WindowOf(p + 1, n).limit == limit;
    assert p * limit == (p - 1) * limit + limit;
  }

  /** Page numbers at or below 1 start at the beginning. */
  lemma {:induction false} FirstPageStartsAtZero(address: string, p: int, n: int)
    requires address != "" && p <= 1
    ensures Paginate(Some(address), Some(Format(p)), Some(Format(n))) == Window(ClampNonNegative(n), 0)
  {
    WindowOfPage(address, p, n);
  }

  /** A negative or zero offset gives an empty window at the beginning. */
  lemma {:induction false} NonPositiveOffsetIsEmpty(address: string, p: int, n: int)
    requires address != "" && n <= 0
    ensures Paginate(Some(address), Some(Format(p)), Some(Format(n))) == Window(0, 0)
  {
    WindowOfPage(address, p, n);
    var w := WindowOf(p, n);
    assert w.limit == 0;
    assert (p - 1) * w.limit == 0;
  }

  /** An address check precedes the numeric check: a request without an
      address is refused as such whatever its page and offset say. */
  lemma AddressCheckedFirst(page: Option<string>, offset: Option<string>)
    ensures Paginate(None, page, offset) == Error(BadRequest, AddressRequired)
    ensures Paginate(Some(""), page, offset) == Error(BadRequest, AddressRequired)
  {
  }
}
