/** The server-paginated todos page: the current page, the page size and the
    sort direction, the handlers that change them, and the request URL and
    cache key built from them. */
module Todos {
  import Paginator

  // Each module mirrors one source file and keeps its own small helpers
  // (this Option and IsDigit have twins in the registration-rules module).
  datatype Option<T> = None | Some(value: T)

  // ---------------------------------------------------------------------------
  // Decimal rendering of integers, as a template string renders a number

  predicate IsDigit(c: char)
  {
    '0' <= c <= '9'
  }

  predicate AllDigits(s: string)
  {
    forall i :: 0 <= i < |s| ==> IsDigit(s[i])
  }

  function DigitChar(d: nat): char
    requires d < 10
  {
    ['0', '1', '2', '3', '4', '5', '6', '7', '8', '9'][d]
  }

  function DigitValue(c: char): nat
    requires IsDigit(c)
  {
    (c as int) - ('0' as int)
  }

  /** The decimal digits of `n`, most significant first, without leading zeros. */
  function DecNat(n: nat): (s: string)
    ensures |s| >= 1 && AllDigits(s)
    ensures s[0] == '0' ==> n == 0
  {
    if n < 10 then [DigitChar(n)] else DecNat(n / 10) + [DigitChar(n % 10)]
  }

  /** `${i}` for an integer `i`: a minus sign for negatives, then the digits. */
  function Dec(i: int): string
  {
    if i < 0 then "-" + DecNat(-i) else DecNat(i)
  }

  /** The value of a string of decimal digits (Number applied to it). */
  function ParseNat(s: string): nat
    requires AllDigits(s)
  {
    if s == [] then 0 else ParseNat(s[..|s| - 1]) * 10 + DigitValue(s[|s| - 1])
  }

  lemma DigitRoundTrip(d: nat)
    requires d < 10
    ensures IsDigit(DigitChar(d)) && DigitValue(DigitChar(d)) == d
  {
  }

  /** Reading back the digits of a natural number gives the number. */
  lemma {:induction false} ParseDecNat(n: nat)
    ensures ParseNat(DecNat(n)) == n
  {
    var s := DecNat(n);
    DigitRoundTrip(n % 10);
    if n >= 10 {
      assert s[..|s| - 1] == DecNat(n / 10);
      ParseDecNat(n / 10);
    }
  }

  /** Reads the longest run of digits at the start of `s`; returns its value
      and what remains. */
  function ReadNat(s: string): (r: (nat, string))
    ensures |r.1| <= |s|
  {
    var k := SpanDigits(s);
    (ParseNat(s[..k]), s[k..])
  }

  /** Reads an optional minus sign and the longest run of digits that follows;
      returns the value and what remains. */
  function ReadInt(s: string): (r: (int, string))
    ensures |r.1| <= |s|
  {
    if |s| > 0 && s[0] == '-' then
      var (magnitude, rest) := ReadNat(s[1..]);
      (-(magnitude as int), rest)
    else
      ReadNat(s)
  }

  /** Length of the run of digits at the start of `s`. */
  function SpanDigits(s: string): (k: nat)
    ensures k <= |s| && AllDigits(s[..k])
    ensures k < |s| ==> !IsDigit(s[k])
  {
    if s == [] || !IsDigit(s[0]) then 0 else 1 + SpanDigits(s[1..])
  }

  lemma {:induction false} SpanOfDigits(d: string, rest: string)
    requires AllDigits(d)
    requires rest == [] || !IsDigit(rest[0])
    ensures SpanDigits(d + rest) == |d|
  {
    if d != [] {
      assert (d + rest)[1..] == d[1..] + rest;
      SpanOfDigits(d[1..], rest);
    } else {
      assert d + rest == rest;
    }
  }

  /** The digits of a natural number followed by a non-digit are read back exactly. */
  lemma ReadNatBack(n: nat, rest: string)
    requires rest == [] || !IsDigit(rest[0])
    ensures ReadNat(DecNat(n) + rest) == (n, rest)
  {
    var d := DecNat(n);
    SpanOfDigits(d, rest);
    assert (d + rest)[..|d|] == d && (d + rest)[|d|..] == rest;
    ParseDecNat(n);
  }

  lemma ReadDecNat(n: nat, rest: string)
    requires rest == [] || !IsDigit(rest[0])
    ensures ReadInt(Dec(n) + rest) == (n, rest)
  {
    var d := DecNat(n);
    assert Dec(n) == d;
    assert (d + rest)[0] == d[0] && IsDigit(d[0]);
    ReadNatBack(n, rest);
  }

  lemma ReadSigned(t: string)
    ensures ReadInt("-" + t) == (-(ReadNat(t).0 as int), ReadNat(t).1)
  {
    assert ("-" + t)[0] == '-' && ("-" + t)[1..] == t;
  }

  lemma ReadNegative(n: nat, rest: string)
    requires n > 0
    requires rest == [] || !IsDigit(rest[0])
    ensures ReadInt(Dec(-(n as int)) + rest) == (-(n as int), rest)
  {
    var d := DecNat(n);
    var m: int := -(n as int);
    assert Dec(m) == "-" + d;
    assert ("-" + d) + rest == "-" + (d + rest);
    ReadSigned(d + rest);
    ReadNatBack(n, rest);
  }

  /** A rendered integer followed by a non-digit is read back exactly. */
  lemma ReadDec(i: int, rest: string)
    requires rest == [] || !IsDigit(rest[0])
    ensures ReadInt(Dec(i) + rest) == (i, rest)
  {
    if i < 0 {
      ReadNegative(-i, rest);
    } else {
      ReadDecNat(i, rest);
    }
  }

  /** Different integers render differently. */
  lemma DecInjective(a: int, b: int)
    requires Dec(a) == Dec(b)
    ensures a == b
  {
    ReadDec(a, []);
    ReadDec(b, []);
    assert Dec(a) + [] == Dec(a) && Dec(b) + [] == Dec(b);
  }

  // ---------------------------------------------------------------------------
  // Request URL and cache key

  const UrlHead := "/todos?pagination[pageSize]="
  const UrlPage := "&pagination[page]="
  const UrlSort := "&sort=createdAt:"
  const KeyHead := "todos-page-"

  /** The URL the page fetches for its current state. */
  function RequestUrl(page: int, pageSize: int, sortBy: string): (r: string)
    ensures |r| >= |UrlHead| + |sortBy| && r[..|UrlHead|] == UrlHead
    ensures r[|r| - |sortBy|..] == sortBy
  {
    UrlHead + (Dec(pageSize) + (UrlPage + (Dec(page) + (UrlSort + sortBy))))
  }

  /** The cache key the page fetches under. */
  function QueryKey(page: int, pageSize: int, sortBy: string): (r: seq<string>)
    ensures |r| == 3 && |r[0]| > |KeyHead| && r[0][..|KeyHead|] == KeyHead && r[2] == sortBy
  {
    [KeyHead + Dec(page), Dec(pageSize), sortBy]
  }

  /** Equal cache keys mean equal page, page size and sort: two different
      states never share a cached result. */
  lemma QueryKeyInjective(page: int, pageSize: int, sortBy: string, page': int, pageSize': int, sortBy': string)
    requires QueryKey(page, pageSize, sortBy) == QueryKey(page', pageSize', sortBy')
    ensures page == page' && pageSize == pageSize' && sortBy == sortBy'
  {
    var k, k' := QueryKey(page, pageSize, sortBy), QueryKey(page', pageSize', sortBy');
    assert k[0] == k'[0] && k[1] == k'[1] && k[2] == k'[2];
    assert Dec(page) == k[0][|KeyHead|..] == k'[0][|KeyHead|..] == Dec(page');
    DecInjective(page, page');
    DecInjective(pageSize, pageSize');
  }

  /** What follows `prefix` in `s`, if `s` starts with it. */
  function After(prefix: string, s: string): (r: Option<string>)
    ensures r.Some? ==> prefix + r.value == s
  {
    if |s| >= |prefix| && s[..|prefix|] == prefix then Some(s[|prefix|..]) else None
  }

  lemma AfterPrefix(prefix: string, x: string)
    ensures After(prefix, prefix + x) == Some(x)
  {
    assert (prefix + x)[..|prefix|] == prefix && (prefix + x)[|prefix|..] == x;
  }

  /** Reads page, page size and sort back out of a request URL. */
  function ParseUrl(url: string): Option<(int, int, string)>
  {
    match After(UrlHead, url)
    case None => None
    case Some(a) =>
      var (pageSize, r1) := ReadInt(a);
      match After(UrlPage, r1)
      case None => None
      case Some(b) =>
        var (page, r2) := ReadInt(b);
        match After(UrlSort, r2)
        case None => None
        case Some(sortBy) => Some((page, pageSize, sortBy))
  }

  /** The URL determines the state it was built from, so two different
      states never fetch the same URL. */
  lemma ParseRequestUrl(page: int, pageSize: int, sortBy: string)
    ensures ParseUrl(RequestUrl(page, pageSize, sortBy)) == Some((page, pageSize, sortBy))
  {
    var tail2 := UrlSort + sortBy;
    var tail1 := UrlPage + (Dec(page) + tail2);
    AfterPrefix(UrlHead, Dec(pageSize) + tail1);
    ReadDec(pageSize, tail1);
    AfterPrefix(UrlPage, Dec(page) + tail2);
    ReadDec(page, tail2);
    AfterPrefix(UrlSort, sortBy);
  }

  // ---------------------------------------------------------------------------
  // The selectors

  /** The page sizes offered. */
  const PageSizeOptions: seq<int> := [10, 25, 50, 100]

  /** The sort directions offered. */
  const SortOptions: seq<string> := ["DESC", "ASC"]

  /** The select's option values, as the page sizes render into the page. */
  function PageSizeOptionValues(): (r: seq<string>)
    ensures r == ["10", "25", "50", "100"]
  {
    var r := seq(|PageSizeOptions|, i requires 0 <= i < |PageSizeOptions| => Dec(PageSizeOptions[i]));
    assert DecNat(10) == "10" && DecNat(25) == "25" && DecNat(50) == "50" && DecNat(100) == "100";
    r
  }

  /** Each option value is the decimal text of the page size at the same position. */
  lemma OptionValueRendersSize(i: int)
    requires 0 <= i < |PageSizeOptions|
    ensures PageSizeOptionValues()[i] == Dec(PageSizeOptions[i])
  {
  }

  /** The initial sort value "Desc" is none of the offered values. */
  lemma InitialSortNotOffered()
    ensures "Desc" !in SortOptions
  {
    assert "Desc"[1] != "DESC"[1];
  }

  // ---------------------------------------------------------------------------
  // The page state

  class TodosPage {
    var page: int
    var pageSize: int
    var sortBy: string

    constructor ()
      ensures page == 1 && pageSize == 10 && sortBy == "Desc"
    {
      page := 1;
      pageSize := 10;
      sortBy := "Desc";
    }

    method OnClickPrev()
      modifies this
      ensures page == old(page) - 1 && pageSize == old(pageSize) && sortBy == old(sortBy)
    {
      page := page - 1;
    }

    method OnClickNext()
      modifies this
      ensures page == old(page) + 1 && pageSize == old(pageSize) && sortBy == old(sortBy)
    {
      page := page + 1;
    }

    /** Takes the chosen option's value and converts it back to a number; the
        current page is kept as it is, even past the new last page. */
    method OnChangePageSize(value: string)
      requires value in PageSizeOptionValues()
      modifies this
      ensures pageSize in PageSizeOptions && Dec(pageSize) == value
      ensures page == old(page) && sortBy == old(sortBy)
    {
      var i :| 0 <= i < |PageSizeOptionValues()| && PageSizeOptionValues()[i] == value;
      var size: nat := PageSizeOptions[i];
      OptionValueRendersSize(i);
      assert value == DecNat(size);
      ParseDecNat(size);
      pageSize := ParseNat(value);
    }

    /** A click on a page-number button as the page is written: the paginator
        is given no page-change handler, so the click fails before anything
        is set and the state stays as it was. */
    method OnPageNumberClickAsWritten(n: int)
      modifies this
      ensures page == old(page) && pageSize == old(pageSize) && sortBy == old(sortBy)
    {
    }

    /** The page-change handler the paginator expects: the clicked page
        becomes the current page. */
    method OnPageChange(n: int)
      modifies this
      ensures page == n && pageSize == old(pageSize) && sortBy == old(sortBy)
    {
      page := n;
    }

    /** Takes the chosen option's value as the sort direction; the current
        page is kept. */
    method OnChangeSortBy(value: string)
      modifies this
      ensures sortBy == value && page == old(page) && pageSize == old(pageSize)
    {
      sortBy := value;
    }
  }

  // ---------------------------------------------------------------------------
  // Clicking a page number

  /** On a fresh page, a click on any page-number button of the row is lost as
      written, while with the handler connected it moves to that page, which
      is then within [1, pageCount]. */
  method PageNumberClick(pageCount: int, n: int) returns (asWritten: int, corrected: int)
    requires Paginator.Btn(n, n == 1) in Paginator.PageEntries(1, pageCount)
    ensures asWritten == 1
    ensures corrected == n && 1 <= corrected <= pageCount
  {
    var shown := new TodosPage();
    shown.OnPageNumberClickAsWritten(n);
    asWritten := shown.page;
    var fixed := new TodosPage();
    fixed.OnPageChange(n);
    corrected := fixed.page;
    Paginator.ShownButtonInRange(1, pageCount, Paginator.Btn(n, n == 1));
  }

  /** With ten pages, the button for page 3 is shown on the first page, so the
      click above can be one that should change the page. */
  lemma PageThreeOffered()
    ensures Paginator.Btn(3, false) in Paginator.PageEntries(1, 10)
  {
    Paginator.ManyPagesRow(1, 10);
  }
}
