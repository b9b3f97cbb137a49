/** The special agent's API client: the base URL, the request URLs of
    the OPNsense REST API, and the paging loop that collects the virtual
    IP status. The HTTP exchange itself is abstracted: a request is the
    record of what would be sent, and the server's answers to the VIP
    status requests are given as a sequence of pages. */
module Agent {
  import opened Common
  import opened Text
  import Vip

  /** What a request sends: the HTTP method (verb), the URL and, for the VIP
      status pages, the page number in the JSON body. */
  datatype Request = Request(verb: string, url: string, page: Option<int>)

  /** url.rstrip('/') */
  function BaseUrl(url: string): (b: string)
    ensures |b| <= |url| && b == url[..|b|]
    ensures b == [] || b[|b| - 1] != '/'
    ensures forall i :: |b| <= i < |url| ==> url[i] == '/'
  {
    RStripChar(url, '/')
  }

  /** f"{base}/{module}/{controller}/{command}" */
  function JoinUrl(base: string, moduleName: string, controller: string, command: string): string {
    base + "/" + moduleName + "/" + controller + "/" + command
  }

  /** The URL is the stripped base, one slash, and the path of the three
      parts, so base and path can be read back, and there is no double
      slash at the join. */
  lemma JoinUrlParts(url: string, moduleName: string, controller: string, command: string)
    ensures var b := BaseUrl(url);
            var u := JoinUrl(b, moduleName, controller, command);
            && |u| > |b| && u[..|b|] == b && u[|b|] == '/'
            && u[|b| + 1..] == moduleName + "/" + controller + "/" + command
            && (b != [] ==> u[|b| - 1] != '/')
  {
    var b := BaseUrl(url);
    var u := JoinUrl(b, moduleName, controller, command);
    var path := moduleName + "/" + controller + "/" + command;
    assert u == b + "/" + path;
    assert (b + "/" + path)[|b| + 1..] == path;
  }

  /** Trailing slashes on the configured URL make no difference. */
  lemma {:induction false} BaseUrlSlashes(url: string, n: nat)
    ensures BaseUrl(url + seq(n, i => '/')) == BaseUrl(url)
    ensures BaseUrl(BaseUrl(url)) == BaseUrl(url)
  {
    RStripCharAppend(url, '/');
    if n > 0 {
      var shorter := url + seq(n - 1, i => '/');
      BaseUrlSlashes(url, n - 1);
      assert url + seq(n, i => '/') == shorter + ['/'];
      RStripCharAppend(shorter, '/');
    } else {
      assert url + seq(n, i => '/') == url;
    }
  }

  // ---------------------------------------------------------------------
  // VIP status pages

  /** One answer of diagnostics/interface/get_vip_status: the rows of the
      page, the CARP status, the total number of rows, the page size and
      the page number the server says it returned. */
  datatype Page = Page(rows: seq<Vip.VirtualIp>, carp: Vip.Carp, total: int, rowCount: int, current: int)

  /** What getVipStatus returns: every fetched row and the CARP status. */
  datatype VipStatus = VipStatus(vips: seq<Vip.VirtualIp>, carp: Vip.Carp)

  /** The stop condition as written: the total fits into one page more
      than the current one. */
  predicate StopsAsWritten(p: Page) {
    p.total <= p.rowCount * (p.current + 1)
  }

  /** The stop condition evidently meant: the total fits into the pages
      fetched so far. */
  predicate StopsIntended(p: Page) {
    p.total <= p.rowCount * p.current
  }

  /** The rows of the given pages, in order. */
  function RowsOf(pages: seq<Page>): (rows: seq<Vip.VirtualIp>)
  {
    if pages == [] then [] else RowsOf(pages[..|pages| - 1]) + pages[|pages| - 1].rows
  }

  /** The loop fetching pages until one satisfies the stop condition:
      the rows of the fetched pages and the CARP status of the last one, or
      None when the given pages run out first. */
  function Paged(pages: seq<Page>, stop: Page -> bool): (r: Option<VipStatus>)
    ensures r.None? <==> forall j :: 0 <= j < |pages| ==> !stop(pages[j])
  {
    match FirstWhere(pages, stop)
    case None => None
    case Some(n) => Some(VipStatus(RowsOf(pages[..n + 1]), pages[n].carp))
  }

  /** getVipStatus as written. */
  function VipStatusAsWritten(pages: seq<Page>): Option<VipStatus> {
    Paged(pages, StopsAsWritten)
  }

  /** getVipStatus with the intended stop condition. */
  function VipStatusIntended(pages: seq<Page>): Option<VipStatus> {
    Paged(pages, StopsIntended)
  }

  function Min(a: int, b: int): int {
    if a <= b then a else b
  }

  /** i * R, spelled out as repeated addition. */
  function Mul(i: nat, R: nat): nat {
    if i == 0 then 0 else Mul(i - 1, R) + R
  }

  lemma {:induction false} MulProduct(i: nat, R: nat)
    ensures Mul(i, R) == i * R
  {
    if i > 0 {
      MulProduct(i - 1, R);
      assert (i - 1) * R + R == i * R;
    }
  }

  /** The rows a consistent server puts on page i + 1: from i * R up to
      (i + 1) * R, cut at the end of the rows. */
  function PageRows(all: seq<Vip.VirtualIp>, R: nat, i: nat): seq<Vip.VirtualIp> {
    all[Min(Mul(i, R), |all|)..Min(Mul(i, R) + R, |all|)]
  }

  /** A server that pages `all` consistently: R rows per page, page i + 1
      at position i, each announcing the total and its own number. */
  predicate ServesPages(pages: seq<Page>, all: seq<Vip.VirtualIp>, R: nat) {
    && Numbered(pages, |all|, R)
    && forall i: nat :: i < |pages| ==> pages[i].rows == PageRows(all, R, i)
  }

  /** Page i + 1 sits at position i and announces the total and R rows
      per page. */
  predicate Numbered(pages: seq<Page>, total: nat, R: nat) {
    && R > 0
    && forall i: nat :: i < |pages| ==>
         pages[i].total == total && pages[i].rowCount == R && pages[i].current == i + 1
  }

  /** The first n pages of such a server hold the first n * R rows. */
  lemma {:induction false} RowsOfServed(pages: seq<Page>, all: seq<Vip.VirtualIp>, R: nat, n: nat)
    requires ServesPages(pages, all, R) && n <= |pages|
    ensures RowsOf(pages[..n]) == all[..Min(Mul(n, R), |all|)]
  {
    if n > 0 {
      var prefix := pages[..n];
      assert prefix[..n - 1] == pages[..n - 1];
      RowsOfServed(pages, all, R, n - 1);
      var a, b := Min(Mul(n - 1, R), |all|), Min(Mul(n, R), |all|);
      assert pages[n - 1].rows == all[a..b];
      assert all[..a] + all[a..b] == all[..b];
    }
  }

  /** With the intended condition, a consistent server with enough pages
      yields every row, fetching the pages up to the one holding the last
      row and no further. */
  lemma IntendedFetchesAll(pages: seq<Page>, all: seq<Vip.VirtualIp>, R: nat)
    requires ServesPages(pages, all, R) && |pages| >= 1 && |pages| * R >= |all|
    ensures VipStatusIntended(pages).Some? && VipStatusIntended(pages).value.vips == all
    ensures FirstWhere(pages, StopsIntended).Some?
    ensures FirstStopHoldsLast(all, R, FirstWhere(pages, StopsIntended).value)
  {
    MulProduct(|pages|, R);
    FetchesAllServed(pages, all, R);
  }

  /** IntendedFetchesAll with the page bound in repeated addition. */
  lemma FetchesAllServed(pages: seq<Page>, all: seq<Vip.VirtualIp>, R: nat)
    requires ServesPages(pages, all, R) && |pages| >= 1 && Mul(|pages|, R) >= |all|
    ensures VipStatusIntended(pages).Some? && VipStatusIntended(pages).value.vips == all
    ensures FirstWhere(pages, StopsIntended).Some?
    ensures FirstStopHoldsLast(all, R, FirstWhere(pages, StopsIntended).value)
  {
    var last := |pages| - 1;
    IntendedCondition(pages[last], last, R);
    var n := FirstWhere(pages, StopsIntended).value;
    FirstIntendedStop(pages, all, R, n);
    RowsOfServed(pages, all, R, n + 1);
    assert RowsOf(pages[..n + 1]) == all[..|all|] == all;
  }

  /** Page n + 1 of R rows holds the last row of all. */
  predicate FirstStopHoldsLast(all: seq<Vip.VirtualIp>, R: nat, n: nat) {
    |all| <= Mul(n + 1, R) && (n == 0 || Mul(n, R) < |all|)
  }

  /** The first page meeting the intended condition is the one holding
      the last row. */
  lemma FirstIntendedStop(pages: seq<Page>, all: seq<Vip.VirtualIp>, R: nat, n: nat)
    requires Numbered(pages, |all|, R) && FirstWhere(pages, StopsIntended) == Some(n)
    ensures FirstStopHoldsLast(all, R, n)
  {
    IntendedCondition(pages[n], n, R);
    if n > 0 {
      assert !StopsIntended(pages[n - 1]);
      IntendedCondition(pages[n - 1], n - 1, R);
    }
  }

  /** The intended condition on page i + 1 of R rows, in repeated
      addition. */
  lemma IntendedCondition(p: Page, i: nat, R: nat)
    requires p.rowCount == R && p.current == i + 1
    ensures StopsIntended(p) <==> p.total <= Mul(i + 1, R)
  {
    MulProduct(i + 1, R);
  }

  /** As written, a consistent server whose rows do not fit one page
      loses the rows of the last page. */
  lemma AsWrittenMissesRows(pages: seq<Page>, all: seq<Vip.VirtualIp>, R: nat)
    requires ServesPages(pages, all, R) && |pages| >= 1 && |pages| * R >= |all| && |all| > R
    ensures VipStatusAsWritten(pages).Some? && |VipStatusAsWritten(pages).value.vips| < |all|
  {
    LastPageStops(pages, all, R);
    var n := FirstWhere(pages, StopsAsWritten).value;
    RowsOfServed(pages, all, R, n + 1);
    if n > 0 {
      assert !StopsAsWritten(pages[n - 1]);
      StopCondition(pages[n - 1], n - 1, R);
    } else {
      assert Mul(1, R) == R;
    }
  }

  /** The last page of enough pages satisfies the written condition. */
  lemma LastPageStops(pages: seq<Page>, all: seq<Vip.VirtualIp>, R: nat)
    requires ServesPages(pages, all, R) && |pages| >= 1 && |pages| * R >= |all|
    ensures StopsAsWritten(pages[|pages| - 1])
  {
    var p := pages[|pages| - 1];
    StopCondition(p, |pages| - 1, R);
    MulProduct(|pages|, R);
  }

  /** The written condition on page i + 1 of R rows, in repeated
      addition. */
  lemma StopCondition(p: Page, i: nat, R: nat)
    requires p.rowCount == R && p.current == i + 1
    ensures StopsAsWritten(p) <==> p.total <= Mul(i + 2, R)
  {
    MulProduct(i + 2, R);
  }

  /** Fifteen rows in pages of ten: the first page already satisfies the
      written condition (15 <= 10 * 2), so only its ten rows come back. */
  lemma AsWrittenFifteenRows(all: seq<Vip.VirtualIp>, carp: Vip.Carp)
    requires |all| == 15
    ensures var pages := [Page(all[..10], carp, 15, 10, 1), Page(all[10..], carp, 15, 10, 2)];
            && VipStatusAsWritten(pages) == Some(VipStatus(all[..10], carp))
            && VipStatusIntended(pages) == Some(VipStatus(all, carp))
  {
    var pages := [Page(all[..10], carp, 15, 10, 1), Page(all[10..], carp, 15, 10, 2)];
    assert StopsAsWritten(pages[0]);
    assert !StopsIntended(pages[0]) && StopsIntended(pages[1]);
    assert pages[..1][..0] == [] && pages[..2][..1] == pages[..1];
    assert pages[..2] == pages;
    assert RowsOf(pages[..1]) == all[..10];
    assert all[..10] + all[10..] == all;
  }

  // ---------------------------------------------------------------------
  // The client

  /** The numbered requests for the first n VIP status pages. */
  function VipRequests(base: string, n: nat): (reqs: seq<Request>)
    ensures |reqs| == n
  {
    seq(n, i => Request("POST", JoinUrl(base, "diagnostics", "interface", "get_vip_status"), Some(i + 1)))
  }

  class OSAPI {
    var url: string
    var key: string
    var secret: string
    var verifyCert: bool

    constructor(url: string, key: string, secret: string, verifyCert: bool := true)
      ensures this.url == BaseUrl(url) && this.key == key && this.secret == secret && this.verifyCert == verifyCert
    {
      this.url := BaseUrl(url);
      this.key := key;
      this.secret := secret;
      this.verifyCert := verifyCert;
    }

    /** request: the HTTP method and the URL of the call. */
    function RequestFor(verb: string, moduleName: string, controller: string, command: string, page: Option<int>): (r: Request)
      reads this
      ensures |url| <= |r.url| && r.url[..|url|] == url && r.verb == verb && r.page == page
    {
      Request(verb, JoinUrl(url, moduleName, controller, command), page)
    }

    function Get(moduleName: string, controller: string, command: string): (r: Request)
      reads this
      ensures r == RequestFor("GET", moduleName, controller, command, None)
    {
      RequestFor("GET", moduleName, controller, command, None)
    }

    function Post(moduleName: string, controller: string, command: string, page: Option<int>): (r: Request)
      reads this
      ensures r == RequestFor("POST", moduleName, controller, command, page)
    {
      RequestFor("POST", moduleName, controller, command, page)
    }

    /** getVipStatus, given the server's answers in order: requests pages
        1, 2, 3, ..., collecting their rows, until a page satisfies the
        written stop condition. None when the given answers run out
        first. */
    method GetVipStatus(pages: seq<Page>) returns (status: Option<VipStatus>, sent: seq<Request>)
      ensures status == VipStatusAsWritten(pages)
      ensures status.Some? ==> sent == VipRequests(url, FirstWhere(pages, StopsAsWritten).value + 1)
      ensures status.None? ==> sent == VipRequests(url, |pages|)
    {
      var vips: seq<Vip.VirtualIp> := [];
      var carp: Option<Vip.Carp> := None;
      var current := 1;
      sent := [];
      while current <= |pages|
        invariant 1 <= current <= |pages| + 1
        invariant forall j :: 0 <= j < current - 1 ==> !StopsAsWritten(pages[j])
        invariant vips == RowsOf(pages[..current - 1])
        invariant sent == VipRequests(url, current - 1)
        decreases |pages| - current
      {
        sent := sent + [Post("diagnostics", "interface", "get_vip_status", Some(current))];
        var page := pages[current - 1];
        assert pages[..current][..current - 1] == pages[..current - 1];
        vips := vips + page.rows;
        carp := Some(page.carp);
        if page.total <= page.rowCount * (page.current + 1) {
          FirstWhereIs(pages, StopsAsWritten, current - 1);
          return Some(VipStatus(vips, carp.value)), sent;
        }
        current := current + 1;
      }
      status := None;
    }
  }

  /** get and post differ only in the method. */
  lemma GetPostDiffer(api: OSAPI, moduleName: string, controller: string, command: string)
    ensures api.Post(moduleName, controller, command, None) == api.Get(moduleName, controller, command).(verb := "POST")
    ensures api.Get(moduleName, controller, command).url == JoinUrl(api.url, moduleName, controller, command)
  {
  }
}
