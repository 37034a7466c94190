/**
 * scrape_mal.py: the listing URL of the "just added" pages, the `crawl`
 * rate limiter with its bounded, linearly backed-off retries, the `entry`
 * record, and the page arithmetic and retry bound of the Jikan animelist
 * download. Time is a clock object whose `now` only `sleep` advances; the
 * network is an oracle from the attempt number to what `requests.get` (or
 * the Jikan call) does.
 */
module Crawler {
  import opened Wrappers
  import opened Text

  const BaseUrl: string := "https://myanimelist.net/anime.php?o=9&c%5B0%5D=a&c%5B1%5D=d&cv=2&w=1&show="

  /** Entries per "just added" page. */
  const PageSize: nat := 50

  /** `just_added_page(n)`: the listing URL showing entries from offset `50 * n`. */
  function JustAddedPage(n: nat): string
  {
    BaseUrl + NatToString(n * PageSize)
  }

  /** The URL is the base followed by the offset `50 * n`, written in canonical decimal. */
  lemma JustAddedPageOffset(n: nat)
    ensures StartsWith(JustAddedPage(n), BaseUrl)
    ensures var offset := JustAddedPage(n)[|BaseUrl|..];
      Canonical(offset) && DigitsValue(offset) == 50 * n
  {
    var u := JustAddedPage(n);
    assert u[..|BaseUrl|] == BaseUrl;
    assert u[|BaseUrl|..] == NatToString(n * PageSize);
    ValueOfNatToString(n * PageSize);
  }

  /** Page 0 starts at offset 0 and page 1 at offset 50. */
  lemma JustAddedFirstPages()
    ensures JustAddedPage(0) == BaseUrl + "0"
    ensures JustAddedPage(1) == BaseUrl + "50"
  {
    assert NatToString(5) == "5";
    assert NatToString(50) == NatToString(5) + "0";
  }

  // ---------------------------------------------------------------------
  // crawl

  /** `time.time()` and `time.sleep`. */
  class Clock {
    var now: real

    constructor (now: real)
      ensures this.now == now
    {
      this.now := now;
    }

    method Sleep(d: real)
      requires d >= 0.0
      modifies this
      ensures now == old(now) + d
    {
      now := now + d;
    }
  }

  /** `since_scrape` at time `now`: strictly more than `wait` has passed since the last request. */
  predicate SinceScrapeAt(now: real, lastScrape: real, wait: real)
  {
    now - lastScrape > wait
  }

  /** Since `last_scrape` starts half an interval in the past, the first request may go after half an interval. */
  lemma FirstScrapeAfterHalf(t0: real, t: real, wait: real)
    ensures SinceScrapeAt(t, t0 - wait * 0.5, wait) <==> t - t0 > wait * 0.5
  {
  }

  /** What `requests.get` does in one attempt: raise a `RequestException`, or answer with a status. */
  datatype Reply = RequestFailed | Status(code: int)

  /** How `get` ends: the response of attempt `attempt`, the `Exception` a non-200 answer raises, or `None`. */
  datatype GetResult = Fetched(attempt: nat) | Raised(attempt: nat, code: int) | Exhausted

  /** The result of `get`'s loop from attempt `a` on. */
  function GetFrom(a: nat, retryMax: int, respond: nat -> Reply): GetResult
    decreases retryMax - a
  {
    if a >= retryMax then Exhausted
    else match respond(a)
      case RequestFailed => GetFrom(a + 1, retryMax, respond)
      case Status(code) => Answer(a, code)
  }

  /** The end of `get` once attempt `a` is answered with `code`. */
  function Answer(a: nat, code: int): (r: GetResult)
    ensures !r.Exhausted? && r.attempt == a
  {
    if code == 200 then Fetched(a) else Raised(a, code)
  }

  lemma GetFromStep(a: nat, retryMax: int, respond: nat -> Reply)
    requires a < retryMax
    ensures respond(a).RequestFailed? ==> GetFrom(a, retryMax, respond) == GetFrom(a + 1, retryMax, respond)
    ensures respond(a).Status? ==> GetFrom(a, retryMax, respond) == Answer(a, respond(a).code)
  {
  }

  /** Attempts `get` makes before it ends. */
  function Attempts(r: GetResult, retryMax: int): nat
  {
    match r
    case Fetched(a) => a + 1
    case Raised(a, _) => a + 1
    case Exhausted => if retryMax < 0 then 0 else retryMax
  }

  /**
   * `get` answers with the first attempt whose request completes; a failed
   * request is retried, a non-200 answer ends it. It gives `None` exactly
   * when all `retry_max` attempts fail, and it never makes more.
   */
  lemma {:induction false} GetFromFacts(a: nat, retryMax: int, respond: nat -> Reply)
    ensures var r := GetFrom(a, retryMax, respond);
      && (r.Exhausted? <==> forall k :: a <= k < retryMax ==> respond(k).RequestFailed?)
      && (r.Fetched? ==> a <= r.attempt < retryMax && respond(r.attempt) == Status(200))
      && (r.Raised? ==> a <= r.attempt < retryMax && respond(r.attempt) == Status(r.code) && r.code != 200)
      && (!r.Exhausted? ==> forall k :: a <= k < r.attempt ==> respond(k).RequestFailed?)
    decreases retryMax - a
  {
    if a < retryMax && respond(a).RequestFailed? {
      GetFromFacts(a + 1, retryMax, respond);
    }
  }

  function Sum(xs: seq<real>): real
  {
    if xs == [] then 0.0 else Sum(xs[..|xs| - 1]) + xs[|xs| - 1]
  }

  /** `w * k`, as `k` additions of `w`. */
  function Scale(w: real, k: nat): real
  {
    if k == 0 then 0.0 else Scale(w, k - 1) + w
  }

  lemma {:induction false} ScaleIsProduct(w: real, k: nat)
    ensures Scale(w, k) == w * k as real
  {
    if k > 0 {
      ScaleIsProduct(w, k - 1);
      AddOnce(w, (k - 1) as real);
    }
  }

  /** Distributivity for one step of `Scale`, kept apart so the recursion stays linear. */
  lemma AddOnce(w: real, x: real)
    ensures w * x + w == w * (x + 1.0)
  {
  }

  lemma {:induction false} ScaleAdd(w: real, a: nat, b: nat)
    ensures Scale(w, a + b) == Scale(w, a) + Scale(w, b)
  {
    if b > 0 {
      ScaleAdd(w, a, b - 1);
    }
  }

  /** The sleeps of the first `n` attempts. */
  function Backoffs(n: nat, wait: real): (r: seq<real>)
    ensures |r| == n
  {
    if n == 0 then [] else Backoffs(n - 1, wait) + [Scale(wait, n - 1)]
  }

  /** Attempt `k` sleeps `wait * k`. */
  lemma {:induction false} BackoffsAt(n: nat, wait: real)
    ensures forall k :: 0 <= k < n ==> Backoffs(n, wait)[k] == wait * k as real
  {
    if n > 0 {
      BackoffsAt(n - 1, wait);
      ScaleIsProduct(wait, n - 1);
    }
  }

  /** `0 + 1 + ... + (n - 1)`. */
  function Triangle(n: nat): nat
  {
    if n == 0 then 0 else Triangle(n - 1) + (n - 1)
  }

  lemma {:induction false} TriangleClosed(n: nat)
    ensures Triangle(n) * 2 == n * (n - 1)
  {
    if n > 0 {
      TriangleClosed(n - 1);
      assert n * (n - 1) == (n - 1) * (n - 2) + 2 * (n - 1) by {
        assert n * (n - 1) == (n - 1) * n;
      }
    }
  }

  lemma BackoffsStep(n: nat, wait: real)
    ensures Backoffs(n + 1, wait) == Backoffs(n, wait) + [Scale(wait, n)]
    ensures Sum(Backoffs(n + 1, wait)) == Sum(Backoffs(n, wait)) + Scale(wait, n)
  {
    assert Backoffs(n + 1, wait)[..n] == Backoffs(n, wait);
  }

  /** `n` attempts sleep `wait * Triangle(n)` in all, which is `wait * n * (n - 1) / 2` by `TriangleClosed`. */
  lemma BackoffsTotal(n: nat, wait: real)
    ensures Sum(Backoffs(n, wait)) == wait * Triangle(n) as real
  {
    var t := Triangle(n);
    BackoffsSum(n, wait);
    ScaleIsProduct(wait, t);
    SameReal(Sum(Backoffs(n, wait)), Scale(wait, t), wait * t as real);
  }

  /**
   * Chains the two equalities above without exposing the product to the
   * solver's nonlinear reasoning, which an inline assert does.
   */
  lemma SameReal(a: real, b: real, c: real)
    requires a == b && b == c
    ensures a == c
  {
  }

  lemma {:induction false} BackoffsSum(n: nat, wait: real)
    ensures Sum(Backoffs(n, wait)) == Scale(wait, Triangle(n))
  {
    if n > 0 {
      BackoffsSum(n - 1, wait);
      assert Backoffs(n, wait)[..n - 1] == Backoffs(n - 1, wait);
      ScaleAdd(wait, Triangle(n - 1), n - 1);
    }
  }

  /** With a positive wait each backoff is longer than the one before. */
  lemma BackoffsGrow(n: nat, wait: real)
    requires wait > 0.0
    ensures forall i, j :: 0 <= i < j < n ==> Backoffs(n, wait)[i] < Backoffs(n, wait)[j]
  {
    var b := Backoffs(n, wait);
    BackoffsAt(n, wait);
    forall i, j | 0 <= i < j < n
      ensures b[i] < b[j]
    {
      MulLess(wait, i as real, j as real);
    }
  }

  /** Multiplying by a positive wait keeps the order of two tries. */
  lemma MulLess(w: real, x: real, y: real)
    requires w > 0.0 && x < y
    ensures w * x < w * y
  {
  }

  /** `last_scrape` is the last completed request, and completed requests are more than `wait` apart. */
  ghost predicate RateLimited(completed: seq<real>, lastScrape: real, wait: real)
  {
    && (completed != [] ==> lastScrape == completed[|completed| - 1])
    && forall i :: 0 <= i < |completed| - 1 ==> completed[i + 1] - completed[i] > wait
  }

  /** `crawl(wait, retry_max)`: `get` keeps the requests it completes more than `wait` apart. */
  class Crawl {
    const wait: real
    const retryMax: int
    var lastScrape: real
    /** The times of the requests that completed, oldest first. */
    ghost var completed: seq<real>
    /** The backoff sleeps of the last `get`, in order. */
    ghost var backoffs: seq<real>

    /** `last_scrape` is the last completed request, and completed requests are more than `wait` apart. */
    ghost predicate Valid()
      reads this
    {
      RateLimited(completed, lastScrape, wait)
    }

    /** `__init__`: `last_scrape` is half an interval before now. */
    constructor (wait: real, retryMax: int, clock: Clock)
      requires wait >= 0.0
      ensures this.wait == wait && this.retryMax == retryMax
      ensures lastScrape == clock.now - wait * 0.5 && completed == [] && Valid()
    {
      this.wait := wait;
      this.retryMax := retryMax;
      lastScrape := clock.now - wait * 0.5;
      completed := [];
      backoffs := [];
    }

    predicate SinceScrape(clock: Clock)
      reads this, clock
    {
      SinceScrapeAt(clock.now, lastScrape, wait)
    }

    /** `wait_till`: sleep a second at a time until `since_scrape` holds, which is at most a second late. */
    method WaitTill(clock: Clock)
      modifies clock
      ensures SinceScrape(clock) && old(clock.now) <= clock.now
      ensures clock.now == old(clock.now) || clock.now - 1.0 - lastScrape <= wait
    {
      while !SinceScrape(clock)
        invariant old(clock.now) <= clock.now
        invariant clock.now == old(clock.now) || clock.now - 1.0 - lastScrape <= wait
        decreases (lastScrape + wait - clock.now).Floor
      {
        clock.Sleep(1.0);
      }
    }

    /**
     * `get(url)`: attempt `k` sleeps `wait * k`, waits for the interval and
     * sends the request; a `RequestException` is retried, an answer ends
     * the loop and becomes the new `last_scrape`.
     */
    /** `time.sleep(self.wait * count)`. */
    method SleepBackoff(clock: Clock, count: nat)
      requires wait >= 0.0
      modifies clock
      ensures clock.now == old(clock.now) + Scale(wait, count)
    {
      MulNonNegative(wait, count as real);
      ScaleIsProduct(wait, count);
      clock.Sleep(wait * count as real);
    }

    /** One pass of `get`'s loop up to the answer: the backoff sleep, `wait_till` and the request. */
    method Attempt(clock: Clock, count: nat, respond: nat -> Reply) returns (reply: Reply)
      requires Valid() && wait >= 0.0
      modifies this, clock
      ensures Valid()
      ensures reply == respond(count)
      ensures backoffs == old(backoffs) + [Scale(wait, count)]
      ensures clock.now - old(clock.now) >= Scale(wait, count)
      ensures reply.RequestFailed? ==> completed == old(completed) && lastScrape == old(lastScrape)
      ensures reply.Status? ==>
        && completed == old(completed) + [clock.now] && lastScrape == clock.now
        && clock.now - old(lastScrape) > wait
    {
      SleepBackoff(clock, count);
      backoffs := backoffs + [Scale(wait, count)];
      WaitTill(clock);
      reply := respond(count);
      if reply.Status? {
        ValidAfter(completed, lastScrape, clock.now, wait);
        lastScrape := clock.now;
        completed := completed + [clock.now];
      }
    }

    method Get(clock: Clock, respond: nat -> Reply) returns (r: GetResult)
      requires Valid() && wait >= 0.0
      modifies this, clock
      ensures Valid()
      ensures r == GetFrom(0, retryMax, respond)
      ensures backoffs == Backoffs(Attempts(r, retryMax), wait)
      ensures clock.now - old(clock.now) >= Sum(backoffs)
      ensures r.Exhausted? ==> completed == old(completed) && lastScrape == old(lastScrape)
      ensures !r.Exhausted? ==>
        && completed == old(completed) + [clock.now] && lastScrape == clock.now
        && clock.now - old(lastScrape) > wait
    {
      var count := 0;
      backoffs := [];
      while count < retryMax
        invariant 0 <= count && (count <= retryMax || count == 0)
        invariant GetFrom(count, retryMax, respond) == GetFrom(0, retryMax, respond)
        invariant backoffs == Backoffs(count, wait)
        invariant clock.now - old(clock.now) >= Sum(backoffs)
        invariant completed == old(completed) && lastScrape == old(lastScrape)
        decreases retryMax - count
      {
        BackoffsStep(count, wait);
        var reply := Attempt(clock, count, respond);
        assert backoffs == Backoffs(count + 1, wait);
        GetFromStep(count, retryMax, respond);
        if reply.Status? {
          return Answer(count, reply.code);
        }
        count := count + 1;
      }
      r := Exhausted;
      assert Attempts(r, retryMax) == count;
    }
  }

  /** A request completing more than `wait` after the last one keeps completed requests apart. */
  lemma ValidAfter(completed: seq<real>, lastScrape: real, t: real, wait: real)
    requires RateLimited(completed, lastScrape, wait) && t - lastScrape > wait
    ensures RateLimited(completed + [t], t, wait)
  {
  }

  /** A product of two non-negative reals is non-negative. */
  lemma MulNonNegative(x: real, y: real)
    requires x >= 0.0 && y >= 0.0
    ensures x * y >= 0.0
  {
  }

  // ---------------------------------------------------------------------
  // entry

  /** The Python values `entry` may be given as `in_database`. */
  datatype PyValue = PyBool(b: bool) | PyInt(i: int) | PyStr(s: string) | PyNone

  datatype Entry = Entry(id: nat, name: string, inDatabase: bool)

  /** `entry(id, name, in_database)`: a value that is not a `bool` counts as `False`. */
  function NewEntry(id: nat, name: string, inDatabase: PyValue): (e: Entry)
    ensures e.id == id && e.name == name
    ensures e.inDatabase <==> inDatabase == PyBool(true)
  {
    Entry(id, name, if inDatabase.PyBool? then inDatabase.b else false)
  }

  /**
   * `__repr__` as written: its format arguments are the builtin `id` and a
   * global `name` that does not exist, so it raises `NameError`.
   */
  function ReprAsWritten(e: Entry): Result<string, string>
  {
    Err("NameError")
  }

  /** Every entry's `__repr__` raises, whatever its fields. */
  lemma ReprRaises(e: Entry)
    ensures ReprAsWritten(e) == Err("NameError")
  {
  }

  /** `__repr__` as evidently intended: `"{id}: {name}, in database"` or `", not in database"`. */
  function Repr(e: Entry): string
  {
    NatToString(e.id) + ": " + e.name + (if e.inDatabase then ", in database" else ", not in database")
  }

  /** The intended text starts with the id and name and ends with the flag, which it reads back. */
  lemma ReprFacts(e: Entry)
    ensures StartsWith(Repr(e), NatToString(e.id) + ": " + e.name)
    ensures EndsWith(Repr(e), ", in database") <==> e.inDatabase
  {
    var head := NatToString(e.id) + ": " + e.name;
    var r := Repr(e);
    assert r[..|head|] == head;
    if !e.inDatabase {
      var tail := ", not in database";
      assert r[|r| - 13..] == tail[4..];
      assert tail[4..] != ", in database";
    }
  }

  // ---------------------------------------------------------------------
  // download_anime_list

  /** Entries per animelist page. */
  const PageEntries: nat := 300

  /** `page_range`: the total over 300, rounded up (floor division and remainder as Python's). */
  function PageRange(total: int): int
  {
    total / 300 + (if total % 300 == 0 then 0 else 1)
  }

  /** For a non-negative total, `page_range` is the least number of 300-entry pages that hold it. */
  lemma PageRangeCeiling(total: nat)
    ensures PageRange(total) >= 0
    ensures PageRange(total) * 300 >= total
    ensures PageRange(total) > 0 ==> (PageRange(total) - 1) * 300 < total
  {
  }

  /** What one Jikan animelist request gives: the page's MAL ids, or a `JikanException`. */
  datatype JikanReply = Anime(ids: seq<nat>) | JikanFailed(exception: string)

  /** `raise jikan_exception`: raising `None` is itself a `TypeError`. */
  function Raise(exception: Option<string>): string
  {
    if exception.Some? then exception.value else "TypeError"
  }

  /**
   * `make_jikan_animelist_request` as written: `jikanpy` is only imported
   * inside `main`, so naming `jikanpy.exceptions.JikanException` in the
   * `except` clause raises `NameError` as soon as a request fails.
   */
  function MakeRequestAsWritten(page: nat, retry: int, exception: Option<string>, user: (nat, int) -> JikanReply): Result<seq<nat>, string>
  {
    if retry >= 5 then Err(Raise(exception))
    else match user(page, retry)
      case Anime(ids) => Ok(ids)
      case JikanFailed(_) => Err("NameError")
  }

  /** `make_jikan_animelist_request` as intended: a failure is retried with `retry + 1` until `retry` reaches 5. */
  function MakeRequest(page: nat, retry: int, exception: Option<string>, user: (nat, int) -> JikanReply): Result<seq<nat>, string>
    decreases 5 - retry
  {
    if retry >= 5 then Err(Raise(exception))
    else match user(page, retry)
      case Anime(ids) => Ok(ids)
      case JikanFailed(e) => MakeRequest(page, retry + 1, Some(e), user)
  }

  /**
   * As intended, a page is requested with `retry` from its start up to 4:
   * the first success is returned; when all fail, the last failure is
   * raised, or `TypeError` when no request was made.
   */
  lemma {:induction false} MakeRequestFacts(page: nat, retry: int, exception: Option<string>, user: (nat, int) -> JikanReply)
    ensures var r := MakeRequest(page, retry, exception, user);
      && (r.Ok? <==> exists t :: retry <= t < 5 && user(page, t).Anime? && forall s :: retry <= s < t ==> user(page, s).JikanFailed?)
      && (r.Ok? ==> exists t :: retry <= t < 5 && user(page, t) == Anime(r.value))
      && (r.Err? && retry < 5 ==> user(page, 4).JikanFailed? && r.error == user(page, 4).exception)
      && (retry >= 5 ==> r == Err(Raise(exception)))
    decreases 5 - retry
  {
    if retry < 5 {
      MakeRequestFacts(page, retry + 1, if user(page, retry).JikanFailed? then Some(user(page, retry).exception) else exception, user);
      if user(page, retry).Anime? {
        assert forall s :: retry <= s < retry ==> user(page, s).JikanFailed?;
      } else {
        var r := MakeRequest(page, retry, exception, user);
        if r.Ok? {
          var t :| retry + 1 <= t < 5 && user(page, t).Anime? && forall s :: retry + 1 <= s < t ==> user(page, s).JikanFailed?;
          assert forall s :: retry <= s < t ==> user(page, s).JikanFailed?;
        }
        if exists t :: retry <= t < 5 && user(page, t).Anime? && forall s :: retry <= s < t ==> user(page, s).JikanFailed? {
          var t :| retry <= t < 5 && user(page, t).Anime? && forall s :: retry <= s < t ==> user(page, s).JikanFailed?;
          assert t != retry;
        }
      }
    }
  }

  /** A page whose first request fails once and then succeeds is lost as written, and fetched as intended. */
  lemma RetryLostAsWritten(page: nat, user: (nat, int) -> JikanReply, ids: seq<nat>)
    requires user(page, 1).JikanFailed? && user(page, 2) == Anime(ids)
    ensures MakeRequestAsWritten(page, 1, None, user) == Err("NameError")
    ensures MakeRequest(page, 1, None, user) == Ok(ids)
  {
  }

  /** The page loop: pages `1..page_range`, each requested with `retry = 1`, their ids extended in order. */
  function DownloadPages(pages: nat, user: (nat, int) -> JikanReply): Result<seq<nat>, string>
  {
    if pages == 0 then Ok([])
    else match DownloadPages(pages - 1, user)
      case Err(e) => Err(e)
      case Ok(all) =>
        match MakeRequestAsWritten(pages, 1, None, user)
        case Err(e) => Err(e)
        case Ok(ids) => Ok(all + ids)
  }

  /** `download_anime_list` from the profile's total on: the ids of pages `1..page_range` in order. */
  function DownloadSpec(total: int, user: (nat, int) -> JikanReply): Result<seq<nat>, string>
  {
    if PageRange(total) <= 0 then Ok([]) else DownloadPages(PageRange(total), user)
  }

  /** The pages' ids concatenated, pages `1..n`, when every first request succeeds. */
  function AllPages(n: nat, user: (nat, int) -> JikanReply): seq<nat>
    requires forall p :: 1 <= p <= n ==> user(p, 1).Anime?
  {
    if n == 0 then [] else AllPages(n - 1, user) + user(n, 1).ids
  }

  /**
   * The download succeeds iff the first request of every page succeeds,
   * and then it is those pages' ids in page order; as written, one failed
   * request loses the whole list.
   */
  lemma {:induction false} DownloadPagesFacts(n: nat, user: (nat, int) -> JikanReply)
    ensures DownloadPages(n, user).Ok? <==> forall p :: 1 <= p <= n ==> user(p, 1).Anime?
    ensures DownloadPages(n, user).Ok? ==> DownloadPages(n, user).value == AllPages(n, user)
  {
    if n > 0 {
      DownloadPagesFacts(n - 1, user);
    }
  }

  /** `download_anime_list(uname, j)` once the profile gave `total`. */
  method DownloadAnimeList(total: int, user: (nat, int) -> JikanReply) returns (r: Result<seq<nat>, string>)
    ensures r == DownloadSpec(total, user)
  {
    var pageRange := total / 300 + (if total % 300 == 0 then 0 else 1);
    var allEntries: seq<nat> := [];
    if pageRange <= 0 {
      return Ok([]);
    }
    for page := 1 to pageRange + 1
      invariant DownloadPages(page - 1, user) == Ok(allEntries)
    {
      var req := MakeRequestAsWritten(page, 1, None, user);
      if req.Err? {
        DownloadStops(pageRange, page, user);
        return Err(req.error);
      }
      allEntries := allEntries + req.value;
    }
    return Ok(allEntries);
  }

  /** A failed page ends the download with its error. */
  lemma {:induction false} DownloadStops(n: nat, page: nat, user: (nat, int) -> JikanReply)
    requires 1 <= page <= n && DownloadPages(page - 1, user).Ok? && MakeRequestAsWritten(page, 1, None, user).Err?
    ensures DownloadPages(n, user) == Err(MakeRequestAsWritten(page, 1, None, user).error)
  {
    if n > page {
      DownloadStops(n - 1, page, user);
    }
  }
}
