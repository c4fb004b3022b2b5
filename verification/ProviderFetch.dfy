/**
 Fetching pages from a payment provider: each request is retried on server and network errors,
 and a page loop concatenates the pages. The provider serves fixed pages; an arbitrary schedule
 decides which requests reach it and what comes back instead when they do not. The loop itself is
 modelled for any schedule, even one that answers with success; what a fetch returns is proved
 for schedules that leave success to the provider.
 */
module ProviderFetch {
  import opened Common

  const MAX_RETRIES := 3

  type Item = string

  datatype Body = Body(status: string, data: seq<Item>, pageCount: Option<int>)

  /** What the HTTP client sees; a response without a body is one that is not JSON. */
  datatype Reply = Http(code: int, body: Option<Body>) | TimedOut | NetworkDown | Broken

  datatype ErrorKind =
    Auth | RateLimited | NotFound | BadRequest | Server | OtherStatus | Timeout | Network | Unexpected | NotSuccess

  datatype ProviderError = ProviderError(kind: ErrorKind, retryable: bool)

  /** The fate of one attempt: an answer, an error that is retried, or an error raised at once. */
  datatype Verdict = Answer(body: Body) | Again(error: ProviderError) | Stop(error: ProviderError)

  function Judge(reply: Reply): Verdict {
    match reply
    case TimedOut => Stop(ProviderError(Timeout, true))
    case NetworkDown => Again(ProviderError(Network, true))
    case Broken => Stop(ProviderError(Unexpected, false))
    case Http(code, body) =>
      if code == 401 || code == 403 then Stop(ProviderError(Auth, false))
      else if code == 429 then Stop(ProviderError(RateLimited, true))
      else if code == 404 then Stop(ProviderError(NotFound, false))
      else if code == 400 then Stop(ProviderError(BadRequest, false))
      else if code >= 500 then Again(ProviderError(Server, true))
      else if !(200 <= code < 300) then Stop(ProviderError(OtherStatus, false))
      else if body.None? then Stop(ProviderError(Unexpected, false))
      else Answer(body.value)
  }

  // ----- replies -----

  /** Worth another try: the network failed, or the server did. */
  predicate IsTransient(reply: Reply) {
    reply.NetworkDown? || (reply.Http? && reply.code >= 500)
  }

  /** A 2xx response that is JSON. */
  predicate IsAnswer(reply: Reply) {
    reply.Http? && 200 <= reply.code < 300 && reply.body.Some?
  }

  predicate IsSuccess(reply: Reply) {
    IsAnswer(reply) && reply.body.value.status == "success"
  }

  /** A well-formed answer whose status is not success. */
  predicate IsRefusal(reply: Reply) {
    IsAnswer(reply) && reply.body.value.status != "success"
  }

  /** Raised at once: a timeout, any other exception, a status below 500 that is not 2xx, or a body that is not JSON. */
  predicate IsFatal(reply: Reply) {
    || reply.TimedOut? || reply.Broken?
    || (reply.Http? && reply.code < 500 && (reply.code < 200 || reply.code >= 300 || reply.body.None?))
  }

  /** The error that a reply without an answer ends in. */
  function ErrorOf(reply: Reply): ProviderError {
    if reply.TimedOut? then ProviderError(Timeout, true)
    else if reply.NetworkDown? then ProviderError(Network, true)
    else if reply.Broken? || 200 <= reply.code < 300 then ProviderError(Unexpected, false)
    else if reply.code >= 500 then ProviderError(Server, true)
    else if reply.code == 429 then ProviderError(RateLimited, true)
    else ProviderError(if reply.code in {401, 403} then Auth
                       else if reply.code == 404 then NotFound
                       else if reply.code == 400 then BadRequest
                       else OtherStatus, false)
  }

  /**
   The chain of checks on a reply retries exactly the network and server errors, answers exactly
   with the body of a 2xx JSON response, and raises everything else at once, each with its error.
   */
  lemma JudgeIsExact(reply: Reply)
    ensures Judge(reply).Again? <==> IsTransient(reply)
    ensures Judge(reply).Stop? <==> IsFatal(reply)
    ensures Judge(reply).Answer? <==> IsAnswer(reply)
    ensures Judge(reply).Answer? ==> Judge(reply).body == reply.body.value
    ensures !Judge(reply).Answer? ==> Judge(reply).error == ErrorOf(reply)
  {
  }

  // ----- the provider -----

  /** A missing page count reads as one. */
  function CountOf(body: Body): int {
    if body.pageCount.Some? then body.pageCount.value else 1
  }

  /**
   The provider's pages, the page count it reports, and the reply that replaces the n-th request's,
   if any; `most` is a page count that no answer exceeds.
   */
  datatype World = World(pages: seq<seq<Item>>, reported: Option<int>, faults: nat -> Option<Reply>, most: nat)

  function PageBody(w: World, page: nat): Body {
    Body("success", if 1 <= page <= |w.pages| then w.pages[page - 1] else [], w.reported)
  }

  /** The reply to the n-th request when it asks for the page. */
  function ReplyTo(w: World, n: nat, page: nat): Reply {
    if w.faults(n).Some? then w.faults(n).value else Http(200, Some(PageBody(w, page)))
  }

  function VerdictOn(w: World, n: nat, page: nat): Verdict {
    Judge(ReplyTo(w, n, page))
  }

  /** Pages the provider makes the loop ask for: as many as it reports, and at least one. */
  function PageLimit(w: World): nat {
    if w.reported.Some? && w.reported.value > 1 then w.reported.value else 1
  }

  /** No answer, whoever gives it, reports more than `most` pages. */
  ghost predicate Bounded(w: World) {
    && PageLimit(w) <= w.most
    && forall n: nat :: w.faults(n).Some? && IsSuccess(w.faults(n).value) ==>
         CountOf(w.faults(n).value.body.value) <= w.most
  }

  /** Only the provider itself answers with success. */
  ghost predicate Honest(w: World) {
    Bounded(w) && forall n: nat :: w.faults(n).Some? ==> !IsSuccess(w.faults(n).value)
  }

  // ----- one request with retries -----

  datatype Sent<T> = Sent(result: T, next: nat)

  /** The result of asking for a page from request number n with the given attempts left. */
  function Request(w: World, n: nat, page: nat, attempts: nat): (s: Sent<Result<Body, ProviderError>>)
    requires attempts >= 1
    ensures n < s.next <= n + attempts
    ensures Bounded(w) && s.result.Ok? && s.result.value.status == "success" ==> CountOf(s.result.value) <= w.most
    decreases attempts
  {
    match VerdictOn(w, n, page)
    case Answer(body) => Sent(Ok(body), n + 1)
    case Stop(error) => Sent(Err(error), n + 1)
    case Again(error) => if attempts == 1 then Sent(Err(error), n + 1) else Request(w, n + 1, page, attempts - 1)
  }

  /** What a refusal does: raise, or end the list quietly. */
  datatype Mode = Raise | EndQuietly

  datatype Fetched = Fetched(result: Items, next: nat, pagesRead: nat)

  type Items = Result<seq<Item>, ProviderError>

  function Prepend(items: seq<Item>, r: Items): Items {
    if r.Ok? then Ok(items + r.value) else r
  }

  lemma PrependNothing(r: Items)
    ensures Prepend([], r) == r
  {
    if r.Ok? {
      assert [] + r.value == r.value;
    }
  }

  lemma PrependTwice(a: seq<Item>, b: seq<Item>, r: Items)
    ensures Prepend(a, Prepend(b, r)) == Prepend(a + b, r)
  {
    if r.Ok? {
      assert a + (b + r.value) == (a + b) + r.value;
    }
  }

  /** The page loop from the given page on. */
  function FetchFrom(w: World, n: nat, page: nat, mode: Mode): (f: Fetched)
    requires Bounded(w) && 1 <= page <= w.most
    ensures f.next > n
    decreases w.most - page
  {
    var sent := Request(w, n, page, MAX_RETRIES);
    match sent.result
    case Err(error) => Fetched(Err(error), sent.next, page - 1)
    case Ok(body) =>
      if body.status != "success" then
        Fetched(if mode.Raise? then Err(ProviderError(NotSuccess, false)) else Ok([]), sent.next, page - 1)
      else if page >= CountOf(body) then Fetched(Ok(body.data), sent.next, page)
      else
        var rest := FetchFrom(w, sent.next, page + 1, mode);
        rest.(result := Prepend(body.data, rest.result))
  }

  function Fetch(w: World, n: nat, mode: Mode): (f: Fetched)
    requires Bounded(w)
    ensures f.next > n
  {
    FetchFrom(w, n, 1, mode)
  }

  class PaystackAdapter {
    const world: World
    var sent: nat   // requests made so far
    var slept: nat  // seconds spent backing off

    constructor (world: World)
      ensures this.world == world && sent == 0 && slept == 0
    {
      this.world := world;
      sent, slept := 0, 0;
    }

    method RequestWithRetry(page: nat) returns (r: Result<Body, ProviderError>)
      modifies this
      ensures Sent(r, sent) == Request(world, old(sent), page, MAX_RETRIES)
      ensures 1 <= sent - old(sent) <= 3
      ensures slept - old(slept) == if sent - old(sent) == 1 then 0 else if sent - old(sent) == 2 then 1 else 3
    {
      var attempt := 0;
      while attempt < MAX_RETRIES
        invariant 0 <= attempt < MAX_RETRIES
        invariant sent == old(sent) + attempt && slept == old(slept) + Pow2(attempt) - 1
        invariant Request(world, old(sent), page, MAX_RETRIES) == Request(world, sent, page, MAX_RETRIES - attempt)
      {
        assert Pow2(1) == 2 && Pow2(2) == 4;
        var verdict := VerdictOn(world, sent, page);
        sent := sent + 1;
        match verdict {
          case Answer(body) => return Ok(body);
          case Stop(error) => return Err(error);
          case Again(error) =>
            if attempt == MAX_RETRIES - 1 {
              return Err(error);
            }
            slept := slept + Pow2(attempt);
        }
        attempt := attempt + 1;
      }
    }

    method FetchTransactions() returns (r: Result<seq<Item>, ProviderError>)
      requires Bounded(world)
      modifies this
      ensures var f := Fetch(world, old(sent), Raise); r == f.result && sent == f.next
      ensures slept - old(slept) <= sent - old(sent)
    {
      var transactions: seq<Item> := [];
      var page := 1;
      PrependNothing(Fetch(world, sent, Raise).result);
      while true
        invariant 1 <= page <= world.most
        invariant var all, rest := Fetch(world, old(sent), Raise), FetchFrom(world, sent, page, Raise);
          && all.next == rest.next
          && all.result == Prepend(transactions, rest.result)
        invariant slept - old(slept) <= sent - old(sent)
        decreases world.most - page
      {
        var response := RequestWithRetry(page);
        if response.Err? {
          return Err(response.error);
        }
        if response.value.status != "success" {
          return Err(ProviderError(NotSuccess, false));
        }
        ghost var before := transactions;
        transactions := transactions + response.value.data;
        if page >= CountOf(response.value) {
          return Ok(transactions);
        }
        page := page + 1;
        PrependTwice(before, response.value.data, FetchFrom(world, sent, page, Raise).result);
      }
    }

    method FetchSettlements() returns (r: Result<seq<Item>, ProviderError>)
      requires Bounded(world)
      modifies this
      ensures var f := Fetch(world, old(sent), EndQuietly); r == f.result && sent == f.next
      ensures slept - old(slept) <= sent - old(sent)
    {
      var settlements: seq<Item> := [];
      var page := 1;
      PrependNothing(Fetch(world, sent, EndQuietly).result);
      while true
        invariant 1 <= page <= world.most
        invariant var all, rest := Fetch(world, old(sent), EndQuietly), FetchFrom(world, sent, page, EndQuietly);
          && all.next == rest.next
          && all.result == Prepend(settlements, rest.result)
        invariant slept - old(slept) <= sent - old(sent)
        decreases world.most - page
      {
        var response := RequestWithRetry(page);
        if response.Err? {
          return Err(response.error);
        }
        if response.value.status != "success" {
          assert settlements + [] == settlements;
          break;
        }
        ghost var before := settlements;
        settlements := settlements + response.value.data;
        if page >= CountOf(response.value) {
          break;
        }
        page := page + 1;
        PrependTwice(before, response.value.data, FetchFrom(world, sent, page, EndQuietly).result);
      }
      return Ok(settlements);
    }
  }

  /** A success that a request returns is the page it asked for. */
  lemma {:induction false} GenuineIsPage(w: World, n: nat, page: nat, attempts: nat)
    requires Honest(w) && attempts >= 1
    ensures var r := Request(w, n, page, attempts).result;
      r.Ok? && r.value.status == "success" ==> r.value == PageBody(w, page)
    decreases attempts
  {
    if VerdictOn(w, n, page).Again? && attempts > 1 {
      GenuineIsPage(w, n + 1, page, attempts - 1);
    }
  }

  // ----- what the schedule decides -----

  /** The request fails in a way that is retried. */
  predicate Transient(w: World, m: nat) {
    w.faults(m).Some? && IsTransient(w.faults(m).value)
  }

  /** The request is refused by a well-formed answer. */
  predicate Refused(w: World, m: nat) {
    w.faults(m).Some? && IsRefusal(w.faults(m).value)
  }

  /** The request fails in a way that is raised at once. */
  predicate Fatal(w: World, m: nat) {
    w.faults(m).Some? && IsFatal(w.faults(m).value)
  }

  predicate ThreeTransients(w: World, m: nat) {
    Transient(w, m) && Transient(w, m + 1) && Transient(w, m + 2)
  }

  /** Some request from n up to, but not including, `next` ends the fetch. */
  ghost predicate Blocked(w: World, n: nat, next: nat) {
    exists m: nat :: n <= m < next && (Fatal(w, m) || Refused(w, m) || (m + 2 < next && ThreeTransients(w, m)))
  }

  /**
   One call, reply by reply: up to three requests, each but the last met by a network or server
   error; the last one's answer is returned, and its error raised, which is a network or server
   error only after three of them.
   */
  lemma {:induction false} RequestIsExact(w: World, n: nat, page: nat, attempts: nat)
    requires 1 <= attempts <= 3
    ensures var s := Request(w, n, page, attempts);
      var last := ReplyTo(w, s.next - 1, page);
      && n < s.next <= n + attempts
      && (forall m: nat :: n <= m < s.next - 1 ==> IsTransient(ReplyTo(w, m, page)))
      && (IsTransient(last) ==> s.next == n + attempts)
      && s.result == if IsAnswer(last) then Ok(last.body.value) else Err(ErrorOf(last))
    decreases attempts
  {
    JudgeIsExact(ReplyTo(w, n, page));
    if VerdictOn(w, n, page).Again? && attempts > 1 {
      RequestIsExact(w, n + 1, page, attempts - 1);
    }
  }

  /** Only the last of the requests made for a page is not a transient failure. */
  lemma {:induction false} RequestWindow(w: World, n: nat, page: nat)
    requires Honest(w)
    ensures var s := Request(w, n, page, MAX_RETRIES);
      && (forall m: nat :: n <= m < s.next - 1 ==> Transient(w, m))
      && (s.result.Ok? && s.result.value.status == "success" ==> w.faults(s.next - 1).None?)
      && (s.result.Ok? && s.result.value.status != "success" ==> Refused(w, s.next - 1))
      && (s.result.Err? ==> Fatal(w, s.next - 1) || (s.next == n + 3 && Transient(w, s.next - 1)))
  {
    RequestIsExact(w, n, page, MAX_RETRIES);
  }

  /** The pages from a to b, in order. */
  function PagesFrom(w: World, a: nat, b: nat): seq<Item>
    decreases b - a + 1
  {
    if a > b then [] else PageBody(w, a).data + PagesFrom(w, a + 1, b)
  }

  function Flat(pages: seq<seq<Item>>): seq<Item> {
    if pages == [] then [] else pages[0] + Flat(pages[1..])
  }

  /** The first pages, as many as asked for or as there are. */
  function FirstPages(w: World, asked: nat): seq<Item> {
    Flat(if asked <= |w.pages| then w.pages[..asked] else w.pages)
  }

  lemma {:induction false} PagesAreSlice(w: World, a: nat, b: nat)
    requires 1 <= a
    ensures var end := if b <= |w.pages| then b else |w.pages|;
      PagesFrom(w, a, b) == if a <= end then Flat(w.pages[a - 1..end]) else []
    decreases b - a + 1
  {
    if a > b {
    } else {
      var end := if b <= |w.pages| then b else |w.pages|;
      PagesAreSlice(w, a + 1, b);
      if a <= end {
        assert w.pages[a - 1..end][1..] == w.pages[a..end];
      }
    }
  }

  lemma {:induction false} PagesAreFirst(w: World, b: nat)
    ensures PagesFrom(w, 1, b) == FirstPages(w, b)
  {
    PagesAreSlice(w, 1, b);
    var end := if b <= |w.pages| then b else |w.pages|;
    assert w.pages[0..end] == if b <= |w.pages| then w.pages[..b] else w.pages;
  }

  /** The requests made for one page contain a blocking one exactly when the page was not read. */
  lemma RequestBlocked(w: World, n: nat, page: nat)
    requires Honest(w)
    ensures var s := Request(w, n, page, MAX_RETRIES);
      && (Blocked(w, n, s.next) <==> !(s.result.Ok? && s.result.value.status == "success"))
      && (s.result.Ok? ==> (s.result.value.status != "success" <==> Refused(w, s.next - 1)))
      && (s.result.Err? ==> !Refused(w, s.next - 1))
      && (s.result.Ok? && s.result.value.status == "success" ==> w.faults(s.next - 1).None?)
  {
    var s := Request(w, n, page, MAX_RETRIES);
    RequestWindow(w, n, page);
    if s.result.Err? {
      assert Fatal(w, s.next - 1) || ThreeTransients(w, n);
    }
  }

  /** A clean request separates what blocks before it from what blocks after it. */
  lemma BlockedLater(w: World, n: nat, mid: nat, next: nat)
    requires n < mid <= next && w.faults(mid - 1).None? && !Blocked(w, n, mid)
    ensures Blocked(w, n, next) <==> Blocked(w, mid, next)
  {
  }

  /** What a fetch of the pages from `page` on says about the requests it made. */
  ghost predicate Outcome(w: World, n: nat, page: nat, mode: Mode, f: Fetched) {
    && n < f.next <= n + MAX_RETRIES * (PageLimit(w) - page + 1)
    && page - 1 <= f.pagesRead <= PageLimit(w)
    && (f.pagesRead == PageLimit(w) <==> !Blocked(w, n, f.next))
    && (f.result.Ok? <==> f.pagesRead == PageLimit(w) || (mode.EndQuietly? && Refused(w, f.next - 1)))
    && (f.result.Ok? ==> f.result.value == PagesFrom(w, page, f.pagesRead))
  }

  /** The page was not read. */
  lemma {:induction false} PageMissed(w: World, n: nat, page: nat, mode: Mode)
    requires Honest(w) && 1 <= page <= PageLimit(w)
    requires var r := Request(w, n, page, MAX_RETRIES).result; !(r.Ok? && r.value.status == "success")
    ensures Outcome(w, n, page, mode, FetchFrom(w, n, page, mode))
  {
    RequestBlocked(w, n, page);
  }

  /** The page was read and was the last one. */
  lemma {:induction false} LastPageRead(w: World, n: nat, page: nat, mode: Mode)
    requires Honest(w) && 1 <= page == PageLimit(w)
    requires Request(w, n, page, MAX_RETRIES).result == Ok(PageBody(w, page))
    ensures Outcome(w, n, page, mode, FetchFrom(w, n, page, mode))
  {
    RequestBlocked(w, n, page);
    assert PagesFrom(w, page, page) == PageBody(w, page).data + PagesFrom(w, page + 1, page);
  }

  /** The page was read, and the rest is known. */
  lemma {:induction false} PageRead(w: World, n: nat, page: nat, mode: Mode, rest: Fetched)
    requires Honest(w) && 1 <= page < PageLimit(w)
    requires var sent := Request(w, n, page, MAX_RETRIES);
      && sent.result == Ok(PageBody(w, page))
      && Outcome(w, sent.next, page + 1, mode, rest)
    ensures Outcome(w, n, page, mode, rest.(result := Prepend(PageBody(w, page).data, rest.result)))
  {
    RequestBlocked(w, n, page);
    BlockedLater(w, n, Request(w, n, page, MAX_RETRIES).next, rest.next);
  }

  lemma {:induction false} FetchGoesOn(w: World, n: nat, page: nat, mode: Mode)
    requires Bounded(w) && 1 <= page < PageLimit(w)
    requires Request(w, n, page, MAX_RETRIES).result == Ok(PageBody(w, page))
    ensures var rest := FetchFrom(w, Request(w, n, page, MAX_RETRIES).next, page + 1, mode);
      FetchFrom(w, n, page, mode) == rest.(result := Prepend(PageBody(w, page).data, rest.result))
  {
  }

  lemma {:induction false} PageReadThenRest(w: World, n: nat, page: nat, mode: Mode)
    requires Honest(w) && 1 <= page < PageLimit(w)
    requires Request(w, n, page, MAX_RETRIES).result == Ok(PageBody(w, page))
    requires var next := Request(w, n, page, MAX_RETRIES).next;
      Outcome(w, next, page + 1, mode, FetchFrom(w, next, page + 1, mode))
    ensures Outcome(w, n, page, mode, FetchFrom(w, n, page, mode))
  {
    PageRead(w, n, page, mode, FetchFrom(w, Request(w, n, page, MAX_RETRIES).next, page + 1, mode));
    FetchGoesOn(w, n, page, mode);
  }

  /** The request either reads the page or misses it. */
  lemma {:induction false} ReadOrMissed(w: World, n: nat, page: nat) returns (read: bool)
    requires Honest(w)
    ensures var r := Request(w, n, page, MAX_RETRIES).result;
      if read then r == Ok(PageBody(w, page)) else !(r.Ok? && r.value.status == "success")
  {
    var r := Request(w, n, page, MAX_RETRIES).result;
    GenuineIsPage(w, n, page, MAX_RETRIES);
    read := r.Ok? && r.value.status == "success";
  }

  /** What the loop returns from a page on, and what that says about the requests it made. */
  lemma {:induction false} FetchFromOutcome(w: World, n: nat, page: nat, mode: Mode)
    requires Honest(w) && 1 <= page <= PageLimit(w)
    ensures Outcome(w, n, page, mode, FetchFrom(w, n, page, mode))
    decreases PageLimit(w) - page
  {
    var read := ReadOrMissed(w, n, page);
    if !read {
      PageMissed(w, n, page, mode);
    } else if page == PageLimit(w) {
      LastPageRead(w, n, page, mode);
    } else {
      FetchFromOutcome(w, Request(w, n, page, MAX_RETRIES).next, page + 1, mode);
      PageReadThenRest(w, n, page, mode);
    }
  }

  // ----- main results -----

  /** A failed fetch raises the error of its last request; if that was refused, that it was no success. */
  predicate Explained(w: World, f: Fetched) {
    f.next > 0 && (f.result.Err? ==>
      && w.faults(f.next - 1).Some?
      && f.result.error
         == if Refused(w, f.next - 1) then ProviderError(NotSuccess, false) else ErrorOf(w.faults(f.next - 1).value))
  }

  lemma {:induction false} MissIsExplained(w: World, n: nat, page: nat)
    requires Bounded(w) && 1 <= page <= w.most
    requires var r := Request(w, n, page, MAX_RETRIES).result; !(r.Ok? && r.value.status == "success")
    ensures Explained(w, FetchFrom(w, n, page, Raise))
  {
    RequestIsExact(w, n, page, MAX_RETRIES);
  }

  lemma {:induction false} FetchIsExplained(w: World, n: nat, page: nat)
    requires Bounded(w) && 1 <= page <= w.most
    ensures Explained(w, FetchFrom(w, n, page, Raise))
    decreases w.most - page
  {
    var sent := Request(w, n, page, MAX_RETRIES);
    if sent.result.Err? || sent.result.value.status != "success" {
      MissIsExplained(w, n, page);
    } else if page < CountOf(sent.result.value) {
      FetchIsExplained(w, sent.next, page + 1);
    }
  }

  /**
   Whatever the schedule, the fetch of transactions either raises or returns every reported page
   in order; it returns exactly when no reply to the requests it made was fatal or a refusal and no
   three in a row were network or server errors. It makes at most three requests a page.
   */
  lemma AllOrNothing(w: World, n: nat)
    requires Honest(w)
    ensures var f := Fetch(w, n, Raise);
      var asked := if w.reported.Some? && w.reported.value > 1 then w.reported.value else 1;
      && (f.result.Ok? ==> f.result.value == FirstPages(w, asked))
      && (f.result.Ok? <==> !Blocked(w, n, f.next))
      && f.next <= n + 3 * asked
      && Explained(w, f)
  {
    FetchFromOutcome(w, n, 1, Raise);
    PagesAreFirst(w, PageLimit(w));
    FetchIsExplained(w, n, 1);
  }

  /** If the provider reports at least its number of pages, nothing is missing from a returned list. */
  lemma NothingMissing(w: World, n: nat)
    requires Honest(w) && Fetch(w, n, Raise).result.Ok?
    requires |w.pages| <= 1 || (w.reported.Some? && w.reported.value >= |w.pages|)
    ensures Fetch(w, n, Raise).result.value == Flat(w.pages)
  {
    AllOrNothing(w, n);
    assert w.pages[..|w.pages|] == w.pages;
  }

  /** Of the requests made for one page only the last can be refused, and only if the page was not read. */
  lemma {:induction false} RefusalInRequest(w: World, n: nat, page: nat)
    requires Honest(w)
    ensures var s := Request(w, n, page, MAX_RETRIES);
      && (forall m: nat :: n <= m < s.next - 1 ==> !Refused(w, m))
      && (s.result.Ok? && s.result.value.status == "success" ==> !Refused(w, s.next - 1))
  {
    RequestWindow(w, n, page);
    assert forall m: nat :: Transient(w, m) ==> !Refused(w, m);
  }

  /** A refused request is the last one of its fetch. */
  lemma {:induction false} RefusalIsLast(w: World, n: nat, page: nat, mode: Mode)
    requires Honest(w) && 1 <= page <= w.most
    ensures forall m: nat :: n <= m < FetchFrom(w, n, page, mode).next - 1 ==> !Refused(w, m)
    decreases w.most - page
  {
    var sent := Request(w, n, page, MAX_RETRIES);
    RefusalInRequest(w, n, page);
    if sent.result.Ok? && sent.result.value.status == "success" && page < CountOf(sent.result.value) {
      RefusalIsLast(w, sent.next, page + 1, mode);
    }
  }

  /** The two modes make the same requests, and agree on every list that raising returns. */
  predicate Agree(raise: Fetched, quiet: Fetched) {
    && raise.next == quiet.next && raise.pagesRead == quiet.pagesRead
    && (raise.result.Ok? ==> raise == quiet)
  }

  lemma {:induction false} ModesAgree(w: World, n: nat, page: nat)
    requires Bounded(w) && 1 <= page <= w.most
    ensures Agree(FetchFrom(w, n, page, Raise), FetchFrom(w, n, page, EndQuietly))
    decreases w.most - page
  {
    var sent := Request(w, n, page, MAX_RETRIES);
    if sent.result.Ok? && sent.result.value.status == "success" && page < CountOf(sent.result.value) {
      ModesAgree(w, sent.next, page + 1);
      var raise, quiet := FetchFrom(w, sent.next, page + 1, Raise), FetchFrom(w, sent.next, page + 1, EndQuietly);
      var data := sent.result.value.data;
      assert FetchFrom(w, n, page, Raise) == raise.(result := Prepend(data, raise.result));
      assert FetchFrom(w, n, page, EndQuietly) == quiet.(result := Prepend(data, quiet.result));
    }
  }

  /**
   The fetch of settlements is not all-or-nothing: it returns the pages before the first refused
   request, and returns them all exactly when no request was refused.
   */
  lemma SettlementsStopAtRefusal(w: World, n: nat)
    requires Honest(w) && Fetch(w, n, EndQuietly).result.Ok?
    ensures var f := Fetch(w, n, EndQuietly);
      && f.result.value == FirstPages(w, f.pagesRead)
      && (forall m: nat :: n <= m < f.next - 1 ==> !Refused(w, m))
      && (f.pagesRead == PageLimit(w) <==> !Refused(w, f.next - 1))
      && (f.pagesRead == PageLimit(w) <==> Fetch(w, n, Raise) == f)
  {
    FetchFromOutcome(w, n, 1, EndQuietly);
    RefusalIsLast(w, n, 1, EndQuietly);
    ModesAgree(w, n, 1);
    FetchFromOutcome(w, n, 1, Raise);
    PagesAreFirst(w, Fetch(w, n, EndQuietly).pagesRead);
    var f := Fetch(w, n, EndQuietly);
    if Refused(w, f.next - 1) {
      assert Blocked(w, n, f.next);
    }
  }

  /** The call succeeds although the provider has, and reports, more than it returns. */
  ghost predicate CutShort(w: World) {
    && Honest(w) && PageLimit(w) == |w.pages|
    && var r := Fetch(w, 0, EndQuietly).result;
       r.Ok? && |r.value| < |Flat(w.pages)|
  }

  /** A list of settlements can lack its second page although the call succeeds. */
  lemma SettlementsMayBeCutShort()
    ensures exists w: World :: CutShort(w)
  {
    var faults := (n: nat) => if n == 1 then Some(Http(200, Some(Body("error", [], None)))) else None;
    var w := World([["a"], ["b"]], Some(2), faults, 2);
    assert Request(w, 0, 1, MAX_RETRIES) == Sent(Ok(PageBody(w, 1)), 1);
    assert Request(w, 1, 2, MAX_RETRIES) == Sent(Ok(Body("error", [], None)), 2);
    assert FetchFrom(w, 1, 2, EndQuietly).result == Ok([]);
    assert Fetch(w, 0, EndQuietly).result == Prepend(["a"], Ok([]));
    assert w.pages[1..] == [["b"]] && w.pages[1..][1..] == [];
    assert |Flat(w.pages)| == 2;
    assert CutShort(w);
  }
}
