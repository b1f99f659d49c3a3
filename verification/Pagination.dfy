// exotel.FetchCalls: following page cursors, at most 500 pages.
module Pagination {
  import opened Text
  import opened Records

  // A response body by what a JSON reader makes of it.
  datatype Body = Calls(records: seq<CallRecord>) | Unreadable

  // The vendor's reply to one request. An answer that reads as a page of calls carries
  // the cursor of the next page, or "" on the last one.
  datatype Reply = TransportError | Answer(status: int, body: Body, next: string)

  // What the vendor replies to the k-th request of a fetch, given its cursor. Nothing is
  // assumed about it: cursors may repeat, and equal cursors may get different replies.
  type Api = (nat, string) -> Reply

  const MAX_PAGES := 500

  predicate IsSuccess(status: int) {
    200 <= status < 300
  }

  predicate GoodPage(r: Reply) {
    r.Answer? && IsSuccess(r.status) && r.body.Calls?
  }

  datatype FetchResult = FetchResult(
    httpStatus: int,
    failed: bool,
    response: Option<seq<CallRecord>>,
    pagesFetched: nat,
    pageBodies: seq<Body>,
    rawBody: Body)

  // The records of a list of bodies, in order; a body that does not read holds none.
  function RecordsIn(bodies: seq<Body>): seq<CallRecord> {
    if bodies == [] then []
    else
      var last := bodies[|bodies| - 1];
      RecordsIn(bodies[..|bodies| - 1]) + if last.Calls? then last.records else []
  }

  function BodiesOf(pages: seq<Reply>): seq<Body> {
    if pages == [] then []
    else
      var last := pages[|pages| - 1];
      BodiesOf(pages[..|pages| - 1]) + if last.Answer? then [last.body] else []
  }

  // The cursor sent after these pages.
  function CursorAfter(pages: seq<Reply>): string {
    if pages != [] && pages[|pages| - 1].Answer? then pages[|pages| - 1].next else ""
  }

  // A chain of pages: each is the reply to the non-empty cursor its predecessor gave.
  ghost predicate IsChain(api: Api, pages: seq<Reply>) {
    pages == []
    || var front, last := pages[..|pages| - 1], pages[|pages| - 1];
       && IsChain(api, front)
       && (front != [] ==> CursorAfter(front) != "")
       && last == api(|front|, CursorAfter(front))
       && GoodPage(last)
  }

  // Every chain is the beginning of every longer one.
  lemma {:induction false} ChainPrefix(api: Api, q: seq<Reply>, n: nat)
    requires IsChain(api, q) && n <= |q|
    ensures IsChain(api, q[..n])
    ensures n < |q| ==> (n > 0 ==> CursorAfter(q[..n]) != "") && GoodPage(api(n, CursorAfter(q[..n])))
  {
    if n < |q| {
      var front := q[..|q| - 1];
      if n < |front| {
        ChainPrefix(api, front, n);
      }
      assert front[..n] == q[..n];
    } else {
      assert q[..n] == q;
    }
  }

  lemma {:induction false} ChainsAgree(api: Api, p: seq<Reply>, q: seq<Reply>)
    requires IsChain(api, p) && IsChain(api, q) && |p| == |q|
    ensures p == q
  {
    if p != [] {
      ChainsAgree(api, p[..|p| - 1], q[..|q| - 1]);
      assert p == p[..|p| - 1] + [p[|p| - 1]] && q == q[..|q| - 1] + [q[|q| - 1]];
    }
  }

  // What any fetch returns, in terms of the chain of pages it got.
  ghost predicate IsFetch(api: Api, pages: seq<Reply>, r: FetchResult) {
    && IsChain(api, pages)
    && |pages| <= MAX_PAGES
    && if pages != [] && (CursorAfter(pages) == "" || |pages| == MAX_PAGES) then
         && r.response == Some(RecordsIn(BodiesOf(pages)))
         && !r.failed
         && r.httpStatus == pages[|pages| - 1].status
         && r.pagesFetched == |pages|
         && r.pageBodies == BodiesOf(pages)
         && (r.pageBodies != [] ==> r.rawBody == r.pageBodies[0])
       else
         var bad := api(|pages|, CursorAfter(pages));
         && !GoodPage(bad)
         && r.response == None
         && r.pagesFetched == |pages| + 1
         && match bad
            case TransportError =>
              r.failed && r.httpStatus == 0 && r.pageBodies == [] && r.rawBody == Unreadable
            case Answer(status, body, _) =>
              && r.failed == IsSuccess(status)
              && r.httpStatus == status
              && r.pageBodies == BodiesOf(pages)
              && r.rawBody == body
  }

  lemma NoPages(api: Api)
    ensures IsChain(api, []) && BodiesOf([]) == [] && RecordsIn([]) == []
  {
  }

  lemma OneMorePage(api: Api, pages: seq<Reply>, reply: Reply)
    requires IsChain(api, pages) && GoodPage(reply)
    requires pages != [] ==> CursorAfter(pages) != ""
    requires reply == api(|pages|, CursorAfter(pages))
    ensures IsChain(api, pages + [reply])
    ensures BodiesOf(pages + [reply]) == BodiesOf(pages) + [reply.body]
    ensures RecordsIn(BodiesOf(pages) + [reply.body]) == RecordsIn(BodiesOf(pages)) + reply.body.records
    ensures CursorAfter(pages + [reply]) == reply.next
  {
    hide IsChain, BodiesOf, RecordsIn;
    ChainSnoc(api, pages, reply);
    BodiesSnoc(pages, reply);
    RecordsSnoc(BodiesOf(pages), reply.body);
  }

  lemma ChainSnoc(api: Api, pages: seq<Reply>, reply: Reply)
    requires IsChain(api, pages) && GoodPage(reply)
    requires pages != [] ==> CursorAfter(pages) != ""
    requires reply == api(|pages|, CursorAfter(pages))
    ensures IsChain(api, pages + [reply])
  {
    var longer := pages + [reply];
    assert longer[..|longer| - 1] == pages;
  }

  lemma BodiesSnoc(pages: seq<Reply>, reply: Reply)
    ensures BodiesOf(pages + [reply]) == BodiesOf(pages) + if reply.Answer? then [reply.body] else []
  {
    var longer := pages + [reply];
    assert longer[..|longer| - 1] == pages;
  }

  lemma RecordsSnoc(bodies: seq<Body>, body: Body)
    ensures RecordsIn(bodies + [body]) == RecordsIn(bodies) + if body.Calls? then body.records else []
  {
    var longer := bodies + [body];
    assert longer[..|longer| - 1] == bodies;
  }

  lemma Whole(api: Api, pages: seq<Reply>, r: FetchResult)
    requires IsFetch(api, pages, r)
    ensures exists p :: IsFetch(api, p, r)
    ensures forall replies :: Answers(api, replies) ==>
      r.response == Some(RecordsOnPages(replies)) && !r.failed && r.pagesFetched == |replies|
  {
    forall replies | Answers(api, replies)
      ensures r.response == Some(RecordsOnPages(replies)) && !r.failed && r.pagesFetched == |replies|
    {
      AnswersAreFetched(api, replies, pages, r);
    }
  }

  method FetchCalls(api: Api) returns (r: FetchResult)
    ensures exists pages :: IsFetch(api, pages, r)
    ensures forall replies :: Answers(api, replies) ==>
      r.response == Some(RecordsOnPages(replies)) && !r.failed && r.pagesFetched == |replies|
  {
    hide IsChain, BodiesOf, RecordsIn;
    NoPages(api);
    var allRecords: seq<CallRecord> := [];
    var pageBodies: seq<Body> := [];
    var firstBody := Unreadable;
    var afterCursor := "";
    var count := 0;
    ghost var pages: seq<Reply> := [];
    while true
      invariant 0 <= count == |pages| < MAX_PAGES
      invariant IsChain(api, pages)
      invariant pages != [] ==> CursorAfter(pages) != ""
      invariant afterCursor == CursorAfter(pages)
      invariant pageBodies == BodiesOf(pages)
      invariant pages == [] ==> afterCursor == ""
      invariant allRecords == RecordsIn(pageBodies)
      invariant |pageBodies| == count && (count > 0 ==> firstBody == pageBodies[0])
      decreases MAX_PAGES - count
    {
      var reply := api(count, afterCursor);
      count := count + 1;
      if reply.TransportError? {
        r := FetchResult(0, true, None, count, [], Unreadable);
        Whole(api, pages, r);
        return;
      }
      if count == 1 {
        firstBody := reply.body;
      }
      if !IsSuccess(reply.status) {
        r := FetchResult(reply.status, false, None, count, pageBodies, reply.body);
        Whole(api, pages, r);
        return;
      }
      if !reply.body.Calls? {
        r := FetchResult(reply.status, true, None, count, pageBodies, reply.body);
        Whole(api, pages, r);
        return;
      }
      OneMorePage(api, pages, reply);
      pages := pages + [reply];
      pageBodies := pageBodies + [reply.body];
      allRecords := allRecords + reply.body.records;
      afterCursor := reply.next;
      if afterCursor == "" || count >= MAX_PAGES {
        r := FetchResult(reply.status, false, Some(allRecords), count, pageBodies, firstBody);
        Whole(api, pages, r);
        return;
      }
    }
  }

  // The result is determined by the vendor's replies.
  lemma FetchIsDetermined(api: Api, p: seq<Reply>, r: FetchResult, q: seq<Reply>, s: FetchResult)
    requires IsFetch(api, p, r) && IsFetch(api, q, s)
    ensures p == q && r == s
  {
    hide IsChain, BodiesOf, RecordsIn;
    var n := if |p| <= |q| then |p| else |q|;
    ChainPrefix(api, p, n);
    ChainPrefix(api, q, n);
    ChainsAgree(api, p[..n], q[..n]);
    assert p[..|p|] == p && q[..|q|] == q;
    assert p == q;
    OneBodyPerPage(api, p);
  }

  // If the vendor's chain ends within 500 pages, the fetch returns all of it, in order;
  // a longer chain is cut after 500 pages and still reported as a success.
  lemma WholeChainIsFetched(api: Api, chain: seq<Reply>, pages: seq<Reply>, r: FetchResult)
    requires IsFetch(api, pages, r) && IsChain(api, chain) && chain != []
    requires CursorAfter(chain) == "" || |chain| > MAX_PAGES
    ensures if |chain| <= MAX_PAGES
      then pages == chain && r.response == Some(RecordsIn(BodiesOf(chain)))
      else pages == chain[..MAX_PAGES] && r.response == Some(RecordsIn(BodiesOf(pages)))
  {
    var n := if |pages| <= |chain| then |pages| else |chain|;
    ChainPrefix(api, pages, n);
    ChainPrefix(api, chain, n);
    ChainsAgree(api, pages[..n], chain[..n]);
    assert pages[..|pages|] == pages && chain[..|chain|] == chain;
  }

  // What later stages rely on: a response is present exactly for a successful fetch, and
  // then it is what the saved page bodies hold.
  predicate Consistent(r: FetchResult) {
    match r.response
    case Some(records) => !r.failed && IsSuccess(r.httpStatus) && r.pageBodies != [] && records == RecordsIn(r.pageBodies)
    case None => r.failed || !IsSuccess(r.httpStatus)
  }

  lemma FetchesAreConsistent(api: Api, pages: seq<Reply>, r: FetchResult)
    requires IsFetch(api, pages, r)
    ensures Consistent(r)
    ensures 1 <= r.pagesFetched <= MAX_PAGES
    ensures r.response.Some? ==> |r.pageBodies| == r.pagesFetched
  {
    OneBodyPerPage(api, pages);
  }

  lemma {:induction false} OneBodyPerPage(api: Api, pages: seq<Reply>)
    requires IsChain(api, pages)
    ensures |BodiesOf(pages)| == |pages|
  {
    if pages != [] {
      OneBodyPerPage(api, pages[..|pages| - 1]);
    }
  }

  // ---- The cursors written out ----

  // What the vendor answers to a client that sends no cursor first and then the cursor of the
  // page before, as long as the pages are good and there is a cursor to send.
  ghost predicate AnswersSoFar(api: Api, replies: seq<Reply>) {
    && (forall i :: 0 <= i < |replies| ==> GoodAnswer(replies[i]))
    && (forall i :: 0 <= i < |replies| ==> replies[i] == api(i, CursorBefore(replies, i)))
    && (forall i :: 0 < i < |replies| ==> CursorBefore(replies, i) != "")
  }

  function CursorBefore(replies: seq<Reply>, i: nat): string
    requires i <= |replies|
  {
    if i > 0 && replies[i - 1].Answer? then replies[i - 1].next else ""
  }

  // ... ending with a page that has no cursor, or with the 500th ...
  ghost predicate Answers(api: Api, replies: seq<Reply>) {
    && 1 <= |replies| <= 500
    && AnswersSoFar(api, replies)
    && (CursorBefore(replies, |replies|) == "" || |replies| == 500)
  }

  // ... or before that with a reply that is no page of calls.
  ghost predicate BreaksOff(api: Api, replies: seq<Reply>, bad: Reply) {
    && |replies| < 500
    && AnswersSoFar(api, replies)
    && (replies != [] ==> CursorBefore(replies, |replies|) != "")
    && bad == api(|replies|, CursorBefore(replies, |replies|))
    && !GoodAnswer(bad)
  }

  predicate GoodAnswer(r: Reply) {
    r.Answer? && 200 <= r.status < 300 && r.body.Calls?
  }

  // The records of these pages, first page first.
  ghost function RecordsOnPages(replies: seq<Reply>): seq<CallRecord>
    requires forall i :: 0 <= i < |replies| ==> GoodAnswer(replies[i])
  {
    if replies == [] then []
    else
      assert GoodAnswer(replies[0]);
      replies[0].body.records + RecordsOnPages(replies[1..])
  }

  lemma {:induction false} PagesJoined(replies: seq<Reply>, n: nat)
    requires n <= |replies| && forall i :: 0 <= i < |replies| ==> GoodAnswer(replies[i])
    ensures RecordsIn(BodiesOf(replies[..n])) + RecordsOnPages(replies[n..]) == RecordsIn(BodiesOf(replies))
    decreases |replies| - n
  {
    hide BodiesOf, RecordsIn;
    if n == |replies| {
      assert replies[..n] == replies && replies[n..] == [];
      assert RecordsIn(BodiesOf(replies)) + [] == RecordsIn(BodiesOf(replies));
    } else {
      PagesJoined(replies, n + 1);
      assert replies[..n + 1] == replies[..n] + [replies[n]];
      assert replies[n..][1..] == replies[n + 1..];
      BodiesSnoc(replies[..n], replies[n]);
      RecordsSnoc(BodiesOf(replies[..n]), replies[n].body);
      JoinAssociates(RecordsIn(BodiesOf(replies[..n])), replies[n].body.records, RecordsOnPages(replies[n + 1..]));
    }
  }

  lemma JoinAssociates(a: seq<CallRecord>, b: seq<CallRecord>, c: seq<CallRecord>)
    ensures (a + b) + c == a + (b + c)
  {
  }

  lemma {:induction false} AnswersAreAChain(api: Api, replies: seq<Reply>, n: nat)
    requires AnswersSoFar(api, replies) && n <= |replies|
    ensures IsChain(api, replies[..n])
  {
    if n > 0 {
      hide IsChain;
      var front, last := replies[..n - 1], replies[n - 1];
      AnswersAreAChain(api, replies, n - 1);
      assert replies[..n] == front + [last] && GoodAnswer(last);
      assert CursorBefore(replies, n - 1) == CursorAfter(front);
      ChainSnoc(api, front, last);
    }
  }

  // Whatever those pages are, they are fetched whole and in order.
  lemma AnswersAreFetched(api: Api, replies: seq<Reply>, pages: seq<Reply>, r: FetchResult)
    requires IsFetch(api, pages, r) && Answers(api, replies)
    ensures r.response == Some(RecordsOnPages(replies))
    ensures !r.failed && r.httpStatus == replies[|replies| - 1].status && r.pagesFetched == |replies|
  {
    hide IsChain, BodiesOf, RecordsIn;
    AnswersAreAChain(api, replies, |replies|);
    assert replies[..|replies|] == replies;
    PagesJoined(replies, 0);
    NoPages(api);
    assert replies[..0] == [] && replies[0..] == replies;
    assert [] + RecordsOnPages(replies) == RecordsOnPages(replies);
    var n := if |pages| <= |replies| then |pages| else |replies|;
    ChainPrefix(api, pages, n);
    ChainPrefix(api, replies, n);
    ChainsAgree(api, pages[..n], replies[..n]);
    assert pages[..|pages|] == pages;
  }

  // A chain that breaks off gives no calls: a transport error and an unreadable 2xx page are
  // failures, any other status is reported as it is; the pages before are kept, except after
  // a transport error.
  lemma BrokenOffFetch(api: Api, replies: seq<Reply>, bad: Reply, pages: seq<Reply>, r: FetchResult)
    requires IsFetch(api, pages, r) && BreaksOff(api, replies, bad)
    ensures r.response == None && r.pagesFetched == |replies| + 1
    ensures r.failed <==> bad.TransportError? || 200 <= bad.status < 300
    ensures r.httpStatus == if bad.Answer? then bad.status else 0
    ensures |r.pageBodies| == if bad.Answer? then |replies| else 0
    ensures forall i :: 0 <= i < |r.pageBodies| ==> r.pageBodies[i] == replies[i].body
  {
    hide IsChain, BodiesOf, RecordsIn;
    AnswersAreAChain(api, replies, |replies|);
    assert replies[..|replies|] == replies;
    var n := if |pages| <= |replies| then |pages| else |replies|;
    ChainPrefix(api, pages, n);
    ChainPrefix(api, replies, n);
    ChainsAgree(api, pages[..n], replies[..n]);
    assert pages[..|pages|] == pages;
    BodiesInOrder(replies);
  }

  lemma {:induction false} BodiesInOrder(replies: seq<Reply>)
    requires forall i :: 0 <= i < |replies| ==> GoodAnswer(replies[i])
    ensures |BodiesOf(replies)| == |replies|
    ensures forall i :: 0 <= i < |replies| ==> GoodAnswer(replies[i]) && BodiesOf(replies)[i] == replies[i].body
  {
    if replies != [] {
      BodiesInOrder(replies[..|replies| - 1]);
    }
  }

  // One or the other is so of every fetch.
  lemma FetchesEndOrBreakOff(api: Api, pages: seq<Reply>, r: FetchResult)
    requires IsFetch(api, pages, r)
    ensures Answers(api, pages) || BreaksOff(api, pages, api(|pages|, CursorAfter(pages)))
  {
    ChainsAreAnswers(api, pages);
  }

  lemma {:induction false} ChainsAreAnswers(api: Api, pages: seq<Reply>)
    requires IsChain(api, pages)
    ensures AnswersSoFar(api, pages)
  {
    if pages != [] {
      var front, last := pages[..|pages| - 1], pages[|pages| - 1];
      ChainsAreAnswers(api, front);
      assert pages == front + [last];
      AnswersSnoc(api, front, last);
    }
  }

  lemma AnswersSnoc(api: Api, front: seq<Reply>, last: Reply)
    requires AnswersSoFar(api, front) && GoodAnswer(last)
    requires front != [] ==> CursorBefore(front, |front|) != ""
    requires last == api(|front|, CursorBefore(front, |front|))
    ensures AnswersSoFar(api, front + [last])
  {
    var pages := front + [last];
    forall i | 0 <= i < |pages|
      ensures GoodAnswer(pages[i]) && pages[i] == api(i, CursorBefore(pages, i))
      ensures i > 0 ==> CursorBefore(pages, i) != ""
    {
      assert CursorBefore(pages, i) == CursorBefore(front, i);
      assert i < |front| ==> pages[i] == front[i] && GoodAnswer(front[i]);
    }
  }
}
