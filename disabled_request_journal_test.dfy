/**
 * The disabled-journal acceptance scenario: a server built with the request
 * journal disabled, two stubs (GET /one and GET /two), then GET /two and
 * GET /one served, in that order. Each test method builds that state afresh
 * and returns what the journal answers; its postcondition is the assertion.
 */
module DisabledRequestJournalTest {
  import opened ServeEvents
  import opened Journal

  const StubOne := StubMapping(Id(1, 1), map[])
  const StubTwo := StubMapping(Id(1, 2), map[])
  const GetOne := Request("GET", "/one")
  const GetTwo := Request("GET", "/two")

  /** Builds a journal in the given mode and serves GET /two, then GET /one. */
  method SetupServer(enabled: bool) returns (j: RequestJournal)
    ensures fresh(j) && j.Valid() && j.enabled == enabled
    ensures j.events == if enabled
      then [ServeEvent(Id(0, 1), GetTwo, Some(StubTwo)), ServeEvent(Id(0, 2), GetOne, Some(StubOne))]
      else []
  {
    j := new RequestJournal(enabled);
    j.RequestReceived(ServeEvent(Id(0, 1), GetTwo, Some(StubTwo)));
    j.RequestReceived(ServeEvent(Id(0, 2), GetOne, Some(StubOne)));
  }

  method ThrowsErrorOnGetAllServerEvents() returns (r: Result<seq<ServeEvent>>)
    ensures r == Failure(RequestJournalDisabled)
  {
    var j := SetupServer(false);
    r := j.GetAllServeEvents();
  }

  /** The identifier was never handed out; the lookup still fails rather than reporting absence. */
  method ThrowsErrorOnGetServedStub() returns (r: Result<Option<ServeEvent>>)
    ensures r == Failure(RequestJournalDisabled)
  {
    var j := SetupServer(false);
    r := j.GetServeEvent(Id(1000, 1000));
  }

  /** Even the pattern that matches everything fails instead of reporting nothing removed. */
  method ThrowsErrorOnRemoveServeEventsMatching() returns (r: Result<seq<ServeEvent>>)
    ensures r == Failure(RequestJournalDisabled)
  {
    var j := SetupServer(false);
    r := j.RemoveServeEventsMatching(Anything);
  }

  /** A null metadata pattern fails with the disabled error: the mode is checked first. */
  method ThrowsErrorOnRemoteServeEventsForStubsMatchingMetadata() returns (r: Result<seq<ServeEvent>>)
    ensures r == Failure(RequestJournalDisabled)
  {
    var j := SetupServer(false);
    r := j.RemoveServeEventsForStubsMatchingMetadata(None);
  }

  /** Two requests were served, yet the count is the sentinel -1, not 2 and not an error. */
  method ReturnMinusOneOnCountMatchedRequest() returns (count: int)
    ensures count == -1
  {
    var j := SetupServer(false);
    count := j.CountRequestsMatching(Anything);
  }

  /** Two requests were served, yet the list is empty, not an error. */
  method ReturnEmptyOnRequestMatching() returns (found: seq<Request>)
    ensures |found| == 0
  {
    var j := SetupServer(false);
    found := j.FindRequestsMatching(Anything);
  }

  /**
   * The same scenario with the journal enabled (an assumed counterpart):
   * requests are listed in the order they were served and counts are exact.
   */
  method EnabledJournalKeepsServiceOrder() returns (found: seq<Request>, countOne: int)
    ensures found == [GetTwo, GetOne]
    ensures countOne == 1
  {
    var j := SetupServer(true);
    ghost var served := j.events;
    assert served[1..] == [served[1]] && served[1..][1..] == [];
    assert Filter(served[1..], MatchingRequest(Anything)) == served[1..];
    assert Filter(served, MatchingRequest(Anything)) == served;
    assert Filter(served, MatchingRequest(UrlEqualTo("/one"))) == [served[1]];
    found := j.FindRequestsMatching(Anything);
    countOne := j.CountRequestsMatching(UrlEqualTo("/one"));
  }

  /**
   * With the journal enabled (assumed counterpart), removing with the pattern
   * that matches anything returns both served events and leaves nothing to count.
   */
  method EnabledJournalRemovesEverything() returns (removed: Result<seq<ServeEvent>>, countAfter: int)
    ensures removed == Success([ServeEvent(Id(0, 1), GetTwo, Some(StubTwo)), ServeEvent(Id(0, 2), GetOne, Some(StubOne))])
    ensures countAfter == 0
  {
    var j := SetupServer(true);
    FindAnythingListsEveryRequest(j);
    FilterEverything(j.events, MatchingRequest(Anything));
    removed := j.RemoveServeEventsMatching(Anything);
    countAfter := j.CountRequestsMatching(Anything);
  }
}
