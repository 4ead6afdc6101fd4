/**
 * The request journal of the HTTP test-double server: an append log of serve
 * events whose enabled/disabled mode is fixed when the journal is built.
 *
 * Disabled mode is the contract pinned down here: the identity lookup, the
 * full listing and both removals fail with RequestJournalDisabled, while the
 * aggregate queries answer with sentinels (a count of -1, an empty list).
 * Enabled mode is the plain filter/count/remove over the log in arrival order.
 */
module Journal {
  import opened ServeEvents

  datatype JournalError =
    | RequestJournalDisabled  // the journal was built disabled
    | NullMetadataPattern     // an enabled journal was asked to match a null metadata pattern

  datatype Result<+T> = Success(value: T) | Failure(error: JournalError)

  class RequestJournal {
    /** Chosen once, at construction; no operation changes it. */
    const enabled: bool
    /** The served events, oldest first. */
    var events: seq<ServeEvent>

    /** A disabled journal never holds anything. */
    ghost predicate Valid()
      reads this
    {
      !enabled ==> events == []
    }

    constructor (enabled: bool)
      ensures this.enabled == enabled
      ensures events == []
      ensures Valid()
    {
      this.enabled := enabled;
      events := [];
    }

    /**
     * The server hands over one completed exchange. An enabled journal appends
     * it at the end; a disabled one drops it. When enabled, every count
     * afterwards is the old count plus one exactly for the patterns the new
     * request matches, and every find result gains the new request at its end
     * exactly for those patterns; when disabled, every count stays -1.
     */
    method RequestReceived(e: ServeEvent)
      requires Valid()
      modifies this
      ensures Valid()
      ensures events == if enabled then old(events) + [e] else old(events)
      ensures enabled ==> forall p ::
        CountRequestsMatching(p) == old(CountRequestsMatching(p)) + (if p(e.request) then 1 else 0)
      ensures enabled ==> forall p ::
        FindRequestsMatching(p) == old(FindRequestsMatching(p)) + (if p(e.request) then [e.request] else [])
      ensures !enabled ==> forall p :: CountRequestsMatching(p) == -1
    {
      if enabled {
        forall p: RequestPattern
          ensures |Filter(events + [e], MatchingRequest(p))| ==
                  |Filter(events, MatchingRequest(p))| + (if p(e.request) then 1 else 0)
          ensures RequestsOf(Filter(events + [e], MatchingRequest(p))) ==
                  RequestsOf(Filter(events, MatchingRequest(p))) + (if p(e.request) then [e.request] else [])
        {
          var f := Filter(events, MatchingRequest(p));
          FilterAppend(events, e, MatchingRequest(p));
          assert RequestsOf(f + [e]) == RequestsOf(f) + [e.request];
        }
        events := events + [e];
      }
    }

    /** Every served event, oldest first; fails when the journal is disabled. */
    function GetAllServeEvents(): (r: Result<seq<ServeEvent>>)
      reads this
      ensures !enabled ==> r == Failure(RequestJournalDisabled)
      ensures enabled ==> r.Success? && r.value == events
    {
      if !enabled then Failure(RequestJournalDisabled) else Success(events)
    }

    /**
     * The served event with the given identifier. An unknown identifier is a
     * normal absent answer when enabled; when disabled the lookup fails,
     * whatever the identifier.
     */
    function GetServeEvent(id: Id): (r: Result<Option<ServeEvent>>)
      reads this
      ensures !enabled ==> r == Failure(RequestJournalDisabled)
      ensures enabled ==> r.Success?
      ensures r.Success? && r.value.Some? ==> r.value.value in events && r.value.value.id == id
      ensures r.Success? ==> (r.value.None? <==> forall e :: e in events ==> e.id != id)
    {
      if !enabled then Failure(RequestJournalDisabled) else Success(Lookup(events, id))
    }

    /**
     * How many served requests match `p`: -1 when disabled (a sentinel, not an
     * error), and otherwise exactly as many as FindRequestsMatching lists.
     */
    function CountRequestsMatching(p: RequestPattern): (r: int)
      reads this
      ensures r == -1 <==> !enabled
      ensures enabled ==> r == |FindRequestsMatching(p)| && r <= |events|
    {
      if !enabled then -1 else |Filter(events, MatchingRequest(p))|
    }

    /**
     * The served requests that match `p`, in arrival order: every listed
     * request matches and every matching served request is listed. A
     * disabled journal answers with the empty list rather than an error.
     */
    function FindRequestsMatching(p: RequestPattern): (r: seq<Request>)
      reads this
      ensures !enabled ==> r == []
      ensures |r| <= |events|
      ensures forall i :: 0 <= i < |r| ==> p(r[i])
      ensures enabled ==> forall e :: e in events && p(e.request) ==> e.request in r
    {
      if !enabled then [] else RequestsOf(Filter(events, MatchingRequest(p)))
    }

    /**
     * Removes every served event whose request matches `p` and returns the
     * removed ones; the rest stay in order. When disabled it fails and
     * nothing changes.
     */
    method RemoveServeEventsMatching(p: RequestPattern) returns (r: Result<seq<ServeEvent>>)
      requires Valid()
      modifies this
      ensures Valid()
      ensures !enabled ==> r == Failure(RequestJournalDisabled) && events == old(events)
      ensures enabled ==> r == Success(Filter(old(events), MatchingRequest(p)))
      ensures enabled ==> events == Filter(old(events), Not(MatchingRequest(p)))
      ensures enabled ==> r.Success? && |r.value| == old(CountRequestsMatching(p))
      ensures enabled ==> r.Success? && multiset(r.value) + multiset(events) == multiset(old(events))
      ensures enabled ==> CountRequestsMatching(p) == 0
    {
      if !enabled {
        return Failure(RequestJournalDisabled);
      }
      var keep := MatchingRequest(p);
      FilterPartition(events, keep);
      FilterComplementEmpty(events, keep);
      r := Success(Filter(events, keep));
      events := Filter(events, Not(keep));
    }

    /**
     * Removes every served event whose stub's metadata matches `mp` and returns
     * the removed ones. The mode is checked before the argument is looked at:
     * a disabled journal fails even for a null (None) pattern.
     */
    method RemoveServeEventsForStubsMatchingMetadata(mp: Option<MetadataPattern>)
      returns (r: Result<seq<ServeEvent>>)
      requires Valid()
      modifies this
      ensures Valid()
      ensures !enabled ==> r == Failure(RequestJournalDisabled) && events == old(events)
      ensures enabled && mp.None? ==> r == Failure(NullMetadataPattern) && events == old(events)
      ensures enabled && mp.Some? ==> r == Success(Filter(old(events), MatchingStubMetadata(mp.value)))
      ensures enabled && mp.Some? ==> events == Filter(old(events), Not(MatchingStubMetadata(mp.value)))
      ensures enabled && mp.Some? ==>
        r.Success? && multiset(r.value) + multiset(events) == multiset(old(events))
    {
      if !enabled {
        return Failure(RequestJournalDisabled);
      }
      if mp.None? {
        return Failure(NullMetadataPattern);
      }
      var keep := MatchingStubMetadata(mp.value);
      FilterPartition(events, keep);
      r := Success(Filter(events, keep));
      events := Filter(events, Not(keep));
    }
  }

  /**
   * On an enabled journal the pattern that matches anything finds every served
   * request, oldest first, and counts them all.
   */
  lemma FindAnythingListsEveryRequest(j: RequestJournal)
    requires j.enabled
    ensures j.FindRequestsMatching(Anything) == RequestsOf(j.events)
    ensures j.CountRequestsMatching(Anything) == |j.events|
  {
    FilterEverything(j.events, MatchingRequest(Anything));
  }
}
