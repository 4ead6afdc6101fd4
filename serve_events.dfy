/**
 * Served interaction records ("serve events") of the HTTP test-double server,
 * and the operations over an ordered log of them that the request journal
 * uses: filtering by an opaque predicate, lookup by identifier and projection
 * to the logged requests.
 */
module ServeEvents {

  datatype Option<+T> = None | Some(value: T)

  /** An opaque identifier, shaped like java.util.UUID (two 64-bit halves). */
  datatype Id = Id(mostSignificant: int, leastSignificant: int)

  /** The request snapshot a serve event captures (only what patterns need to see). */
  datatype Request = Request(verb: string, url: string)

  type Metadata = map<string, string>

  /** The stub mapping that served a request: its identifier and its metadata. */
  datatype StubMapping = StubMapping(id: Id, metadata: Metadata)

  /** One completed exchange: its identity, the request, and the stub that matched, if any. */
  datatype ServeEvent = ServeEvent(id: Id, request: Request, stub: Option<StubMapping>)

  /** A request pattern is an opaque predicate over request snapshots. */
  type RequestPattern = Request -> bool

  /** A metadata pattern is an opaque predicate over a stub's metadata. */
  type MetadataPattern = Metadata -> bool

  /** The pattern that matches every request (RequestPattern.ANYTHING). */
  const Anything: RequestPattern := (r: Request) => true

  /** The pattern that matches the requests made to one URL. */
  function UrlEqualTo(url: string): RequestPattern {
    (r: Request) => r.url == url
  }

  /** A serve event is selected by a request pattern when its request matches. */
  function MatchingRequest(p: RequestPattern): ServeEvent -> bool {
    (e: ServeEvent) => p(e.request)
  }

  /** A serve event is selected by a metadata pattern when it was served by a stub whose metadata matches. */
  function MatchingStubMetadata(mp: MetadataPattern): ServeEvent -> bool {
    (e: ServeEvent) => e.stub.Some? && mp(e.stub.value.metadata)
  }

  /** The complement of a selection. */
  function Not(keep: ServeEvent -> bool): ServeEvent -> bool {
    (e: ServeEvent) => !keep(e)
  }

  /** The events of `s` that `keep` selects, in their original order. */
  function Filter(s: seq<ServeEvent>, keep: ServeEvent -> bool): (r: seq<ServeEvent>)
    ensures |r| <= |s|
    ensures forall i :: 0 <= i < |r| ==> keep(r[i]) && r[i] in s
    ensures forall e :: e in s && keep(e) ==> e in r
  {
    if s == [] then []
    else if keep(s[0]) then [s[0]] + Filter(s[1..], keep)
    else Filter(s[1..], keep)
  }

  /** The first event of `s` with identifier `id`, or None when no event has it. */
  function Lookup(s: seq<ServeEvent>, id: Id): (r: Option<ServeEvent>)
    ensures r.Some? ==> r.value in s && r.value.id == id
    ensures r.None? <==> forall e :: e in s ==> e.id != id
  {
    if s == [] then None
    else if s[0].id == id then Some(s[0])
    else Lookup(s[1..], id)
  }

  /** The logged requests of a sequence of serve events, position by position. */
  function RequestsOf(s: seq<ServeEvent>): (r: seq<Request>)
    ensures |r| == |s|
    ensures forall i :: 0 <= i < |s| ==> r[i] == s[i].request
  {
    if s == [] then [] else [s[0].request] + RequestsOf(s[1..])
  }

  /** A selection that keeps every event keeps the whole log, in order. */
  lemma {:induction false} FilterEverything(s: seq<ServeEvent>, keep: ServeEvent -> bool)
    requires forall e :: keep(e)
    ensures Filter(s, keep) == s
  {
    if s != [] {
      FilterEverything(s[1..], keep);
      assert s == [s[0]] + s[1..];
    }
  }

  /** Filtering distributes over concatenation: it keeps arrival order across segments. */
  lemma {:induction false} FilterConcat(s: seq<ServeEvent>, t: seq<ServeEvent>, keep: ServeEvent -> bool)
    ensures Filter(s + t, keep) == Filter(s, keep) + Filter(t, keep)
  {
    if s == [] {
      assert s + t == t;
    } else {
      assert (s + t)[1..] == s[1..] + t;
      FilterConcat(s[1..], t, keep);
    }
  }

  /** Appending one event adds it to the selection exactly when it is selected. */
  lemma FilterAppend(s: seq<ServeEvent>, e: ServeEvent, keep: ServeEvent -> bool)
    ensures Filter(s + [e], keep) == if keep(e) then Filter(s, keep) + [e] else Filter(s, keep)
  {
    FilterConcat(s, [e], keep);
    assert Filter([e], keep) == if keep(e) then [e] else [] by {
      assert [e][1..] == [];
    }
  }

  /**
   * A selection and its complement split the log: every event lands in
   * exactly one of the two, so the counts add up and nothing is lost or duplicated.
   */
  lemma {:induction false} FilterPartition(s: seq<ServeEvent>, keep: ServeEvent -> bool)
    ensures multiset(Filter(s, keep)) + multiset(Filter(s, Not(keep))) == multiset(s)
    ensures |Filter(s, keep)| + |Filter(s, Not(keep))| == |s|
  {
    if s != [] {
      FilterPartition(s[1..], keep);
      assert s == [s[0]] + s[1..];
    }
  }

  /** Selecting twice with the same predicate selects nothing more. */
  lemma {:induction false} FilterIdempotent(s: seq<ServeEvent>, keep: ServeEvent -> bool)
    ensures Filter(Filter(s, keep), keep) == Filter(s, keep)
  {
    if s != [] {
      FilterIdempotent(s[1..], keep);
      if keep(s[0]) {
        assert ([s[0]] + Filter(s[1..], keep))[1..] == Filter(s[1..], keep);
      }
    }
  }

  /** After the selected events are taken out, a second selection of the rest finds none. */
  lemma {:induction false} FilterComplementEmpty(s: seq<ServeEvent>, keep: ServeEvent -> bool)
    ensures Filter(Filter(s, Not(keep)), keep) == []
  {
    if s != [] {
      FilterComplementEmpty(s[1..], keep);
      if !keep(s[0]) {
        assert ([s[0]] + Filter(s[1..], Not(keep)))[1..] == Filter(s[1..], Not(keep));
      }
    }
  }
}
