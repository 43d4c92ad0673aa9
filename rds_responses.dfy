/** The RDS response layer (moto/rds3/responses.py): marker pagination of
    list results and the result/error branching of `call_action`. Errors
    are named by their exception class; whether a class is an `RDSError` and
    the `http_status_code` it carries are parameters, since the exception
    classes are not part of this model. */
module RdsResponses {
  import opened Wrappers

  /** `MAX_RECORDS`, the default page size. */
  const MaxRecords := 100
  /** The smallest page size accepted. */
  const MinRecords := 20

  /** One page and the marker of the next, if any. */
  datatype Page<T> = Page(items: seq<T>, nextMarker: Option<string>)

  /** `xs.index(x)`, `None` where Python raises `ValueError`. */
  function FirstIndex(xs: seq<string>, x: string): (r: Option<nat>)
    ensures r.None? <==> x !in xs
    ensures r.Some? ==> r.value < |xs| && xs[r.value] == x
  {
    if |xs| == 0 then None
    else if xs[0] == x then Some(0)
    else
      match FirstIndex(xs[1..], x)
      case None => None
      case Some(i) => Some(i + 1)
  }

  /** The index found is the first occurrence. */
  lemma {:induction false} FirstIndexIsFirst(xs: seq<string>, x: string)
    requires x in xs
    ensures forall j :: 0 <= j < FirstIndex(xs, x).value ==> xs[j] != x
  {
    if xs[0] != x {
      FirstIndexIsFirst(xs[1..], x);
    }
  }

  /** `[resource.resource_id for resource in resources]` */
  function Ids<T>(rs: seq<T>, idOf: T -> string): (r: seq<string>)
    ensures |r| == |rs| && forall i :: 0 <= i < |rs| ==> r[i] == idOf(rs[i])
  {
    seq(|rs|, i requires 0 <= i < |rs| => idOf(rs[i]))
  }

  /** Where a page starts: just after the marker, or at 0 without one;
      `None` when the marker names no resource. */
  function PageStart<T>(rs: seq<T>, idOf: T -> string, marker: Option<string>): (r: Option<nat>)
    ensures !Given(marker) ==> r == Some(0)
    ensures Given(marker) ==> (r.None? <==> marker.value !in Ids(rs, idOf))
    ensures r.Some? ==> r.value <= |rs|
  {
    if Given(marker) then
      match FirstIndex(Ids(rs, idOf), marker.value)
      case None => None
      case Some(i) => Some(i + 1)
    else Some(0)
  }

  /** `_paginate_response` */
  function Paginate<T>(rs: seq<T>, idOf: T -> string, marker: Option<string>, maxRecords: Option<int>): Result<Page<T>, string>
  {
    var size := maxRecords.GetOr(MaxRecords);
    if size < MinRecords || size > MaxRecords then Failure("InvalidParameterValue")
    else
      match PageStart(rs, idOf, marker)
      case None => Failure("ValueError")
      case Some(start) => Success(PageFrom(rs, idOf, start, size))
  }

  /** The page of at most `size` resources from `start` on, and the id of its
      last resource as the next marker when more remain. */
  function PageFrom<T>(rs: seq<T>, idOf: T -> string, start: nat, size: nat): Page<T>
    requires start <= |rs| && size > 0
  {
    var page := if start + size <= |rs| then rs[start..start + size] else rs[start..];
    var next := if |rs| > start + size then Some(idOf(page[|page| - 1])) else None;
    Page(page, next)
  }

  /** The page size must lie in [20, 100] and a marker must name a resource;
      the page is then the slice after the marker, at most `size` long, and
      the next marker is the id of the page's last resource exactly when more
      resources remain. */
  lemma PaginateSpec<T>(rs: seq<T>, idOf: T -> string, marker: Option<string>, maxRecords: Option<int>)
    ensures var r := Paginate(rs, idOf, marker, maxRecords);
      var size := maxRecords.GetOr(MaxRecords);
      (size < MinRecords || size > MaxRecords ==> r == Failure("InvalidParameterValue")) &&
      (MinRecords <= size <= MaxRecords && PageStart(rs, idOf, marker).None? ==> r == Failure("ValueError")) &&
      (MinRecords <= size <= MaxRecords && PageStart(rs, idOf, marker).Some? ==>
        var start := PageStart(rs, idOf, marker).value;
        r.Success? &&
        |r.value.items| <= size &&
        (start + size <= |rs| ==> r.value.items == rs[start..start + size]) &&
        (start + size > |rs| ==> r.value.items == rs[start..]) &&
        (r.value.nextMarker.Some? <==> |rs| > start + size) &&
        (r.value.nextMarker.Some? ==> |r.value.items| == size && r.value.nextMarker.value == idOf(rs[start + size - 1])))
  {
  }

  /** No two resources share an id. */
  predicate DistinctIds<T>(rs: seq<T>, idOf: T -> string)
  {
    forall i, j :: 0 <= i < j < |rs| ==> idOf(rs[i]) != idOf(rs[j])
  }

  /** Every resource has a non-empty id, so every marker is truthy. */
  predicate NonEmptyIds<T>(rs: seq<T>, idOf: T -> string)
  {
    forall i :: 0 <= i < |rs| ==> idOf(rs[i]) != ""
  }

  /** With distinct, non-empty ids, the marker of a page leads to the very
      next slice. */
  lemma NextPageStart<T>(rs: seq<T>, idOf: T -> string, marker: Option<string>, maxRecords: Option<int>)
    requires DistinctIds(rs, idOf) && NonEmptyIds(rs, idOf)
    requires Paginate(rs, idOf, marker, maxRecords).Success?
    requires Paginate(rs, idOf, marker, maxRecords).value.nextMarker.Some?
    ensures var nm := Paginate(rs, idOf, marker, maxRecords).value.nextMarker;
      PageStart(rs, idOf, nm) == Some(PageStart(rs, idOf, marker).value + maxRecords.GetOr(MaxRecords))
  {
    PaginateSpec(rs, idOf, marker, maxRecords);
    var size := maxRecords.GetOr(MaxRecords);
    var start := PageStart(rs, idOf, marker).value;
    var k := start + size - 1;
    var ids := Ids(rs, idOf);
    var nm := idOf(rs[k]);
    assert Given(Some(nm));
    var found := FirstIndex(ids, nm);
    assert ids[k] == nm;
    assert found.Some?;
    assert found.value == k;
  }

  /** A client that follows the markers from `marker` on, collecting every
      page `pager` returns; `fuel` bounds the number of requests. */
  function Follow<T>(pager: Option<string> -> Result<Page<T>, string>, marker: Option<string>, fuel: nat): Result<seq<T>, string>
    decreases fuel
  {
    match pager(marker)
    case Failure(e) => Failure(e)
    case Success(p) =>
      if p.nextMarker.None? then Success(p.items)
      else if fuel == 0 then Failure("OutOfFuel")
      else
        match Follow(pager, p.nextMarker, fuel - 1)
        case Failure(e) => Failure(e)
        case Success(more) => Success(p.items + more)
  }

  /** What a pager over `rs` with page size `size` does, given where each
      marker starts a page: a full page with a marker that starts the next
      one while resources remain, else the rest with no marker. */
  ghost predicate PagesThrough<T>(pager: Option<string> -> Result<Page<T>, string>, startOf: Option<string> -> Option<nat>, rs: seq<T>, size: nat)
  {
    forall m :: startOf(m).Some? ==> PageAt(pager, startOf, rs, size, m, startOf(m).value)
  }

  /** The page for marker `m`, which starts at `st`. */
  ghost predicate PageAt<T>(pager: Option<string> -> Result<Page<T>, string>, startOf: Option<string> -> Option<nat>, rs: seq<T>, size: nat, m: Option<string>, st: nat)
  {
    st <= |rs| &&
    if st + size < |rs| then
      pager(m).Success? && pager(m).value.items == rs[st..st + size] &&
      pager(m).value.nextMarker.Some? && startOf(pager(m).value.nextMarker) == Some(st + size)
    else pager(m) == Success(Page(rs[st..], None))
  }

  /** Following such a pager from a page start collects every resource from
      there on, in order. */
  lemma {:induction false} FollowCovers<T>(pager: Option<string> -> Result<Page<T>, string>, startOf: Option<string> -> Option<nat>,
                                           rs: seq<T>, size: nat, marker: Option<string>, fuel: nat, start: nat)
    requires size > 0 && PagesThrough(pager, startOf, rs, size)
    requires startOf(marker) == Some(start) && fuel >= |rs| - start
    ensures start <= |rs| && Follow(pager, marker, fuel) == Success(rs[start..])
    decreases fuel, 1
  {
    assert PageAt(pager, startOf, rs, size, marker, start);
    if start + size < |rs| {
      FollowFullPage(pager, startOf, rs, size, marker, fuel, start);
    }
  }

  /** The inductive step of `FollowCovers`: a full page, then the rest from
      its marker. */
  lemma {:induction false} FollowFullPage<T>(pager: Option<string> -> Result<Page<T>, string>, startOf: Option<string> -> Option<nat>,
                                             rs: seq<T>, size: nat, marker: Option<string>, fuel: nat, start: nat)
    requires size > 0 && PagesThrough(pager, startOf, rs, size)
    requires startOf(marker) == Some(start) && fuel >= |rs| - start && start + size < |rs|
    requires PageAt(pager, startOf, rs, size, marker, start)
    ensures Follow(pager, marker, fuel) == Success(rs[start..])
    decreases fuel, 0
  {
    var p := pager(marker).value;
    var more := rs[start + size..];
    FollowCovers(pager, startOf, rs, size, p.nextMarker, fuel - 1, start + size);
    FollowStep(pager, marker, fuel, p, more);
    assert p.items + more == rs[start..];
  }

  /** One request of the client loop: a page with a marker, then the rest. */
  lemma FollowStep<T>(pager: Option<string> -> Result<Page<T>, string>, marker: Option<string>, fuel: nat, p: Page<T>, more: seq<T>)
    requires pager(marker) == Success(p) && p.nextMarker.Some? && fuel > 0
    requires Follow(pager, p.nextMarker, fuel - 1) == Success(more)
    ensures Follow(pager, marker, fuel) == Success(p.items + more)
  {
  }

  /** The client loop over `_paginate_response`. */
  function Walk<T>(rs: seq<T>, idOf: T -> string, marker: Option<string>, maxRecords: Option<int>, fuel: nat): Result<seq<T>, string>
  {
    Follow(m => Paginate(rs, idOf, m, maxRecords), marker, fuel)
  }

  /** A page with resources after it is full and carries the id of its last
      resource as the marker. */
  lemma PaginateFull<T>(rs: seq<T>, idOf: T -> string, marker: Option<string>, maxRecords: Option<int>, start: nat)
    requires MinRecords <= maxRecords.GetOr(MaxRecords) <= MaxRecords
    requires PageStart(rs, idOf, marker) == Some(start)
    requires start + maxRecords.GetOr(MaxRecords) < |rs|
    ensures var size := maxRecords.GetOr(MaxRecords);
      Paginate(rs, idOf, marker, maxRecords) == Success(Page(rs[start..start + size], Some(idOf(rs[start + size - 1]))))
  {
    var size := maxRecords.GetOr(MaxRecords);
    var page := rs[start..start + size];
    assert PageFrom(rs, idOf, start, size) == Page(page, Some(idOf(rs[start + size - 1]))) by {
      assert page[|page| - 1] == rs[start + size - 1];
    }
  }

  /** The last page holds the rest and carries no marker. */
  lemma PaginateLast<T>(rs: seq<T>, idOf: T -> string, marker: Option<string>, maxRecords: Option<int>, start: nat)
    requires MinRecords <= maxRecords.GetOr(MaxRecords) <= MaxRecords
    requires PageStart(rs, idOf, marker) == Some(start)
    requires start + maxRecords.GetOr(MaxRecords) >= |rs|
    ensures Paginate(rs, idOf, marker, maxRecords) == Success(Page(rs[start..], None))
  {
    var size := maxRecords.GetOr(MaxRecords);
    assert PageFrom(rs, idOf, start, size) == Page(rs[start..], None) by {
      if start + size == |rs| {
        assert rs[start..start + size] == rs[start..];
      }
    }
  }

  /** With distinct, non-empty ids, a resource's id as the marker starts the
      page just after that resource. */
  lemma MarkerStart<T>(rs: seq<T>, idOf: T -> string, k: nat)
    requires DistinctIds(rs, idOf) && NonEmptyIds(rs, idOf) && k < |rs|
    ensures PageStart(rs, idOf, Some(idOf(rs[k]))) == Some(k + 1)
  {
    var ids := Ids(rs, idOf);
    assert ids[k] == idOf(rs[k]);
    var found := FirstIndex(ids, idOf(rs[k]));
    assert found.Some?;
  }

  /** The page `_paginate_response` returns for one marker. */
  lemma PaginateAt<T>(rs: seq<T>, idOf: T -> string, maxRecords: Option<int>, m: Option<string>)
    requires DistinctIds(rs, idOf) && NonEmptyIds(rs, idOf)
    requires MinRecords <= maxRecords.GetOr(MaxRecords) <= MaxRecords
    requires PageStart(rs, idOf, m).Some?
    ensures PageAt(m => Paginate(rs, idOf, m, maxRecords), m => PageStart(rs, idOf, m), rs, maxRecords.GetOr(MaxRecords), m, PageStart(rs, idOf, m).value)
  {
    var st := PageStart(rs, idOf, m).value;
    var size := maxRecords.GetOr(MaxRecords);
    var pager := m => Paginate(rs, idOf, m, maxRecords);
    var startOf := m => PageStart(rs, idOf, m);
    assert pager(m) == Paginate(rs, idOf, m, maxRecords);
    if st + size < |rs| {
      PaginateFull(rs, idOf, m, maxRecords, st);
      var next := Some(idOf(rs[st + size - 1]));
      MarkerStart(rs, idOf, st + size - 1);
      assert startOf(next) == Some(st + size);
      assert PageAt(pager, startOf, rs, size, m, st);
    } else {
      PaginateLast(rs, idOf, m, maxRecords, st);
      assert PageAt(pager, startOf, rs, size, m, st);
    }
  }

  /** `_paginate_response` is such a pager, with `PageStart` saying where each
      marker starts. */
  lemma PaginatePages<T>(rs: seq<T>, idOf: T -> string, maxRecords: Option<int>)
    requires DistinctIds(rs, idOf) && NonEmptyIds(rs, idOf)
    requires MinRecords <= maxRecords.GetOr(MaxRecords) <= MaxRecords
    ensures PagesThrough(m => Paginate(rs, idOf, m, maxRecords), m => PageStart(rs, idOf, m), rs, maxRecords.GetOr(MaxRecords))
  {
    forall m | PageStart(rs, idOf, m).Some?
      ensures PageAt(m => Paginate(rs, idOf, m, maxRecords), m => PageStart(rs, idOf, m), rs, maxRecords.GetOr(MaxRecords), m, PageStart(rs, idOf, m).value)
    {
      PaginateAt(rs, idOf, maxRecords, m);
    }
  }

  /** With distinct, non-empty ids, following the markers from the first
      page returns every resource exactly once, in order. */
  lemma WalkAll<T>(rs: seq<T>, idOf: T -> string, maxRecords: Option<int>)
    requires DistinctIds(rs, idOf) && NonEmptyIds(rs, idOf)
    requires MinRecords <= maxRecords.GetOr(MaxRecords) <= MaxRecords
    ensures Walk(rs, idOf, None, maxRecords, |rs|) == Success(rs)
  {
    PaginatePages(rs, idOf, maxRecords);
    FollowCovers(m => Paginate(rs, idOf, m, maxRecords), m => PageStart(rs, idOf, m), rs, maxRecords.GetOr(MaxRecords), None, |rs|, 0);
  }

  /** 21 resources at 20 per page: a full page with a marker, then the one
      left over. */
  lemma TwentyOneAtTwenty<T>(rs: seq<T>, idOf: T -> string)
    requires |rs| == 21 && DistinctIds(rs, idOf) && NonEmptyIds(rs, idOf)
    ensures Paginate(rs, idOf, None, Some(20)) == Success(Page(rs[..20], Some(idOf(rs[19]))))
    ensures Paginate(rs, idOf, Some(idOf(rs[19])), Some(20)) == Success(Page(rs[20..], None))
  {
    PaginateSpec(rs, idOf, None, Some(20));
    NextPageStart(rs, idOf, None, Some(20));
    PaginateSpec(rs, idOf, Some(idOf(rs[19])), Some(20));
  }

  /** What `call_action` hands to the serializer. */
  datatype ResultDict<T> = ResultOk(result: seq<T>, marker: Option<string>) | ResultError(error: string)

  /** `call_action` after the backend call: an `RDSError` (raised by the
      backend or by pagination) becomes an error result with the exception's
      status, 400 by default; any other exception propagates; success is 200.
      Pagination runs only for operations that can paginate. */
  function CallAction<T>(outcome: Result<seq<T>, string>, canPaginate: bool, idOf: T -> string,
                         marker: Option<string>, maxRecords: Option<int>,
                         isRdsError: string -> bool, statusOf: string -> Option<int>): (r: Result<(int, ResultDict<T>), string>)
    ensures outcome.Success? && !canPaginate ==> r == Success((200, ResultOk(outcome.value, None)))
    ensures outcome.Success? && canPaginate && Paginate(outcome.value, idOf, marker, maxRecords).Success? ==>
      var p := Paginate(outcome.value, idOf, marker, maxRecords).value;
      r == Success((200, ResultOk(p.items, if Given(p.nextMarker) then p.nextMarker else None)))
    ensures r.Success? && r.value.1.ResultError? ==> r.value.0 == statusOf(r.value.1.error).GetOr(400) && isRdsError(r.value.1.error)
    ensures r.Failure? ==> !isRdsError(r.error)
    ensures outcome.Failure? ==> (isRdsError(outcome.error) <==> r.Success?)
    ensures outcome.Failure? ==> r == ErrorAnswer(outcome.error, isRdsError, statusOf)
    ensures outcome.Success? && canPaginate && Paginate(outcome.value, idOf, marker, maxRecords).Failure? ==>
      r == ErrorAnswer(Paginate(outcome.value, idOf, marker, maxRecords).error, isRdsError, statusOf)
  {
    var paged: Result<(seq<T>, Option<string>), string> :=
      match outcome
      case Failure(e) => Failure(e)
      case Success(v) =>
        if canPaginate then
          match Paginate(v, idOf, marker, maxRecords)
          case Failure(e) => Failure(e)
          case Success(p) => Success((p.items, p.nextMarker))
        else Success((v, None));
    match paged
    case Success((items, m)) => Success((200, ResultOk(items, if Given(m) then m else None)))
    case Failure(e) => ErrorAnswer(e, isRdsError, statusOf)
  }

  /** How `call_action` answers an exception: an `RDSError` becomes an error
      result carrying it, with its status or 400; anything else propagates. */
  function ErrorAnswer<T>(e: string, isRdsError: string -> bool, statusOf: string -> Option<int>): (r: Result<(int, ResultDict<T>), string>)
    ensures isRdsError(e) <==> r.Success?
    ensures r.Success? ==> r.value == (statusOf(e).GetOr(400), ResultError(e))
    ensures r.Failure? ==> r.error == e
  {
    if isRdsError(e) then Success((statusOf(e).GetOr(400), ResultError(e)))
    else Failure(e)
  }
}
