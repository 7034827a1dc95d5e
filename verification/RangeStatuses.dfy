/** Which HTTP answers may be written as a byte range (sections 4.1 and 4.2 of RFC 7233). */
module RangeStatuses {
  import opened Wrappers

  datatype RangeSpec = Open(start: nat) | Closed(start: nat, end: nat)

  datatype ContentRange = ContentRange(start: nat, end: nat, total: Option<nat>)

  /** Status code, and the `Content-Range` header when it parses. */
  datatype Response = Response(status: nat, contentRange: Option<ContentRange>)

  datatype RangeStatus =
    | OkFromZero
    | Partial(start: nat, end: nat, total: Option<nat>)
    | FullEntityWhenRangeRequested
    | RangeNotSatisfiable(at: nat)
    | AuthDenied(status: nat)
    | RedirectWhenPinned
    | Other(status: nat, retryable: bool)

  datatype SegmentError =
    | UnexpectedRedirect
    | AccessDenied
    | RejectedAt(at: nat)
    | RangeIgnored
    | MissingContentRange
    | HttpFailure(status: nat, mayRetry: bool)
    | WrongRange
    | SizeChanged(remote: nat, expected: nat)
  {
    predicate Retryable() { UnexpectedRedirect? || MissingContentRange? || (HttpFailure? && mayRetry) }
  }

  predicate ShouldRetryStatus(status: nat) {
    status in {408, 429, 421, 502, 503, 504} || 500 <= status < 600
  }

  /** Only a 206 that names its range counts as a part, and only an unranged request from byte 0
      may take an answer for the whole entity. */
  function ClassifyRangeStatus(r: Response, range: RangeSpec): (s: RangeStatus)
    ensures s.Partial? <==> r.status == 206 && r.contentRange.Some?
    ensures s.Partial? ==> ContentRange(s.start, s.end, s.total) == r.contentRange.value
    ensures s.OkFromZero? <==> range == Open(0) && 200 <= r.status < 300 && (r.status == 206 ==> r.contentRange.None?)
    ensures s.FullEntityWhenRangeRequested? <==> r.status == 200 && range != Open(0)
    ensures s.RedirectWhenPinned? <==> 300 <= r.status < 400
    ensures s.RangeNotSatisfiable? <==> r.status == 416 && range.start > 0
    ensures s.RangeNotSatisfiable? ==> s.at == range.start
    ensures s.AuthDenied? <==> r.status in {401, 403}
    ensures s.AuthDenied? || s.Other? ==> s.status == r.status
    ensures s.Other? ==> (s.retryable <==> r.status in {408, 421, 429} || 500 <= r.status < 600)
  {
    var ranged := range.Closed? || range.start > 0;
    if 300 <= r.status < 400 then RedirectWhenPinned
    else if r.status == 416 && range.start > 0 then RangeNotSatisfiable(range.start)
    else if r.status == 401 || r.status == 403 then AuthDenied(r.status)
    else if r.status == 200 && ranged then FullEntityWhenRangeRequested
    else if r.status == 206 then
      match r.contentRange
      case Some(c) => Partial(c.start, c.end, c.total)
      case None => if ranged then Other(r.status, false) else OkFromZero
    else if 200 <= r.status < 300 && !ranged then OkFromZero
    else Other(r.status, ShouldRetryStatus(r.status))
  }

  function SizeMismatch(total: Option<nat>, expected: Option<nat>): Option<(nat, nat)> {
    if total.Some? && expected.Some? && total != expected then Some((total.value, expected.value)) else None
  }

  /** `None` when the body may be written at `start`. */
  function ClassifySegmentStatus(status: RangeStatus, start: nat, end: nat, expected: Option<nat>)
    : Option<SegmentError>
  {
    match status
    case RedirectWhenPinned => Some(UnexpectedRedirect)
    case AuthDenied(_) => Some(AccessDenied)
    case RangeNotSatisfiable(at) => Some(RejectedAt(at))
    case FullEntityWhenRangeRequested => Some(RangeIgnored)
    case Other(code, retryable) => Some(if code == 206 then MissingContentRange else HttpFailure(code, retryable))
    case OkFromZero => Some(RangeIgnored)
    case Partial(s, e, total) =>
      if !(s == start && start <= e <= end) then Some(WrongRange)
      else
        match SizeMismatch(total, expected)
        case Some((remote, wanted)) => Some(SizeChanged(remote, wanted))
        case None => None
  }

  /** The answer to a request for the closed slice `[start, end]`. It is written
      exactly when it is a 206 that names a nonempty front part of the slice and
      does not contradict the known size. The slice is asked for again only after
      an answer that proves nothing about the remote bytes: a redirect, a 206
      without a range, or a transient status. */
  function ClassifySlice(r: Response, start: nat, end: nat, expected: Option<nat>): (e: Option<SegmentError>)
    ensures e.None? <==>
            && r.status == 206 && r.contentRange.Some?
            && r.contentRange.value.start == start && start <= r.contentRange.value.end <= end
            && (expected.None? || r.contentRange.value.total.None? || r.contentRange.value.total == expected)
    ensures e.Some? && e.value.Retryable() <==>
            || 300 <= r.status < 400
            || (r.status == 206 && r.contentRange.None?)
            || ShouldRetryStatus(r.status)
  {
    ClassifySegmentStatus(ClassifyRangeStatus(r, Closed(start, end)), start, end, expected)
  }

  /** `closed_slice_matches` is documented as demanding exactly this slice, but
      it also accepts a shorter front part. What it accepts is the exact slice
      if and only if the answer reaches the slice's end. */
  predicate ClosedSliceMatches(r: Response, start: nat, end: nat): (ok: bool)
    ensures ok && r.contentRange.Some? && r.contentRange.value.end >= end <==>
            && r.status == 206 && start <= end
            && exists total :: r.contentRange == Some(ContentRange(start, end, total))
    ensures start < end && r == Response(206, Some(ContentRange(start, end - 1, None))) ==> ok
  {
    ClassifySlice(r, start, end, None).None?
  }

  /** A 206 that names the whole slice. */
  predicate NamesSlice(r: Response, start: nat, end: nat) {
    && r.status == 206 && start <= end
    && r.contentRange.Some? && r.contentRange.value.start == start && r.contentRange.value.end == end
  }

  /** For every answer it is the documented test exactly when at most one byte is asked for, and both
      callers ask for one byte. */
  lemma ExactForOneByteIff(start: nat, end: nat)
    ensures (forall r :: ClosedSliceMatches(r, start, end) <==> NamesSlice(r, start, end)) <==> start >= end
  {
    if start >= end {
      forall r ensures ClosedSliceMatches(r, start, end) <==> NamesSlice(r, start, end) {
      }
    } else {
      var short := Response(206, Some(ContentRange(start, end - 1, None)));
      assert ClosedSliceMatches(short, start, end) && !NamesSlice(short, start, end);
    }
  }
}
