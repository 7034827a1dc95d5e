/** Pulling `http` and `https` addresses out of pasted text. Whether a candidate
    parses as a URL is a parameter of every function here. */
module UrlScanner {
  import opened Text
  import opened Wrappers

  const HTTPS := "https://"
  const HTTP := "http://"

  predicate IsTrailing(c: char) { c in ".,;)]\"'" }

  function TrimTrailing(s: string): string {
    if s != "" && IsTrailing(s[|s| - 1]) then TrimTrailing(s[..|s| - 1]) else s
  }

  function Find(s: string, pattern: string): Option<nat>
    requires pattern != ""
  {
    if s == "" then None
    else if pattern <= s then Some(0)
    else
      match Find(s[1..], pattern)
      case None => None
      case Some(i) => Some(i + 1)
  }

  function FindSpace(s: string): Option<nat> {
    if s == "" then None
    else if IsSpace(s[0]) then Some(0)
    else
      match FindSpace(s[1..])
      case None => None
      case Some(i) => Some(i + 1)
  }

  function Earlier(a: Option<nat>, b: Option<nat>): Option<nat> {
    match (a, b)
    case (Some(x), Some(y)) => Some(if x <= y then x else y)
    case (Some(_), None) => a
    case (None, _) => b
  }

  /** The first place where either scheme starts. */
  function NextScheme(s: string): Option<nat> { Earlier(Find(s, HTTPS), Find(s, HTTP)) }

  predicate SchemeAt(s: string, i: nat) { i <= |s| && (HTTPS <= s[i..] || HTTP <= s[i..]) }

  lemma {:induction false} FindFirst(s: string, pattern: string)
    requires pattern != ""
    ensures var f := Find(s, pattern);
            && (f.Some? ==> f.value < |s| && pattern <= s[f.value..])
            && (forall i :: 0 <= i <= |s| && pattern <= s[i..] ==> f.Some? && f.value <= i)
  {
    if s != "" && !(pattern <= s) {
      FindFirst(s[1..], pattern);
      forall i | 0 <= i <= |s| && pattern <= s[i..] ensures Find(s, pattern).Some? && Find(s, pattern).value <= i {
        assert s[1..][i - 1..] == s[i..];
      }
      var f := Find(s[1..], pattern);
      assert f.Some? ==> s[1..][f.value..] == s[f.value + 1..];
    }
  }

  lemma SchemeIsFirst(s: string)
    ensures var f := NextScheme(s);
            && (f.Some? ==> f.value < |s| && SchemeAt(s, f.value))
            && (forall i :: SchemeAt(s, i) ==> f.Some? && f.value <= i)
  {
    FindFirst(s, HTTPS);
    FindFirst(s, HTTP);
  }

  lemma {:induction false} SpaceIsFirst(s: string)
    ensures var f := FindSpace(s);
            && (f.Some? ==> f.value < |s| && IsSpace(s[f.value]))
            && (forall i :: 0 <= i < |s| && IsSpace(s[i]) ==> f.Some? && f.value <= i)
  {
    if s != "" && !IsSpace(s[0]) {
      SpaceIsFirst(s[1..]);
    }
  }

  /** Where the address that starts `rest` ends: at the next scheme or at white space before it. */
  function EndOf(rest: string): (end: nat)
    requires SchemeAt(rest, 0)
    ensures 0 < end <= |rest|
  {
    var after := if HTTPS <= rest then 8 else 7;
    SchemeIsFirst(rest[after..]);
    match NextScheme(rest[after..])
    case Some(i) =>
      var front := rest[..i + after];
      SpaceIsFirst(front);
      (match FindSpace(front) case Some(k) => k case None => i + after)
    case None =>
      SpaceIsFirst(rest);
      match FindSpace(rest) case Some(k) => k case None => |rest|
  }

  function Candidate(rest: string): string
    requires SchemeAt(rest, 0)
  { TrimTrailing(Trim(rest[..EndOf(rest)])) }

  predicate Kept(candidate: string, last: Option<string>, valid: string -> bool) {
    SchemeAt(candidate, 0) && valid(candidate) && last != Some(candidate)
  }

  /** The addresses found from here on, when `last` is the latest one kept. */
  function Scan(text: string, last: Option<string>, valid: string -> bool): seq<string>
    decreases |text|
  {
    SchemeIsFirst(text);
    match NextScheme(text)
    case None => []
    case Some(start) =>
      var rest := text[start..];
      assert rest[0..] == rest;
      var candidate := Candidate(rest);
      var next := TrimStart(rest[EndOf(rest)..]);
      if Kept(candidate, last, valid) then [candidate] + Scan(next, Some(candidate), valid) else Scan(next, last, valid)
  }

  function Extract(raw: string, valid: string -> bool): seq<string> { Scan(Trim(raw), None, valid) }

  function LastOf(urls: seq<string>): Option<string> { if urls == [] then None else Some(urls[|urls| - 1]) }

  /** One round of the loop: the next candidate and the text after it. */
  method NextCandidate(text: string) returns (candidate: Option<string>, rest: string)
    ensures candidate.Some? <==> NextScheme(text).Some?
    ensures NextScheme(text).Some? ==>
              && NextScheme(text).value <= |text| && SchemeAt(text[NextScheme(text).value..], 0)
              && var from := text[NextScheme(text).value..];
                 candidate == Some(Candidate(from)) && rest == TrimStart(from[EndOf(from)..]) && |rest| < |text|
  {
    SchemeIsFirst(text);
    var start := NextScheme(text);
    if start.None? {
      return None, text;
    }
    rest := text[start.value..];
    assert rest[0..] == rest;
    var end := EndOf(rest);
    candidate := Some(TrimTrailing(Trim(rest[..end])));
    rest := TrimStart(rest[end..]);
  }

  lemma ScanUnfolds(text: string, last: Option<string>, valid: string -> bool, from: string)
    requires NextScheme(text).Some? && NextScheme(text).value <= |text| && from == text[NextScheme(text).value..]
    requires SchemeAt(from, 0)
    ensures var next := TrimStart(from[EndOf(from)..]);
            Scan(text, last, valid) ==
            if Kept(Candidate(from), last, valid) then [Candidate(from)] + Scan(next, Some(Candidate(from)), valid)
            else Scan(next, last, valid)
  {
  }

  function Push(urls: seq<string>, candidate: string, valid: string -> bool): seq<string> {
    if Kept(candidate, LastOf(urls), valid) then urls + [candidate] else urls
  }

  lemma PushThenRest(urls: seq<string>, candidate: string, kept: bool, rest: seq<string>)
    ensures urls + (if kept then [candidate] + rest else rest) == (if kept then urls + [candidate] else urls) + rest
  {
  }

  lemma PushKeepsResult(urls: seq<string>, text: string, valid: string -> bool, from: string)
    requires NextScheme(text).Some? && NextScheme(text).value <= |text| && from == text[NextScheme(text).value..]
    requires SchemeAt(from, 0)
    ensures var after := Push(urls, Candidate(from), valid);
            urls + Scan(text, LastOf(urls), valid) == after + Scan(TrimStart(from[EndOf(from)..]), LastOf(after), valid)
  {
    var after := Push(urls, Candidate(from), valid);
    PushThenRest(urls, Candidate(from), Kept(Candidate(from), LastOf(urls), valid),
                 Scan(TrimStart(from[EndOf(from)..]), LastOf(after), valid));
    ScanUnfolds(text, LastOf(urls), valid, from);
  }

  lemma NothingLeft(text: string, last: Option<string>, valid: string -> bool)
    requires text == "" || NextScheme(text).None?
    ensures Scan(text, last, valid) == []
  {
  }

  /** `extract_http_urls`. */
  method ExtractHttpUrls(raw: string, valid: string -> bool) returns (urls: seq<string>)
    ensures urls == Extract(raw, valid)
  {
    urls := [];
    var text := Trim(raw);
    ghost var all := Scan(text, None, valid);
    while text != ""
      invariant all == urls + Scan(text, LastOf(urls), valid)
      decreases |text|
    {
      var candidate, rest := NextCandidate(text);
      if candidate.None? {
        break;
      }
      PushKeepsResult(urls, text, valid, text[NextScheme(text).value..]);
      var u := candidate.value;
      if SchemeAt(u, 0) && valid(u) {
        if LastOf(urls) != Some(u) {
          urls := urls + [u];
        }
      }
      text := rest;
    }
    NothingLeft(text, LastOf(urls), valid);
  }

  // ----- What is found

  /** An address on its own: it starts with a scheme, has no second one, no white space and no trailing punctuation. */
  ghost predicate Clean(u: string) {
    && SchemeAt(u, 0)
    && (forall i :: 0 < i < |u| ==> !SchemeAt(u, i))
    && (forall i :: 0 <= i < |u| ==> !IsSpace(u[i]))
    && !IsTrailing(u[|u| - 1])
  }

  lemma NoSpaceNoTrim(s: string)
    requires forall i :: 0 <= i < |s| ==> !IsSpace(s[i])
    ensures Trim(s) == s && TrimStart(s) == s
  {
  }

  lemma {:induction false} TrimTrailingIsPrefix(s: string)
    ensures TrimTrailing(s) <= s
    ensures TrimTrailing(s) != "" ==> !IsTrailing(TrimTrailing(s)[|TrimTrailing(s)| - 1])
  {
    if s != "" && IsTrailing(s[|s| - 1]) {
      TrimTrailingIsPrefix(s[..|s| - 1]);
    }
  }

  lemma FrontHasNoSpace(rest: string)
    requires SchemeAt(rest, 0)
    ensures forall i :: 0 <= i < EndOf(rest) ==> !IsSpace(rest[i])
  {
    var after := if HTTPS <= rest then 8 else 7;
    SchemeIsFirst(rest[after..]);
    var later := NextScheme(rest[after..]);
    var seen := if later.Some? then rest[..later.value + after] else rest;
    SpaceIsFirst(seen);
    assert forall i :: 0 <= i < |seen| ==> seen[i] == rest[i];
  }

  lemma SchemesDoNotOverlap(rest: string, i: nat)
    requires SchemeAt(rest, 0) && 0 < i && SchemeAt(rest, i)
    ensures i >= if HTTPS <= rest then 8 else 7
  {
    assert rest[0..] == rest;
    assert rest[i..][0] == rest[i] == 'h';
  }

  lemma SecondSchemeIsPastFront(rest: string, i: nat)
    requires SchemeAt(rest, 0) && 0 < i && SchemeAt(rest, i)
    ensures i >= EndOf(rest)
  {
    var after := if HTTPS <= rest then 8 else 7;
    SchemesDoNotOverlap(rest, i);
    SecondSchemeIsSeen(rest, after, i);
    SpaceIsFirst(rest[..NextScheme(rest[after..]).value + after]);
  }

  lemma SecondSchemeIsSeen(rest: string, after: nat, i: nat)
    requires after <= i && SchemeAt(rest, i)
    ensures NextScheme(rest[after..]).Some? && NextScheme(rest[after..]).value + after <= i
  {
    var later := rest[after..];
    assert later[i - after..] == rest[i..];
    assert SchemeAt(later, i - after);
    SchemeIsFirst(later);
  }

  lemma NoSecondScheme(rest: string, u: string)
    requires SchemeAt(rest, 0) && u <= rest[..EndOf(rest)]
    ensures forall i :: 0 < i < |u| ==> !SchemeAt(u, i)
  {
    forall i | 0 < i < |u| ensures !SchemeAt(u, i) {
      if SchemeAt(u, i) {
        assert u[i..] <= rest[i..];
        SecondSchemeIsPastFront(rest, i);
      }
    }
  }

  lemma CandidateIsFront(rest: string)
    requires SchemeAt(rest, 0)
    ensures Candidate(rest) <= rest[..EndOf(rest)]
    ensures Candidate(rest) != "" ==> !IsTrailing(Candidate(rest)[|Candidate(rest)| - 1])
    ensures forall i :: 0 <= i < |Candidate(rest)| ==> !IsSpace(Candidate(rest)[i])
  {
    var front := rest[..EndOf(rest)];
    FrontHasNoSpace(rest);
    NoSpaceNoTrim(front);
    TrimTrailingIsPrefix(front);
  }

  lemma CandidateIsClean(rest: string)
    requires SchemeAt(rest, 0)
    ensures Candidate(rest) <= rest[..EndOf(rest)]
    ensures SchemeAt(Candidate(rest), 0) ==> Clean(Candidate(rest))
  {
    CandidateIsFront(rest);
    NoSecondScheme(rest, Candidate(rest));
  }

  /** One round: the candidate is `text[a..b]`, and the scan goes on at `c`. */
  lemma ScanRound(text: string, last: Option<string>, valid: string -> bool) returns (a: nat, b: nat, c: nat)
    requires NextScheme(text).Some?
    ensures a <= b <= c <= |text| && a < c
    ensures SchemeAt(text[a..b], 0) ==> Clean(text[a..b])
    ensures Scan(text, last, valid) ==
            if Kept(text[a..b], last, valid) then [text[a..b]] + Scan(text[c..], Some(text[a..b]), valid)
            else Scan(text[c..], last, valid)
  {
    SchemeIsFirst(text);
    a := NextScheme(text).value;
    var rest := text[a..];
    assert rest[0..] == rest;
    CandidateIsClean(rest);
    b, c := CutPoints(text, a);
    ScanUnfolds(text, last, valid, rest);
  }

  /** The candidate that starts at `a` is `text[a..b]`, and what is left of the text starts at `c`. */
  lemma CutPoints(text: string, a: nat) returns (b: nat, c: nat)
    requires a <= |text| && SchemeAt(text[a..], 0)
    ensures a <= b <= c <= |text| && a < c
    ensures text[a..b] == Candidate(text[a..]) && text[c..] == TrimStart(text[a..][EndOf(text[a..])..])
  {
    var rest := text[a..];
    CandidateIsClean(rest);
    var end := EndOf(rest);
    b := a + |Candidate(rest)|;
    c := a + end + Leading(rest[end..]);
    assert text[a..b] == rest[..|Candidate(rest)|];
    assert text[c..] == rest[end..][Leading(rest[end..])..];
  }

  ghost predicate Found(urls: seq<string>, last: Option<string>, valid: string -> bool) {
    && (forall i :: 0 <= i < |urls| ==> Clean(urls[i]) && valid(urls[i]))
    && (forall i :: 0 < i < |urls| ==> urls[i - 1] != urls[i])
    && (urls != [] ==> last != Some(urls[0]))
  }

  lemma FoundOneMore(u: string, more: seq<string>, last: Option<string>, valid: string -> bool)
    requires Clean(u) && valid(u) && last != Some(u) && Found(more, Some(u), valid)
    ensures Found([u] + more, last, valid)
  {
  }

  /** Everything found is clean and valid, and no two neighbours are equal. */
  lemma {:induction false} FoundAreClean(text: string, last: Option<string>, valid: string -> bool)
    ensures Found(Scan(text, last, valid), last, valid)
    decreases |text|
  {
    if NextScheme(text).Some? {
      var a, b, c := ScanRound(text, last, valid);
      if Kept(text[a..b], last, valid) {
        FoundAreClean(text[c..], Some(text[a..b]), valid);
        FoundOneMore(text[a..b], Scan(text[c..], Some(text[a..b]), valid), last, valid);
      } else {
        FoundAreClean(text[c..], last, valid);
      }
    } else {
      NothingLeft(text, last, valid);
    }
  }

  /** The addresses are pieces of the text, in order and without overlap. */
  ghost predicate PiecesInOrder(text: string, urls: seq<string>)
    decreases |urls|
  {
    urls == []
    || exists a: nat, b: nat ::
         a <= b <= |text| && text[a..b] == urls[0] && PiecesInOrder(text[b..], urls[1..])
  }

  lemma PiecesInLonger(text: string, k: nat, urls: seq<string>)
    requires k <= |text| && PiecesInOrder(text[k..], urls)
    ensures PiecesInOrder(text, urls)
  {
    if urls != [] {
      var a: nat, b: nat :| a <= b <= |text[k..]| && text[k..][a..b] == urls[0]
                            && PiecesInOrder(text[k..][b..], urls[1..]);
      assert text[k + a..k + b] == urls[0];
      assert text[k..][b..] == text[k + b..];
      assert k + a <= k + b <= |text| && text[k + a..k + b] == urls[0] && PiecesInOrder(text[k + b..], urls[1..]);
    }
  }

  lemma PieceThenMore(text: string, a: nat, b: nat, c: nat, more: seq<string>)
    requires a <= b <= c <= |text| && PiecesInOrder(text[c..], more)
    ensures PiecesInOrder(text, [text[a..b]] + more)
  {
    assert text[b..][c - b..] == text[c..];
    PiecesInLonger(text[b..], c - b, more);
    assert ([text[a..b]] + more)[1..] == more;
  }

  lemma {:induction false} FoundInOrder(text: string, last: Option<string>, valid: string -> bool)
    ensures PiecesInOrder(text, Scan(text, last, valid))
    decreases |text|
  {
    if NextScheme(text).Some? {
      var a, b, c := ScanRound(text, last, valid);
      if Kept(text[a..b], last, valid) {
        FoundInOrder(text[c..], Some(text[a..b]), valid);
        PieceThenMore(text, a, b, c, Scan(text[c..], Some(text[a..b]), valid));
      } else {
        FoundInOrder(text[c..], last, valid);
        PiecesInLonger(text, c, Scan(text[c..], last, valid));
      }
    }
  }

  // ----- Round trip

  function JoinLines(urls: seq<string>): string {
    if urls == [] then "" else if |urls| == 1 then urls[0] else urls[0] + "\n" + JoinLines(urls[1..])
  }

  lemma NoSchemeAcross(u: string, tail: string, i: nat)
    requires Clean(u) && 0 < i && SchemeAt(u + tail, i)
    requires tail != "" ==> tail[0] == '\n'
    ensures i > |u|
  {
    var text := u + tail;
    var n := if HTTPS <= text[i..] then 8 else 7;
    assert forall p :: i <= p < i + n ==> text[p] == text[i..][p - i] != '\n';
    if i <= |u| {
      assert |u| < |text| ==> text[|u|] == '\n';
      assert u[i..] == text[i..][..|u| - i];
      assert SchemeAt(u, i);
    }
  }

  lemma SchemeFits(u: string, text: string)
    requires SchemeAt(u, 0) && u <= text
    ensures SchemeAt(text, 0) && (if HTTPS <= text then 8 else 7) <= |u|
  {
    assert u[0..] == u && text[0..] == text;
    assert HTTP <= u ==> text[4] == ':';
  }

  lemma EndAtSpace(text: string, k: nat)
    requires SchemeAt(text, 0)
    requires var after := if HTTPS <= text then 8 else 7;
             match NextScheme(text[after..])
             case Some(i) => i + after <= |text| && FindSpace(text[..i + after]) == Some(k)
             case None => FindSpace(text) == Some(k) || (FindSpace(text).None? && k == |text|)
    ensures EndOf(text) == k
  {
  }

  lemma LineBreakIsBefore(u: string, tail: string, i: nat)
    requires |u| < i <= |u + tail| && tail[0] == '\n'
    ensures u + "\n" <= (u + tail)[..i]
  {
    assert (u + tail)[..i][..|u| + 1] == u + [tail[0]];
  }

  /** Any scheme found after the one that starts `u` lies past the line break. */
  lemma LaterSchemeIsPast(u: string, tail: string, after: nat)
    requires Clean(u) && 0 < after <= |u|
    requires tail != "" ==> tail[0] == '\n'
    ensures var later := NextScheme((u + tail)[after..]);
            later.Some? ==> later.value + after <= |u + tail| && u + "\n" <= (u + tail)[..later.value + after]
  {
    var rest := (u + tail)[after..];
    SchemeIsFirst(rest);
    var later := NextScheme(rest);
    if later.Some? {
      var i := later.value + after;
      assert rest[later.value..] == (u + tail)[i..];
      NoSchemeAcross(u, tail, i);
      LineBreakIsBefore(u, tail, i);
    }
  }

  lemma UrlIsTheFront(u: string, tail: string, after: nat)
    requires SchemeAt(u, 0) && forall i :: 0 <= i < |u| ==> !IsSpace(u[i])
    requires tail != "" ==> tail[0] == '\n'
    requires SchemeAt(u + tail, 0) && after == if HTTPS <= u + tail then 8 else 7
    requires var later := NextScheme((u + tail)[after..]);
             later.Some? ==> later.value + after <= |u + tail| && u + "\n" <= (u + tail)[..later.value + after]
    ensures EndOf(u + tail) == |u|
  {
    var text := u + tail;
    var later := NextScheme(text[after..]);
    if later.Some? {
      FirstSpaceEndsIt(u, text[..later.value + after]);
    } else if tail != "" {
      FirstSpaceEndsIt(u, text);
    } else {
      SpaceIsFirst(text);
    }
    EndAtSpace(text, |u|);
  }

  lemma CleanUrlIsTheFront(u: string, tail: string)
    requires Clean(u)
    requires tail != "" ==> tail[0] == '\n'
    ensures SchemeAt(u + tail, 0) && EndOf(u + tail) == |u|
  {
    SchemeFits(u, u + tail);
    var after := if HTTPS <= u + tail then 8 else 7;
    LaterSchemeIsPast(u, tail, after);
    UrlIsTheFront(u, tail, after);
  }

  lemma FirstSpaceEndsIt(u: string, text: string)
    requires u + "\n" <= text
    requires forall i :: 0 <= i < |u| ==> !IsSpace(u[i])
    ensures FindSpace(text) == Some(|u|)
  {
    SpaceIsFirst(text);
    assert text[|u|] == '\n';
  }

  lemma CleanUrlEndsItself(u: string, tail: string)
    requires Clean(u)
    requires tail != "" ==> tail[0] == '\n'
    ensures SchemeAt(u + tail, 0) && EndOf(u + tail) == |u| && Candidate(u + tail) == u
    ensures NextScheme(u + tail) == Some(0)
  {
    CleanUrlIsTheFront(u, tail);
    SchemeIsFirst(u + tail);
    assert (u + tail)[..|u|] == u;
    NoSpaceNoTrim(u);
  }

  lemma ScanHead(u: string, tail: string, last: Option<string>, valid: string -> bool)
    requires Clean(u) && valid(u) && last != Some(u)
    requires tail != "" ==> tail[0] == '\n'
    ensures Scan(u + tail, last, valid) == [u] + Scan(TrimStart(tail), Some(u), valid)
  {
    CleanUrlEndsItself(u, tail);
    assert (u + tail)[0..] == u + tail && (u + tail)[|u|..] == tail && u[0..] == u;
  }

  lemma NewlineDrops(more: string)
    requires more != "" && !IsSpace(more[0])
    ensures TrimStart("\n" + more) == more
  {
    assert ("\n" + more)[1..] == more;
    assert Leading(more) == 0;
    assert Leading("\n" + more) == 1;
  }

  lemma {:induction false} ScanOfJoined(urls: seq<string>, last: Option<string>, valid: string -> bool)
    requires forall i :: 0 <= i < |urls| ==> Clean(urls[i]) && valid(urls[i])
    requires forall i :: 0 < i < |urls| ==> urls[i - 1] != urls[i]
    requires urls != [] ==> last != Some(urls[0])
    ensures Scan(JoinLines(urls), last, valid) == urls
    decreases |urls|
  {
    if urls == [] {
      NothingLeft("", last, valid);
    } else {
      var u := urls[0];
      ScanOfJoined(urls[1..], Some(u), valid);
      ScanJoinedHead(u, urls[1..], last, valid);
      assert urls == [u] + urls[1..];
    }
  }

  lemma ScanJoinedHead(u: string, others: seq<string>, last: Option<string>, valid: string -> bool)
    requires Clean(u) && valid(u) && last != Some(u)
    requires forall i :: 0 <= i < |others| ==> Clean(others[i])
    ensures Scan(JoinLines([u] + others), last, valid) == [u] + Scan(JoinLines(others), Some(u), valid)
  {
    var more := JoinLines(others);
    var tail := if others == [] then "" else "\n" + more;
    assert ([u] + others)[1..] == others;
    assert JoinLines([u] + others) == u + tail;
    ScanHead(u, tail, last, valid);
    JoinedNeedsNoTrim(others);
    if others != [] {
      NewlineDrops(more);
    }
  }

  lemma {:induction false} JoinedNeedsNoTrim(urls: seq<string>)
    requires forall i :: 0 <= i < |urls| ==> Clean(urls[i])
    ensures Trim(JoinLines(urls)) == JoinLines(urls)
    ensures urls != [] ==> JoinLines(urls) != "" && !IsSpace(JoinLines(urls)[0])
                           && !IsSpace(JoinLines(urls)[|JoinLines(urls)| - 1])
  {
    if |urls| > 1 {
      JoinedNeedsNoTrim(urls[1..]);
    }
    if urls != [] {
      assert urls[0][0..] == urls[0];
    }
  }

  /** Extracting again from the addresses found, one a line, finds the same list. */
  lemma ExtractRoundTrip(raw: string, valid: string -> bool)
    ensures Extract(JoinLines(Extract(raw, valid)), valid) == Extract(raw, valid)
  {
    FoundAreClean(Trim(raw), None, valid);
    ScanOfJoined(Extract(raw, valid), None, valid);
    JoinedNeedsNoTrim(Extract(raw, valid));
  }

  lemma {:induction false} TrimIsAPiece(s: string)
    ensures exists a, b :: 0 <= a <= b <= |s| && Trim(s) == s[a..b]
  {
    var k := Leading(s);
    TrimEndIsPrefix(s[k..]);
    assert Trim(s) == s[k..k + |Trim(s)|];
  }

  lemma {:induction false} TrimEndIsPrefix(s: string)
    ensures TrimEnd(s) <= s
  {
    if s != "" && IsSpace(s[|s| - 1]) {
      TrimEndIsPrefix(s[..|s| - 1]);
    }
  }

  lemma PiecesInPrefix(text: string, k: nat, urls: seq<string>)
    requires k <= |text| && PiecesInOrder(text[..k], urls)
    ensures PiecesInOrder(text, urls)
    decreases |urls|
  {
    if urls != [] {
      var a: nat, b: nat :| a <= b <= |text[..k]| && text[..k][a..b] == urls[0]
                            && PiecesInOrder(text[..k][b..], urls[1..]);
      assert text[a..b] == urls[0];
      assert text[..k][b..] == text[b..][..k - b];
      PiecesInPrefix(text[b..], k - b, urls[1..]);
    }
  }

  lemma ExtractedInOrder(raw: string, valid: string -> bool)
    ensures PiecesInOrder(raw, Extract(raw, valid))
  {
    FoundInOrder(Trim(raw), None, valid);
    TrimIsAPiece(raw);
    var a, b :| 0 <= a <= b <= |raw| && Trim(raw) == raw[a..b];
    PiecesInPiece(raw, a, b, Extract(raw, valid));
  }

  lemma PiecesInPiece(text: string, a: nat, b: nat, urls: seq<string>)
    requires a <= b <= |text| && PiecesInOrder(text[a..b], urls)
    ensures PiecesInOrder(text, urls)
  {
    assert text[a..b] == text[a..][..b - a];
    PiecesInPrefix(text[a..], b - a, urls);
    PiecesInLonger(text, a, urls);
  }

  /** What is extracted from any text: clean, valid pieces of it, in order, without overlap or repeated neighbours. */
  lemma ExtractedArePieces(raw: string, valid: string -> bool)
    ensures var urls := Extract(raw, valid);
            && PiecesInOrder(raw, urls)
            && (forall i :: 0 <= i < |urls| ==> Clean(urls[i]) && valid(urls[i]))
            && (forall i :: 0 < i < |urls| ==> urls[i - 1] != urls[i])
  {
    FoundAreClean(Trim(raw), None, valid);
    ExtractedInOrder(raw, valid);
  }
}
