/** What is found in a text, said position by position: every place where a scheme starts gives one piece,
    and the scan lists the pieces that still are addresses, each once in a row. */
module UrlPieces {
  import opened Text
  import opened UrlScanner
  import opened Wrappers

  predicate IsMark(c: char) { c in {'.', ',', ';', ')', ']', '"', '\''} }

  /** The first place from `j` on where a piece must end: at white space, at a scheme, or with the text. */
  function PieceEnd(s: string, j: nat): (end: nat)
    requires j <= |s|
    ensures j <= end <= |s|
    decreases |s| - j
  {
    if j == |s| || IsSpace(s[j]) || SchemeAt(s, j) then j else PieceEnd(s, j + 1)
  }

  /** `s[i..m]` without the marks at its end. */
  function WithoutMarks(s: string, i: nat, m: nat): (r: nat)
    requires i <= m <= |s|
    ensures i <= r <= m
    decreases m
  {
    if i < m && IsMark(s[m - 1]) then WithoutMarks(s, i, m - 1) else m
  }

  function PieceOf(s: string, i: nat): string
    requires i < |s|
  { s[i..WithoutMarks(s, i, PieceEnd(s, i + 1))] }

  /** One piece for each place from `i` on where a scheme starts. */
  function PiecesFrom(s: string, i: nat): seq<string>
    requires i <= |s|
    decreases |s| - i
  {
    if i == |s| then []
    else if SchemeAt(s, i) then [PieceOf(s, i)] + PiecesFrom(s, i + 1)
    else PiecesFrom(s, i + 1)
  }

  predicate IsAddress(piece: string, valid: string -> bool) { (HTTPS <= piece || HTTP <= piece) && valid(piece) }

  /** The addresses among the pieces, without the ones that repeat the address right before them. */
  function Listed(pieces: seq<string>, last: Option<string>, valid: string -> bool): seq<string> {
    if pieces == [] then []
    else if IsAddress(pieces[0], valid) && last != Some(pieces[0])
    then [pieces[0]] + Listed(pieces[1..], Some(pieces[0]), valid)
    else Listed(pieces[1..], last, valid)
  }

  // ----- Moving along a text

  lemma SchemeInRest(s: string, c: nat, i: nat)
    requires c + i <= |s|
    ensures SchemeAt(s[c..], i) <==> SchemeAt(s, c + i)
  {
    assert s[c..][i..] == s[c + i..];
  }

  lemma {:induction false} PieceEndInRest(s: string, c: nat, j: nat)
    requires c + j <= |s|
    ensures PieceEnd(s[c..], j) + c == PieceEnd(s, c + j)
    decreases |s| - j
  {
    SchemeInRest(s, c, j);
    if c + j < |s| {
      PieceEndInRest(s, c, j + 1);
    }
  }

  lemma {:induction false} MarksInRest(s: string, c: nat, i: nat, m: nat)
    requires i <= m && c + m <= |s|
    ensures WithoutMarks(s[c..], i, m) + c == WithoutMarks(s, c + i, c + m)
    decreases m
  {
    if i < m {
      MarksInRest(s, c, i, m - 1);
    }
  }

  lemma PieceInRest(s: string, c: nat, i: nat)
    requires c + i < |s|
    ensures PieceOf(s[c..], i) == PieceOf(s, c + i)
  {
    PieceEndInRest(s, c, i + 1);
    MarksInRest(s, c, i, PieceEnd(s[c..], i + 1));
  }

  lemma {:induction false} PiecesInRest(s: string, c: nat, i: nat)
    requires c + i <= |s|
    ensures PiecesFrom(s[c..], i) == PiecesFrom(s, c + i)
    decreases |s| - i
  {
    if c + i < |s| {
      SchemeInRest(s, c, i);
      PieceInRest(s, c, i);
      PiecesInRest(s, c, i + 1);
    }
  }

  lemma {:induction false} NoSchemeNoPiece(s: string, i: nat, j: nat)
    requires i <= j <= |s| && forall k :: i <= k < j ==> !SchemeAt(s, k)
    ensures PiecesFrom(s, i) == PiecesFrom(s, j)
    decreases j - i
  {
    if i < j {
      NoSchemeNoPiece(s, i + 1, j);
    }
  }

  // ----- The scan finds them

  lemma {:induction false} PieceEndIsFirst(s: string, j: nat, end: nat)
    requires j <= end <= |s|
    requires forall k :: j <= k < end ==> !IsSpace(s[k]) && !SchemeAt(s, k)
    requires end == |s| || IsSpace(s[end]) || SchemeAt(s, end)
    ensures PieceEnd(s, j) == end
    decreases end - j
  {
    if j < end {
      PieceEndIsFirst(s, j + 1, end);
    }
  }

  /** What `EndOf` looks for in two steps is the first end of a piece. */
  lemma EndOfIsPieceEnd(rest: string)
    requires SchemeAt(rest, 0)
    ensures EndOf(rest) == PieceEnd(rest, 1)
  {
    var end := EndOf(rest);
    FrontHasNoSpace(rest);
    forall k | 1 <= k < end ensures !IsSpace(rest[k]) && !SchemeAt(rest, k) {
      if SchemeAt(rest, k) {
        SecondSchemeIsPastFront(rest, k);
      }
    }
    EndsThere(rest);
    PieceEndIsFirst(rest, 1, end);
  }

  lemma EndsThere(rest: string)
    requires SchemeAt(rest, 0)
    ensures var end := EndOf(rest); end == |rest| || IsSpace(rest[end]) || SchemeAt(rest, end)
  {
    var after := if HTTPS <= rest then 8 else 7;
    SchemeIsFirst(rest[after..]);
    match NextScheme(rest[after..])
    case Some(i) =>
      SpaceIsFirst(rest[..i + after]);
      SchemeInRest(rest, after, i);
    case None =>
      SpaceIsFirst(rest);
  }

  lemma {:induction false} TrimmedMarks(s: string, m: nat)
    requires m <= |s|
    ensures TrimTrailing(s[..m]) == s[..WithoutMarks(s, 0, m)]
    decreases m
  {
    if 0 < m && IsMark(s[m - 1]) {
      assert s[..m][..m - 1] == s[..m - 1];
      TrimmedMarks(s, m - 1);
    }
  }

  lemma CandidateIsPiece(rest: string)
    requires SchemeAt(rest, 0)
    ensures Candidate(rest) == PieceOf(rest, 0)
  {
    EndOfIsPieceEnd(rest);
    FrontHasNoSpace(rest);
    NoSpaceNoTrim(rest[..EndOf(rest)]);
    TrimmedMarks(rest, EndOf(rest));
  }

  /** Nothing between the end of one candidate and the rest of the text starts a scheme. */
  lemma {:induction false} OnlySpaceSkipped(s: string)
    ensures forall i :: 0 <= i < Leading(s) ==> !SchemeAt(s, i)
  {
    forall i | 0 <= i < Leading(s) ensures !SchemeAt(s, i) {
      LeadingAreSpaces(s, i);
      assert s[i..][0] == s[i];
    }
  }

  lemma {:induction false} LeadingAreSpaces(s: string, i: nat)
    requires i < Leading(s)
    ensures IsSpace(s[i])
  {
    if i > 0 {
      LeadingAreSpaces(s[1..], i - 1);
    }
  }

  /** Behind a scheme, nothing starts another one before the place where the scan goes on. */
  lemma NoSchemeSkipped(rest: string, skip: nat)
    requires SchemeAt(rest, 0) && skip == Leading(rest[EndOf(rest)..])
    ensures EndOf(rest) + skip <= |rest| && forall k :: 1 <= k < EndOf(rest) + skip ==> !SchemeAt(rest, k)
  {
    var end := EndOf(rest);
    OnlySpaceSkipped(rest[end..]);
    forall k | 1 <= k < end + skip ensures !SchemeAt(rest, k) {
      if k < end {
        if SchemeAt(rest, k) {
          SecondSchemeIsPastFront(rest, k);
        }
      } else {
        SchemeInRest(rest, end, k - end);
      }
    }
  }

  /** After the scheme at `start`, the next pieces are those of the text the scan goes on with. */
  lemma PiecesAfter(text: string, start: nat)
    requires start < |text| && SchemeAt(text, start)
    ensures SchemeAt(text[start..], 0)
    ensures var rest := text[start..]; var next := TrimStart(rest[EndOf(rest)..]);
            |next| < |text| && PiecesFrom(text, start + 1) == PiecesFrom(next, 0)
  {
    var rest := text[start..];
    assert rest[0..] == rest;
    PiecesInRest(text, start, 1);
    PiecesBehindScheme(rest);
  }

  lemma PiecesBehindScheme(rest: string)
    requires SchemeAt(rest, 0)
    ensures var next := TrimStart(rest[EndOf(rest)..]);
            |next| < |rest| && PiecesFrom(rest, 1) == PiecesFrom(next, 0)
  {
    var end := EndOf(rest);
    var skip := Leading(rest[end..]);
    NoSchemeSkipped(rest, skip);
    NoSchemeNoPiece(rest, 1, end + skip);
    PiecesInRest(rest, end + skip, 0);
    assert rest[end..][skip..] == rest[end + skip..];
  }

  lemma {:induction false} ScanListsPieces(text: string, last: Option<string>, valid: string -> bool)
    ensures Scan(text, last, valid) == Listed(PiecesFrom(text, 0), last, valid)
    decreases |text|
  {
    SchemeIsFirst(text);
    match NextScheme(text)
    case None =>
      NoSchemeNoPiece(text, 0, |text|);
    case Some(start) =>
      FirstPiece(text, start);
      var rest := text[start..];
      var next := TrimStart(rest[EndOf(rest)..]);
      ScanUnfolds(text, last, valid, rest);
      ScanListsPieces(next, last, valid);
      ScanListsPieces(next, Some(Candidate(rest)), valid);
      ListedUnfolds(Candidate(rest), PiecesFrom(next, 0), last, valid);
  }

  lemma FirstPiece(text: string, start: nat)
    requires start < |text| && SchemeAt(text, start) && forall i :: 0 <= i < start ==> !SchemeAt(text, i)
    ensures SchemeAt(text[start..], 0)
    ensures var rest := text[start..]; var next := TrimStart(rest[EndOf(rest)..]);
            |next| < |text| && PiecesFrom(text, 0) == [Candidate(rest)] + PiecesFrom(next, 0)
  {
    PiecesAfter(text, start);
    NoSchemeNoPiece(text, 0, start);
    CandidateIsPiece(text[start..]);
    PieceInRest(text, start, 0);
  }

  lemma ListedUnfolds(piece: string, more: seq<string>, last: Option<string>, valid: string -> bool)
    ensures Listed([piece] + more, last, valid) ==
            if Kept(piece, last, valid) then [piece] + Listed(more, Some(piece), valid) else Listed(more, last, valid)
  {
    assert ([piece] + more)[1..] == more;
    assert piece[0..] == piece;
  }

  // ----- Trimming loses nothing

  lemma {:induction false} PieceEndBeforeSpace(s: string, n: nat, j: nat)
    requires j <= n <= |s| && forall k :: n <= k < |s| ==> IsSpace(s[k])
    ensures PieceEnd(s[..n], j) == PieceEnd(s, j)
    decreases n - j
  {
    if j < n {
      SchemeBeforeSpace(s, n, j);
      PieceEndBeforeSpace(s, n, j + 1);
    }
  }

  /** A scheme is made of neither white space nor marks, and is there as long as the text reaches over it. */
  lemma SchemeSpan(s: string, i: nat) returns (n: nat)
    requires SchemeAt(s, i)
    ensures 0 < n && i + n <= |s| && forall k :: i <= k < i + n ==> !IsSpace(s[k]) && !IsMark(s[k])
    ensures forall c :: i + n <= c <= |s| ==> SchemeAt(s[..c], i)
  {
    var scheme := if HTTPS <= s[i..] then HTTPS else HTTP;
    n := |scheme|;
    forall k | i <= k < i + n ensures !IsSpace(s[k]) && !IsMark(s[k]) {
      assert s[k] == s[i..][k - i] == scheme[k - i];
    }
    forall c | i + n <= c <= |s| ensures SchemeAt(s[..c], i) {
      assert scheme <= s[..c][i..];
    }
  }

  lemma SchemeBeforeSpace(s: string, n: nat, i: nat)
    requires i <= n <= |s| && forall k :: n <= k < |s| ==> IsSpace(s[k])
    ensures SchemeAt(s[..n], i) <==> SchemeAt(s, i)
  {
    assert s[..n][i..] <= s[i..];
    assert n < |s| ==> IsSpace(s[n]);
    if SchemeAt(s, i) {
      var span := SchemeSpan(s, i);
    }
  }

  lemma {:induction false} MarksBeforeSpace(s: string, n: nat, i: nat, m: nat)
    requires i <= m <= n <= |s|
    ensures WithoutMarks(s[..n], i, m) == WithoutMarks(s, i, m)
    decreases m
  {
    if i < m {
      MarksBeforeSpace(s, n, i, m - 1);
    }
  }

  lemma {:induction false} PiecesBeforeSpace(s: string, n: nat, i: nat)
    requires i <= n <= |s| && forall k :: n <= k < |s| ==> IsSpace(s[k])
    ensures PiecesFrom(s[..n], i) == PiecesFrom(s, i)
    decreases n - i
  {
    SchemeBeforeSpace(s, n, i);
    if i < n {
      PieceBeforeSpace(s, n, i);
      PiecesBeforeSpace(s, n, i + 1);
    } else {
      forall k | n <= k < |s| ensures !SchemeAt(s, k) {
        assert s[k..][0] == s[k];
      }
      NoSchemeNoPiece(s, n, |s|);
    }
  }

  lemma PieceBeforeSpace(s: string, n: nat, i: nat)
    requires i < n <= |s| && forall k :: n <= k < |s| ==> IsSpace(s[k])
    ensures PieceOf(s[..n], i) == PieceOf(s, i)
  {
    PieceEndBeforeSpace(s, n, i + 1);
    var end := PieceEnd(s[..n], i + 1);
    MarksBeforeSpace(s, n, i, end);
    SliceOfFront(s, n, i, WithoutMarks(s, i, end));
  }

  lemma SliceOfFront(s: string, n: nat, i: nat, m: nat)
    requires i <= m <= n <= |s|
    ensures s[..n][i..m] == s[i..m]
  {
  }

  lemma {:induction false} TrimEndCutsSpace(s: string) returns (n: nat)
    ensures n <= |s| && TrimEnd(s) == s[..n] && forall k :: n <= k < |s| ==> IsSpace(s[k])
  {
    if s != "" && IsSpace(s[|s| - 1]) {
      n := TrimEndCutsSpace(s[..|s| - 1]);
      assert forall k :: n <= k < |s| - 1 ==> s[..|s| - 1][k] == s[k];
    } else {
      n := |s|;
    }
  }

  lemma TrimKeepsPieces(s: string)
    ensures PiecesFrom(Trim(s), 0) == PiecesFrom(s, 0)
  {
    var k := Leading(s);
    OnlySpaceSkipped(s);
    NoSchemeNoPiece(s, 0, k);
    PiecesInRest(s, k, 0);
    var n := TrimEndCutsSpace(s[k..]);
    PiecesBeforeSpace(s[k..], n, 0);
  }

  // ----- Main results

  /** The scan with its searches, cuts and trims lists, for every text, exactly the addresses among the
      pieces, in order, without the ones that repeat the address right before them. */
  lemma ExtractListsPieces(raw: string, valid: string -> bool)
    ensures Extract(raw, valid) == Listed(PiecesFrom(raw, 0), None, valid)
  {
    ScanListsPieces(Trim(raw), None, valid);
    TrimKeepsPieces(raw);
  }

  lemma {:induction false} PieceIsListed(pieces: seq<string>, k: nat, last: Option<string>, valid: string -> bool)
    requires k < |pieces| && IsAddress(pieces[k], valid)
    ensures pieces[k] in Listed(pieces, last, valid) || last == Some(pieces[k])
  {
    if k > 0 {
      var now := if IsAddress(pieces[0], valid) && last != Some(pieces[0]) then Some(pieces[0]) else last;
      PieceIsListed(pieces[1..], k - 1, now, valid);
    }
  }

  lemma {:induction false} PieceIsThere(s: string, i: nat, j: nat) returns (k: nat)
    requires i <= j < |s| && SchemeAt(s, j)
    ensures k < |PiecesFrom(s, i)| && PiecesFrom(s, i)[k] == PieceOf(s, j)
    decreases j - i
  {
    if i == j {
      k := 0;
    } else {
      k := PieceIsThere(s, i + 1, j);
      k := if SchemeAt(s, i) then k + 1 else k;
    }
  }

  /** Every address is found, wherever in the text its scheme starts. */
  lemma EveryAddressIsFound(raw: string, i: nat, valid: string -> bool)
    requires i < |raw| && SchemeAt(raw, i) && IsAddress(PieceOf(raw, i), valid)
    ensures PieceOf(raw, i) in Extract(raw, valid)
  {
    ExtractListsPieces(raw, valid);
    var k := PieceIsThere(raw, 0, i);
    PieceIsListed(PiecesFrom(raw, 0), k, None, valid);
  }

  /** A clean address in running text is found without the marks that follow it. */
  lemma AddressInText(before: string, u: string, marks: string, after: string, valid: string -> bool)
    requires Clean(u) && valid(u)
    requires forall k :: 0 <= k < |marks| ==> marks[k] in {'.', ',', ';', ')', ']', '"', '\''}
    requires after == "" || IsSpace(after[0])
    ensures u in Extract(before + (u + marks + after), valid)
  {
    var rest := u + marks + after;
    var raw := before + rest;
    assert raw[|before|..] == rest;
    PieceOfAddress(u, marks, after);
    PieceInRest(raw, |before|, 0);
    SchemeInRest(raw, |before|, 0);
    assert u[0..] == u;
    EveryAddressIsFound(raw, |before|, valid);
  }

  lemma PieceOfAddress(u: string, marks: string, after: string)
    requires Clean(u) && forall k :: 0 <= k < |marks| ==> IsMark(marks[k])
    requires after == "" || IsSpace(after[0])
    ensures SchemeAt(u + marks + after, 0) && |u| > 0 && PieceOf(u + marks + after, 0) == u
  {
    var rest := u + marks + after;
    AddressFirst(u, marks + after);
    assert u + (marks + after) == rest;
    forall k | 1 <= k < |u| + |marks| ensures !IsSpace(rest[k]) && !SchemeAt(rest, k) {
      NoSchemeInside(u, marks, after, k);
    }
    MarksFollow(u, marks, after);
    PieceFromEnds(rest, |u|, |u| + |marks|);
  }

  lemma MarksFollow(u: string, marks: string, after: string)
    requires forall k :: 0 <= k < |marks| ==> IsMark(marks[k])
    requires after == "" || IsSpace(after[0])
    ensures var rest := u + marks + after;
            && (forall k :: |u| <= k < |u| + |marks| ==> IsMark(rest[k]))
            && (|u| + |marks| == |rest| || IsSpace(rest[|u| + |marks|]))
  {
  }

  lemma PieceFromEnds(rest: string, m: nat, end: nat)
    requires 0 < m <= end <= |rest| && SchemeAt(rest, 0)
    requires forall k :: 1 <= k < end ==> !IsSpace(rest[k]) && !SchemeAt(rest, k)
    requires end == |rest| || IsSpace(rest[end])
    requires !IsMark(rest[m - 1]) && forall k :: m <= k < end ==> IsMark(rest[k])
    ensures PieceOf(rest, 0) == rest[..m]
  {
    PieceEndIsFirst(rest, 1, end);
    MarksGone(rest, 0, m, end);
  }

  lemma AddressFirst(u: string, tail: string)
    requires Clean(u)
    ensures SchemeAt(u + tail, 0) && |u| > 0 && (u + tail)[..|u|] == u && !IsMark((u + tail)[|u| - 1])
  {
    assert u[0..] == u && (u + tail)[0..] == u + tail;
  }

  lemma {:induction false} MarksGone(s: string, i: nat, m: nat, end: nat)
    requires i < m <= end <= |s| && !IsMark(s[m - 1]) && forall k :: m <= k < end ==> IsMark(s[k])
    ensures WithoutMarks(s, i, end) == m
    decreases end
  {
    if m < end {
      MarksGone(s, i, m, end - 1);
    }
  }

  /** No scheme starts inside the address or its marks: it would have to reach over a mark or white space. */
  lemma NoSchemeInside(u: string, marks: string, after: string, k: nat)
    requires Clean(u) && forall i :: 0 <= i < |marks| ==> IsMark(marks[i])
    requires after == "" || IsSpace(after[0])
    requires 1 <= k < |u| + |marks|
    ensures !SchemeAt(u + marks + after, k) && !IsSpace((u + marks + after)[k])
  {
    var rest := u + marks + after;
    assert rest[..|u|] == u;
    assert |u| < |rest| ==> IsMark(rest[|u|]) || IsSpace(rest[|u|]);
    assert if k < |u| then rest[k] == u[k] else rest[k] == marks[k - |u|];
    if SchemeAt(rest, k) {
      var span := SchemeSpan(rest, k);
      assert false;
    }
  }
}
