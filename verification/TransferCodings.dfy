/** `Transfer-Encoding` and `Content-Encoding` header lists (sections 3.2.2 and
    3.3.1 of RFC 7230): which bodies may be stored, and which of them end with a
    terminator of their own. */
module TransferCodings {
  import opened Text
  import opened Wrappers

  datatype Coding = Identity | Chunked | Other

  /** One header line: its text, or `None` when it is not visible ASCII. */
  type Line = Option<string>

  function Lower(c: char): char { if 'A' <= c <= 'Z' then c - 'A' + 'a' else c }

  function LowerAll(s: string): string { seq(|s|, i requires 0 <= i < |s| => Lower(s[i])) }

  function Split(text: string): (pieces: seq<string>)
    ensures pieces != []
  {
    if text == "" then [""]
    else
      Lead(text[0], Split(text[1..]))
  }

  /** A character in front: a comma begins a new piece, any other joins the first one. */
  function Lead(c: char, pieces: seq<string>): (r: seq<string>)
    requires pieces != []
    ensures r != []
  {
    if c == ',' then [""] + pieces else [[c] + pieces[0]] + pieces[1..]
  }

  /** What one piece between commas adds to the list. Transfer codings keep an
      empty piece as an unknown coding; content codings drop it. */
  function PieceCodings(piece: string, keepEmpty: bool): seq<Coding> {
    var coding := Trim(piece);
    if coding == "" then (if keepEmpty then [Other] else [])
    else if LowerAll(coding) == "identity" then [Identity]
    else if LowerAll(coding) == "chunked" then [Chunked]
    else [Other]
  }

  function PiecesCodings(pieces: seq<string>, keepEmpty: bool): seq<Coding> {
    if pieces == [] then [] else PieceCodings(pieces[0], keepEmpty) + PiecesCodings(pieces[1..], keepEmpty)
  }

  function LinesCodings(lines: seq<Line>, keepEmpty: bool): Option<seq<Coding>> {
    if lines == [] then Some([])
    else if lines[0].None? then None
    else
      Prepend(PiecesCodings(Split(lines[0].value), keepEmpty), LinesCodings(lines[1..], keepEmpty))
  }

  function Prepend(front: seq<Coding>, rest: Option<seq<Coding>>): Option<seq<Coding>> {
    if rest.None? then None else Some(front + rest.value)
  }

  datatype Listed = Absent | Unreadable | Codings(list: seq<Coding>)

  function ListOf(lines: seq<Line>, keepEmpty: bool): Listed {
    if lines == [] then Absent
    else
      match LinesCodings(lines, keepEmpty)
      case None => Unreadable
      case Some(list) => Codings(list)
  }

  lemma {:induction false} PiecesConcat(a: seq<string>, b: seq<string>, keepEmpty: bool)
    ensures PiecesCodings(a + b, keepEmpty) == PiecesCodings(a, keepEmpty) + PiecesCodings(b, keepEmpty)
  {
    if a == [] {
      assert a + b == b;
    } else {
      assert (a + b)[1..] == a[1..] + b;
      PiecesConcat(a[1..], b, keepEmpty);
    }
  }

  lemma NextPieceCodings(before: seq<Coding>, pieces: seq<string>, j: nat, keepEmpty: bool)
    requires j < |pieces|
    ensures before + PiecesCodings(pieces[..j + 1], keepEmpty)
         == before + PiecesCodings(pieces[..j], keepEmpty) + PieceCodings(pieces[j], keepEmpty)
  {
    PiecesConcat(pieces[..j], [pieces[j]], keepEmpty);
    assert pieces[..j + 1] == pieces[..j] + [pieces[j]];
    OnePiece(pieces[j], keepEmpty);
  }

  lemma OnePiece(piece: string, keepEmpty: bool)
    ensures PiecesCodings([piece], keepEmpty) == PieceCodings(piece, keepEmpty)
  {
    assert [piece][1..] == [];
  }

  method PushPieces(before: seq<Coding>, text: string, keepEmpty: bool) returns (listed: seq<Coding>)
    ensures listed == before + PiecesCodings(Split(text), keepEmpty)
  {
    listed := before;
    var pieces := Split(text);
    for j := 0 to |pieces|
      invariant listed == before + PiecesCodings(pieces[..j], keepEmpty)
    {
      NextPieceCodings(before, pieces, j, keepEmpty);
      listed := listed + PieceCodings(pieces[j], keepEmpty);
    }
    assert pieces[..|pieces|] == pieces;
  }

  lemma PrependTwice(a: seq<Coding>, b: seq<Coding>, rest: Option<seq<Coding>>)
    ensures Prepend(a, Prepend(b, rest)) == Prepend(a + b, rest)
    ensures Prepend([], rest) == rest
  {
    if rest.Some? {
      assert a + (b + rest.value) == a + b + rest.value;
      assert [] + rest.value == rest.value;
    }
  }

  /** `list_codings`: line by line, piece by piece, pushing onto one vector. */
  method ListCodings(lines: seq<Line>, keepEmpty: bool) returns (r: Listed)
    ensures r == ListOf(lines, keepEmpty)
  {
    if lines == [] {
      return Absent;
    }
    var listed: seq<Coding> := [];
    assert lines[0..] == lines;
    PrependTwice([], [], LinesCodings(lines, keepEmpty));
    for i := 0 to |lines|
      invariant LinesCodings(lines, keepEmpty) == Prepend(listed, LinesCodings(lines[i..], keepEmpty))
    {
      assert lines[i..][1..] == lines[i + 1..];
      if lines[i].None? {
        return Unreadable;
      }
      ghost var rest := LinesCodings(lines[i + 1..], keepEmpty);
      PrependTwice(listed, PiecesCodings(Split(lines[i].value), keepEmpty), rest);
      listed := PushPieces(listed, lines[i].value, keepEmpty);
    }
    assert lines[|lines|..] == [];
    assert listed + [] == listed;
    return Codings(listed);
  }

  // ----- Verdicts

  function Count(list: seq<Coding>, c: Coding): nat {
    if list == [] then 0 else (if list[0] == c then 1 else 0) + Count(list[1..], c)
  }

  predicate AllIdentity(list: seq<Coding>) { forall i :: 0 <= i < |list| ==> list[i] == Identity }

  predicate TransferCodingsAllowed(list: seq<Coding>) {
    if list == [] || AllIdentity(list) then true
    else
      && Count(list, Chunked) == 1
      && list[|list| - 1] == Chunked
      && AllIdentity(list[..|list| - 1])
  }

  /** The accepted lists as a grammar: any number of `identity`, then at most one `chunked`, which is last. */
  predicate Accepted(list: seq<Coding>) {
    if list == [] then true
    else if list == [Chunked] then true
    else list[0] == Identity && Accepted(list[1..])
  }

  lemma {:induction false} CountInIdentity(list: seq<Coding>)
    requires AllIdentity(list)
    ensures Count(list, Chunked) == 0 && Count(list + [Chunked], Chunked) == 1
  {
    if list == [] {
      assert [Chunked][1..] == [];
      assert list + [Chunked] == [Chunked];
    } else {
      CountInIdentity(list[1..]);
      assert (list + [Chunked])[1..] == list[1..] + [Chunked];
    }
  }

  lemma {:induction false} AcceptedShape(list: seq<Coding>)
    ensures Accepted(list) <==>
            AllIdentity(list) || (list[|list| - 1] == Chunked && AllIdentity(list[..|list| - 1]))
  {
    if list != [] && |list| > 1 {
      var rest := list[1..];
      AcceptedShape(rest);
      assert rest[|rest| - 1] == list[|list| - 1];
      assert list[..|list| - 1] == [list[0]] + rest[..|rest| - 1];
      if AllIdentity(list) {
        assert rest[0] == list[1];
      }
    }
  }

  /** The counting test and the grammar accept the same lists; an accepted list
      ends its body itself exactly when its last coding is `chunked`. */
  lemma AllowedIffAccepted(list: seq<Coding>)
    ensures TransferCodingsAllowed(list) <==> Accepted(list)
    ensures TransferCodingsAllowed(list) && Chunked in list <==>
            Accepted(list) && list != [] && list[|list| - 1] == Chunked
  {
    AcceptedShape(list);
    if list != [] && AllIdentity(list[..|list| - 1]) && list[|list| - 1] == Chunked {
      CountInIdentity(list[..|list| - 1]);
      assert list == list[..|list| - 1] + [Chunked];
    }
    if list != [] && Chunked in list && AllIdentity(list[..|list| - 1]) {
      var i :| 0 <= i < |list| && list[i] == Chunked;
      assert i < |list| - 1 ==> list[..|list| - 1][i] == Identity;
    }
  }

  predicate TransferEncodingAccepted(lines: seq<Line>) {
    match ListOf(lines, true)
    case Absent => true
    case Unreadable => false
    case Codings(list) => TransferCodingsAllowed(list)
  }

  predicate AcceptedChunked(lines: seq<Line>) {
    match ListOf(lines, true)
    case Absent => false
    case Unreadable => false
    case Codings(list) => TransferCodingsAllowed(list) && Chunked in list
  }

  predicate ContentEncodingAccepted(lines: seq<Line>) {
    match ListOf(lines, false)
    case Absent => true
    case Unreadable => false
    case Codings(list) => AllIdentity(list)
  }

  // ----- Several lines or one

  /** Header lines combined into one, as section 3.2.2 of RFC 7230 allows any recipient to do. */
  function Join(texts: seq<string>): string
    requires texts != []
  {
    if |texts| == 1 then texts[0] else texts[0] + "," + Join(texts[1..])
  }

  function Lines(texts: seq<string>): seq<Line> { seq(|texts|, i requires 0 <= i < |texts| => Some(texts[i])) }

  lemma {:induction false} SplitAtComma(a: string, b: string)
    ensures Split(a + "," + b) == Split(a) + Split(b)
  {
    var joined := a + "," + b;
    if a == "" {
      assert joined[1..] == b;
    } else {
      assert joined[1..] == a[1..] + "," + b;
      SplitAtComma(a[1..], b);
      LeadOfConcat(a[0], Split(a[1..]), Split(b));
    }
  }

  lemma LeadOfConcat(c: char, a: seq<string>, b: seq<string>)
    requires a != []
    ensures Lead(c, a + b) == Lead(c, a) + b
  {
    assert (a + b)[1..] == a[1..] + b;
    if c == ',' {
      assert [""] + (a + b) == [""] + a + b;
    } else {
      assert [[c] + a[0]] + (a[1..] + b) == [[c] + a[0]] + a[1..] + b;
    }
  }

  lemma {:induction false} JoinedLinesListTheSame(texts: seq<string>, keepEmpty: bool)
    requires texts != []
    ensures LinesCodings(Lines(texts), keepEmpty) == LinesCodings(Lines([Join(texts)]), keepEmpty)
  {
    var one := Lines([Join(texts)]);
    assert one[1..] == [];
    assert LinesCodings(one, keepEmpty) == Some(PiecesCodings(Split(Join(texts)), keepEmpty) + []);
    assert Lines(texts)[1..] == Lines(texts[1..]);
    if |texts| == 1 {
      assert Lines(texts)[1..] == [];
    } else {
      JoinedLinesListTheSame(texts[1..], keepEmpty);
      var rest := Lines([Join(texts[1..])]);
      assert rest[1..] == [];
      assert LinesCodings(rest, keepEmpty) == Some(PiecesCodings(Split(Join(texts[1..])), keepEmpty) + []);
      SplitAtComma(texts[0], Join(texts[1..]));
      var first, last := Split(texts[0]), Split(Join(texts[1..]));
      PiecesConcat(first, last, keepEmpty);
      assert PiecesCodings(first + last, keepEmpty) + []
          == PiecesCodings(first, keepEmpty) + (PiecesCodings(last, keepEmpty) + []);
    }
  }

  /** Every verdict is the same for several header lines and for one line that
      joins them with commas, empty lines and empty pieces included. */
  lemma LinesAndListAgree(texts: seq<string>)
    requires texts != []
    ensures TransferEncodingAccepted(Lines(texts)) <==> TransferEncodingAccepted(Lines([Join(texts)]))
    ensures AcceptedChunked(Lines(texts)) <==> AcceptedChunked(Lines([Join(texts)]))
    ensures ContentEncodingAccepted(Lines(texts)) <==> ContentEncodingAccepted(Lines([Join(texts)]))
  {
    JoinedLinesListTheSame(texts, true);
    JoinedLinesListTheSame(texts, false);
  }

  lemma {:induction false} BlankTrimsAway(s: string)
    requires forall i :: 0 <= i < |s| ==> IsSpace(s[i])
    ensures Leading(s) == |s| && Trim(s) == ""
  {
    if s != "" {
      BlankTrimsAway(s[1..]);
    }
  }

  lemma {:induction false} UnknownFromPiece(pieces: seq<string>, k: nat)
    requires k < |pieces| && Trim(pieces[k]) == ""
    ensures Other in PiecesCodings(pieces, true)
  {
    if k > 0 {
      UnknownFromPiece(pieces[1..], k - 1);
    }
  }

  lemma {:induction false} UnknownFromLine(lines: seq<Line>, k: nat)
    requires k < |lines| && lines[k].Some? && Other in PiecesCodings(Split(lines[k].value), true)
    ensures var r := LinesCodings(lines, true); r.Some? ==> Other in r.value
  {
    if k > 0 {
      UnknownFromLine(lines[1..], k - 1);
    }
  }

  lemma UnknownIsRejected(list: seq<Coding>)
    requires Other in list
    ensures !TransferCodingsAllowed(list)
  {
    var i :| 0 <= i < |list| && list[i] == Other;
    assert i < |list| - 1 ==> list[..|list| - 1][i] == Other;
  }

  /** A piece of nothing but white space, in whatever header line and wherever in it, makes the
      transfer codings unacceptable. */
  lemma EmptyPieceIsRejected(lines: seq<Line>, k: nat, j: nat)
    requires k < |lines| && lines[k].Some? && j < |Split(lines[k].value)|
    requires forall i :: 0 <= i < |Split(lines[k].value)[j]| ==> IsSpace(Split(lines[k].value)[j][i])
    ensures !TransferEncodingAccepted(lines) && !AcceptedChunked(lines)
  {
    BlankTrimsAway(Split(lines[k].value)[j]);
    UnknownFromPiece(Split(lines[k].value), j);
    UnknownFromLine(lines, k);
    if LinesCodings(lines, true).Some? {
      UnknownIsRejected(LinesCodings(lines, true).value);
    }
  }

  // ----- What the lines say

  /** The same letters, in whatever case: 'A' to 'Z' are 32 below 'a' to 'z'. */
  predicate Like(text: string, word: string) {
    |text| == |word|
    && forall i :: 0 <= i < |word| ==>
         text[i] == word[i] || ('A' <= text[i] <= 'Z' && text[i] as int + 32 == word[i] as int)
  }

  predicate Blank(s: string) { forall i :: 0 <= i < |s| ==> IsSpace(s[i]) }

  predicate OneWord(w: string) { w != "" && !IsSpace(w[0]) && !IsSpace(w[|w| - 1]) }

  lemma LikeLower(text: string, word: string)
    requires forall i :: 0 <= i < |word| ==> 'a' <= word[i] <= 'z'
    ensures Like(text, word) <==> LowerAll(text) == word
  {
    forall i | 0 <= i < |text| && i < |word|
      ensures Lower(text[i]) == word[i] <==>
              text[i] == word[i] || ('A' <= text[i] <= 'Z' && text[i] as int + 32 == word[i] as int)
    {
    }
    if LowerAll(text) == word {
      assert forall i :: 0 <= i < |text| ==> LowerAll(text)[i] == Lower(text[i]);
    }
  }

  lemma {:induction false} LeadingBlanks(pre: string, rest: string)
    requires Blank(pre) && (rest == "" || !IsSpace(rest[0]))
    ensures TrimStart(pre + rest) == rest
  {
    if pre == "" {
      assert pre + rest == rest;
    } else {
      assert (pre + rest)[1..] == pre[1..] + rest;
      LeadingBlanks(pre[1..], rest);
    }
  }

  lemma {:induction false} TrailingBlanks(w: string, post: string)
    requires Blank(post) && (w == "" || !IsSpace(w[|w| - 1]))
    ensures TrimEnd(w + post) == w
    decreases |post|
  {
    if post == "" {
      assert w + post == w;
    } else {
      assert (w + post)[..|w + post| - 1] == w + post[..|post| - 1];
      TrailingBlanks(w, post[..|post| - 1]);
    }
  }

  /** What a piece between commas stands for: its word with the blanks around it taken away, compared
      without regard to case. */
  lemma PieceSays(pre: string, w: string, post: string, keepEmpty: bool)
    requires Blank(pre) && OneWord(w) && Blank(post)
    ensures PieceCodings(pre + w + post, keepEmpty) ==
            if Like(w, "identity") then [Identity] else if Like(w, "chunked") then [Chunked] else [Other]
  {
    assert pre + w + post == pre + (w + post);
    LeadingBlanks(pre, w + post);
    TrailingBlanks(w, post);
    LikeLower(w, "identity");
    LikeLower(w, "chunked");
  }

  /** A blank piece stands for an unknown transfer coding, and for nothing in a list of content codings. */
  lemma BlankSays(piece: string, keepEmpty: bool)
    requires Blank(piece)
    ensures PieceCodings(piece, keepEmpty) == if keepEmpty then [Other] else []
  {
    BlankTrimsAway(piece);
  }

  lemma {:induction false} SplitWithoutComma(s: string)
    requires ',' !in s
    ensures Split(s) == [s]
  {
    if s != "" {
      SplitWithoutComma(s[1..]);
      assert [s[0]] + s[1..] == s;
    }
  }

  /** Splitting gives back the pieces that were joined. */
  lemma {:induction false} SplitOfJoin(pieces: seq<string>)
    requires pieces != [] && forall i :: 0 <= i < |pieces| ==> ',' !in pieces[i]
    ensures Split(Join(pieces)) == pieces
  {
    if |pieces| == 1 {
      SplitWithoutComma(pieces[0]);
    } else {
      SplitAtComma(pieces[0], Join(pieces[1..]));
      SplitWithoutComma(pieces[0]);
      SplitOfJoin(pieces[1..]);
    }
  }

  /** The verdicts on a header line of one word, blanks around it and any case allowed. */
  lemma OneCodingVerdicts(pre: string, w: string, post: string)
    requires Blank(pre) && OneWord(w) && Blank(post) && ',' !in w
    ensures TransferEncodingAccepted([Some(pre + w + post)]) <==> Like(w, "identity") || Like(w, "chunked")
    ensures AcceptedChunked([Some(pre + w + post)]) <==> Like(w, "chunked")
    ensures ContentEncodingAccepted([Some(pre + w + post)]) <==> Like(w, "identity")
  {
    var text := pre + w + post;
    NoCommaInBlank(pre);
    NoCommaInBlank(post);
    SplitWithoutComma(text);
    PieceSays(pre, w, post, true);
    PieceSays(pre, w, post, false);
    OneLine(text, true);
    OneLine(text, false);
    OneListed(PieceCodings(text, true)[0]);
  }

  lemma NoCommaInBlank(s: string)
    requires Blank(s)
    ensures ',' !in s
  {
  }

  lemma OneLine(text: string, keepEmpty: bool)
    requires Split(text) == [text]
    ensures ListOf([Some(text)], keepEmpty) == Codings(PieceCodings(text, keepEmpty))
  {
    var lines: seq<Line> := [Some(text)];
    assert lines[1..] == [];
    assert LinesCodings(lines[1..], keepEmpty) == Some([]);
    OnePiece(text, keepEmpty);
    assert PieceCodings(text, keepEmpty) + [] == PieceCodings(text, keepEmpty);
  }

  lemma OneListed(c: Coding)
    ensures TransferCodingsAllowed([c]) <==> c != Other
    ensures Chunked in [c] <==> c == Chunked
    ensures AllIdentity([c]) <==> c == Identity
  {
    AllowedIffAccepted([c]);
    assert [c][1..] == [];
    assert [c][0] == c;
  }

  /** No header line at all is accepted and does not end the body; a line that cannot be read spoils all. */
  lemma AbsentAndUnreadable(lines: seq<Line>, k: nat)
    ensures TransferEncodingAccepted([]) && !AcceptedChunked([]) && ContentEncodingAccepted([])
    ensures k < |lines| && lines[k].None? ==>
              !TransferEncodingAccepted(lines) && !AcceptedChunked(lines) && !ContentEncodingAccepted(lines)
  {
    if k < |lines| && lines[k].None? {
      OneUnreadable(lines, k, true);
      OneUnreadable(lines, k, false);
    }
  }

  lemma {:induction false} OneUnreadable(lines: seq<Line>, k: nat, keepEmpty: bool)
    requires k < |lines| && lines[k].None?
    ensures LinesCodings(lines, keepEmpty).None?
  {
    if k > 0 {
      OneUnreadable(lines[1..], k - 1, keepEmpty);
    }
  }
}
