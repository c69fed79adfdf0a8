/** `_splitMessage` of backend/services/TelegramBot.js: splits a text longer than
    Telegram's 4096-code-unit limit into pieces, preferring to cut at the last
    newline, then after the last ". ", then at the last space, each accepted only
    beyond half of the limit, and numbers the pieces when there is more than one. */
module Chunker {
  import opened JsText

  /** MAX_MSG_LENGTH */
  const MaxMessageLength: nat := 4096
  /** A cut point is accepted only when it lies beyond `MAX_MSG_LENGTH * 0.5`. */
  const HalfLength: nat := 2048

  /** `pat` occurs at some index in the acceptance window (HalfLength, MaxMessageLength]. */
  ghost predicate OccursInWindow(s: JsString, pat: JsString) {
    exists j :: HalfLength < j <= MaxMessageLength && MatchAt(s, pat, j)
  }

  /** `k` is the last index of the window at which `pat` occurs. */
  ghost predicate LastInWindow(s: JsString, pat: JsString, k: int) {
    HalfLength < k <= MaxMessageLength && MatchAt(s, pat, k) &&
    forall j :: k < j <= MaxMessageLength ==> !MatchAt(s, pat, j)
  }

  /** The cut point `splitIdx` chosen for an over-long `remaining`: beyond half
      the limit, and at most one past it. */
  function CutIndex(remaining: JsString): (k: nat)
    requires |remaining| > MaxMessageLength
    ensures HalfLength < k <= MaxMessageLength + 1 && k < |remaining|
    ensures k == MaxMessageLength + 1 ==> remaining[MaxMessageLength] == Dot
  {
    var lastNewline := LastIndexOf(remaining, [Newline], MaxMessageLength);
    if lastNewline > HalfLength then lastNewline
    else
      var lastDot := LastIndexOf(remaining, [Dot, Space], MaxMessageLength);
      if lastDot > HalfLength then
        assert remaining[lastDot..lastDot + 2] == [Dot, Space];
        lastDot + 1
      else
        var lastSpace := LastIndexOf(remaining, [Space], MaxMessageLength);
        if lastSpace > HalfLength then lastSpace else MaxMessageLength
  }

  /** Split, preference order: the cut is at the last newline of the window if
      there is one, else just after the dot of the last ". ", else at the last
      space, else a hard cut at the limit. */
  lemma CutIndexPreference(remaining: JsString)
    requires |remaining| > MaxMessageLength
    ensures OccursInWindow(remaining, [Newline]) ==> LastInWindow(remaining, [Newline], CutIndex(remaining))
    ensures (!OccursInWindow(remaining, [Newline]) && OccursInWindow(remaining, [Dot, Space])) ==>
              LastInWindow(remaining, [Dot, Space], CutIndex(remaining) - 1)
    ensures (!OccursInWindow(remaining, [Newline]) && !OccursInWindow(remaining, [Dot, Space]) &&
             OccursInWindow(remaining, [Space])) ==> LastInWindow(remaining, [Space], CutIndex(remaining))
    ensures (!OccursInWindow(remaining, [Newline]) && !OccursInWindow(remaining, [Dot, Space]) &&
             !OccursInWindow(remaining, [Space])) ==> CutIndex(remaining) == MaxMessageLength
  {
    LastIndexOfIsLast(remaining, [Newline], MaxMessageLength);
    LastIndexOfIsLast(remaining, [Dot, Space], MaxMessageLength);
    LastIndexOfIsLast(remaining, [Space], MaxMessageLength);
  }

  /** What one turn of the loop does to an over-long `remaining`: the piece it
      pushes, the whitespace `trimStart` drops and the text left for the next turn. */
  datatype Turn = Turn(piece: JsString, gap: JsString, next: JsString)

  function Cut(remaining: JsString): (t: Turn)
    requires |remaining| > MaxMessageLength
    ensures |t.next| < |remaining|
  {
    var k := CutIndex(remaining);
    var rest := remaining[k..];
    var trimmed := TrimStart(rest);
    Turn(remaining[..k], rest[..|rest| - |trimmed|], trimmed)
  }

  /** The raw pieces the loop of `_splitMessage` pushes for `remaining`: the
      whole of it once it fits, otherwise the part before the cut point followed
      by the pieces of what is left after `trimStart`. */
  function Pieces(remaining: JsString): (ps: seq<JsString>)
    decreases |remaining|
  {
    if |remaining| == 0 then []
    else if |remaining| <= MaxMessageLength then [remaining]
    else [Cut(remaining).piece] + Pieces(Cut(remaining).next)
  }

  /** The whitespace run that `trimStart` drops after each piece of `Pieces(remaining)`;
      the run after the last piece is trailing whitespace of the text. */
  function Gaps(remaining: JsString): (gs: seq<JsString>)
    decreases |remaining|
  {
    if |remaining| == 0 then []
    else if |remaining| <= MaxMessageLength then [[]]
    else [Cut(remaining).gap] + Gaps(Cut(remaining).next)
  }

  /** A raw piece: never empty, at most the limit, except that a cut after a ". "
      found at index 4096 yields a piece of 4097 code units ending with the dot. */
  predicate ValidPiece(p: JsString) {
    0 < |p| <= MaxMessageLength + 1 &&
    (|p| == MaxMessageLength + 1 ==> p[MaxMessageLength] == Dot)
  }

  /** pieces[0] + gaps[0] + pieces[1] + gaps[1] + ... */
  function Interleave(pieces: seq<JsString>, gaps: seq<JsString>): JsString
    requires |pieces| == |gaps|
  {
    if pieces == [] then [] else pieces[0] + gaps[0] + Interleave(pieces[1..], gaps[1..])
  }

  /** `pieces` and `gaps` put back together give `text`; every piece is valid,
      every gap is whitespace, every piece but the last is longer than half the
      limit, and every piece but the first starts with a non-whitespace unit. */
  predicate IsSplitOf(text: JsString, pieces: seq<JsString>, gaps: seq<JsString>) {
    |pieces| == |gaps| &&
    text == Interleave(pieces, gaps) &&
    (forall i :: 0 <= i < |pieces| ==> ValidPiece(pieces[i])) &&
    (forall i :: 0 <= i < |gaps| ==> AllWhitespace(gaps[i])) &&
    (forall i :: 0 <= i < |pieces| ==> (i < |pieces| - 1 ==> HalfLength < |pieces[i]|)) &&
    (forall i :: 0 <= i < |pieces| ==> (i > 0 ==> !IsJsWhitespace(pieces[i][0])))
  }

  /** Split, reconstruction and size bound: the raw pieces of a non-empty text are
      a split of it in the sense of `IsSplitOf`, and there is at least one. */
  lemma {:induction false} PiecesSplitText(text: JsString)
    requires text != []
    ensures |Pieces(text)| >= 1
    ensures IsSplitOf(text, Pieces(text), Gaps(text))
    decreases |text|
  {
    if |text| <= MaxMessageLength {
      PiecesOfShortText(text);
      assert Gaps(text) == [[]];
      assert Interleave([text], [[]]) == text + [] + [];
    } else {
      var piece, gap, trimmed := FirstCut(text);
      if trimmed == [] {
        assert Interleave([piece], [gap]) == piece + gap + [];
      } else {
        PiecesSplitText(trimmed);
        PiecesFirstIsPrefix(trimmed);
        SplitCons(text, piece, gap, trimmed, Pieces(trimmed), Gaps(trimmed));
      }
    }
  }

  /** One turn of the loop on an over-long text: the piece before the cut, the
      whitespace `trimStart` drops and what is left. */
  lemma FirstCut(text: JsString) returns (piece: JsString, gap: JsString, trimmed: JsString)
    requires |text| > MaxMessageLength
    ensures text == piece + gap + trimmed
    ensures ValidPiece(piece) && HalfLength < |piece| && AllWhitespace(gap)
    ensures trimmed == [] || !IsJsWhitespace(trimmed[0])
    ensures Pieces(text) == [piece] + Pieces(trimmed)
    ensures Gaps(text) == [gap] + Gaps(trimmed)
    ensures trimmed == [] ==> Pieces(text) == [piece] && Gaps(text) == [gap]
    ensures |trimmed| < |text|
  {
    piece, gap, trimmed := CutParts(text);
    PiecesOfLongText(text);
    GapsOfLongText(text);
    if trimmed == [] {
      LastTurn(text, piece, gap);
    }
  }

  /** The three parts of a turn put back together give the text. */
  lemma CutParts(text: JsString) returns (piece: JsString, gap: JsString, trimmed: JsString)
    requires |text| > MaxMessageLength
    ensures Cut(text) == Turn(piece, gap, trimmed)
    ensures text == piece + gap + trimmed
    ensures ValidPiece(piece) && HalfLength < |piece| && AllWhitespace(gap)
    ensures trimmed == [] || !IsJsWhitespace(trimmed[0])
  {
    var k := CutIndex(text);
    var rest := text[k..];
    trimmed := TrimStart(rest);
    piece := text[..k];
    gap := rest[..|rest| - |trimmed|];
    TurnParts(text, k, rest, trimmed);
  }

  /** The facts of one turn, from what the cut index and `trimStart` promise. */
  lemma TurnParts(text: JsString, k: nat, rest: JsString, trimmed: JsString)
    requires HalfLength < k <= MaxMessageLength + 1 && k < |text|
    requires k == MaxMessageLength + 1 ==> text[MaxMessageLength] == Dot
    requires rest == text[k..] && |trimmed| <= |rest| && trimmed == rest[|rest| - |trimmed|..]
    ensures text == text[..k] + rest[..|rest| - |trimmed|] + trimmed
    ensures ValidPiece(text[..k]) && HalfLength < |text[..k]|
  {
    ThreeParts(text, k, |rest| - |trimmed|);
    if k == MaxMessageLength + 1 {
      assert text[..k][MaxMessageLength] == text[MaxMessageLength];
    }
  }

  /** A sequence is its prefix, then a prefix of the rest, then what remains. */
  lemma ThreeParts<T>(s: seq<T>, k: nat, m: nat)
    requires k <= |s| && m <= |s| - k
    ensures s == s[..k] + s[k..][..m] + s[k..][m..]
  {
    assert s[k..] == s[k..][..m] + s[k..][m..];
    assert s == s[..k] + s[k..];
  }

  /** When nothing is left after the cut, the piece and its gap are the last. */
  lemma LastTurn(text: JsString, piece: JsString, gap: JsString)
    requires |text| > MaxMessageLength
    requires Pieces(text) == [piece] + Pieces([]) && Gaps(text) == [gap] + Gaps([])
    ensures Pieces(text) == [piece] && Gaps(text) == [gap]
  {
    PiecesOfShortText([]);
    GapsOfShortText([]);
    assert [piece] + [] == [piece];
    assert [gap] + [] == [gap];
  }

  /** Putting a piece and its gap in front of a split of the rest gives a split. */
  lemma SplitCons(text: JsString, piece: JsString, gap: JsString, rest: JsString,
                  ps: seq<JsString>, gs: seq<JsString>)
    requires IsSplitOf(rest, ps, gs) && ps != [] && ps[0] != [] && ps[0][0] == rest[0]
    requires ValidPiece(piece) && HalfLength < |piece| && AllWhitespace(gap)
    requires !IsJsWhitespace(rest[0])
    requires text == piece + gap + rest
    ensures IsSplitOf(text, [piece] + ps, [gap] + gs)
  {
    assert ([piece] + ps)[1..] == ps;
    assert ([gap] + gs)[1..] == gs;
  }

  /** The first piece of a non-empty text is a prefix of it. */
  lemma PiecesFirstIsPrefix(text: JsString)
    requires text != []
    ensures Pieces(text) != [] && 0 < |Pieces(text)[0]| <= |text|
    ensures Pieces(text)[0] == text[..|Pieces(text)[0]|]
    ensures Pieces(text)[0][0] == text[0]
  {
    if |text| > MaxMessageLength {
      var k := CutIndex(text);
      assert Pieces(text) == [text[..k]] + Pieces(Cut(text).next);
    }
  }

  lemma PiecesOfShortText(remaining: JsString)
    requires |remaining| <= MaxMessageLength
    ensures Pieces(remaining) == if remaining == [] then [] else [remaining]
  {
  }

  lemma PiecesOfLongText(remaining: JsString)
    requires |remaining| > MaxMessageLength
    ensures Pieces(remaining) == [Cut(remaining).piece] + Pieces(Cut(remaining).next)
  {
  }

  lemma EmptyConcat<T>(s: seq<T>)
    ensures [] + s == s
  {
  }

  lemma GapsOfShortText(remaining: JsString)
    requires |remaining| <= MaxMessageLength
    ensures Gaps(remaining) == if remaining == [] then [] else [[]]
  {
  }

  lemma GapsOfLongText(remaining: JsString)
    requires |remaining| > MaxMessageLength
    ensures Gaps(remaining) == [Cut(remaining).gap] + Gaps(Cut(remaining).next)
  {
  }

  /** One pushed piece keeps the loop invariant of `_splitMessage`. */
  lemma PushKeepsPieces(text: JsString, chunks: seq<JsString>, remaining: JsString)
    requires |remaining| > MaxMessageLength
    requires chunks + Pieces(remaining) == Pieces(text)
    ensures (chunks + [Cut(remaining).piece]) + Pieces(Cut(remaining).next) == Pieces(text)
  {
    PiecesOfLongText(remaining);
    var t := Cut(remaining);
    assert (chunks + [t.piece]) + Pieces(t.next) == chunks + ([t.piece] + Pieces(t.next));
  }

  /** Pushing the last piece, which fits, completes the pieces of the text. */
  lemma PushLast(text: JsString, chunks: seq<JsString>, remaining: JsString)
    requires 0 < |remaining| <= MaxMessageLength
    requires chunks + Pieces(remaining) == Pieces(text)
    ensures chunks + [remaining] == Pieces(text)
  {
    PiecesOfShortText(remaining);
  }

  /** An empty remainder leaves the pieces already pushed. */
  lemma NothingLeft(text: JsString, chunks: seq<JsString>)
    requires chunks + Pieces([]) == Pieces(text)
    ensures chunks == Pieces(text)
  {
    PiecesOfShortText([]);
    assert chunks + [] == chunks;
  }

  /** `_splitMessage`: a text that fits is sent as it is; a longer one becomes
      the numbered raw pieces of it. */
  method SplitMessage(text: JsString) returns (parts: seq<JsString>)
    ensures |text| <= MaxMessageLength ==> parts == [text]
    ensures |text| > MaxMessageLength ==> parts == Numbered(Pieces(text))
  {
    if |text| <= MaxMessageLength {
      return [text];
    }
    var chunks: seq<JsString> := [];
    var remaining := text;
    EmptyConcat(Pieces(text));
    while |remaining| > 0
      invariant chunks + Pieces(remaining) == Pieces(text)
      decreases |remaining|
    {
      if |remaining| <= MaxMessageLength {
        PushLast(text, chunks, remaining);
        chunks := chunks + [remaining];
        break;
      }
      var splitIdx := CutIndex(remaining);
      var next := TrimStart(remaining[splitIdx..]);
      PushKeepsPieces(text, chunks, remaining);
      assert Cut(remaining) == Turn(remaining[..splitIdx], Cut(remaining).gap, next);
      chunks := chunks + [remaining[..splitIdx]];
      remaining := next;
    }
    if remaining == [] {
      NothingLeft(text, chunks);
    }
    parts := Numbered(chunks);
  }

  /** The marker `📄 [i/n]\n\n` put in front of piece `i` of `n`. */
  function PartLabel(i: nat, n: nat): JsString {
    Utf16("📄 [") + LabelTail(i, n)
  }

  /** The marker after its fixed head: `{i}/{n}]\n\n`. */
  function LabelTail(i: nat, n: nat): JsString {
    Decimal(i) + Utf16("/") + Decimal(n) + Utf16("]\n\n")
  }

  /** A run of digit units ends where the first non-digit unit stands: two texts
      that are equal and each a digit run followed by a non-digit split there
      alike. */
  lemma DigitRunsAlike(d1: JsString, r1: JsString, d2: JsString, r2: JsString)
    requires forall k :: 0 <= k < |d1| ==> IsDigitUnit(d1[k])
    requires forall k :: 0 <= k < |d2| ==> IsDigitUnit(d2[k])
    requires r1 != [] && !IsDigitUnit(r1[0]) && r2 != [] && !IsDigitUnit(r2[0])
    requires d1 + r1 == d2 + r2
    ensures d1 == d2 && r1 == r2
  {
    var x := d1 + r1;
    assert forall k :: 0 <= k < |d1| ==> IsDigitUnit(x[k]);
    assert !IsDigitUnit(x[|d1|]);
    assert forall k :: 0 <= k < |d2| ==> x[k] == d2[k];
    assert !IsDigitUnit(x[|d2|]);
    assert d1 == x[..|d1|] && d2 == (d2 + r2)[..|d2|];
    assert r1 == x[|d1|..] && r2 == (d2 + r2)[|d2|..];
  }

  /** Two digit runs around a `/` and before `]\n\n` split alike. */
  lemma NumberPairAlike(a: JsString, b: JsString, p: JsString, c: JsString, d: JsString, q: JsString)
    requires forall k :: 0 <= k < |a| ==> IsDigitUnit(a[k])
    requires forall k :: 0 <= k < |b| ==> IsDigitUnit(b[k])
    requires forall k :: 0 <= k < |c| ==> IsDigitUnit(c[k])
    requires forall k :: 0 <= k < |d| ==> IsDigitUnit(d[k])
    requires a + [0x2F] + b + [0x5D, 0x0A, 0x0A] + p == c + [0x2F] + d + [0x5D, 0x0A, 0x0A] + q
    ensures a == c && b == d && p == q
  {
    var tail: JsString := [0x5D, 0x0A, 0x0A];
    var r1 := [0x2F] + (b + (tail + p));
    var r2 := [0x2F] + (d + (tail + q));
    assert a + [0x2F] + b + tail + p == a + r1;
    assert c + [0x2F] + d + tail + q == c + r2;
    DigitRunsAlike(a, r1, c, r2);
    assert b + (tail + p) == r1[1..];
    assert d + (tail + q) == r2[1..];
    DigitRunsAlike(b, tail + p, d, tail + q);
    assert p == (tail + p)[3..] && q == (tail + q)[3..];
  }

  /** The separators of the marker, as code units. */
  lemma MarkerSeparators()
    ensures Utf16("/") == [0x2F] && Utf16("]\n\n") == [0x5D, 0x0A, 0x0A]
  {
  }

  lemma LabelTailReadsBack(i: nat, n: nat, piece: JsString, j: nat, m: nat, other: JsString)
    requires LabelTail(i, n) + piece == LabelTail(j, m) + other
    ensures i == j && n == m && piece == other
  {
    MarkerSeparators();
    DecimalDigits(i);
    DecimalDigits(j);
    DecimalDigits(n);
    DecimalDigits(m);
    NumberPairAlike(Decimal(i), Decimal(n), piece, Decimal(j), Decimal(m), other);
    DecimalInjective(i, j);
    DecimalInjective(n, m);
  }

  /** A common head cancels. */
  lemma CancelHead<T>(h: seq<T>, x: seq<T>, p: seq<T>, y: seq<T>, q: seq<T>)
    requires (h + x) + p == (h + y) + q
    ensures x + p == y + q
  {
    assert x + p == ((h + x) + p)[|h|..];
    assert y + q == ((h + y) + q)[|h|..];
  }

  /** A numbered part names its place: the marker in front of a piece gives back
      its index, the number of pieces and the piece itself. */
  lemma PartLabelReadsBack(i: nat, n: nat, piece: JsString, j: nat, m: nat, other: JsString)
    requires PartLabel(i, n) + piece == PartLabel(j, m) + other
    ensures i == j && n == m && piece == other
  {
    CancelHead(Utf16("📄 ["), LabelTail(i, n), piece, LabelTail(j, m), other);
    LabelTailReadsBack(i, n, piece, j, m, other);
  }

  /** Pieces as sent: numbered from 1 when there is more than one, untouched otherwise. */
  function Numbered(pieces: seq<JsString>): (parts: seq<JsString>)
    ensures |parts| == |pieces|
    ensures |pieces| > 1 ==> forall i :: 0 <= i < |pieces| ==> parts[i] == PartLabel(i + 1, |pieces|) + pieces[i]
    ensures |pieces| <= 1 ==> parts == pieces
  {
    if |pieces| > 1 then seq(|pieces|, i requires 0 <= i < |pieces| => PartLabel(i + 1, |pieces|) + pieces[i])
    else pieces
  }

  lemma NumberedPart(pieces: seq<JsString>, i: nat)
    requires |pieces| > 1 && i < |pieces|
    ensures Numbered(pieces)[i] == PartLabel(i + 1, |pieces|) + pieces[i]
  {
  }

  /** The numbered parts of a split message are told apart by their markers:
      the marker of part `i` names place `i + 1` and no other, and the piece
      behind it is the piece of that place. So no two places carry the same
      part: part `j` is marker `j + 1` before piece `j`. */
  lemma NumberedPartsNamePlaces(pieces: seq<JsString>, i: nat)
    requires |pieces| > 1 && i < |pieces|
    ensures forall k: nat, piece :: Numbered(pieces)[i] == PartLabel(k, |pieces|) + piece ==>
              k == i + 1 && piece == pieces[i]
  {
    forall k: nat, piece | Numbered(pieces)[i] == PartLabel(k, |pieces|) + piece
      ensures k == i + 1 && piece == pieces[i]
    {
      NumberedPart(pieces, i);
      PartLabelReadsBack(i + 1, |pieces|, pieces[i], k, |pieces|, piece);
    }
  }
}
