/** Unfolding vCard lines and decoding quoted-printable values (plugin_interface.rs), on the
    bytes of the text. */
module Vcard {
  import opened Common
  import opened Bytes

  const CR: byte := 13
  const EQUALS: byte := 61
  const COLON: byte := 58

  // --- Quoted-printable ------------------------------------------------------------------------

  function HexValue(b: byte): Option<nat> {
    if 48 <= b <= 57 then Some(b as int - 48)
    else if 65 <= b <= 70 then Some(b as int - 55)
    else if 97 <= b <= 102 then Some(b as int - 87)
    else None
  }

  predicate Escaped(s: Text) {
    |s| > 2 && s[0] == EQUALS && HexValue(s[1]).Some? && HexValue(s[2]).Some?
  }

  function HexByte(a: byte, b: byte): byte
    requires HexValue(a).Some? && HexValue(b).Some?
  {
    (HexValue(a).value * 16 + HexValue(b).value) as byte
  }

  /** An escape that is not complete is kept as it is. */
  function Decode(s: Text): Text {
    if s == [] then []
    else if Escaped(s) then [HexByte(s[1], s[2])] + Decode(s[3..])
    else [s[0]] + Decode(s[1..])
  }

  /** The decoded bytes as text: what is not UTF-8 is replaced. */
  method DecodeQuotedPrintable(input: Text) returns (text: Text)
    ensures text == Lossy(Decode(input))
  {
    var out: Text := [];
    var i := 0;
    while i < |input|
      invariant i <= |input|
      invariant Decode(input) == out + Decode(input[i..])
    {
      ghost var rest := input[i..];
      assert rest[1..] == input[i + 1..];
      if input[i] == EQUALS && i + 2 < |input| && HexValue(input[i + 1]).Some? && HexValue(input[i + 2]).Some? {
        assert Escaped(rest) && rest[3..] == input[i + 3..];
        out := out + [HexByte(input[i + 1], input[i + 2])];
        i := i + 3;
      } else {
        assert !Escaped(rest);
        out := out + [input[i]];
        i := i + 1;
      }
    }
    assert input[|input|..] == [] && out + [] == out;
    text := Lossy(out);
  }

  /** Any encoder: each byte is written literally, unless it is '=', or as an escape with digits
      of either case. */
  predicate Encodes(source: Text, encoded: Text)
    decreases |source|
  {
    if source == [] then encoded == []
    else
      || (encoded != [] && encoded[0] == source[0] && source[0] != EQUALS && Encodes(source[1..], encoded[1..]))
      || (Escaped(encoded) && HexByte(encoded[1], encoded[2]) == source[0] && Encodes(source[1..], encoded[3..]))
  }

  lemma {:induction false} DecodeUndoesEncoding(source: Text, encoded: Text)
    requires Encodes(source, encoded)
    ensures Decode(encoded) == source
    decreases |source|
  {
    if source != [] {
      if encoded[0] == source[0] && source[0] != EQUALS && Encodes(source[1..], encoded[1..]) {
        DecodeUndoesEncoding(source[1..], encoded[1..]);
      } else {
        DecodeUndoesEncoding(source[1..], encoded[3..]);
      }
      assert [source[0]] + source[1..] == source;
    }
  }

  lemma {:induction false} EncodedNeverEndsInEquals(source: Text, encoded: Text)
    requires Encodes(source, encoded) && encoded != []
    ensures encoded[|encoded| - 1] != EQUALS
    decreases |source|
  {
    if encoded[0] == source[0] && source[0] != EQUALS && Encodes(source[1..], encoded[1..]) {
      if |encoded| > 1 {
        EncodedNeverEndsInEquals(source[1..], encoded[1..]);
      }
    } else if |encoded| > 3 {
      EncodedNeverEndsInEquals(source[1..], encoded[3..]);
    }
  }

  // --- Lines -----------------------------------------------------------------------------------

  function StripCr(line: Text): Text {
    if line != [] && line[|line| - 1] == CR then line[..|line| - 1] else line
  }

  function Lines(s: Text): seq<Text>
    decreases |s|
  {
    if s == [] then []
    else if NewlineAt(s) == |s| then [s]
    else [StripCr(s[..NewlineAt(s)])] + Lines(s[NewlineAt(s) + 1..])
  }

  predicate Continues(line: Text) {
    line != [] && (line[0] == 32 || line[0] == 9)
  }

  function Upper(b: byte): byte {
    if 97 <= b <= 122 then (b as int - 32) as byte else b
  }

  /** ENCODING=QUOTED-PRINTABLE */
  const QP_PARAMETER: Text :=
    [69, 78, 67, 79, 68, 73, 78, 71, 61, 81, 85, 79, 84, 69, 68, 45, 80, 82, 73, 78, 84, 65, 66, 76, 69]

  predicate HasParameterAt(property: Text, i: nat) {
    i + |QP_PARAMETER| <= |property| && forall k | 0 <= k < |QP_PARAMETER| :: Upper(property[i + k]) == QP_PARAMETER[k]
  }

  function ColonAt(s: Text): (p: nat)
    ensures p <= |s|
    ensures p < |s| ==> s[p] == COLON
    ensures forall i | 0 <= i < p :: s[i] != COLON
  {
    if s == [] || s[0] == COLON then 0 else 1 + ColonAt(s[1..])
  }

  /** The property before the first colon is marked as quoted-printable. */
  predicate QuotedPrintable(line: Text) {
    ColonAt(line) < |line| && exists i: nat | i < ColonAt(line) :: HasParameterAt(line[..ColonAt(line)], i)
  }

  /** The line ends in a quoted-printable soft break. */
  predicate SoftBreak(current: Text) {
    current != [] && current[|current| - 1] == EQUALS && QuotedPrintable(current)
  }

  function Flush(current: Text): seq<Text> {
    if current != [] then [current] else []
  }

  function Unfold(current: Text, lines: seq<Text>): seq<Text>
    decreases |lines|
  {
    if lines == [] then Flush(current)
    else if Continues(lines[0]) then Unfold(current + TrimStart(lines[0]), lines[1..])
    else if SoftBreak(current) then Unfold(current[..|current| - 1] + TrimStart(lines[0]), lines[1..])
    else Flush(current) + Unfold(lines[0], lines[1..])
  }

  method UnfoldVcardLines(content: Text) returns (lines: seq<Text>)
    ensures lines == Unfold([], Lines(content))
  {
    lines := [];
    var current: Text := [];
    var raw := Lines(content);
    for i := 0 to |raw|
      invariant Unfold([], raw) == lines + Unfold(current, raw[i..])
    {
      var line := raw[i];
      assert raw[i..][0] == line && raw[i..][1..] == raw[i + 1..];
      if Continues(line) {
        current := current + TrimStart(line);
      } else if SoftBreak(current) {
        current := current[..|current| - 1];
        current := current + TrimStart(line);
      } else {
        ghost var later := Unfold(line, raw[i + 1..]);
        assert lines + (Flush(current) + later) == lines + Flush(current) + later;
        if current != [] {
          lines := lines + [current];
        } else {
          assert lines + Flush(current) == lines;
        }
        current := line;
      }
    }
    if current != [] {
      lines := lines + [current];
    }
  }

  // --- Joining lines ---------------------------------------------------------------------------

  function Terminator(crlf: bool): Text {
    if crlf then [CR, NEWLINE] else [NEWLINE]
  }

  function Join(lines: seq<Text>, crlf: bool): Text {
    if lines == [] then [] else lines[0] + Terminator(crlf) + Join(lines[1..], crlf)
  }

  /** A line without line feeds that does not end in a carriage return. */
  predicate Plain(line: Text) {
    NEWLINE !in line && (line == [] || line[|line| - 1] != CR)
  }

  lemma PlainEnds(line: Text, rest: Text, crlf: bool)
    requires Plain(line)
    ensures var s, p := line + Terminator(crlf) + rest, |line| + |Terminator(crlf)| - 1;
            NewlineAt(s) == p && s[p + 1..] == rest && s[..p] == if crlf then line + [CR] else line
  {
    var s := line + Terminator(crlf) + rest;
    var p := |line| + |Terminator(crlf)| - 1;
    assert s[p] == NEWLINE;
    forall i | 0 <= i < p
      ensures s[i] != NEWLINE
    {
      assert i < |line| ==> s[i] == line[i] && line[i] in line;
    }
    assert NewlineAt(s) == p;
  }

  lemma LinesAt(s: Text, p: nat)
    requires p < |s| && NewlineAt(s) == p
    ensures Lines(s) == [StripCr(s[..p])] + Lines(s[p + 1..])
  {
  }

  lemma StripTerminated(line: Text, crlf: bool)
    requires Plain(line)
    ensures StripCr(if crlf then line + [CR] else line) == line
  {
    assert (line + [CR])[..|line|] == line;
  }

  lemma FirstLineOf(line: Text, rest: Text, crlf: bool)
    requires Plain(line)
    ensures Lines(line + Terminator(crlf) + rest) == [line] + Lines(rest)
  {
    PlainEnds(line, rest, crlf);
    LinesAt(line + Terminator(crlf) + rest, |line| + |Terminator(crlf)| - 1);
    StripTerminated(line, crlf);
  }

  lemma {:induction false} LinesOfJoin(lines: seq<Text>, crlf: bool)
    requires forall i | 0 <= i < |lines| :: Plain(lines[i])
    ensures Lines(Join(lines, crlf)) == lines
    decreases |lines|
  {
    if lines != [] {
      LinesOfJoin(lines[1..], crlf);
      FirstLineOf(lines[0], Join(lines[1..], crlf), crlf);
      assert [lines[0]] + lines[1..] == lines;
    }
  }

  // --- Soft line breaks ------------------------------------------------------------------------

  /** The line holding `text`, with the '=' of a soft break if pieces follow. */
  function Broken(text: Text, pieces: seq<Text>): Text {
    if pieces == [] then text else text + [EQUALS]
  }

  /** The lines after the one that the pieces continue. */
  function SoftTail(pieces: seq<Text>): seq<Text>
    decreases |pieces|
  {
    if pieces == [] then [] else [Broken(pieces[0], pieces[1..])] + SoftTail(pieces[1..])
  }

  /** `text` followed by the pieces, broken by a trailing '=' before each piece. */
  function SoftLines(text: Text, pieces: seq<Text>): seq<Text> {
    [Broken(text, pieces)] + SoftTail(pieces)
  }

  predicate StartsBlank(piece: Text) {
    LeadingBlank(piece) > 0
  }

  /** A quoted-printable property up to and including its colon. */
  predicate Header(h: Text) {
    h != [] && ColonAt(h) == |h| - 1 && QuotedPrintable(h)
  }

  lemma HeaderMarks(h: Text, value: Text)
    requires Header(h)
    ensures QuotedPrintable(h + value)
  {
    var s := h + value;
    var c := |h| - 1;
    assert s[c] == COLON;
    assert forall i | 0 <= i < c :: s[i] == h[i];
    assert ColonAt(s) == c;
    assert s[..c] == h[..c];
  }

  lemma HeaderEnds(h: Text, text: Text, rest: seq<Text>)
    requires Header(h)
    requires rest != [] ==> !Continues(rest[0])
    requires text == [] || text[|text| - 1] != EQUALS
    ensures Unfold(h + text, rest) == [h + text] + Unfold([], rest)
  {
    var current := h + text;
    assert current[|current| - 1] == (if text == [] then COLON else text[|text| - 1]);
    assert !SoftBreak(current) && Flush(current) == [current];
    if rest != [] {
      assert Flush([]) + Unfold(rest[0], rest[1..]) == Unfold(rest[0], rest[1..]);
    }
  }

  lemma UnfoldSoft(current: Text, line: Text, rest: seq<Text>)
    requires QuotedPrintable(current + [EQUALS]) && !StartsBlank(line)
    ensures Unfold(current + [EQUALS], [line] + rest) == Unfold(current + line, rest)
  {
    var broken := current + [EQUALS];
    assert broken[..|broken| - 1] == current;
    assert ([line] + rest)[1..] == rest;
    assert TrimStart(line) == line;
  }

  lemma Regroup(h: Text, text: Text, piece: Text, pieces: seq<Text>)
    ensures h + text + Broken(piece, pieces) == Broken(h + (text + piece), pieces)
    ensures text + piece + Flatten(pieces) == text + (piece + Flatten(pieces))
  {
  }

  lemma SoftTailCons(pieces: seq<Text>, rest: seq<Text>)
    requires pieces != []
    ensures SoftTail(pieces) + rest == [Broken(pieces[0], pieces[1..])] + (SoftTail(pieces[1..]) + rest)
  {
  }

  lemma BrokenHeaderMarks(h: Text, text: Text)
    requires Header(h)
    ensures QuotedPrintable(h + text + [EQUALS])
  {
    HeaderMarks(h, text + [EQUALS]);
    assert h + text + [EQUALS] == h + (text + [EQUALS]);
  }

  lemma SoftStep(h: Text, text: Text, pieces: seq<Text>, rest: seq<Text>)
    requires QuotedPrintable(h + text + [EQUALS]) && pieces != [] && !StartsBlank(pieces[0])
    ensures Unfold(Broken(h + text, pieces), SoftTail(pieces) + rest)
            == Unfold(Broken(h + (text + pieces[0]), pieces[1..]), SoftTail(pieces[1..]) + rest)
  {
    var line := Broken(pieces[0], pieces[1..]);
    assert !StartsBlank(line);
    UnfoldSoft(h + text, line, SoftTail(pieces[1..]) + rest);
    SoftTailCons(pieces, rest);
    Regroup(h, text, pieces[0], pieces[1..]);
  }

  /** With the header and `text` read so far, soft-broken pieces join to one line, and the next
      property starts its own. */
  lemma {:induction false} SoftBreaksUnfold(h: Text, text: Text, pieces: seq<Text>, rest: seq<Text>)
    requires Header(h)
    requires forall i | 0 <= i < |pieces| :: !StartsBlank(pieces[i])
    requires rest != [] ==> !Continues(rest[0])
    requires var all := text + Flatten(pieces); all == [] || all[|all| - 1] != EQUALS
    ensures Unfold(Broken(h + text, pieces), SoftTail(pieces) + rest)
            == [h + (text + Flatten(pieces))] + Unfold([], rest)
    decreases |pieces|
  {
    if pieces == [] {
      assert text + Flatten(pieces) == text && SoftTail(pieces) + rest == rest;
      HeaderEnds(h, text, rest);
    } else {
      BrokenHeaderMarks(h, text);
      SoftStep(h, text, pieces, rest);
      Regroup(h, text, pieces[0], pieces[1..]);
      SoftBreaksUnfold(h, text + pieces[0], pieces[1..], rest);
    }
  }

  /** The first line of a quoted-printable property is taken as it is. */
  lemma HeaderStarts(h: Text, text: Text, pieces: seq<Text>, later: seq<Text>)
    requires h != [] && !Continues(h)
    ensures Unfold([], [Broken(h + text, pieces)] + later) == Unfold(Broken(h + text, pieces), later)
  {
    var first := Broken(h + text, pieces);
    assert first[0] == h[0];
    UnfoldFirst(first, later);
  }

  lemma SoftLinesUnfold(h: Text, text: Text, pieces: seq<Text>, rest: seq<Text>)
    requires Header(h) && !Continues(h)
    requires forall i | 0 <= i < |pieces| :: !StartsBlank(pieces[i])
    requires rest != [] ==> !Continues(rest[0])
    requires var all := text + Flatten(pieces); all == [] || all[|all| - 1] != EQUALS
    ensures Unfold([], SoftLines(h + text, pieces) + rest) == [h + (text + Flatten(pieces))] + Unfold([], rest)
  {
    SoftBreaksUnfold(h, text, pieces, rest);
    HeaderStarts(h, text, pieces, SoftTail(pieces) + rest);
    Reassociate(Broken(h + text, pieces), SoftTail(pieces), rest);
  }

  lemma Reassociate(line: Text, tail: seq<Text>, rest: seq<Text>)
    ensures [line] + tail + rest == [line] + (tail + rest)
  {
  }

  lemma ValueOf(h: Text, value: Text)
    ensures (h + value)[|h|..] == value
  {
  }

  /** A quoted-printable property, encoded by any encoder and soft-broken anywhere as long as no
      continuation starts with white space, unfolds to one line whose value decodes to the
      original, and the lines after it are unfolded as if it were not there. */
  lemma QuotedPrintableRoundTrip(h: Text, source: Text, text: Text, pieces: seq<Text>, rest: seq<Text>, crlf: bool)
    requires Header(h) && !Continues(h)
    requires Encodes(source, text + Flatten(pieces))
    requires forall i | 0 <= i < |pieces| :: !StartsBlank(pieces[i])
    requires rest != [] ==> !Continues(rest[0])
    requires forall i | 0 <= i < |SoftLines(h + text, pieces) + rest| :: Plain((SoftLines(h + text, pieces) + rest)[i])
    ensures Lines(Join(SoftLines(h + text, pieces) + rest, crlf)) == SoftLines(h + text, pieces) + rest
    ensures Unfold([], SoftLines(h + text, pieces) + rest) == [h + (text + Flatten(pieces))] + Unfold([], rest)
    ensures Decode((h + (text + Flatten(pieces)))[|h|..]) == source
    ensures Lossy(Decode((h + (text + Flatten(pieces)))[|h|..])) == source <==> Utf8(source)
  {
    var encoded := text + Flatten(pieces);
    LinesOfJoin(SoftLines(h + text, pieces) + rest, crlf);
    DecodeUndoesEncoding(source, encoded);
    if encoded != [] {
      EncodedNeverEndsInEquals(source, encoded);
    }
    SoftLinesUnfold(h, text, pieces, rest);
    ValueOf(h, encoded);
    LossyKeepsText(source);
  }

  // --- White-space folding ---------------------------------------------------------------------

  /** Each piece on a line of its own, behind a space or a tab. */
  predicate Folds(folds: seq<Text>, pieces: seq<Text>) {
    && |folds| == |pieces|
    && forall i | 0 <= i < |folds| :: Continues(folds[i]) && folds[i][1..] == pieces[i]
  }

  function Trimmed(pieces: seq<Text>): Text {
    if pieces == [] then [] else TrimStart(pieces[0]) + Trimmed(pieces[1..])
  }

  lemma {:induction false} FoldsUnfold(current: Text, folds: seq<Text>, pieces: seq<Text>, rest: seq<Text>)
    requires Folds(folds, pieces)
    ensures Unfold(current, folds + rest) == Unfold(current + Trimmed(pieces), rest)
    decreases |pieces|
  {
    if pieces == [] {
      NothingFolded(current, folds, rest);
    } else {
      FoldStep(current, folds, pieces, rest);
      FoldsUnfold(current + TrimStart(pieces[0]), folds[1..], pieces[1..], rest);
      TrimmedCons(current, pieces);
    }
  }

  lemma NothingFolded(current: Text, folds: seq<Text>, rest: seq<Text>)
    requires folds == []
    ensures current + Trimmed([]) == current && folds + rest == rest
  {
  }

  lemma TrimmedCons(current: Text, pieces: seq<Text>)
    requires pieces != []
    ensures current + TrimStart(pieces[0]) + Trimmed(pieces[1..]) == current + Trimmed(pieces)
  {
  }

  lemma FoldStep(current: Text, folds: seq<Text>, pieces: seq<Text>, rest: seq<Text>)
    requires Folds(folds, pieces) && pieces != []
    ensures Unfold(current, folds + rest) == Unfold(current + TrimStart(pieces[0]), folds[1..] + rest)
    ensures Folds(folds[1..], pieces[1..])
  {
    assert forall i | 0 <= i < |pieces[1..]| :: folds[1..][i] == folds[i + 1] && pieces[1..][i] == pieces[i + 1];
    var lines := folds + rest;
    assert lines[0] == folds[0] && lines[1..] == folds[1..] + rest;
    assert LeadingBlank(folds[0]) == 1 && TrimStart(folds[0]) == TrimStart(pieces[0]);
  }

  lemma {:induction false} TrimmedShortens(pieces: seq<Text>)
    ensures |Trimmed(pieces)| <= |Flatten(pieces)|
    ensures Trimmed(pieces) == Flatten(pieces) <==> forall i | 0 <= i < |pieces| :: !StartsBlank(pieces[i])
    decreases |pieces|
  {
    if pieces != [] {
      var piece, others := pieces[0], pieces[1..];
      TrimmedShortens(others);
      TrimShortens(piece);
      FirstAndOthers(pieces);
      if !StartsBlank(piece) {
        SameFront(piece, Trimmed(others), Flatten(others));
      }
    }
  }

  lemma FirstAndOthers(pieces: seq<Text>)
    requires pieces != []
    ensures (forall i | 0 <= i < |pieces| :: !StartsBlank(pieces[i]))
            <==> !StartsBlank(pieces[0]) && forall i | 0 <= i < |pieces[1..]| :: !StartsBlank(pieces[1..][i])
  {
    assert forall i | 1 <= i < |pieces| :: pieces[i] == pieces[1..][i - 1];
  }

  lemma UnfoldFirst(first: Text, rest: seq<Text>)
    requires first != [] && !Continues(first)
    ensures Unfold([], [first] + rest) == Unfold(first, rest)
  {
    assert ([first] + rest)[1..] == rest;
    assert Flush([]) + Unfold(first, rest) == Unfold(first, rest);
  }

  lemma SameFront(front: Text, a: Text, b: Text)
    ensures front + a == front + b <==> a == b
  {
    ValueOf(front, a);
    ValueOf(front, b);
  }

  lemma LineEnds(line: Text, rest: seq<Text>)
    requires line != []
    requires rest != [] ==> !Continues(rest[0]) && !SoftBreak(line)
    ensures Unfold(line, rest) == [line] + Unfold([], rest)
  {
    if rest != [] {
      assert Flush([]) + Unfold(rest[0], rest[1..]) == Unfold(rest[0], rest[1..]);
    }
  }

  lemma SameHead(a: Text, b: Text, rest: seq<Text>)
    ensures [a] + rest == [b] + rest <==> a == b
  {
    assert ([a] + rest)[0] == a && ([b] + rest)[0] == b;
  }

  /** White-space folding comes back exactly when no cut precedes white space, whichever blank
      begins the continuations, and the next property starts its own line. A property that
      ends like a quoted-printable soft break is the business of QuotedPrintableRoundTrip. */
  lemma FoldingRoundTrip(first: Text, folds: seq<Text>, pieces: seq<Text>, rest: seq<Text>, crlf: bool)
    requires first != [] && !Continues(first) && Folds(folds, pieces)
    requires rest != [] ==> !Continues(rest[0]) && !SoftBreak(first + Trimmed(pieces))
    requires var lines := [first] + (folds + rest); forall i | 0 <= i < |lines| :: Plain(lines[i])
    ensures Unfold([], Lines(Join([first] + (folds + rest), crlf))) == [first + Flatten(pieces)] + Unfold([], rest)
            <==> forall i | 0 <= i < |pieces| :: !StartsBlank(pieces[i])
  {
    LinesOfJoin([first] + (folds + rest), crlf);
    UnfoldFirst(first, folds + rest);
    FoldsUnfold(first, folds, pieces, rest);
    LineEnds(first + Trimmed(pieces), rest);
    SameHead(first + Trimmed(pieces), first + Flatten(pieces), Unfold([], rest));
    SameFront(first, Trimmed(pieces), Flatten(pieces));
    TrimmedShortens(pieces);
  }

  /** "N:a b" cut before its space: the space is lost. */
  lemma FoldingCanLoseASpace()
    ensures Unfold([], Lines(Join([[78, COLON, 97], [32, 32, 98]], true))) == [[78, COLON, 97, 98]]
  {
    var first, fold, piece: Text := [78, COLON, 97], [32, 32, 98], [32, 98];
    assert Folds([fold], [piece]);
    LinesOfJoin([first, fold], true);
    UnfoldFirst(first, [fold]);
    assert [first] + [fold] == [first, fold] && [fold] + [] == [fold];
    FoldsUnfold(first, [fold], [piece], []);
    assert piece[1..] == [98] && TrimStart(piece) == [98] && Trimmed([piece]) == [98] + Trimmed([]);
    assert first + Trimmed([piece]) == [78, COLON, 97, 98];
  }

  // --- An encoder and its headers, spelled out ---------------------------------------------------

  /** The bytes of an ASCII text. */
  function Ascii(s: string): Text
    requires forall i | 0 <= i < |s| :: s[i] < '\U{80}'
  {
    seq(|s|, i requires 0 <= i < |s| => s[i] as int as byte)
  }

  function HexDigit(n: nat, lower: bool): byte
    requires n < 16
  {
    (if lower then "0123456789abcdef"[n] else "0123456789ABCDEF"[n]) as int as byte
  }

  /** '=' and two hexadecimal digits, the more significant one first. */
  function Escape(b: byte, lower: bool): Text {
    [EQUALS, HexDigit(b as int / 16, lower), HexDigit(b as int % 16, lower)]
  }

  /** The encoder that keeps the bytes `literal` says, and writes digits of the case `lower` says. */
  function Encode(source: Text, literal: byte -> bool, lower: byte -> bool): Text {
    if source == [] then []
    else (if literal(source[0]) then [source[0]] else Escape(source[0], lower(source[0])))
         + Encode(source[1..], literal, lower)
  }

  lemma DigitsRead(n: nat, lower: bool)
    requires n < 16
    ensures HexValue(HexDigit(n, lower)) == Some(n)
  {
  }

  lemma EscapeReads(b: byte, lower: bool, rest: Text)
    ensures var all := Escape(b, lower) + rest;
            Escaped(all) && HexByte(all[1], all[2]) == b && all[3..] == rest
  {
    DigitsRead(b as int / 16, lower);
    DigitsRead(b as int % 16, lower);
  }

  /** Whatever it keeps, as long as that is not '=', and in either case, decoding undoes it. */
  lemma {:induction false} EncoderIsUndone(source: Text, literal: byte -> bool, lower: byte -> bool)
    requires !literal(EQUALS)
    ensures Encodes(source, Encode(source, literal, lower))
    ensures Decode(Encode(source, literal, lower)) == source
  {
    if source != [] {
      EncoderIsUndone(source[1..], literal, lower);
      var rest := Encode(source[1..], literal, lower);
      if literal(source[0]) {
        assert ([source[0]] + rest)[1..] == rest;
      } else {
        EscapeReads(source[0], lower(source[0]), rest);
      }
    }
    DecodeUndoesEncoding(source, Encode(source, literal, lower));
  }

  lemma ParameterSpelled()
    ensures |QP_PARAMETER| == 25
    ensures QP_PARAMETER[..13] == Ascii("ENCODING=QUOT") && QP_PARAMETER[13..] == Ascii("ED-PRINTABLE")
  {
    var first, second := Ascii("ENCODING=QUOT"), Ascii("ED-PRINTABLE");
    assert QP_PARAMETER[..13] == [69, 78, 67, 79, 68, 73, 78, 71, 61, 81, 85, 79, 84];
    assert QP_PARAMETER[13..] == [69, 68, 45, 80, 82, 73, 78, 84, 65, 66, 76, 69];
  }

  /** The letters may be of either case. */
  predicate Spells(t: Text, upper: Text) {
    && |t| == |upper|
    && forall k | 0 <= k < |t| ::
         t[k] == upper[k] || (65 <= upper[k] <= 90 && t[k] as int == upper[k] as int + 32)
  }

  /** A property with the parameter anywhere before its colon is quoted-printable. */
  lemma ParameterMarks(before: Text, parameter: Text, after: Text)
    requires COLON !in before && COLON !in after
    requires Spells(parameter, Ascii("ENCODING=QUOT") + Ascii("ED-PRINTABLE"))
    ensures Header(before + parameter + after + [COLON])
  {
    ParameterSpelled();
    assert QP_PARAMETER == QP_PARAMETER[..13] + QP_PARAMETER[13..];
    ParameterHolds(before, parameter, after);
  }

  lemma ParameterHolds(before: Text, parameter: Text, after: Text)
    requires COLON !in before && COLON !in after && Spells(parameter, QP_PARAMETER)
    ensures Header(before + parameter + after + [COLON])
  {
    var property := before + parameter + after;
    var h := property + [COLON];
    forall i | 0 <= i < |property|
      ensures h[i] != COLON
    {
      if |before| <= i < |before| + |parameter| {
        assert h[i] == parameter[i - |before|] && QP_PARAMETER[i - |before|] != COLON;
      } else if i < |before| {
        assert h[i] == before[i] && before[i] in before;
      } else {
        assert h[i] == after[i - |before| - |parameter|] && h[i] in after;
      }
    }
    assert h[|property|] == COLON;
    assert ColonAt(h) == |property|;
    assert h[..|property|] == property;
    forall k | 0 <= k < |QP_PARAMETER|
      ensures Upper(property[|before| + k]) == QP_PARAMETER[k]
    {
      assert property[|before| + k] == parameter[k];
    }
    assert HasParameterAt(property, |before|);
  }

  /** A property too short to hold the parameter joins nothing, whatever its value ends in, as
      base64 padding does in '='. */
  lemma ShortPropertyJoinsNothing(property: Text, value: Text, rest: seq<Text>)
    requires COLON !in property && |property| < 25 && property != []
    requires rest != [] ==> !Continues(rest[0])
    ensures Unfold(property + [COLON] + value, rest) == [property + [COLON] + value] + Unfold([], rest)
  {
    var line := property + [COLON] + value;
    assert line[|property|] == COLON;
    forall i | 0 <= i < |property|
      ensures line[i] != COLON
    {
      assert line[i] == property[i] && property[i] in property;
    }
    assert ColonAt(line) == |property|;
    LineEnds(line, rest);
  }
}
