/** Text as bytes: UTF-8, its lossy conversion, Unicode white space and line ends, as the
    standard library of the source has them. */
module Bytes {
  import opened Common

  type Text = seq<byte>

  const NEWLINE: byte := 10

  function Flatten(pieces: seq<Text>): Text {
    if pieces == [] then [] else pieces[0] + Flatten(pieces[1..])
  }

  function NewlineAt(s: Text): (p: nat)
    ensures p <= |s|
    ensures p < |s| ==> s[p] == NEWLINE
    ensures forall i | 0 <= i < p :: s[i] != NEWLINE
  {
    if s == [] || s[0] == NEWLINE then 0 else 1 + NewlineAt(s[1..])
  }

  // --- UTF-8 ---------------------------------------------------------------------------------

  predicate Continuation(b: byte) {
    128 <= b < 192
  }

  /** Length of the character a byte starts; 0 if it starts none. */
  function Width(lead: byte): nat {
    if lead < 128 then 1
    else if 194 <= lead < 224 then 2
    else if 224 <= lead < 240 then 3
    else if 240 <= lead < 245 then 4
    else 0
  }

  /** Excludes overlong forms, surrogates and what lies beyond U+10FFFF. */
  predicate SecondByte(lead: byte, b: byte) {
    match lead as int
    case 224 => 160 <= b < 192
    case 237 => 128 <= b < 160
    case 240 => 144 <= b < 192
    case 244 => 128 <= b < 144
    case _ => Continuation(b)
  }

  predicate StartsWithChar(s: Text) {
    && s != []
    && 1 <= Width(s[0]) <= |s|
    && (Width(s[0]) >= 2 ==> SecondByte(s[0], s[1]))
    && (Width(s[0]) >= 3 ==> Continuation(s[2]))
    && (Width(s[0]) >= 4 ==> Continuation(s[3]))
  }

  predicate Utf8(s: Text)
    decreases |s|
  {
    s == [] || (StartsWithChar(s) && Utf8(s[Width(s[0])..]))
  }

  lemma Rejoin(a: Text, b: Text, n: nat)
    requires n <= |a|
    ensures a[..n] + (a[n..] + b) == a + b
  {
  }

  lemma {:induction false} Utf8Concat(a: Text, b: Text)
    requires Utf8(a) && Utf8(b)
    ensures Utf8(a + b)
    decreases |a|
  {
    if a == [] {
      assert a + b == b;
    } else {
      var c, rest := a[..Width(a[0])], a[Width(a[0])..];
      Utf8Concat(rest, b);
      CharFirst(c, rest + b);
      Rejoin(a, b, |c|);
    }
  }

  /** U+FFFD */
  const REPLACEMENT: Text := [239, 191, 189]

  /** Length of the invalid beginning that one replacement character stands for. */
  function BadLength(s: Text): (n: nat)
    requires s != [] && !StartsWithChar(s)
    ensures 1 <= n <= |s|
  {
    if Width(s[0]) < 2 || |s| < 2 || !SecondByte(s[0], s[1]) then 1
    else if |s| < 3 || !Continuation(s[2]) then 2
    else 3
  }

  /** The lossy conversion to text. */
  function Lossy(s: Text): Text
    decreases |s|
  {
    if s == [] then []
    else if StartsWithChar(s) then s[..Width(s[0])] + Lossy(s[Width(s[0])..])
    else REPLACEMENT + Lossy(s[BadLength(s)..])
  }

  lemma CharFirst(c: Text, rest: Text)
    requires StartsWithChar(c) && Width(c[0]) == |c|
    ensures Utf8(rest) ==> Utf8(c + rest)
  {
    assert (c + rest)[|c|..] == rest;
  }

  lemma {:induction false} LossyIsText(s: Text)
    ensures Utf8(Lossy(s))
    decreases |s|
  {
    if s != [] {
      if StartsWithChar(s) {
        LossyIsText(s[Width(s[0])..]);
        CharFirst(s[..Width(s[0])], Lossy(s[Width(s[0])..]));
      } else {
        LossyIsText(s[BadLength(s)..]);
        CharFirst(REPLACEMENT, Lossy(s[BadLength(s)..]));
      }
    }
  }

  /** The conversion loses nothing exactly on text. */
  lemma {:induction false} LossyKeepsText(s: Text)
    ensures Lossy(s) == s <==> Utf8(s)
    decreases |s|
  {
    LossyIsText(s);
    if s != [] && Utf8(s) {
      LossyKeepsText(s[Width(s[0])..]);
      assert s[..Width(s[0])] + s[Width(s[0])..] == s;
    }
  }

  // --- White space ---------------------------------------------------------------------------

  predicate BlankByte(b: byte) {
    9 <= b <= 13 || b == 32
  }

  /** U+0085 and U+00A0. */
  predicate BlankPair(a: byte, b: byte) {
    a == 194 && (b == 133 || b == 160)
  }

  /** U+1680, U+2000 to U+200A, U+2028, U+2029, U+202F, U+205F and U+3000. */
  predicate BlankTriple(a: byte, b: byte, c: byte) {
    || (a == 225 && b == 154 && c == 128)
    || (a == 226 && b == 128 && (128 <= c <= 138 || c == 168 || c == 169 || c == 175))
    || (a == 226 && b == 129 && c == 159)
    || (a == 227 && b == 128 && c == 128)
  }

  /** Length of the white-space character at the start; 0 if there is none. */
  function LeadingBlank(s: Text): (n: nat)
    ensures n <= |s|
  {
    if |s| >= 1 && BlankByte(s[0]) then 1
    else if |s| >= 2 && BlankPair(s[0], s[1]) then 2
    else if |s| >= 3 && BlankTriple(s[0], s[1], s[2]) then 3
    else 0
  }

  function TrailingBlank(s: Text): (n: nat)
    ensures n <= |s|
  {
    if |s| >= 1 && BlankByte(s[|s| - 1]) then 1
    else if |s| >= 2 && BlankPair(s[|s| - 2], s[|s| - 1]) then 2
    else if |s| >= 3 && BlankTriple(s[|s| - 3], s[|s| - 2], s[|s| - 1]) then 3
    else 0
  }

  function TrimStart(s: Text): Text
    decreases |s|
  {
    if LeadingBlank(s) == 0 then s else TrimStart(s[LeadingBlank(s)..])
  }

  function TrimEnd(s: Text): Text
    decreases |s|
  {
    if TrailingBlank(s) == 0 then s else TrimEnd(s[..|s| - TrailingBlank(s)])
  }

  function Trim(s: Text): Text {
    TrimEnd(TrimStart(s))
  }

  lemma {:induction false} TrimShortens(s: Text)
    ensures |TrimStart(s)| <= |s|
    ensures TrimStart(s) == s <==> LeadingBlank(s) == 0
    ensures LeadingBlank(s) > 0 ==> |TrimStart(s)| < |s|
    decreases |s|
  {
    if LeadingBlank(s) > 0 {
      TrimShortens(s[LeadingBlank(s)..]);
    }
  }

  /** White space around a text that has none at its ends goes, and nothing else. */
  lemma TrimDropsPadding(before: byte, s: Text, after: byte)
    requires BlankByte(before) && BlankByte(after)
    requires s != [] && LeadingBlank(s) == 0 && TrailingBlank(s) == 0
    ensures Trim([before] + s + [after]) == s
  {
    var all := [before] + s + [after];
    assert all[1..] == s + [after];
    assert LeadingBlank(s + [after]) == 0;
    assert TrimStart(s + [after]) == s + [after] && TrimStart(all) == s + [after];
    assert (s + [after])[..|s|] == s && TrailingBlank(s + [after]) == 1;
    assert TrimEnd(s) == s && TrimEnd(s + [after]) == s;
  }
}
