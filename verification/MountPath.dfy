/** Undoing the kernel's octal escapes in mount paths (plugins/sftp.rs), on the bytes of the
    text. The source slices the text, which panics inside a multi-byte character; that outcome
    is None here. */
module MountPath {
  import opened Common
  import opened Bytes

  const BACKSLASH: byte := 92

  predicate Boundary(s: Text, i: nat) {
    i >= |s| || !Continuation(s[i])
  }

  predicate OctalDigit(b: byte) {
    48 <= b <= 55
  }

  /** Parsing three characters as an octal byte; a leading plus sign is accepted. */
  function ParseOctal(a: byte, b: byte, c: byte): Option<byte> {
    if !OctalDigit(b) || !OctalDigit(c) || !(OctalDigit(a) || a == 43) then None
    else
      var high := if a == 43 then 0 else (a as int - 48) * 64;
      var value := high + (b as int - 48) * 8 + (c as int - 48);
      if value < 256 then Some(value as byte) else None
  }

  function Prepend(front: Text, rest: Option<Text>): Option<Text> {
    if rest.None? then None else Some(front + rest.value)
  }

  function Unescape(s: Text): Option<Text> {
    if s == [] then Some([])
    else if s[0] == BACKSLASH && 4 <= |s| then
      if !Boundary(s, 1) || !Boundary(s, 4) then None
      else if ParseOctal(s[1], s[2], s[3]).Some? then Prepend([ParseOctal(s[1], s[2], s[3]).value], Unescape(s[4..]))
      else Prepend([s[0]], Unescape(s[1..]))
    else Prepend([s[0]], Unescape(s[1..]))
  }

  /** The unescaped bytes as text: what is not UTF-8 is replaced. */
  function Unescaped(s: Text): Option<Text> {
    if Unescape(s).None? then None else Some(Lossy(Unescape(s).value))
  }

  method UnescapeMountPath(s: Text) returns (out: Option<Text>)
    ensures out == Unescaped(s)
  {
    var bytes: Text := [];
    var i := 0;
    PrependNothing(Unescape(s));
    assert s[0..] == s;
    while i < |s|
      invariant i <= |s|
      invariant Unescape(s) == Prepend(bytes, Unescape(s[i..]))
    {
      ghost var rest := s[i..];
      PrependTwice(bytes, [s[i]], Unescape(s[i + 1..]));
      assert rest[1..] == s[i + 1..];
      if s[i] == BACKSLASH && i + 4 <= |s| {
        assert rest[4..] == s[i + 4..];
        if !Boundary(s, i + 1) || !Boundary(s, i + 4) {
          return None;
        }
        var octal := ParseOctal(s[i + 1], s[i + 2], s[i + 3]);
        if octal.Some? {
          PrependTwice(bytes, [octal.value], Unescape(s[i + 4..]));
          bytes := bytes + [octal.value];
          i := i + 4;
          continue;
        }
      }
      bytes := bytes + [s[i]];
      i := i + 1;
    }
    assert s[|s|..] == [] && bytes + [] == bytes;
    out := Some(Lossy(bytes));
  }

  lemma PrependNothing(rest: Option<Text>)
    ensures Prepend([], rest) == rest
  {
    if rest.Some? {
      assert [] + rest.value == rest.value;
    }
  }

  lemma PrependTwice(a: Text, b: Text, rest: Option<Text>)
    ensures Prepend(a, Prepend(b, rest)) == Prepend(a + b, rest)
  {
    if rest.Some? {
      assert a + (b + rest.value) == a + b + rest.value;
    }
  }

  // --- The kernel's side ---------------------------------------------------------------------

  function Octal(b: byte): Text {
    var n := b as int;
    [BACKSLASH, (48 + n / 64) as byte, (48 + n / 8 % 8) as byte, (48 + n % 8) as byte]
  }

  /** Any kernel's escaping: `escapes` says which bytes are written in octal. */
  function Escape(p: Text, escapes: byte -> bool): Text {
    if p == [] then [] else (if escapes(p[0]) then Octal(p[0]) else [p[0]]) + Escape(p[1..], escapes)
  }

  lemma OctalParses(b: byte)
    ensures var o := Octal(b); ParseOctal(o[1], o[2], o[3]) == Some(b)
  {
  }

  /** No escaped byte is directly followed by a continuation byte that is not escaped. */
  predicate KeepsCharacters(p: Text, escapes: byte -> bool) {
    forall i | 0 <= i < |p| - 1 :: escapes(p[i]) && Continuation(p[i + 1]) ==> escapes(p[i + 1])
  }

  /** Unescaping undoes the escaping of every byte string, by any kernel that escapes at least
      the backslash, exactly when no escape is stuck to half a character. */
  lemma {:induction false} UnescapeUndoesEscape(p: Text, escapes: byte -> bool)
    requires escapes(BACKSLASH)
    ensures KeepsCharacters(p, escapes) ==> Unescape(Escape(p, escapes)) == Some(p)
    ensures !KeepsCharacters(p, escapes) ==> Unescape(Escape(p, escapes)) == None
  {
    if p != [] {
      var rest := Escape(p[1..], escapes);
      var all := Escape(p, escapes);
      UnescapeUndoesEscape(p[1..], escapes);
      KeepsCharactersSplits(p, escapes);
      assert [p[0]] + p[1..] == p;
      if escapes(p[0]) {
        OctalParses(p[0]);
        assert all == Octal(p[0]) + rest && all[4..] == rest;
        assert Boundary(all, 4) <==> |p| == 1 || !Continuation(p[1]) || escapes(p[1]);
      } else {
        assert all == [p[0]] + rest && all[1..] == rest;
      }
    }
  }

  lemma KeepsCharactersSplits(p: Text, escapes: byte -> bool)
    requires p != []
    ensures KeepsCharacters(p, escapes) <==>
              (|p| > 1 && escapes(p[0]) && Continuation(p[1]) ==> escapes(p[1])) && KeepsCharacters(p[1..], escapes)
  {
    var rest := p[1..];
    assert forall i | 0 <= i < |rest| :: rest[i] == p[i + 1];
    if KeepsCharacters(rest, escapes) {
      forall i | 1 <= i < |p| - 1
        ensures escapes(p[i]) && Continuation(p[i + 1]) ==> escapes(p[i + 1])
      {
        assert rest[i - 1] == p[i] && rest[i] == p[i + 1];
      }
    }
  }

  // --- Text ----------------------------------------------------------------------------------

  lemma {:induction false} AsciiEndsCharacters(s: Text, i: nat)
    requires Utf8(s) && i < |s| - 1 && s[i] < 128
    ensures !Continuation(s[i + 1])
  {
    var n := Width(s[0]);
    if i == 0 {
      assert Utf8(s[1..]) && s[1..][0] == s[1];
    } else {
      assert i >= n;
      assert s[n..][i - n] == s[i] && s[n..][i - n + 1] == s[i + 1];
      AsciiEndsCharacters(s[n..], i - n);
    }
  }

  /** The kernel escapes space, tab, newline and backslash. */
  predicate KernelEscapes(b: byte) {
    b == 32 || b == 9 || b == 10 || b == BACKSLASH
  }

  lemma KernelKeepsCharacters(p: Text)
    requires Utf8(p)
    ensures KeepsCharacters(p, KernelEscapes)
  {
    forall i | 0 <= i < |p| - 1 && KernelEscapes(p[i])
      ensures !Continuation(p[i + 1])
    {
      AsciiEndsCharacters(p, i);
    }
  }

  lemma PathComesBack(p: Text)
    requires Utf8(p)
    ensures Unescape(Escape(p, KernelEscapes)) == Some(p)
    ensures Unescaped(Escape(p, KernelEscapes)) == Some(p)
  {
    KernelKeepsCharacters(p);
    UnescapeUndoesEscape(p, KernelEscapes);
    LossyKeepsText(p);
  }

  /** Every UTF-8 path, of any script, comes back as it was, so escaped mount paths compare
      equal exactly when the originals do. */
  lemma MountPathsCompareEqual(p: Text, q: Text)
    requires Utf8(p) && Utf8(q)
    ensures Unescaped(Escape(p, KernelEscapes)) == Some(p)
    ensures Escape(p, KernelEscapes) == Escape(q, KernelEscapes) <==> p == q
    ensures Unescaped(Escape(p, KernelEscapes)) == Unescaped(Escape(q, KernelEscapes)) <==> p == q
  {
    PathComesBack(p);
    PathComesBack(q);
  }

  // --- Text that was never escaped -------------------------------------------------------------

  /** A backslash whose third following character is cut by the slice. */
  predicate CutAt(s: Text, i: nat) {
    i + 4 <= |s| && s[i] == BACKSLASH && !(Boundary(s, i + 1) && Boundary(s, i + 4))
  }

  predicate Cut(s: Text) {
    exists i: nat | i < |s| :: CutAt(s, i)
  }

  lemma CutCons(s: Text)
    requires s != []
    ensures Cut(s) <==> CutAt(s, 0) || Cut(s[1..])
  {
    forall i: nat | 1 <= i < |s|
      ensures CutAt(s, i) <==> CutAt(s[1..], i - 1)
    {
    }
    if Cut(s[1..]) {
      var i: nat :| i < |s[1..]| && CutAt(s[1..], i);
      assert CutAt(s, i + 1);
    }
  }

  lemma CutAfterOctal(s: Text)
    requires 4 <= |s| && s[0] == BACKSLASH && !CutAt(s, 0) && ParseOctal(s[1], s[2], s[3]).Some?
    ensures Cut(s) <==> Cut(s[4..])
  {
    CutCons(s);
    CutCons(s[1..]);
    CutCons(s[2..]);
    CutCons(s[3..]);
    assert s[1..][1..] == s[2..] && s[2..][1..] == s[3..] && s[3..][1..] == s[4..];
  }

  /** On any byte string, the slice fails exactly when some backslash is followed, at the third
      character behind it, by the inside of a character. */
  lemma {:induction false} UnescapeFailsExactly(s: Text)
    ensures Unescape(s) == None <==> Cut(s)
    decreases |s|
  {
    if s != [] {
      CutCons(s);
      UnescapeFailsExactly(s[1..]);
      if s[0] == BACKSLASH && 4 <= |s| && !CutAt(s, 0) && ParseOctal(s[1], s[2], s[3]).Some? {
        CutAfterOctal(s);
        UnescapeFailsExactly(s[4..]);
      }
    }
  }

  /** A backslash, two letters and an accented one: text on which the slice fails. */
  lemma UnescapeCanFail()
    ensures Utf8([BACKSLASH, 97, 98, 195, 169]) && Unescape([BACKSLASH, 97, 98, 195, 169]) == None
  {
    var s: Text := [BACKSLASH, 97, 98, 195, 169];
    var accented: Text := [195, 169];
    assert accented[2..] == [] && Utf8(accented);
    CharFirst([98], accented);
    CharFirst([97], [98] + accented);
    CharFirst([BACKSLASH], [97] + ([98] + accented));
    assert s == [BACKSLASH] + ([97] + ([98] + accented));
    assert CutAt(s, 0);
    UnescapeFailsExactly(s);
  }

  /** How the kernel spells what it escapes: space, tab, newline and backslash. */
  lemma KernelSpelling()
    ensures Escape([32], KernelEscapes) == [92, 48, 52, 48]
    ensures Escape([9], KernelEscapes) == [92, 48, 49, 49]
    ensures Escape([10], KernelEscapes) == [92, 48, 49, 50]
    ensures Escape([92], KernelEscapes) == [92, 49, 51, 52]
    ensures forall b: byte | b !in {9, 10, 32, 92} :: Escape([b], KernelEscapes) == [b]
  {
    assert forall b: byte :: [b][1..] == [];
  }
}
