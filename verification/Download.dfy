/** Publishing a download (download.rs): never over an existing file, under the first free name
    of a numbered series. */
module Download {
  import opened Common
  import opened Decimals

  type Content = seq<byte>

  predicate ValidFilename(name: string) {
    name != "" && '/' !in name && '\\' !in name && '\0' !in name && name != "." && name != ".."
  }

  // --- Candidate names -----------------------------------------------------------------------

  /** Length of the stem: up to the last dot, unless that is the first character. */
  function LastDot(name: string): (d: nat)
    ensures d <= |name|
    ensures d < |name| ==> name[d] == '.'
    ensures forall i | d < i < |name| :: name[i] != '.'
    ensures d == |name| ==> forall i | 0 <= i < |name| :: name[i] != '.'
    decreases |name|
  {
    if name == [] then 0
    else if name[|name| - 1] == '.' then |name| - 1
    else
      var d := LastDot(name[..|name| - 1]);
      if d == |name| - 1 then |name| else d
  }

  function Stem(name: string): string {
    if LastDot(name) == 0 then name else name[..LastDot(name)]
  }

  /** With its dot, or empty. */
  function Extension(name: string): string {
    if LastDot(name) == 0 then "" else name[LastDot(name)..]
  }

  /** A name is its stem and its extension. The extension is what the last dot begins, unless
      that is the first character; then, or without a dot, there is none. */
  lemma StemAndExtension(name: string)
    requires name != ""
    ensures Stem(name) + Extension(name) == name && Stem(name) != ""
    ensures Extension(name) == "" <==> forall i | 1 <= i < |name| :: name[i] != '.'
    ensures Extension(name) != "" ==>
              Extension(name)[0] == '.' && forall i | 1 <= i < |Extension(name)| :: Extension(name)[i] != '.'
  {
    var d := LastDot(name);
    if 0 < d < |name| {
      assert name[d] == '.';
      forall i | 1 <= i < |Extension(name)|
        ensures Extension(name)[i] != '.'
      {
        assert Extension(name)[i] == name[d + i];
      }
    }
  }

  /** The number stands in parentheses between stem and extension; the first name is the name. */
  lemma CandidateIsNumbered(name: string, n: nat)
    ensures Candidate(name, 0) == name
    ensures n > 0 ==> Candidate(name, n) == Stem(name) + " (" + Decimal(n) + ")" + Extension(name)
  {
  }

  lemma SplitsAt(name: string, d: nat)
    requires 0 < d < |name| && name[d] == '.' && forall i | d < i < |name| :: name[i] != '.'
    ensures Stem(name) == name[..d] && Extension(name) == name[d..]
  {
    assert LastDot(name) == d;
  }

  lemma SecondPhoto()
    ensures Candidate("photo.jpg", 1) == "photo (1).jpg" && ValidFilename("photo.jpg")
  {
    SplitsAt("photo.jpg", 5);
    assert "photo.jpg"[..5] == "photo" && "photo.jpg"[5..] == ".jpg";
    assert Decimal(1) == "1";
    assert "photo" + " (" + "1" + ")" + ".jpg" == "photo (1).jpg";
  }

  function Candidate(name: string, suffix: nat): string {
    if suffix == 0 then name else Stem(name) + " (" + Decimal(suffix) + ")" + Extension(name)
  }

  lemma MiddleCancels(before: string, x: string, y: string, after: string)
    requires before + x + after == before + y + after
    ensures x == y
  {
    var s := before + x + after;
    assert |x| == |y|;
    assert s[|before|..|before| + |x|] == x;
    assert s[|before|..|before| + |y|] == y;
  }

  /** No two candidates are the same name. */
  lemma CandidatesAreDistinct(name: string, a: nat, b: nat)
    requires Candidate(name, a) == Candidate(name, b)
    ensures a == b
  {
    assert |Candidate(name, 0)| == |Stem(name)| + |Extension(name)|;
    if a != 0 && b != 0 {
      var before, after := Stem(name) + " (", ")" + Extension(name);
      NumberedCandidate(name, a);
      NumberedCandidate(name, b);
      MiddleCancels(before, Decimal(a), Decimal(b), after);
      DecimalInjective(a, b);
    }
  }

  lemma NumberedCandidate(name: string, n: nat)
    requires n > 0
    ensures Candidate(name, n) == Stem(name) + " (" + Decimal(n) + (")" + Extension(name))
  {
  }

  ghost predicate AllTaken(entries: map<string, Content>, name: string, n: nat) {
    forall i: nat | i < n :: Candidate(name, i) in entries
  }

  function Candidates(name: string, n: nat): set<string> {
    if n == 0 then {} else Candidates(name, n - 1) + {Candidate(name, n - 1)}
  }

  lemma {:induction false} LaterIsNew(name: string, n: nat, later: nat)
    requires n <= later
    ensures Candidate(name, later) !in Candidates(name, n)
  {
    if n > 0 {
      LaterIsNew(name, n - 1, later);
      if Candidate(name, later) == Candidate(name, n - 1) {
        CandidatesAreDistinct(name, later, n - 1);
      }
    }
  }

  lemma {:induction false} TakenCandidates(entries: map<string, Content>, name: string, n: nat)
    requires AllTaken(entries, name, n)
    ensures Candidates(name, n) <= entries.Keys && |Candidates(name, n)| == n
  {
    if n > 0 {
      TakenCandidates(entries, name, n - 1);
      LaterIsNew(name, n - 1, n - 1);
      assert Candidate(name, n - 1) in entries;
    }
  }

  /** A finite directory cannot hold more candidates than entries. */
  lemma TakenIsBounded(entries: map<string, Content>, name: string, n: nat)
    requires AllTaken(entries, name, n)
    ensures n <= |entries|
  {
    TakenCandidates(entries, name, n);
    var taken := Candidates(name, n);
    assert |taken| + |entries.Keys - taken| == |entries.Keys| by {
      assert taken + (entries.Keys - taken) == entries.Keys;
    }
  }

  /** The destination of a download into `entries`: the first candidate that is not taken. */
  ghost predicate FirstFree(entries: map<string, Content>, name: string, path: string) {
    exists n: nat :: AllTaken(entries, name, n) && path == Candidate(name, n) && path !in entries
  }

  lemma FirstFreeIsUnique(entries: map<string, Content>, name: string, p: string, q: string)
    requires FirstFree(entries, name, p) && FirstFree(entries, name, q)
    ensures p == q
  {
    var n: nat :| AllTaken(entries, name, n) && p == Candidate(name, n) && p !in entries;
    var m: nat :| AllTaken(entries, name, m) && q == Candidate(name, m) && q !in entries;
    assert !(n < m) && !(m < n);
  }

  /** A directory: what its names hold. Publishing can fail for reasons other than the name. */
  class Directory {
    var entries: map<string, Content>

    constructor (entries: map<string, Content>)
      ensures this.entries == entries
    {
      this.entries := entries;
    }

    method PersistNoClobber(path: string, temp: Content, writable: bool) returns (r: Result<(), PersistError>)
      modifies this
      ensures r == if path in old(entries) then Err(AlreadyExists) else if !writable then Err(Other) else Ok(())
      ensures entries == if r.Ok? then old(entries)[path := temp] else old(entries)
    {
      if path in entries {
        return Err(AlreadyExists);
      }
      if !writable {
        return Err(Other);
      }
      entries := entries[path := temp];
      r := Ok(());
    }
  }

  datatype PersistError = AlreadyExists | Other

  /** Ends on every directory; a unique download appears under the first free candidate and
      changes no other entry, a cache file replaces the old one. */
  method Finish(directory: Directory, name: string, temp: Content, unique: bool, writable: bool)
    returns (published: Option<string>)
    requires ValidFilename(name)
    modifies directory
    ensures published.Some? <==> writable
    ensures published.None? ==> directory.entries == old(directory.entries)
    ensures published.Some? ==> directory.entries == old(directory.entries)[published.value := temp]
    ensures published.Some? ==>
              if unique then FirstFree(old(directory.entries), name, published.value) else published.value == name
  {
    if !unique {
      if !writable {
        return None;
      }
      directory.entries := directory.entries[name := temp];
      return Some(name);
    }
    var suffix := 0;
    while true
      invariant directory.entries == old(directory.entries)
      invariant AllTaken(directory.entries, name, suffix)
      decreases |directory.entries| + 1 - suffix
    {
      TakenIsBounded(directory.entries, name, suffix);
      var path := Candidate(name, suffix);
      var r := directory.PersistNoClobber(path, temp, writable);
      if r.Ok? {
        return Some(path);
      }
      if r.error == Other {
        return None;
      }
      suffix := suffix + 1;
    }
  }
}
