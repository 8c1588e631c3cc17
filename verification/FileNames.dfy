/**
 Free file names (config/migrate-code-file-duplicates.js: suffixFilename, nextAvailableName),
 with the decimal printing and the POSIX extension split they rely on.
 */
module FileNames {
  import opened Sequences

  // ---- decimal numerals

  const DIGITS := "0123456789"

  function Decimal(n: nat): string {
    if n < 10 then [DIGITS[n]] else Decimal(n / 10) + [DIGITS[n % 10]]
  }

  function DigitValue(c: char): nat {
    if '0' <= c <= '9' then (c - '0') as nat else 0
  }

  function ParseDecimal(s: string): nat {
    if s == "" then 0 else 10 * ParseDecimal(s[..|s| - 1]) + DigitValue(s[|s| - 1])
  }

  lemma DigitRoundTrip(d: nat)
    requires d < 10
    ensures DigitValue(DIGITS[d]) == d
  {
  }

  lemma {:induction false} DecimalRoundTrip(n: nat)
    ensures ParseDecimal(Decimal(n)) == n
  {
    DigitRoundTrip(n % 10);
    if n < 10 {
      assert Decimal(n)[..0] == "";
    } else {
      DecimalRoundTrip(n / 10);
      assert Decimal(n)[..|Decimal(n)| - 1] == Decimal(n / 10);
    }
  }

  // ---- the extension of a path

  function TrimSlashes(path: string): nat {
    if path == "" || path[|path| - 1] != '/' then |path| else TrimSlashes(path[..|path| - 1])
  }

  /** One past the last occurrence of `c`, or 0. */
  function AfterLast(s: string, c: char): (r: nat)
    ensures r <= |s|
    ensures r > 0 ==> s[r - 1] == c
    ensures forall i :: r <= i < |s| ==> s[i] != c
  {
    if s == "" then 0 else if s[|s| - 1] == c then |s| else AfterLast(s[..|s| - 1], c)
  }

  lemma {:induction false} TrimBound(path: string)
    ensures TrimSlashes(path) <= |path|
    ensures path != "" && path[|path| - 1] != '/' ==> TrimSlashes(path) == |path|
  {
    if path != "" && path[|path| - 1] == '/' {
      TrimBound(path[..|path| - 1]);
    }
  }

  /** `path.extname`: from the last dot of the last component, unless that dot begins it. */
  function ExtName(path: string): string {
    TrimBound(path);
    var end := TrimSlashes(path);
    var start := AfterLast(path[..end], '/');
    var name := path[start..end];
    var dot := AfterLast(name, '.');
    if dot <= 1 || name == ".." then "" else name[dot - 1..]
  }

  lemma ExtNameFits(path: string)
    ensures |ExtName(path)| <= |path|
    ensures path == "" || path[|path| - 1] != '/' ==> ExtName(path) == path[|path| - |ExtName(path)|..]
  {
    TrimBound(path);
  }

  function BaseOf(filename: string): string {
    ExtNameFits(filename);
    filename[..|filename| - |ExtName(filename)|]
  }

  function SuffixFilename(filename: string, n: nat): string {
    BaseOf(filename) + " (" + Decimal(n) + ")" + ExtName(filename)
  }

  lemma {:induction false} ExtensionHasNoSlash(path: string, i: nat)
    requires i < |ExtName(path)|
    ensures ExtName(path)[i] != '/'
  {
    TrimBound(path);
    var end := TrimSlashes(path);
    var start := AfterLast(path[..end], '/');
    var name := path[start..end];
    var dot := AfterLast(name, '.');
    assert ExtName(path) == name[dot - 1..];
    assert ExtName(path)[i] == path[..end][start + (dot - 1) + i];
  }

  /**
   Only the counter goes in: between the stem and the extension, which are what the name was made of,
   unless the name has an extension and ends in a slash.
   */
  lemma SuffixKeepsShape(filename: string, n: nat)
    ensures |ExtName(filename)| <= |filename|
    ensures var k := |filename| - |ExtName(filename)|;
            && SuffixFilename(filename, n) == filename[..k] + " (" + Decimal(n) + ")" + ExtName(filename)
            && (filename == filename[..k] + ExtName(filename) <==>
                  ExtName(filename) == "" || filename[|filename| - 1] != '/')
  {
    ExtNameFits(filename);
    var ext := ExtName(filename);
    var k := |filename| - |ext|;
    assert filename == filename[..k] + filename[k..];
    if ext != "" {
      ExtensionHasNoSlash(filename, |ext| - 1);
      assert (filename[..k] + ext)[|filename| - 1] == ext[|ext| - 1];
    }
  }

  /** A name that has an extension and ends in a slash loses its end and has its extension twice over. */
  lemma SlashBreaksShape()
    ensures ExtName("a.b/") == ".b" && SuffixFilename("a.b/", 1) == "a. (1).b"
  {
    var path, trimmed := "a.b/", "a.b";
    assert path[..3] == trimmed && TrimSlashes(trimmed) == 3 && TrimSlashes(path) == 3;
    NoSlash(trimmed);
    assert trimmed[0..3] == trimmed;
    assert trimmed[..2] == "a." && AfterLast(trimmed, '.') == AfterLast("a.", '.') == 2;
    assert trimmed[1..] == ".b";
    assert path[..2] == "a." && Decimal(1) == "1";
    assert "a." + " (" + "1" + ")" + ".b" == "a. (1).b";
  }

  lemma {:induction false} NoSlash(s: string)
    requires '/' !in s
    ensures AfterLast(s, '/') == 0
  {
    if s != "" {
      NoSlash(s[..|s| - 1]);
    }
  }

  lemma SameFrame(p: string, x: string, y: string, q: string)
    requires p + x + q == p + y + q
    ensures x == y
  {
    var s, t := p + x + q, p + y + q;
    assert |x| == |y|;
    assert s[|p|..|p| + |x|] == x;
    assert t[|p|..|p| + |y|] == y;
  }

  lemma SuffixFrame(filename: string, n: nat)
    ensures SuffixFilename(filename, n) == (BaseOf(filename) + " (") + Decimal(n) + (")" + ExtName(filename))
  {
    Regroup(BaseOf(filename) + " (" + Decimal(n), ")", ExtName(filename));
  }

  lemma Regroup(x: string, y: string, z: string)
    ensures x + y + z == x + (y + z)
  {
  }

  lemma DecimalInjective(m: nat, n: nat)
    requires Decimal(m) == Decimal(n)
    ensures m == n
  {
    DecimalRoundTrip(m);
    DecimalRoundTrip(n);
  }

  /** Different counters give different names, whatever the name and its extension are. */
  lemma SuffixInjective(filename: string, m: nat, n: nat)
    requires SuffixFilename(filename, m) == SuffixFilename(filename, n)
    ensures m == n
  {
    SuffixFrame(filename, m);
    SuffixFrame(filename, n);
    SameFrame(BaseOf(filename) + " (", Decimal(m), Decimal(n), ")" + ExtName(filename));
    DecimalInjective(m, n);
  }

  /** The first `n` names the search tries. */
  function Candidates(filename: string, n: nat): set<string> {
    if n == 0 then {} else Candidates(filename, n - 1) + {SuffixFilename(filename, n)}
  }

  lemma {:induction false} CandidateCounter(filename: string, n: nat, c: string) returns (m: nat)
    requires c in Candidates(filename, n)
    ensures 1 <= m <= n && c == SuffixFilename(filename, m)
  {
    assert n > 0;
    var last := SuffixFilename(filename, n);
    assert c in Candidates(filename, n - 1) || c == last;
    if c == last {
      m := n;
    } else {
      m := CandidateCounter(filename, n - 1, c);
    }
  }

  lemma {:induction false} CandidatesDistinct(filename: string, n: nat)
    ensures |Candidates(filename, n)| == n
  {
    if n > 0 {
      CandidatesDistinct(filename, n - 1);
      NextCandidateIsNew(filename, n);
    }
  }

  lemma NextCandidateIsNew(filename: string, n: nat)
    requires n > 0
    ensures SuffixFilename(filename, n) !in Candidates(filename, n - 1)
  {
    var c := SuffixFilename(filename, n);
    if c in Candidates(filename, n - 1) {
      var m := CandidateCounter(filename, n - 1, c);
      SuffixInjective(filename, m, n);
    }
  }

  /** Names that are all taken are no more than the taken ones. */
  lemma Pigeonhole(filename: string, n: nat, taken: set<string>)
    requires forall m :: 1 <= m <= n ==> SuffixFilename(filename, m) in taken
    ensures n <= |taken|
  {
    CandidatesDistinct(filename, n);
    forall c | c in Candidates(filename, n)
      ensures c in taken
    {
      var m := CandidateCounter(filename, n, c);
    }
    SubsetSize(Candidates(filename, n), taken);
  }

  /** The open-ended search ends, on the first free counter, after at most one try more than there are taken names. */
  method NextAvailableName(filename: string, taken: set<string>) returns (candidate: string,
                           taken': set<string>, ghost n: nat)
    ensures 1 <= n <= |taken| + 1
    ensures candidate == SuffixFilename(filename, n) && candidate !in taken
    ensures forall m :: 1 <= m < n ==> SuffixFilename(filename, m) in taken
    ensures taken' == taken + {candidate}
  {
    var counter := 1;
    Pigeonhole(filename, 0, taken);
    while true
      invariant 1 <= counter
      invariant forall m :: 1 <= m <= counter - 1 ==> SuffixFilename(filename, m) in taken
      invariant counter - 1 <= |taken|
      decreases |taken| + 1 - counter
    {
      candidate := SuffixFilename(filename, counter);
      if candidate !in taken {
        taken' := taken + {candidate};
        n := counter;
        return;
      }
      Pigeonhole(filename, counter, taken);
      counter := counter + 1;
    }
  }
}
