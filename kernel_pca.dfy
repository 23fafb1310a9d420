/**
 * The option handling of the scikit-learn Kernel PCA benchmark
 * (methods/scikit/kernel_pca.py): three `re.search` scans of the option
 * string pick the target dimension, the kernel and the polynomial degree,
 * and the choice is checked against the dataset's column count.
 */
module KernelPca {
  import opened Wrappers

  // ---------------------------------------------------------------------------
  // The three patterns `-d (\d+)`, `-k ([^\s]+)`, `-D (\d+)`

  /** The character classes the patterns repeat: `\d` and `[^\s]`. */
  datatype CharClass = Digit | NonSpace

  predicate IsDigit(c: char)
  {
    '0' <= c <= '9'
  }

  /** The characters `\s` matches in a Python text pattern (those `str.isspace` accepts). */
  predicate IsSpace(c: char)
  {
    var n := c as int;
    || 0x09 <= n <= 0x0D || 0x1C <= n <= 0x20 || n == 0x85 || n == 0xA0 || n == 0x1680
    || 0x2000 <= n <= 0x200A || n == 0x2028 || n == 0x2029 || n == 0x202F || n == 0x205F
    || n == 0x3000
  }

  predicate InClass(c: char, cls: CharClass)
  {
    match cls
    case Digit => IsDigit(c)
    case NonSpace => !IsSpace(c)
  }

  /** The pattern `lit(cls+)` can start at `i`: the literal, then one character of the class. */
  predicate MatchesAt(s: string, lit: string, cls: CharClass, i: int)
  {
    0 <= i && i + |lit| < |s| && s[i..i + |lit|] == lit && InClass(s[i + |lit|], cls)
  }

  /** `re.search` reports the leftmost start at which the pattern matches. */
  ghost predicate LeftmostMatch(s: string, lit: string, cls: CharClass, i: int)
  {
    MatchesAt(s, lit, cls, i) && forall j :: 0 <= j < i ==> !MatchesAt(s, lit, cls, j)
  }

  /** The greedy `cls+` takes the longest run of class characters from `start`. */
  ghost predicate GreedyGroup(s: string, start: int, cls: CharClass, g: string)
  {
    && 0 <= start && start + |g| <= |s| && |g| > 0
    && s[start..start + |g|] == g
    && (forall c :: c in g ==> InClass(c, cls))
    && (start + |g| == |s| || !InClass(s[start + |g|], cls))
  }

  /** The leftmost start at or after `from`. */
  function Search(s: string, lit: string, cls: CharClass, from: nat): (r: Option<nat>)
    decreases |s| - from
    ensures r.Some? ==> from <= r.value && MatchesAt(s, lit, cls, r.value)
    ensures forall i :: from <= i && (r.None? || i < r.value) ==> !MatchesAt(s, lit, cls, i)
  {
    if from + |lit| >= |s| then None
    else if MatchesAt(s, lit, cls, from) then Some(from)
    else Search(s, lit, cls, from + 1)
  }

  /** The end of the longest run of class characters from `from`. */
  function RunEnd(s: string, cls: CharClass, from: nat): (e: nat)
    requires from <= |s|
    decreases |s| - from
    ensures from <= e <= |s|
    ensures forall j :: from <= j < e ==> InClass(s[j], cls)
    ensures e == |s| || !InClass(s[e], cls)
  {
    if from == |s| || !InClass(s[from], cls) then from
    else RunEnd(s, cls, from + 1)
  }

  /** Group 1 of `re.search(lit + "(" + cls + "+)", s)`, or None when there is no match. */
  function SearchGroup(s: string, lit: string, cls: CharClass): (r: Option<string>)
    ensures r.Some? ==> |r.value| > 0 && forall c :: c in r.value ==> InClass(c, cls)
  {
    match Search(s, lit, cls, 0)
    case None => None
    case Some(i) =>
      var e := RunEnd(s, cls, i + |lit|);
      var g := s[i + |lit|..e];
      assert forall c :: c in g ==> InClass(c, cls) by {
        forall c | c in g ensures InClass(c, cls) {
          var j :| 0 <= j < |g| && g[j] == c;
          assert s[i + |lit| + j] == c;
        }
      }
      Some(g)
  }

  /**
   * The scan is `re.search`: it fails exactly when the pattern matches
   * nowhere, and otherwise returns the greedy group of the leftmost match.
   */
  lemma SearchGroupIsLeftmostGreedy(s: string, lit: string, cls: CharClass)
    ensures SearchGroup(s, lit, cls).None? <==> forall i :: !MatchesAt(s, lit, cls, i)
    ensures SearchGroup(s, lit, cls).Some? ==>
      exists i :: LeftmostMatch(s, lit, cls, i) && GreedyGroup(s, i + |lit|, cls, SearchGroup(s, lit, cls).value)
  {
    var r := Search(s, lit, cls, 0);
    if r.Some? {
      var i := r.value;
      var e := RunEnd(s, cls, i + |lit|);
      var g := s[i + |lit|..e];
      assert SearchGroup(s, lit, cls) == Some(g);
      assert LeftmostMatch(s, lit, cls, i);
      assert GreedyGroup(s, i + |lit|, cls, g);
    } else {
      assert SearchGroup(s, lit, cls) == None;
    }
  }

  /** The leftmost match and the greedy group are unique, so they fix the search's result. */
  lemma SearchGroupIsRegexSearch(s: string, lit: string, cls: CharClass, i: int, g: string)
    requires LeftmostMatch(s, lit, cls, i) && GreedyGroup(s, i + |lit|, cls, g)
    ensures SearchGroup(s, lit, cls) == Some(g)
  {
    var r := Search(s, lit, cls, 0);
    assert MatchesAt(s, lit, cls, i);
    assert r.Some?;
    assert !(r.value < i) && !(i < r.value);
    var e := RunEnd(s, cls, i + |lit|);
    var h := s[i + |lit|..e];
    assert SearchGroup(s, lit, cls) == Some(h);
    GreedyGroupUnique(s, i + |lit|, cls, g, h);
  }

  lemma GreedyGroupUnique(s: string, start: int, cls: CharClass, g: string, h: string)
    requires GreedyGroup(s, start, cls, g) && GreedyGroup(s, start, cls, h)
    ensures g == h
  {
    forall j | start <= j < start + |g| ensures InClass(s[j], cls) {
      assert s[j] == g[j - start] && g[j - start] in g;
    }
    forall j | start <= j < start + |h| ensures InClass(s[j], cls) {
      assert s[j] == h[j - start] && h[j - start] in h;
    }
    assert |g| == |h|;
  }

  /** `int(...)` on a run of decimal digits. */
  function DecimalValue(digits: string): (n: nat)
    requires forall c :: c in digits ==> IsDigit(c)
    ensures n < Power10(|digits|)
  {
    if digits == [] then 0
    else
      var last := digits[|digits| - 1];
      assert last in digits && IsDigit(last);
      assert forall c :: c in digits[..|digits| - 1] ==> c in digits;
      DecimalValue(digits[..|digits| - 1]) * 10 + (last as int - '0' as int)
  }

  function Power10(k: nat): (p: nat)
    ensures p > 0
  {
    if k == 0 then 1 else 10 * Power10(k - 1)
  }

  /** The decimal text of a number (`str(n)`), the inverse of `DecimalValue`. */
  function DecimalText(n: nat): (t: string)
    ensures |t| > 0 && forall c :: c in t ==> IsDigit(c)
  {
    if n < 10 then [('0' as int + n) as char]
    else DecimalText(n / 10) + [('0' as int + n % 10) as char]
  }

  lemma {:induction false} DecimalRoundTrip(n: nat)
    ensures DecimalValue(DecimalText(n)) == n
  {
    var t := DecimalText(n);
    if n >= 10 {
      DecimalRoundTrip(n / 10);
      assert t[..|t| - 1] == DecimalText(n / 10);
    }
  }

  // ---------------------------------------------------------------------------
  // Configuration choice (lines 61-92)

  /** The library kernel and, for `poly`, its degree. */
  datatype Kernel = Linear | Sigmoid | Poly(degree: nat)

  /** The `kernel=` argument handed to the library. */
  function LibraryName(k: Kernel): (r: string)
    ensures r in {"linear", "sigmoid", "poly"}
    ensures r == "poly" <==> k.Poly?
    ensures r == "linear" <==> k.Linear?
  {
    match k
    case Linear => "linear"
    case Sigmoid => "sigmoid"
    case Poly(_) => "poly"
  }

  datatype Config = Config(nComponents: nat, kernel: Kernel)

  /** Which of the fatal messages precedes the return of `-1`. */
  datatype Reason = DimensionTooLarge | MissingKernel | InvalidKernel(name: string)

  /** The model the benchmark fits, or the `-1` it returns instead. */
  datatype Selection = Chosen(config: Config) | Rejected(reason: Reason)

  const DimensionFlag: string := "-d "
  const KernelFlag: string := "-k "
  const DegreeFlag: string := "-D "

  /** The configuration `KPCAScikit` builds from its option string and the column count. */
  function SelectConfig(options: string, columns: nat): (r: Selection)
    ensures r.Chosen? ==> r.config.nComponents <= columns
  {
    var dimension := SearchGroup(options, DimensionFlag, Digit);
    var d := if dimension.None? then columns else DecimalValue(dimension.value);
    if dimension.Some? && d > columns then Rejected(DimensionTooLarge)
    else
      match SearchGroup(options, KernelFlag, NonSpace)
      case None => Rejected(MissingKernel)
      case Some(name) =>
        if name == "linear" then Chosen(Config(d, Linear))
        else if name == "hyptan" then Chosen(Config(d, Sigmoid))
        else if name == "polynomial" then
          var degree := SearchGroup(options, DegreeFlag, Digit);
          Chosen(Config(d, Poly(if degree.None? then 1 else DecimalValue(degree.value))))
        else Rejected(InvalidKernel(name))
  }

  /** Without a `-d <digits>` anywhere, the dimension is the column count. */
  lemma NoDimensionUsesColumns(options: string, columns: nat)
    requires forall i :: !MatchesAt(options, DimensionFlag, Digit, i)
    ensures SelectConfig(options, columns).Chosen? ==> SelectConfig(options, columns).config.nComponents == columns
    ensures SelectConfig(options, columns) != Rejected(DimensionTooLarge)
  {
  }

  /**
   * A `-d N` whose digits exceed the column count is rejected before the kernel
   * is looked at, whatever the kernel token is or whether there is one.
   */
  lemma OversizeDimensionRejected(options: string, columns: nat, i: int, digits: string)
    requires LeftmostMatch(options, DimensionFlag, Digit, i)
    requires GreedyGroup(options, i + |DimensionFlag|, Digit, digits)
    requires DecimalValue(digits) > columns
    ensures SelectConfig(options, columns) == Rejected(DimensionTooLarge)
  {
    SearchGroupIsRegexSearch(options, DimensionFlag, Digit, i, digits);
  }

  /** A `-d N` with N at most the column count (equal included) is the dimension of every model chosen. */
  lemma DimensionWithinColumnsKept(options: string, columns: nat, i: int, digits: string)
    requires LeftmostMatch(options, DimensionFlag, Digit, i)
    requires GreedyGroup(options, i + |DimensionFlag|, Digit, digits)
    requires DecimalValue(digits) <= columns
    ensures SelectConfig(options, columns).Chosen? ==> SelectConfig(options, columns).config.nComponents == DecimalValue(digits)
    ensures SelectConfig(options, columns) != Rejected(DimensionTooLarge)
  {
    SearchGroupIsRegexSearch(options, DimensionFlag, Digit, i, digits);
  }

  /** Once the dimension passes, a missing `-k <token>` is rejected. */
  lemma MissingKernelRejected(options: string, columns: nat)
    requires SelectConfig(options, columns) != Rejected(DimensionTooLarge)
    requires forall i :: !MatchesAt(options, KernelFlag, NonSpace, i)
    ensures SelectConfig(options, columns) == Rejected(MissingKernel)
  {
  }

  /**
   * The kernel token decides the kernel: `linear` gives `linear`, `hyptan`
   * gives `sigmoid`, `polynomial` gives `poly`, any other token is rejected.
   */
  lemma KernelMapping(options: string, columns: nat, i: int, name: string)
    requires SelectConfig(options, columns) != Rejected(DimensionTooLarge)
    requires LeftmostMatch(options, KernelFlag, NonSpace, i)
    requires GreedyGroup(options, i + |KernelFlag|, NonSpace, name)
    ensures SelectConfig(options, columns).Chosen? <==> name in {"linear", "hyptan", "polynomial"}
    ensures SelectConfig(options, columns).Rejected? ==> SelectConfig(options, columns) == Rejected(InvalidKernel(name))
    ensures SelectConfig(options, columns).Chosen? ==>
      LibraryName(SelectConfig(options, columns).config.kernel)
        == (if name == "linear" then "linear" else if name == "hyptan" then "sigmoid" else "poly")
  {
    SearchGroupIsRegexSearch(options, KernelFlag, NonSpace, i, name);
  }

  /** For `polynomial`, the degree is the digits after the leftmost `-D `, or 1 without one. */
  lemma PolynomialDegree(options: string, columns: nat)
    requires SelectConfig(options, columns).Chosen? && SelectConfig(options, columns).config.kernel.Poly?
    ensures var degree := SelectConfig(options, columns).config.kernel.degree;
      && ((forall i :: !MatchesAt(options, DegreeFlag, Digit, i)) ==> degree == 1)
      && forall i, digits :: LeftmostMatch(options, DegreeFlag, Digit, i)
                          && GreedyGroup(options, i + |DegreeFlag|, Digit, digits)
                          ==> degree == DecimalValue(digits)
  {
    forall i, digits | LeftmostMatch(options, DegreeFlag, Digit, i)
                    && GreedyGroup(options, i + |DegreeFlag|, Digit, digits)
      ensures SelectConfig(options, columns).config.kernel.degree == DecimalValue(digits)
    {
      SearchGroupIsRegexSearch(options, DegreeFlag, Digit, i, digits);
    }
  }

  /** A match at the very start is leftmost; its group is the class run that follows the literal. */
  lemma GroupAtFront(lit: string, g: string, rest: string, cls: CharClass)
    requires |g| > 0 && forall c :: c in g ==> InClass(c, cls)
    requires rest == [] || !InClass(rest[0], cls)
    ensures SearchGroup(lit + g + rest, lit, cls) == Some(g)
  {
    var s := lit + g + rest;
    assert s[..|lit|] == lit && s[|lit|..|lit| + |g|] == g;
    assert s[|lit|] == g[0] && g[0] in g;
    assert LeftmostMatch(s, lit, cls, 0);
    SearchGroupIsRegexSearch(s, lit, cls, 0, g);
  }

  /**
   * No match of a literal can start before `i` when the literal's second
   * character does not occur in the first `i + 1` characters.
   */
  lemma NoMatchBefore(s: string, lit: string, cls: CharClass, i: nat)
    requires |lit| >= 2 && i < |s|
    requires lit[1] !in s[..i + 1]
    ensures forall j :: 0 <= j < i ==> !MatchesAt(s, lit, cls, j)
  {
    forall j | 0 <= j < i ensures !MatchesAt(s, lit, cls, j) {
      assert s[..i + 1][j + 1] == s[j + 1];
      if j + |lit| < |s| {
        assert s[j..j + |lit|][1] == s[j + 1];
      }
    }
  }

  /** The option string `-d N -k polynomial -D M`, as a benchmark configuration writes it. */
  function Formatted(n: nat, m: nat): string
  {
    "-d " + DecimalText(n) + " -k polynomial -D " + DecimalText(m)
  }

  lemma FormattedDimension(n: nat, m: nat)
    ensures SearchGroup(Formatted(n, m), DimensionFlag, Digit) == Some(DecimalText(n))
  {
    var rest := " -k polynomial -D " + DecimalText(m);
    assert Formatted(n, m) == DimensionFlag + DecimalText(n) + rest;
    GroupAtFront(DimensionFlag, DecimalText(n), rest, Digit);
  }

  lemma FormattedKernel(n: nat, m: nat)
    ensures SearchGroup(Formatted(n, m), KernelFlag, NonSpace) == Some("polynomial")
  {
    var s := Formatted(n, m);
    var t := DecimalText(n);
    var i := |t| + 4;
    assert s[..i + 1] == "-d " + t + " -";
    assert 'k' !in t;
    NoMatchBefore(s, KernelFlag, NonSpace, i);
    assert s[i..i + 3] == KernelFlag;
    assert s[i + 3..i + 13] == "polynomial";
    assert s[i + 13] == ' ';
    assert LeftmostMatch(s, KernelFlag, NonSpace, i);
    assert GreedyGroup(s, i + 3, NonSpace, "polynomial");
    SearchGroupIsRegexSearch(s, KernelFlag, NonSpace, i, "polynomial");
  }

  lemma FormattedDegree(n: nat, m: nat)
    ensures SearchGroup(Formatted(n, m), DegreeFlag, Digit) == Some(DecimalText(m))
  {
    DegreeAtEnd(DecimalText(n), DecimalText(m));
  }

  /** The degree scan of `-d T -k polynomial -D U`, for digit texts T and U. */
  lemma DegreeAtEnd(t: string, u: string)
    requires forall c :: c in t ==> IsDigit(c)
    requires |u| > 0 && forall c :: c in u ==> IsDigit(c)
    ensures SearchGroup("-d " + t + " -k polynomial -D " + u, DegreeFlag, Digit) == Some(u)
  {
    var x := "-d " + t + " -k polynomial -D ";
    var s := x + u;
    var i := |t| + 18;
    assert |x| == i + 3;
    assert s[..|x|] == x && s[|x|..] == u;
    assert x[..i + 1] == "-d " + t + " -k polynomial -";
    assert s[..i + 1] == x[..i + 1];
    assert 'D' !in t;
    NoMatchBefore(s, DegreeFlag, Digit, i);
    assert x[i..i + 3] == DegreeFlag;
    assert s[i..i + 3] == x[i..i + 3];
    assert s[i + 3] == u[0] && u[0] in u;
    assert LeftmostMatch(s, DegreeFlag, Digit, i);
    assert GreedyGroup(s, i + 3, Digit, u);
    SearchGroupIsRegexSearch(s, DegreeFlag, Digit, i, u);
  }

  /**
   * `-d N -k polynomial -D M` selects a polynomial kernel of degree M with N
   * components whenever N does not exceed the column count: the numbers the
   * configuration wrote are the numbers the benchmark reads back.
   */
  lemma FormattedOptions(n: nat, m: nat, columns: nat)
    requires n <= columns
    ensures SelectConfig(Formatted(n, m), columns) == Chosen(Config(n, Poly(m)))
  {
    var s := Formatted(n, m);
    FormattedDimension(n, m);
    FormattedKernel(n, m);
    FormattedDegree(n, m);
    DecimalRoundTrip(n);
    DecimalRoundTrip(m);
    ChosenPolynomial(s, columns, DecimalText(n), DecimalText(m));
  }

  /** Which configuration the three scans' groups select for a polynomial kernel. */
  lemma ChosenPolynomial(options: string, columns: nat, d: string, degree: string)
    requires SearchGroup(options, DimensionFlag, Digit) == Some(d)
    requires SearchGroup(options, KernelFlag, NonSpace) == Some("polynomial")
    requires SearchGroup(options, DegreeFlag, Digit) == Some(degree)
    requires DecimalValue(d) <= columns
    ensures SelectConfig(options, columns) == Chosen(Config(DecimalValue(d), Poly(DecimalValue(degree))))
  {
  }
}
