/**
 * The MATLAB range-search benchmark wrapper (methods/matlab/range_search.py):
 * it consumes the caller's option dictionary, builds the MATLAB command line
 * around an inner `RANGESEARCH('...')` call, maps the process outcome to a
 * return value and extracts `total_time:` from the captured output.
 */
module RangeSearch {
  import opened Wrappers

  newtype byte = x: int | 0 <= x < 256

  /** The bytes of an ASCII text (a Python `b"..."` literal); each character is taken modulo 256. */
  function Bytes(s: string): seq<byte>
  {
    seq(|s|, i requires 0 <= i < |s| => (s[i] as int % 256) as byte)
  }

  // ---------------------------------------------------------------------------
  // Tokens of a space-separated line (used to read the built strings back)

  /** Tokens joined by single spaces. */
  function Join(tokens: seq<string>): string
  {
    if |tokens| == 0 then ""
    else if |tokens| == 1 then tokens[0]
    else tokens[0] + " " + Join(tokens[1..])
  }

  /** Split on every single space, keeping empty tokens (Python's `str.split(' ')`). */
  function Split(s: string): (r: seq<string>)
    ensures |r| > 0
  {
    if s == [] then [""]
    else
      var rest := Split(s[1..]);
      if s[0] == ' ' then [""] + rest
      else [[s[0]] + rest[0]] + rest[1..]
  }

  predicate SpaceFree(t: string)
  {
    ' ' !in t
  }

  lemma {:induction false} SplitSpaceFree(t: string)
    requires SpaceFree(t)
    ensures Split(t) == [t]
  {
    if t != [] {
      SplitSpaceFree(t[1..]);
      assert [t[0]] + t[1..] == t;
    }
  }

  lemma {:induction false} SplitAfterToken(t: string, u: string)
    requires SpaceFree(t)
    ensures Split(t + " " + u) == [t] + Split(u)
  {
    if t == [] {
      assert t + " " + u == [' '] + u;
      assert ([' '] + u)[1..] == u;
    } else {
      var s := t + " " + u;
      assert s[1..] == t[1..] + " " + u;
      SplitAfterToken(t[1..], u);
      assert [t[0]] + t[1..] == t;
    }
  }

  /** Splitting a joined line of space-free tokens gives the tokens back. */
  lemma {:induction false} SplitJoin(tokens: seq<string>)
    requires |tokens| > 0
    requires forall i :: 0 <= i < |tokens| ==> SpaceFree(tokens[i])
    ensures Split(Join(tokens)) == tokens
  {
    if |tokens| == 1 {
      SplitSpaceFree(tokens[0]);
    } else {
      SplitJoin(tokens[1..]);
      SplitAfterToken(tokens[0], Join(tokens[1..]));
      assert [tokens[0]] + tokens[1..] == tokens;
    }
  }

  /** Joining two non-empty token lists puts one space between their joins. */
  lemma {:induction false} JoinAppend(a: seq<string>, b: seq<string>)
    requires |a| > 0 && |b| > 0
    ensures Join(a + b) == Join(a) + " " + Join(b)
  {
    if |a| == 1 {
      assert (a + b)[1..] == b;
    } else {
      assert (a + b)[1..] == a[1..] + b;
      JoinAppend(a[1..], b);
    }
  }

  // ---------------------------------------------------------------------------
  // Option dictionary (lines 59-74)

  /** The keys `RunMetrics` knows; any other key is an unknown parameter. */
  const Recognised: set<string> := {"max", "leaf_size", "naive_mode"}

  /**
   * The caller's option dictionary, which `RunMetrics` empties in place.
   * Each value is held as the text `str(value)` that the wrapper splices in.
   */
  class OptionDict {
    var entries: map<string, string>

    constructor (entries: map<string, string>)
      ensures this.entries == entries
    {
      this.entries := entries;
    }

    /** `dict.pop(key)`: removes the key and returns its value. */
    method Pop(key: string) returns (value: string)
      requires key in entries
      modifies this
      ensures value == old(entries)[key]
      ensures entries == old(entries) - {key}
    {
      value := entries[key];
      entries := entries - {key};
    }
  }

  /** The exceptions `RunMetrics` can end in. */
  datatype Error =
    | MissingParameter      // `max` absent (line 64)
    | UnknownParameters     // keys left after the recognised ones (line 74)
    | DatasetTypeError      // `"-r " + dataset` on a list whose length is not 2 (line 82)
    | FloatValueError       // `float(...)` refusing the extracted text (line 134)

  /** The tokens of the flag string: `-M max`, then `-l leaf_size`, then `-N`. */
  function FlagTokens(opts: map<string, string>): (r: seq<string>)
    requires "max" in opts
  {
    ["-M", opts["max"]]
    + (if "leaf_size" in opts then ["-l", opts["leaf_size"]] else [])
    + (if "naive_mode" in opts then ["-N"] else [])
  }

  /** The flag string the wrapper accumulates from a dictionary that holds `max`. */
  function FlagText(opts: map<string, string>): (r: string)
    requires "max" in opts
    ensures "-M " + opts["max"] <= r
    ensures "naive_mode" in opts ==> r[|r| - 3..] == " -N"
  {
    var withMax := "-M " + opts["max"];
    var withLeaf := if "leaf_size" in opts then withMax + " -l " + opts["leaf_size"] else withMax;
    if "naive_mode" in opts then withLeaf + " -N" else withLeaf
  }

  /** The flag string, or the exception raised while consuming the options. */
  function Flags(opts: map<string, string>): (r: Result<string, Error>)
    ensures r.Failure? <==> "max" !in opts || !(opts.Keys <= Recognised)
    ensures "max" !in opts ==> r == Failure(MissingParameter)
    ensures "max" in opts && !(opts.Keys <= Recognised) ==> r == Failure(UnknownParameters)
    ensures r.Success? ==> r.value == FlagText(opts) && "-M " + opts["max"] <= r.value
  {
    assert forall k :: k in opts && k !in Recognised ==> k in opts - Recognised;
    if "max" !in opts then Failure(MissingParameter)
    else if opts - Recognised != map[] then Failure(UnknownParameters)
    else Success(FlagText(opts))
  }

  /** What is left of the dictionary when `RunMetrics` stops consuming it. */
  function Consumed(opts: map<string, string>): (r: map<string, string>)
    ensures "max" !in opts ==> r == opts
    ensures "max" in opts ==> r.Keys == opts.Keys - Recognised
    ensures forall k :: k in r ==> k in opts && r[k] == opts[k]
  {
    if "max" in opts then opts - Recognised else opts
  }

  /** The flag string is its tokens joined by single spaces. */
  lemma FlagTextIsJoinedTokens(opts: map<string, string>)
    requires "max" in opts
    ensures FlagText(opts) == Join(FlagTokens(opts))
  {
    var base := ["-M", opts["max"]];
    var withLeaf := if "leaf_size" in opts then base + ["-l", opts["leaf_size"]] else base;
    JoinPair("-M", opts["max"]);
    var text := "-M " + opts["max"];
    assert Join(base) == text;
    if "leaf_size" in opts {
      JoinPair("-l", opts["leaf_size"]);
      JoinAppend(base, ["-l", opts["leaf_size"]]);
      text := text + " -l " + opts["leaf_size"];
    }
    assert Join(withLeaf) == text;
    if "naive_mode" in opts {
      JoinAppend(withLeaf, ["-N"]);
      assert Join(withLeaf + ["-N"]) == text + " -N";
      assert FlagTokens(opts) == withLeaf + ["-N"];
      text := text + " -N";
    } else {
      assert FlagTokens(opts) == withLeaf;
    }
    assert FlagText(opts) == text;
  }

  lemma JoinPair(a: string, b: string)
    ensures Join([a, b]) == a + " " + b
  {
    assert [a, b][1..] == [b];
  }

  /**
   * When the option values hold no spaces, splitting the flag string on spaces
   * yields exactly `-M max`, then `-l leaf_size` if given, then `-N` if given.
   */
  lemma FlagTokensReadBack(opts: map<string, string>)
    requires "max" in opts && SpaceFree(opts["max"])
    requires "leaf_size" in opts ==> SpaceFree(opts["leaf_size"])
    ensures Split(FlagText(opts)) == FlagTokens(opts)
  {
    FlagTextIsJoinedTokens(opts);
    var ts := FlagTokens(opts);
    forall i | 0 <= i < |ts| ensures SpaceFree(ts[i]) { }
    SplitJoin(ts);
  }

  // ---------------------------------------------------------------------------
  // Input command and MATLAB command line (lines 76-86)

  /**
   * The dataset: a single path string, or a list of paths. The wrapper tests
   * `len(dataset) == 2`, which for a path string counts its characters.
   */
  datatype Dataset = Path(path: string) | Files(paths: seq<string>)

  /** The dataset's part of the input command, as tokens; None where the wrapper raises. */
  function DatasetTokens(dataset: Dataset): Option<seq<string>>
  {
    match dataset
    case Path(p) => if |p| == 2 then Some(["-r", [p[0]], "-q", [p[1]]]) else Some(["-r", p])
    case Files(ps) => if |ps| == 2 then Some(["-r", ps[0], "-q", ps[1]]) else None
  }

  /** The input command for the inner `RANGESEARCH('...')` call. */
  function InputCommand(dataset: Dataset, flags: string): (r: Result<string, Error>)
    ensures r.Failure? <==> dataset.Files? && |dataset.paths| != 2
    ensures r.Failure? ==> r.error == DatasetTypeError
  {
    match dataset
    case Path(p) =>
      if |p| == 2 then Success("-r " + [p[0]] + " -q " + [p[1]] + " " + flags)
      else Success("-r " + p + " " + flags)
    case Files(ps) =>
      if |ps| == 2 then Success("-r " + ps[0] + " -q " + ps[1] + " " + flags)
      else Failure(DatasetTypeError)
  }

  /** The input command is the dataset tokens followed by the flag tokens. */
  lemma InputCommandIsJoinedTokens(dataset: Dataset, opts: map<string, string>)
    requires "max" in opts
    requires DatasetTokens(dataset).Some?
    ensures InputCommand(dataset, FlagText(opts))
         == Success(Join(DatasetTokens(dataset).value + FlagTokens(opts)))
  {
    var ds := DatasetTokens(dataset).value;
    var flags := FlagText(opts);
    FlagTextIsJoinedTokens(opts);
    JoinAppend(ds, FlagTokens(opts));
    assert Join(ds + FlagTokens(opts)) == Join(ds) + " " + flags;
    match dataset
    case Path(p) =>
      if |p| == 2 {
        TwoEntryInput([p[0]], [p[1]], flags);
      } else {
        JoinPair("-r", p);
        assert ds == ["-r", p];
        assert "-r" + " " + p + " " + flags == "-r " + p + " " + flags;
      }
    case Files(ps) =>
      TwoEntryInput(ps[0], ps[1], flags);
  }

  lemma TwoEntryInput(reference: string, query: string, flags: string)
    ensures Join(["-r", reference, "-q", query]) + " " + flags
         == "-r " + reference + " -q " + query + " " + flags
  {
    var ds := ["-r", reference, "-q", query];
    JoinPair("-r", reference);
    JoinPair("-q", query);
    assert ds == ["-r", reference] + ["-q", query];
    JoinAppend(["-r", reference], ["-q", query]);
  }

  /**
   * A two-entry dataset yields distinct reference (`-r`) and query (`-q`)
   * tokens, a single path yields only `-r`; read back by splitting on spaces
   * when no path or option value holds a space.
   */
  lemma InputCommandReadBack(dataset: Dataset, opts: map<string, string>)
    requires "max" in opts && SpaceFree(opts["max"])
    requires "leaf_size" in opts ==> SpaceFree(opts["leaf_size"])
    requires dataset.Path? ==> SpaceFree(dataset.path)
    requires dataset.Files? ==> |dataset.paths| == 2 && SpaceFree(dataset.paths[0]) && SpaceFree(dataset.paths[1])
    ensures InputCommand(dataset, FlagText(opts)).Success?
    ensures Split(InputCommand(dataset, FlagText(opts)).value)
         == (match dataset
             case Path(p) => if |p| == 2 then ["-r", [p[0]], "-q", [p[1]]] else ["-r", p]
             case Files(ps) => ["-r", ps[0], "-q", ps[1]])
            + FlagTokens(opts)
  {
    InputCommandIsJoinedTokens(dataset, opts);
    var ts := DatasetTokens(dataset).value + FlagTokens(opts);
    forall i | 0 <= i < |ts| ensures SpaceFree(ts[i]) {
      if dataset.Path? && |dataset.path| == 2 && i < 4 {
        assert ts[1] == [dataset.path[0]] && ts[3] == [dataset.path[1]];
        assert dataset.path[0] in dataset.path && dataset.path[1] in dataset.path;
      }
    }
    SplitJoin(ts);
  }

  /** The quirk of line 78: a two-character path is read as a reference/query pair. */
  lemma TwoCharacterPathIsAPair(flags: string)
    ensures InputCommand(Path("ab"), flags) == Success("-r a -q b " + flags)
  {
    assert "-r " + ['a'] + " -q " + ['b'] + " " == "-r a -q b ";
  }

  const CommandHead: string := "matlab -nodisplay -nosplash -r \"try, RANGESEARCH('"
  const CommandTail: string := "'), catch, exit(1), end, exit(0)\""

  /** The MATLAB command line (before shell-style splitting). */
  function CommandLine(path: string, input: string): (r: string)
    ensures |r| == |path| + |CommandHead| + |input| + |CommandTail|
    ensures r[..|path| + |CommandHead|] == path + CommandHead
    ensures r[|path| + |CommandHead|..|path| + |CommandHead| + |input|] == input
    ensures r[|path| + |CommandHead| + |input|..] == CommandTail
  {
    path + "matlab -nodisplay -nosplash -r \"try, " + "RANGESEARCH('" + input + "'), catch, exit(1), end, exit(0)\""
  }

  /** Distinct input commands give distinct command lines. */
  lemma CommandLineInjective(path: string, a: string, b: string)
    requires CommandLine(path, a) == CommandLine(path, b)
    ensures a == b
  {
    var n := |path| + |CommandHead|;
    assert |a| == |b|;
    assert a == CommandLine(path, a)[n..n + |a|];
  }

  // ---------------------------------------------------------------------------
  // Timer extraction (parseTimer, lines 119-134)

  /**
   * The pattern is compiled with re.VERBOSE, so every blank in it is dropped:
   * `.*?total_time:(?P<total_time>.*?)s.*?` with `.` matching newlines, applied
   * with `match` (anchored at the start of the output).
   */
  const Marker: seq<byte> := Bytes("total_time:")
  const Unit: byte := 115  // 's'

  predicate MarkerAt(data: seq<byte>, i: int)
  {
    0 <= i && i + |Marker| <= |data| && data[i..i + |Marker|] == Marker
  }

  /**
   * One way the pattern matches: the lazy prefix takes `i` bytes, the marker
   * follows, the group takes `k` bytes and the unit byte `s` comes next.
   */
  ghost predicate PatternMatch(data: seq<byte>, i: nat, k: nat)
  {
    MarkerAt(data, i) && i + |Marker| + k < |data| && data[i + |Marker| + k] == Unit
  }

  /**
   * The match a backtracking engine reports: lazy quantifiers try shorter
   * first, so the prefix is the shortest possible and, for it, the group.
   */
  ghost predicate FirstMatch(data: seq<byte>, i: nat, k: nat)
  {
    && PatternMatch(data, i, k)
    && forall i': nat, k': nat :: PatternMatch(data, i', k') ==> i < i' || (i == i' && k <= k')
  }

  /** The first marker at or after `from`. */
  function FindMarker(data: seq<byte>, from: nat): (r: Option<nat>)
    decreases |data| - from
    ensures r.Some? ==> from <= r.value && MarkerAt(data, r.value)
    ensures forall i :: from <= i && (r.None? || i < r.value) ==> !MarkerAt(data, i)
  {
    if from + |Marker| > |data| then None
    else if data[from..from + |Marker|] == Marker then Some(from)
    else FindMarker(data, from + 1)
  }

  /** The first unit byte `s` at or after `from`. */
  function FindUnit(data: seq<byte>, from: nat): (r: Option<nat>)
    decreases |data| - from
    ensures r.Some? ==> from <= r.value < |data| && data[r.value] == Unit
    ensures forall j :: from <= j < |data| && (r.None? || j < r.value) ==> data[j] != Unit
  {
    if from >= |data| then None
    else if data[from] == Unit then Some(from)
    else FindUnit(data, from + 1)
  }

  /** The `total_time` group of the pattern, or None when the pattern does not match. */
  function MatchTotalTime(data: seq<byte>): (r: Option<seq<byte>>)
    ensures r.Some? ==> Unit !in r.value
  {
    match FindMarker(data, 0)
    case None => None
    case Some(i) =>
      match FindUnit(data, i + |Marker|)
      case None => None
      case Some(j) => Some(data[i + |Marker|..j])
  }

  /**
   * The scanner agrees with the pattern's backtracking semantics: it fails
   * exactly when the pattern matches nowhere, and otherwise returns the group
   * of the first match (the shortest prefix, then the shortest group).
   */
  lemma MatchTotalTimeIsFirstMatch(data: seq<byte>)
    ensures MatchTotalTime(data).None? <==> forall i: nat, k: nat :: !PatternMatch(data, i, k)
    ensures MatchTotalTime(data).Some? ==>
      exists i: nat, k: nat :: FirstMatch(data, i, k) && MatchTotalTime(data).value == data[i + |Marker|..i + |Marker| + k]
    ensures forall i: nat, k: nat :: FirstMatch(data, i, k) ==>
      MatchTotalTime(data) == Some(data[i + |Marker|..i + |Marker| + k])
  {
    var m := FindMarker(data, 0);
    if m.None? {
      forall i: nat, k: nat ensures !PatternMatch(data, i, k) { }
    } else {
      var i0 := m.value;
      var u := FindUnit(data, i0 + |Marker|);
      if u.None? {
        forall i: nat, k: nat ensures !PatternMatch(data, i, k) {
          if i >= i0 && i + |Marker| + k < |data| {
            assert data[i + |Marker| + k] != Unit;
          }
        }
      } else {
        var k0: nat := u.value - i0 - |Marker|;
        assert PatternMatch(data, i0, k0);
        forall i': nat, k': nat | PatternMatch(data, i', k') ensures i0 < i' || (i0 == i' && k0 <= k') {
          assert i' >= i0;
          if i' == i0 {
            assert data[i0 + |Marker| + k'] == Unit;
          }
        }
        assert FirstMatch(data, i0, k0);
        forall i: nat, k: nat | FirstMatch(data, i, k) ensures i == i0 && k == k0 { }
      }
    }
  }

  /**
   * Extraction from text embedded in arbitrary bytes: with no marker before
   * it, `prefix + total_time: + g + s + rest` yields `g` whenever `g` holds no
   * `s`; leading blanks of `g` are kept, as the pattern's blank is ignored.
   */
  lemma ExtractEmbedded(prefix: seq<byte>, g: seq<byte>, rest: seq<byte>)
    requires forall i :: !MarkerAt(prefix, i)
    requires Unit !in g
    ensures MatchTotalTime(prefix + Marker + g + [Unit] + rest) == Some(g)
  {
    var data := prefix + Marker + g + [Unit] + rest;
    var n := |prefix|;
    var start := n + |Marker|;
    assert data[..n] == prefix;
    assert data[n..start] == Marker;
    assert data[start + |g|] == Unit;
    forall i': nat | i' < n ensures !MarkerAt(data, i') {
      NoMarkerBefore(prefix, data, i');
    }
    assert MarkerAt(data, n);
    assert FindMarker(data, 0) == Some(n);
    forall j | start <= j < start + |g| ensures data[j] != Unit {
      assert data[j] == g[j - start];
    }
    assert FindUnit(data, start) == Some(start + |g|);
    assert data[start..start + |g|] == g;
  }

  /** A marker that starts inside a marker-free prefix cannot end inside the marker after it. */
  lemma NoMarkerBefore(prefix: seq<byte>, data: seq<byte>, i: nat)
    requires forall j :: !MarkerAt(prefix, j)
    requires |prefix| + |Marker| <= |data| && data[..|prefix|] == prefix
    requires data[|prefix|..|prefix| + |Marker|] == Marker
    requires i < |prefix|
    ensures !MarkerAt(data, i)
  {
    if i + |Marker| <= |prefix| {
      forall j | i <= j < i + |Marker| ensures data[j] == prefix[j] {
        assert data[..|prefix|][j] == data[j];
      }
      assert data[i..i + |Marker|] == prefix[i..i + |Marker|];
      assert !MarkerAt(prefix, i);
    } else {
      // ':' occurs in the marker only as its last byte
      var last := i + |Marker| - 1;
      assert data[last] == Marker[last - |prefix|];
      assert data[last] != Marker[|Marker| - 1];
    }
  }

  /** What `parseTimer` produces: `-1`, a timer tuple, or the exception from `float(...)`. */
  datatype TimerParse = ParseFailed | Parsed(totalTime: real) | ParseValueError

  /** `parseTimer`, with `float(...)` given as `toFloat` (None where it raises). */
  function ParseTimer(data: seq<byte>, toFloat: seq<byte> -> Option<real>): (r: TimerParse)
    ensures r.ParseFailed? <==> forall i: nat, k: nat :: !PatternMatch(data, i, k)
    ensures forall i: nat, k: nat :: FirstMatch(data, i, k) ==>
      r == match toFloat(data[i + |Marker|..i + |Marker| + k])
           case None => ParseValueError
           case Some(t) => Parsed(t)
  {
    MatchTotalTimeIsFirstMatch(data);
    match MatchTotalTime(data)
    case None => ParseFailed
    case Some(g) =>
      match toFloat(g)
      case None => ParseValueError
      case Some(t) => Parsed(t)
  }

  // ---------------------------------------------------------------------------
  // Outcome mapping (lines 88-111)

  /** The abstract outcome of `subprocess.check_output`. */
  datatype ProcessOutcome = Timeout | Failed | Completed(output: seq<byte>)

  /** What `RunMetrics` ends in: an exception, a negative code, or a metrics dict. */
  datatype RunResult =
    | Raised(error: Error)
    | ReturnCode(code: int)
    | ReturnMetrics(metrics: map<string, real>)

  const RuntimeKey: string := "Runtime"

  /** The return value for a process outcome. */
  function OutcomeResult(outcome: ProcessOutcome, toFloat: seq<byte> -> Option<real>): (r: RunResult)
    ensures r.ReturnCode? <==> !outcome.Completed?
    ensures r.ReturnCode? ==> r.code < 0
    ensures outcome.Timeout? <==> r == ReturnCode(-2)
    ensures outcome.Failed? ==> r == ReturnCode(-1)
    ensures r.ReturnMetrics? ==> r.metrics.Keys <= {RuntimeKey}
    ensures outcome.Completed? ==>
      (r == ReturnMetrics(map[]) <==> forall i: nat, k: nat :: !PatternMatch(outcome.output, i, k))
    ensures outcome.Completed? ==> forall i: nat, k: nat :: FirstMatch(outcome.output, i, k) ==>
      r == match toFloat(outcome.output[i + |Marker|..i + |Marker| + k])
           case None => Raised(FloatValueError)
           case Some(t) => ReturnMetrics(map[RuntimeKey := t])
  {
    match outcome
    case Timeout => ReturnCode(-2)
    case Failed => ReturnCode(-1)
    case Completed(s) =>
      match ParseTimer(s, toFloat)
      case ParseFailed => ReturnMetrics(map[])
      case Parsed(t) => assert RuntimeKey in map[RuntimeKey := t]; ReturnMetrics(map[RuntimeKey := t])
      case ParseValueError => Raised(FloatValueError)
  }

  /** The command spawned (if any) and the result, for a given option dictionary. */
  function Run(opts: map<string, string>, dataset: Dataset, path: string, timeout: real,
               execute: (string, real) -> ProcessOutcome, toFloat: seq<byte> -> Option<real>)
    : (r: (RunResult, Option<string>))
    ensures r.1.None? <==> r.0.Raised? && r.0.error != FloatValueError
    ensures r.1.None? ==> r.0 == Raised(if "max" !in opts then MissingParameter
                                        else if !(opts.Keys <= Recognised) then UnknownParameters
                                        else DatasetTypeError)
    ensures r.1.Some? <==> "max" in opts && opts.Keys <= Recognised && !(dataset.Files? && |dataset.paths| != 2)
    ensures r.1.Some? ==> r.1.value == CommandLine(path, InputCommand(dataset, FlagText(opts)).value)
    ensures r.1.Some? ==> r.0 == OutcomeResult(execute(r.1.value, timeout), toFloat)
  {
    assert "max" in opts && opts.Keys <= Recognised ==> opts - Recognised == map[];
    match Flags(opts)
    case Failure(e) => (Raised(e), None)
    case Success(flags) =>
      match InputCommand(dataset, flags)
      case Failure(e) => (Raised(e), None)
      case Success(input) =>
        var cmd := CommandLine(path, input);
        (OutcomeResult(execute(cmd, timeout), toFloat), Some(cmd))
  }

  /** Without `max` the wrapper raises before building a command or spawning a process. */
  lemma MissingMaxRaisesBeforeSpawn(opts: map<string, string>, dataset: Dataset, path: string, timeout: real,
                                    execute: (string, real) -> ProcessOutcome, toFloat: seq<byte> -> Option<real>)
    requires "max" !in opts
    ensures Run(opts, dataset, path, timeout, execute, toFloat) == (Raised(MissingParameter), None)
    ensures Consumed(opts) == opts
  {
  }

  /**
   * A key outside `max`, `leaf_size`, `naive_mode` raises before any process
   * is spawned, and only the recognised keys have been removed by then.
   */
  lemma UnknownKeyRaisesBeforeSpawn(opts: map<string, string>, key: string, dataset: Dataset, path: string,
                                    timeout: real, execute: (string, real) -> ProcessOutcome,
                                    toFloat: seq<byte> -> Option<real>)
    requires "max" in opts && key in opts && key !in Recognised
    ensures Run(opts, dataset, path, timeout, execute, toFloat) == (Raised(UnknownParameters), None)
    ensures key in Consumed(opts) && Consumed(opts).Keys == opts.Keys - Recognised
  {
    assert key in opts - Recognised;
  }

  /**
   * A process is spawned only for a dictionary that holds `max` and nothing
   * unrecognised, which has by then been emptied; the command is the MATLAB
   * line wrapped around the input command built from the flag string.
   */
  lemma SpawnOnlyForValidOptions(opts: map<string, string>, dataset: Dataset, path: string, timeout: real,
                                 execute: (string, real) -> ProcessOutcome, toFloat: seq<byte> -> Option<real>)
    requires Run(opts, dataset, path, timeout, execute, toFloat).1.Some?
    ensures "max" in opts && opts.Keys <= Recognised && Consumed(opts) == map[]
    ensures InputCommand(dataset, FlagText(opts)).Success?
    ensures Run(opts, dataset, path, timeout, execute, toFloat).1
         == Some(CommandLine(path, InputCommand(dataset, FlagText(opts)).value))
  {
    assert (opts - Recognised).Keys == {};
  }

  /**
   * A `Runtime` entry is only ever reported for a spawned process that
   * completed and whose output matches the timer pattern.
   */
  lemma RuntimeOnlyFromCompletedRun(opts: map<string, string>, dataset: Dataset, path: string, timeout: real,
                                    execute: (string, real) -> ProcessOutcome, toFloat: seq<byte> -> Option<real>)
    requires var r := Run(opts, dataset, path, timeout, execute, toFloat).0; r.ReturnMetrics? && RuntimeKey in r.metrics
    ensures var cmd := Run(opts, dataset, path, timeout, execute, toFloat).1;
      && cmd.Some?
      && execute(cmd.value, timeout).Completed?
      && exists i: nat, k: nat :: PatternMatch(execute(cmd.value, timeout).output, i, k)
  {
    var cmd := Run(opts, dataset, path, timeout, execute, toFloat).1;
    assert cmd.Some?;
    var out := execute(cmd.value, timeout);
    assert out.Completed?;
    MatchTotalTimeIsFirstMatch(out.output);
  }

  /** The single-file scenario: `{max: 5}`, `data.csv`, output `total_time: 0.512s`. */
  lemma SingleFileScenario(execute: (string, real) -> ProcessOutcome, toFloat: seq<byte> -> Option<real>)
    requires execute(CommandLine("", "-r data.csv -M 5"), 0.0) == Completed(Bytes("total_time: 0.512s"))
    requires toFloat(Bytes(" 0.512")) == Some(0.512)
    ensures Run(map["max" := "5"], Path("data.csv"), "", 0.0, execute, toFloat)
         == (ReturnMetrics(map[RuntimeKey := 0.512]), Some(CommandLine("", "-r data.csv -M 5")))
  {
    ScenarioCommand();
    ScenarioTimerText();
    assert ParseTimer(Bytes("total_time: 0.512s"), toFloat) == Parsed(0.512);
  }

  /** The scenario's options give the flags `-M 5`, and the input command `-r data.csv -M 5`. */
  lemma ScenarioCommand()
    ensures Flags(map["max" := "5"]) == Success("-M 5")
    ensures InputCommand(Path("data.csv"), "-M 5") == Success("-r data.csv -M 5")
  {
    var opts := map["max" := "5"];
    assert opts - Recognised == map[];
    assert FlagText(opts) == "-M " + "5" == "-M 5";
    assert |"data.csv"| == 8;
    assert "-r " + "data.csv" + " " + "-M 5" == "-r data.csv -M 5";
  }

  /** The scenario's output yields the group ` 0.512`, leading blank included. */
  lemma ScenarioTimerText()
    ensures MatchTotalTime(Bytes("total_time: 0.512s")) == Some(Bytes(" 0.512"))
  {
    var out := Bytes("total_time: 0.512s");
    assert out == [] + Marker + Bytes(" 0.512") + [Unit] + [];
    assert Unit !in Bytes(" 0.512");
    ExtractEmbedded([], Bytes(" 0.512"), []);
  }

  /** The group may be empty: the unit byte may follow the marker at once. */
  lemma EmptyGroup()
    ensures MatchTotalTime(Bytes("total_time:s")) == Some([])
  {
    assert Bytes("total_time:s") == [] + Marker + [] + [Unit] + [];
    ExtractEmbedded([], [], []);
  }

  /** `.` matches newlines, so the prefix and the group may span lines. */
  lemma MultilineGroup()
    ensures MatchTotalTime(Bytes("a\ntotal_time:\n1\ns")) == Some(Bytes("\n1\n"))
  {
    var prefix := Bytes("a\n");
    assert Bytes("a\ntotal_time:\n1\ns") == prefix + Marker + Bytes("\n1\n") + [Unit] + [];
    assert Unit !in Bytes("\n1\n");
    ExtractEmbedded(prefix, Bytes("\n1\n"), []);
  }

  /** Without an `s` after the marker the pattern does not match. */
  lemma NoUnitNoMatch()
    ensures MatchTotalTime(Bytes("total_time: 1")) == None
  {
    var noUnit := Bytes("total_time: 1");
    MatchTotalTimeIsFirstMatch(noUnit);
    assert Unit !in noUnit;
  }

  // ---------------------------------------------------------------------------
  // The benchmark object (lines 30-111)

  class RangeSearchBenchmark {
    const dataset: Dataset
    const timeout: real
    const path: string
    const verbose: bool

    constructor (dataset: Dataset, timeout: real := 0.0, path: string, verbose: bool := true)
      ensures this.dataset == dataset && this.timeout == timeout
      ensures this.path == path && this.verbose == verbose
    {
      this.dataset := dataset;
      this.timeout := timeout;
      this.path := path;
      this.verbose := verbose;
    }

    /**
     * The option-consuming part of `RunMetrics` (lines 58-74): pops the
     * recognised keys from `options` and returns the flag string, or the
     * exception raised when `max` is missing or keys remain.
     */
    method ConsumeOptions(options: OptionDict) returns (flags: Result<string, Error>)
      modifies options
      ensures options.entries == Consumed(old(options.entries))
      ensures flags == Flags(old(options.entries))
    {
      ghost var opts := options.entries;
      var optionsStr := "";
      if "max" in options.entries {
        var max := options.Pop("max");
        optionsStr := "-M " + max;
      } else {
        return Failure(MissingParameter);
      }
      assert ("leaf_size" in options.entries) == ("leaf_size" in opts);
      assert ("naive_mode" in options.entries) == ("naive_mode" in opts);
      if "leaf_size" in options.entries {
        var leafSize := options.Pop("leaf_size");
        optionsStr := optionsStr + " -l " + leafSize;
      }
      assert ("naive_mode" in options.entries) == ("naive_mode" in opts);
      if "naive_mode" in options.entries {
        optionsStr := optionsStr + " -N";
        var _ := options.Pop("naive_mode");
      }
      assert options.entries == opts - Recognised;
      assert optionsStr == FlagText(opts);
      if options.entries != map[] {
        return Failure(UnknownParameters);
      }
      return Success(optionsStr);
    }

    /**
     * `RunMetrics`: consumes `options` in place and returns the outcome,
     * together with the command handed to the process (None when none is).
     * `execute` stands for running a command with a timeout.
     */
    method RunMetrics(options: OptionDict, execute: (string, real) -> ProcessOutcome,
                      toFloat: seq<byte> -> Option<real>)
      returns (result: RunResult, spawned: Option<string>)
      modifies options
      ensures options.entries == Consumed(old(options.entries))
      ensures (result, spawned) == Run(old(options.entries), dataset, path, timeout, execute, toFloat)
    {
      var flags := ConsumeOptions(options);
      if flags.Failure? {
        return Raised(flags.error), None;
      }
      var optionsStr := flags.value;

      var inputCmd: string;
      match dataset {
        case Path(p) =>
          if |p| == 2 {
            inputCmd := "-r " + [p[0]] + " -q " + [p[1]] + " " + optionsStr;
          } else {
            inputCmd := "-r " + p + " " + optionsStr;
          }
        case Files(ps) =>
          if |ps| == 2 {
            inputCmd := "-r " + ps[0] + " -q " + ps[1] + " " + optionsStr;
          } else {
            return Raised(DatasetTypeError), None;
          }
      }
      assert InputCommand(dataset, optionsStr) == Success(inputCmd);

      var cmd := path + "matlab -nodisplay -nosplash -r \"try, " + "RANGESEARCH('" + inputCmd
        + "'), catch, exit(1), end, exit(0)\"";
      assert cmd == CommandLine(path, inputCmd);
      spawned := Some(cmd);
      var outcome := execute(cmd, timeout);
      if outcome.Timeout? {
        return ReturnCode(-2), spawned;
      }
      if outcome.Failed? {
        return ReturnCode(-1), spawned;
      }

      var metrics: map<string, real> := map[];
      var timer := ParseTimer(outcome.output, toFloat);
      if timer.ParseValueError? {
        return Raised(FloatValueError), spawned;
      }
      if timer != ParseFailed {
        metrics := metrics[RuntimeKey := timer.totalTime];
      }
      result := ReturnMetrics(metrics);
      assert result == OutcomeResult(outcome, toFloat);
    }
  }
}
