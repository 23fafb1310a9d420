# Benchmark wrapper option logic, modelled in Dafny

Two benchmark wrappers of the benchmarks repository, modelled and proved:

- **`RANGESEARCH.RunMetrics`** (methods/matlab/range_search.py) consumes the caller's option
  dictionary in place. It pops `max` (required), then `leaf_size` and `naive_mode` (optional),
  and rejects any key left over. It then builds the flag string, the input command from one or
  two dataset paths, and the MATLAB command line. Finally it maps the process outcome to `-2`
  (timeout), `-1` (failure) or a metrics dict. **`parseTimer`** applies the pattern
  `.*?total_time: (?P<total_time>.*?)s.*?` with `re.VERBOSE|re.MULTILINE|re.DOTALL` through
  `match`. Because of `re.VERBOSE`, the blank after the colon is not part of the pattern.
  `re.MULTILINE` has no effect, because the pattern holds no `^` or `$`.
  - This file is mixed. `RunMetrics` is a method of the class `RangeSearch.RangeSearchBenchmark`.
    It empties an `OptionDict` object through `Pop`, and is proved equal to a pure reference
    function `Run`.
  - `parseTimer` is the pure function `ParseTimer`. It is built on the scanning function
    `MatchTotalTime`, which models the `pattern.match` step. `MatchTotalTime` is proved equal
    to the backtracking semantics of the lazy pattern, `FirstMatch`: the shortest prefix, then
    the shortest group.
- **`KPCA.KPCAScikit`**, lines 61-92 (methods/scikit/kernel_pca.py), picks the configuration
  from three `re.search` scans of the option string: `-d (\d+)`, `-k ([^\s]+)` and `-D (\d+)`.
  It checks the dimension against the dataset's column count, then maps the kernel name.
  - This part is pure. `KernelPca.SelectConfig` maps (option string, column count) to a chosen
    `Config` or a `Rejected(reason)`. `Rejected` stands for the `-1` return, and the reason
    tells which fatal message came first.
  - `re.search` is a leftmost scan (`Search`) followed by a greedy run (`RunEnd`). They are
    proved to give the leftmost match and the longest group.

Files:
- `wrappers.dfy`: `Option` and `Result`.
- `range_search.dfy`: module `RangeSearch`.
- `kernel_pca.dfy`: module `KernelPca`.

Inputs that cannot be modelled become parameters:
- The process run is a function `execute` from (command, timeout) to an outcome: `Timeout`,
  `Failed` or `Completed(bytes)`.
- Python's `float(...)` on the captured bytes is a function `toFloat`. `None` stands for the
  `ValueError` that float raises.
- The column count `data.shape[1]` is a plain argument.

Notes on the code's behaviour:
- A dataset path string of any length other than 2 is passed only as `-r <path>`. No `-q` is
  added, so the path is not reused as the query. A path string of exactly two characters takes
  the two-file branch, because line 78 tests `len(self.dataset) == 2`.
- When the timer text does not match, `RunMetrics` returns an empty metrics dict. It returns no
  parse-error code.
- The timer group is every byte between `total_time:` and the next `s`, not only a number. That
  includes leading blanks, newlines and the empty text. Anything `float` refuses raises
  `ValueError`, and the source does not catch it.

## Model

| member | source | states |
|---|---|---|
| RangeSearch.OptionDict.Pop | methods/matlab/range_search.py:61-70 | `dict.pop`: returns the value held for the key, and the dictionary afterwards is the old one without that key |
| RangeSearch.FlagText | methods/matlab/range_search.py:59-70 | the flag string starts with `-M ` + max, and ends with ` -N` whenever `naive_mode` is present, whatever its value |
| RangeSearch.Flags | methods/matlab/range_search.py:59-74 | the options raise exactly when `max` is missing or some key is outside {max, leaf_size, naive_mode}; missing `max` raises "missing parameter", and with `max` present a leftover key raises "unknown parameters"; on success the result is the whole flag string `FlagText`, which starts with `-M ` + max |
| RangeSearch.FlagTextIsJoinedTokens | methods/matlab/range_search.py:59-70 | the flag string is the tokens `-M max`, then `-l leaf_size` if given, then `-N` if given, in that order, joined by single blanks |
| RangeSearch.FlagTokensReadBack | methods/matlab/range_search.py:59-70 | when the values hold no blank, splitting the flag string on blanks gives back exactly those tokens in that order |
| RangeSearch.InputCommand | methods/matlab/range_search.py:76-82 | building the input command fails exactly for a list of paths whose length is not 2, and then with the TypeError of `str + list` |
| RangeSearch.InputCommandIsJoinedTokens | methods/matlab/range_search.py:76-82 | the input command is the dataset tokens (`-r d0 -q d1` for a length-2 dataset, `-r d` otherwise) followed by the flag tokens, joined by blanks |
| RangeSearch.InputCommandReadBack | methods/matlab/range_search.py:76-82 | a length-2 dataset gives separate reference and query tokens, any other path only `-r`, and the flag tokens follow unchanged, as read back by splitting on blanks |
| RangeSearch.TwoCharacterPathIsAPair | methods/matlab/range_search.py:78-80 | a plain path of exactly two characters takes the two-file branch: `ab` becomes `-r a -q b` |
| RangeSearch.CommandLine | methods/matlab/range_search.py:85-86 | the command line is the binary path plus the fixed MATLAB head, then the input command verbatim, then the fixed `catch`/`exit` tail |
| RangeSearch.CommandLineInjective | methods/matlab/range_search.py:85-86 | for a fixed binary path, two input commands that give the same command line are equal |
| RangeSearch.FindMarker | methods/matlab/range_search.py:122-126 | the scan returns the leftmost `total_time:` at or after its start, and None only when there is none |
| RangeSearch.FindUnit | methods/matlab/range_search.py:122-126 | the scan returns the first `s` byte at or after its start, and None only when there is none |
| RangeSearch.MatchTotalTime | methods/matlab/range_search.py:122-127 | an extracted group never contains the unit byte `s` |
| RangeSearch.MatchTotalTimeIsFirstMatch | methods/matlab/range_search.py:122-127 | `match` fails exactly when no (prefix, group) split of the pattern fits the data; otherwise the group is the one of the first match, with the shortest prefix and then the shortest group, which is unique |
| RangeSearch.ExtractEmbedded | methods/matlab/range_search.py:122-134 | for a prefix without the marker and a group without `s`, prefix + `total_time:` + group + `s` + any rest yields exactly that group, leading blanks and newlines kept |
| RangeSearch.ParseTimer | methods/matlab/range_search.py:119-134 | `parseTimer` returns `-1` exactly when the pattern matches nowhere; otherwise it gives `float` of the first match's group, or the ValueError `float` raises |
| RangeSearch.ScenarioTimerText | methods/matlab/range_search.py:122-126 | output `total_time: 0.512s` yields the group ` 0.512`, with its leading blank |
| RangeSearch.EmptyGroup | methods/matlab/range_search.py:122-126 | output `total_time:s` matches with an empty group |
| RangeSearch.MultilineGroup | methods/matlab/range_search.py:122-126 | `.` spans newlines: a prefix and a group that both contain newlines still match |
| RangeSearch.NoUnitNoMatch | methods/matlab/range_search.py:122-129 | a marker with no `s` after it does not match |
| RangeSearch.OutcomeResult | methods/matlab/range_search.py:90-111 | a negative code only for a process that did not complete: `-2` exactly for a timeout, `-1` for any other failure; a metrics dict holds at most `Runtime`; it is empty exactly when the timer pattern does not match; otherwise `Runtime` is `float` of the first match's group |
| RangeSearch.MissingMaxRaisesBeforeSpawn | methods/matlab/range_search.py:60-64 | without `max` the call raises "missing parameter", spawns no process, and leaves the dictionary untouched |
| RangeSearch.UnknownKeyRaisesBeforeSpawn | methods/matlab/range_search.py:66-74 | with `max` and any unrecognised key the call raises "unknown parameters" before spawning; only the recognised keys were removed |
| RangeSearch.SpawnOnlyForValidOptions | methods/matlab/range_search.py:58-92 | a process is spawned only when `max` is there and every key is recognised; by then the dictionary is empty, and the command is the MATLAB line around the input command |
| RangeSearch.RuntimeOnlyFromCompletedRun | methods/matlab/range_search.py:90-111 | a `Runtime` entry comes only from a spawned process that completed with output the timer pattern matches |
| RangeSearch.ScenarioCommand | methods/matlab/range_search.py:59-82 | `{max: 5}` gives the flags `-M 5`, and with `data.csv` the input command `-r data.csv -M 5` |
| RangeSearch.SingleFileScenario | methods/matlab/range_search.py:55-111 | `{max: 5}` with `data.csv` and output `total_time: 0.512s` returns `{Runtime: 0.512}` and runs the expected command line |
| RangeSearch.Consumed | methods/matlab/range_search.py:60-74 | what is left of the dictionary: all of it when `max` is missing, otherwise exactly the keys outside {max, leaf_size, naive_mode}, with their values unchanged |
| RangeSearch.Run | methods/matlab/range_search.py:55-111 | a process is spawned exactly when `max` is present, every key is recognised and the dataset is not a list whose length differs from 2. The spawned command is the MATLAB line around the input command of the flag string. Otherwise the call raises the error of the first failing check (missing parameter, then unknown parameters, then the dataset error). After a spawn, the result is the outcome mapping of what the process produced |
| RangeSearch.RangeSearchBenchmark.constructor | methods/matlab/range_search.py:40-45 | the object keeps the dataset, timeout, binary path and verbosity it is given; the timeout defaults to 0 and verbosity to true |
| RangeSearch.RangeSearchBenchmark.ConsumeOptions | methods/matlab/range_search.py:58-74 | popping the options in place leaves the old dictionary minus the recognised keys (or untouched when `max` is missing), and yields the specified flag string or exception |
| RangeSearch.RangeSearchBenchmark.RunMetrics | methods/matlab/range_search.py:55-111 | the method consumes the dictionary as above, and its result and spawned command equal the reference `Run` of the old options |
| KernelPca.Search | methods/scikit/kernel_pca.py:61 | the scan returns a start at which literal plus one class character matches, with no match before it, and None only when none matches |
| KernelPca.RunEnd | methods/scikit/kernel_pca.py:61 | the run end bounds a maximal run of class characters: all of them before it are in the class, and the one at it is not |
| KernelPca.SearchGroup | methods/scikit/kernel_pca.py:61-65 | a found group is non-empty and consists of class characters only |
| KernelPca.SearchGroupIsLeftmostGreedy | methods/scikit/kernel_pca.py:61-62 | the search fails exactly when the pattern matches nowhere; otherwise the group is the greedy group of the leftmost match |
| KernelPca.SearchGroupIsRegexSearch | methods/scikit/kernel_pca.py:61-65 | any leftmost match with a greedy group fixes the search result to that group |
| KernelPca.GroupAtFront | methods/scikit/kernel_pca.py:61 | a literal at the very start followed by a class run ending where the class ends yields that run |
| KernelPca.DecimalValue | methods/scikit/kernel_pca.py:65 | `int` of a run of k decimal digits is a natural number below 10^k |
| KernelPca.DecimalText | methods/scikit/kernel_pca.py:65 | the decimal text of a number is non-empty and all digits |
| KernelPca.DecimalRoundTrip | methods/scikit/kernel_pca.py:65 | `int` of the decimal text of `n` is `n` |
| KernelPca.LibraryName | methods/scikit/kernel_pca.py:78-88 | the kernel handed to the library is one of `linear`, `sigmoid` and `poly`; `poly` exactly for the polynomial kernel and `linear` exactly for the linear one |
| KernelPca.SelectConfig | methods/scikit/kernel_pca.py:61-92 | a chosen configuration never asks for more components than the dataset has columns |
| KernelPca.NoDimensionUsesColumns | methods/scikit/kernel_pca.py:61-63 | without a `-d <digits>` anywhere, the dimension is never rejected, and every chosen configuration uses the column count |
| KernelPca.OversizeDimensionRejected | methods/scikit/kernel_pca.py:61-76 | a leftmost `-d N` with N above the column count is rejected as too large, before the kernel is looked at |
| KernelPca.DimensionWithinColumnsKept | methods/scikit/kernel_pca.py:64-69 | a leftmost `-d N` with N at most the column count (equality included) is not rejected for size, and N is the component count of any chosen configuration |
| KernelPca.MissingKernelRejected | methods/scikit/kernel_pca.py:72-76 | once the dimension passes, a missing `-k <token>` is rejected as a missing kernel |
| KernelPca.KernelMapping | methods/scikit/kernel_pca.py:77-92 | a configuration is chosen exactly for `linear`, `hyptan` and `polynomial`, which map to `linear`, `sigmoid` and `poly`; any other token is rejected as an invalid kernel, carrying the token |
| KernelPca.PolynomialDegree | methods/scikit/kernel_pca.py:81-88 | for `polynomial` the degree is 1 when no `-D <digits>` occurs, and otherwise the value of the leftmost one's digits |
| KernelPca.FormattedDimension | methods/scikit/kernel_pca.py:61-65 | in `-d N -k polynomial -D M` the dimension scan finds the text of N |
| KernelPca.FormattedKernel | methods/scikit/kernel_pca.py:72 | in `-d N -k polynomial -D M` the kernel scan finds `polynomial` |
| KernelPca.FormattedDegree | methods/scikit/kernel_pca.py:82-86 | in `-d N -k polynomial -D M` the degree scan finds the text of M |
| KernelPca.FormattedOptions | methods/scikit/kernel_pca.py:61-88 | for N at most the column count, `-d N -k polynomial -D M` selects a polynomial kernel of degree M with N components |

## Left out

- Process execution (`subprocess.check_output`, stderr redirection, the timeout and killing the process) is the parameter `execute`. Only the three outcomes the code branches on are modelled, and the timeout is handed to `execute` unchanged.
- `shlex.split`, the library's shell-style tokenisation, is left out. The model stops at the command string before it is split.
- RangeSearch.Run: does not model the `ValueError` that `shlex.split` raises on an unbalanced quote. An example is a `max` of `5"`. The split at line 85 runs before the `try` at line 90, so `RunMetrics` raises. The model hands the unsplit string to `execute`, which can only end in one of the three outcomes.
- The constructor's default binary path `os.environ["MATLAB_BIN"]` is left out, because it comes from the environment. The defaults `timeout=0` and `verbose=True` are kept as parameter defaults.
- `float(...)` is the parameter `toFloat`, and the runtime value is whatever it returns. How Python parses floating-point numbers is not modelled.
- `Log.Info`, `Log.Warn` and `Log.Fatal`, and the `verbose` flag they read, are left out. Logging has no effect on results.
- The `sys.path` setup of both files is left out.
- Option values are held as their `str(value)` text. The Python objects behind them are not modelled.
- `OptionDict.Pop` requires the key to be present. Every call in `RunMetrics` is guarded by an `in` test, so the `KeyError` path is never taken.
- A dataset is a single path string or a list of path strings. Other Python values, and the `TypeError` of indexing them, are not modelled.
- In kernel_pca.py, the following are left out: `np.genfromtxt`, `KernelPCA(...).fit_transform`, the `Timer` context with its elapsed time, and the wrapper `RunMethod`. These are file loading, numerical library calls and wall-clock timing. The column count `data.shape[1]` is an argument, so the failure of one-dimensional data is not modelled.
- kernel_pca.py never imports `re` itself. The model assumes the module is reachable, for example through the star imports of `log` and `timer`, which are not part of this model.
- KernelPca.IsDigit: covers only the ASCII digits `0`-`9`. In a text pattern Python's `\d` also accepts the other Unicode decimal digits, and `int` accepts them too.
- KernelPca.IsSpace: is the fixed set of characters `str.isspace` accepts. Unicode database updates are not tracked.
