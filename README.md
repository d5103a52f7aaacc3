# mcp_no_and_motovation, modelled in Dafny

A model of the logic in `mcp_no_and_motovation.py`, a small demonstration
server. It serves a random rejection reason ("No-as-a-Service"), a random
motivational quote, a multiplication tool, a greeting resource and a
code-review prompt. The two random tools read their lists from JSON files
through lazily filled module-level caches. A missing file, or one that is not
valid JSON text, falls back to a hard-coded list. A file that is not valid
UTF-8 raises `UnicodeDecodeError` while it is read; that is not a JSON decode
error, so it is not caught and propagates.

Modules:

- `PyValues` (`py_values.dfy`): a decoded JSON value (`Json`, with `JNull`
  for Python's `None`), the exceptions that can escape (`Error`), and
  `Result`/`Option`.
- `Loader` (`loader.dfy`): `load_reasons` / `load_quotes` over an abstract
  outcome of reading the file (`Parsed`, `NotFound`, `DecodeError`,
  `OtherError`), plus the two fallback lists.
- `RandomChoice` (`random_choice.dfy`): `random.choice` with the random index
  as a nondeterministic choice. It follows CPython 3.12+ (and 3.11 from 3.11.2): `len()` first (TypeError
  without it), then IndexError on length 0, then `seq[k]`.
- `LazyCache` (`lazy_cache.dfy`): one getter call as a pure function (`Get`),
  a run of many calls (`Run`), and the lemmas about loading at most once, the
  `null` caveat and retries after a failure.
- `Server` (`server.dfy`): class `ModuleState` holding `_reasons_cache` and
  `_quotes_cache`. Its methods are `get_reasons`, `get_quotes`,
  `get_no_reason` and `get_motivational_quote`. Ghost counters record how
  often each loader ran.
- `Tools` (`tools.dfy`): `multiply`, `get_message` and `ask_code_review`,
  each with a partner: a repeated-sum reference for multiplication, and an
  inverse parser for each of the two string builders.

The code does not check what `json.load` returns. It keeps an empty list, a
dict or a string just as it keeps a list of strings. A JSON `null` is stored
as `None`, which the getter cannot tell from "not loaded", so the next call
loads again. The random tools then return whatever `random.choice` gives for that value, or raise.
Only the fallback lists are guaranteed to be non-empty lists of non-empty
strings. `GetNoReason` and `GetMotivationalQuote` state success for any
cached non-empty list or string, and a non-empty string result when the cache
holds a non-empty list of non-empty strings.

## Model

| member | source | states |
|---|---|---|
| `Loader.ReasonsFallback` | mcp_no_and_motovation.py:18-24 | The reasons fallback has exactly five entries, and every entry is non-empty. |
| `Loader.QuotesFallback` | mcp_no_and_motovation.py:45-49 | The quotes fallback has exactly three entries, and every entry is non-empty. |
| `PyValues.StringList` | mcp_no_and_motovation.py:18-24 | The Python list of `str` built from a sequence: same length, and element `i` is the `i`-th string. This is how the fallback lists are returned. |
| `Loader.LoadOrFallback` | mcp_no_and_motovation.py:13-24 | The try/except shared by both loaders: it raises exactly on a read failure other than the two caught ones, with that exception. A decoded document is returned unchanged. A missing file or a decode error gives the given fallback list. |
| `Loader.LoadReasons` | mcp_no_and_motovation.py:10-24 | A decoded document is returned unchanged, with no validation. A missing file or a JSON decode error returns exactly the five-string fallback, which is a non-empty list of non-empty strings. Any other read failure raises that same exception, and only then does the call raise. |
| `Loader.LoadQuotes` | mcp_no_and_motovation.py:37-49 | Same three cases as for reasons, with the three-string quotes fallback. |
| `RandomChoice.Choice` | mcp_no_and_motovation.py:72 | `random.choice`: TypeError exactly when the value has no length, IndexError exactly when the length is 0, KeyError for a non-empty dict. It never fails on a non-empty list or string. Any returned value is an element of the list, or a one-character string of the string. |
| `LazyCache.Get` | mcp_no_and_motovation.py:32-34 | One getter call: the loader runs exactly when the cache is `None`, and then the call returns or raises what the loader does. A loaded cache is kept. A returned value is always the value now cached. A call that raises leaves the cache `None`. |
| `LazyCache.Run` | mcp_no_and_motovation.py:29-34 | A run of getter calls yields one result per call and runs the loader at most once per call. |
| `LazyCache.LoadedCacheIsStable` | mcp_no_and_motovation.py:32-34 | Once the cache holds a non-`None` value, later calls never run the loader and never change the cache. Each of them returns that value, whatever the file holds by then. |
| `LazyCache.LoaderCallsMatchReference` | mcp_no_and_motovation.py:29-34 | From an unloaded cache, the loader count equals one call per getter call up to and including the first load that leaves a non-`None` value, and none after. |
| `LazyCache.FirstSettledLoadIsFinal` | mcp_no_and_motovation.py:32-34 | Load at most once: if the first load gives a non-`None` value `v`, the loader runs exactly once, the cache ends as `v`, and every call returns `v`. |
| `LazyCache.NullReloadsOnEveryCall` | mcp_no_and_motovation.py:32-33 | The `null` caveat: if the file decodes to JSON `null` every time, every call runs the loader, returns `None`, and the cache stays unloaded. |
| `LazyCache.FailedLoadIsRetried` | mcp_no_and_motovation.py:32-33 | A call whose load raises returns that exception and leaves the cache unloaded. The rest of the run, including the next loader call, is exactly that of a fresh, unloaded cache. |
| `LazyCache.MissingFileSettlesOnFallback` | mcp_no_and_motovation.py:16-34 | If the first read finds no file, or finds invalid JSON, the loader runs once. Every call, then and later, returns the fallback list. |
| `Server.ModuleState.constructor` | mcp_no_and_motovation.py:27 | Both caches start as `None` (also line 52), and neither loader has run. |
| `Server.ModuleState.GetReasons` | mcp_no_and_motovation.py:29-34 | The new reasons cache, the result and the loader count are those of one `Get` step over `load_reasons`. A loaded cache is returned unchanged without loading. The quotes cache and its count are untouched. |
| `Server.ModuleState.GetQuotes` | mcp_no_and_motovation.py:54-59 | The same for the quotes cache over `load_quotes`. The reasons cache and its count are untouched. |
| `Server.ModuleState.GetNoReason` | mcp_no_and_motovation.py:69-72 | The cache update is that of `get_reasons`, and its exception propagates. The result is an element of the cached value. A cached non-empty list or string always gives a result, and a cached non-empty list of non-empty strings gives a non-empty string. When the load did not raise, the call raises TypeError exactly when the value has no length, IndexError exactly when it is empty, and KeyError for a non-empty dict. A file holding JSON `null` therefore gives TypeError. With a missing or invalid file, the result is one of the fallback reasons. The quotes cache is untouched. |
| `Server.ModuleState.GetMotivationalQuote` | mcp_no_and_motovation.py:76-79 | The same for quotes over `get_quotes`: success, error kinds (TypeError for JSON `null`) and membership over the quotes cache, and one of the fallback quotes for a missing or invalid file. The reasons cache is untouched. |
| `Tools.RepeatedSumIsProduct` | mcp_no_and_motovation.py:65 | Adding `a` to itself `n` times equals `a * n`, for every unbounded integer `a`. |
| `Tools.Multiply` | mcp_no_and_motovation.py:63-65 | `multiply(a, b)` over unbounded integers, with no overflow, equals `b` copies of `a` added together, negated for negative `b`. |
| `Tools.GetMessage` | mcp_no_and_motovation.py:83-85 | The greeting parses back, as `Welcome, <name>!`, to exactly the name it was built from. |
| `Tools.GreetingRoundTrip` | mcp_no_and_motovation.py:83-85 | `GetMessage(name) == g` exactly when parsing `g` as `Welcome, <name>!` gives back `name`. So the greeting is `Welcome, ` + name + `!` and determines the name. |
| `Tools.AskCodeReview` | mcp_no_and_motovation.py:89-91 | The prompt parses back, after the `Please review the following code: ` prefix, to exactly the snippet it was built from. |
| `Tools.ReviewPromptRoundTrip` | mcp_no_and_motovation.py:89-91 | `AskCodeReview(s) == p` exactly when stripping the `Please review the following code: ` prefix from `p` gives back `s`. |

## Left out

- FastMCP server creation, the tool/resource/prompt registration decorators and `mcp.run()`: transport plumbing over a library that is not part of this model.
- The file read itself: the path computed from `__file__`, `open` and `json.load`. Their outcome is a parameter of the loaders and getters (`ReadOutcome`). JSON numbers are modelled as integers only. A JSON float, NaN or Infinity is represented by some `JNumber`, and a string holding a lone surrogate cannot be represented. For such list elements the model cannot state the exact value a random tool returns.
- The uniform distribution of `random.choice`: the model only states which values can be returned.
- Concurrent callers racing on the check-then-set of the caches: the model is sequential.
- `Server.ModuleState.GetNoReason`: the `-> str` annotation is not enforced by Python. The model returns whatever element the cached reasons value holds, so a non-empty string result is promised only when that value is a non-empty list of non-empty strings.
- `Server.ModuleState.GetMotivationalQuote`: the same as for `GetNoReason`, over the cached quotes value.
