# vanish: a verified model of the CDN filter

`vanish.py` reads a list of domains and prints only the ones it believes are
hosted directly rather than behind a CDN. For each raw token it keeps the
text before the first `:` (meant to drop a `:port` suffix). It runs `host`
on that host and looks for a known provider name in the output. Only when
that output completed clear does it run `dig` and search its output the
same way. If DNS is clear, it fetches
`http://<host>` and looks for a provider name in the `server` and `x-cdn`
response headers. A worker pool classifies all tokens, and `main` prints each
truthy result as it arrives.

This project models that decision procedure in Dafny. The external calls
become an `Env` value: one function gives the result of `host`, one the
result of `dig`, and one the result of the HTTP GET for a URL. Each submitted
entry has its own `Env`, because each task runs its own probes. Every stage
returns an `Outcome`: the stage's value (`None` or the domain) and the trace
of external calls it made. With the trace, "`dig` is not run", "no HTTP
request is made" and "the port is never probed" are statements about the
model's values.

Modules:

- `Options` (options.dfy): `Option`, Python's `None`-or-value.
- `Signatures` (signatures.dfy): `CDN_PROVIDERS`, ASCII lower-casing, the
  substring test, and the first-match scan over the providers. It also
  proves that the scan is a case-insensitive first-match search.
- `Probes` (probes.dfy): `check_dns` and `check_http`.
- `Classifier` (classifier.dfy): port stripping, Python truthiness and
  `process_domain`.
- `Dispatcher` (dispatcher.dfy): the fan-in at the end of `main`. This is
  the loop over completed futures that prints the truthy results.

Two behaviours of the source are worth stating plainly:

- A `SubprocessError` while running `host` or `dig` makes `check_dns` return
  `None`, so the domain is dropped (vanish.py:57-58).
- Only the tools' standard output is searched. Standard error is captured
  and thrown away (vanish.py:36-37, 47-48).

## Model

| member | source | states |
|---|---|---|
| `Signatures.Lower` | vanish.py:41 | lower-casing keeps the length, leaves no ASCII capital and changes each character only in case |
| `Signatures.ProvidersAreLower` | vanish.py:9 | every provider name is already lower case |
| `Signatures.Contains` | vanish.py:41 | `pattern in text` holds exactly when the pattern occurs at some position of the text, the empty pattern included |
| `Signatures.ContainsLowerIffIgnoringCase` | vanish.py:41 | for a lower-case provider, searching the lower-cased text is the same as a case-insensitive substring search of the original text |
| `Signatures.FirstHit` | vanish.py:40-44 | the provider loop stops at the first provider, in list order, that occurs in a text; no provider before it occurs; if it finds none, no provider occurs |
| `Signatures.FirstProviderIn` | vanish.py:23-27 | after lower-casing each text, nothing is reported iff no provider occurs, ignoring case, in any text; provider k is reported iff it occurs and no earlier provider does |
| `Signatures.FirstMatch` | vanish.py:40-44 | for one tool output, nothing is reported iff the text is free of every provider ignoring case; provider k is reported iff it occurs and no earlier provider does |
| `Signatures.FirstMatchEither` | vanish.py:23-24 | the `server`/`x-cdn` pair is clear iff each value is clear on its own; provider k is reported iff it occurs in either value and no earlier provider occurs in either |
| `Signatures.FirstMatchIgnoresCase` | vanish.py:41 | two texts that differ only in ASCII case report the same provider |
| `Probes.CheckDns` | vanish.py:32-58 | `host` runs first; `dig` runs iff the `host` output completed clear; the domain comes back unchanged iff both outputs completed and are free of providers; a match or a SubprocessError gives `None` |
| `Probes.DigIgnoredWhenHostMatches` | vanish.py:39-47 | when the `host` output names a provider, the result is `None` after running only `host`, whatever `dig` would have returned |
| `Probes.CheckHttp` | vanish.py:18-30 | one `requests.get` call on `http://<domain>`; the domain comes back unchanged iff the request succeeded and neither header names a provider, where a missing header is `""`; a RequestException gives `None` |
| `Classifier.TextBefore` | vanish.py:64 | `s.split(c)[0]` is a prefix of `s` without `c`, and it is followed in `s` by `c` unless it is all of `s` |
| `Classifier.StripPort` | vanish.py:63-64 | the probed host has no `:`; it is the text before the first `:` when the token has one, and the token itself otherwise |
| `Classifier.DnsGate` | vanish.py:67-68 | the DNS result is truthy iff the host is non-empty and both DNS outputs completed clear |
| `Classifier.ProcessDomain` | vanish.py:60-71 | the result is `None` or exactly the stripped host; it is the host iff the host is non-empty and both stages are clear; the calls made are `host`, then `dig`, then the GET, cut short at the first stage that stops: `dig` runs iff the `host` output completed clear, and the GET happens iff the DNS result is truthy |
| `Classifier.HttpIgnoredWhenDnsBlocks` | vanish.py:66-71 | when the DNS result is falsy, the result is `None`, no request is made and the HTTP observation has no effect |
| `Classifier.EmptyHostDropped` | vanish.py:63-71 | the probed host is empty iff the token is empty or starts with `:`, and such a token is never reported, because the DNS stage hands back the falsy `""` |
| `Dispatcher.Survivors` | vanish.py:99-102 | at most one printed line per result; every printed line is non-empty and is the value of one of the results |
| `Dispatcher.SurvivorsAppend` | vanish.py:99-102 | the filter keeps order: the lines printed for results taken one run after another are the lines of the first run followed by those of the second |
| `Dispatcher.SurvivorCount` | vanish.py:99-102 | a line `d` is printed exactly as many times as `Some(d)` occurs among the results, and the empty line never is |
| `Dispatcher.FanInOrderIndependent` | vanish.py:99-102 | two arrival orders of the same results print the same multiset of lines |
| `Dispatcher.Outcomes` | vanish.py:97-100 | one result per submitted entry, each computed from that entry's own observations; each is `None` or the entry's stripped host |
| `Dispatcher.PickPermutes` | vanish.py:97-99 | taking the per-task results in two orders that list the same tasks gives the same multiset of results |
| `Dispatcher.CompletionOrderPermutes` | vanish.py:96-102 | in any completion order, the printed multiset equals the truthy results in submission order; in submission order, the results are taken as submitted |
| `Dispatcher.Dispatch` | vanish.py:95-102 | the lines printed are the truthy results in the order the futures are handed over; as a multiset they are the truthy results of all entries, whatever that order; when the futures are taken in submission order, the lines come out in input order |

## Left out

- External processes and the network (vanish.py:21, 36, 47): `subprocess.run` and `requests.get` are replaced by the functions of `Env`. The 5-second timeout is one cause of the modelled RequestException.
- HTTP redirects (vanish.py:21): `requests.get` follows redirects inside the one call, so it may send several GETs. `Env.get` gives the final response, whose headers are inspected, or the exception.
- `fake_useragent` and the random `User-Agent` header (vanish.py:6, 12-16): random values from a foreign library. The header is not modelled. Whatever it does to a server's answer is part of that entry's observed `HttpResult`, and each entry has its own `Env`.
- The thread pool (vanish.py:96-99): scheduling is not modelled. The order in which `as_completed` hands the futures over is an input: any permutation of the submitted tasks. Even with one worker, that order is not guaranteed to be input order.
- Argument parsing and input reading (vanish.py:75-93): `argparse`, the list file, standard input, and the `.strip()` applied to each line read from the file or from standard input. `Dispatch` receives the entries as `main` builds them: stripped when read from the file or standard input, and unstripped when given with `-t` (vanish.py:90).
- Verbose output (vanish.py:25-26, 42-43, 52-53): the diagnostic lines and `provider.capitalize()`. `FirstMatch` (DNS) and `FirstMatchEither` (HTTP) compute the provider they would name.
- Unicode: `str.lower()` and `bytes.decode()` are modelled as ASCII lower-casing over already-decoded text. A `UnicodeDecodeError` is not modelled.
- Exceptions other than the two caught classes, such as the `OSError` raised when `host` is missing, are not modelled. In the source they escape the stage and `process_domain`. `future.result()` (vanish.py:100) then re-raises them in `main`, which ends the print loop, so the remaining results are never printed.
