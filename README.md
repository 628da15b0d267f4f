# Meeting-prep search wrappers, modelled in Dafny

The meeting-preparation application hands two families of search tools to
its language-model agents. This project models the logic those tools add
on top of the search providers:

- **Serper person lookup** (`search_with_serper`). The name is searched
  with ` site:linkedin.com/in` appended, and only the first three organic
  results are read. The first link that contains `linkedin.com/in` becomes
  the person's `linkedin_url`. Every non-empty snippet is kept, in result
  order. Any failure becomes an `{"error": "❌ Serper search failed: …"}`
  record instead of an exception.
- **Exa search** (`search`, `find_similar`, `get_contents`). `search`
  reduces each result to an `{id, title, url, text}` record, with `""` for
  missing attributes. `find_similar` returns the provider's answer as it is.
  `get_contents` keeps the first 1000 characters of each fetched item's
  text, taken from its `text` attribute, else its `"text"` dict entry, else
  `str(item)`. It joins these pieces with blank lines. Failures come back as
  `{"results": [], "error": msg}` or as `"⚠️ Error fetching contents: " + msg`.

Files:

- `wrappers.dfy`: module `Wrappers`. `Option` (a missing key or attribute)
  and `Outcome` (what a provider call gave back: `Ok(value)` or
  `Err(exception text)`).
- `strings.dfy`: module `Strings`. The Python string operations used: the
  substring test `in`, the slice `s[:n]` and `str.join`.
- `serper.dfy`: module `SerperSearch`.
- `exa.dfy`: module `ExaSearch`.

Network calls are function parameters. Each one maps the request the
wrapper builds to an `Outcome`. So the contracts cover the request that is
sent, for example the query text or `num_results=3`, and also what is done
with the answer. An `Err` covers every exception the wrapped call can
raise: transport errors, a failed `raise_for_status`, and undecodable JSON.
For Serper it also covers a body that decodes but has the wrong shape.
A top level that is not a JSON object, or an `organic` value that is
`null`, a number, a boolean or an object, raises at
tools/SerperSearchTool.py:22 and ends in the error record. A string
`organic` is sliced without error. A non-empty one then raises at
`result.get` (tools/SerperSearchTool.py:31), which is an `Err` too. An
empty one gives the ordinary empty record, which the model reaches as
`SerperResponse(Some([]))`. A missing `organic` key is not an error
either: it is `SerperResponse(None)` and also gives the empty record.

`search_with_serper`, `search` and `get_contents` build their results in a
loop, so each is a method with a loop. Each method is proved equal to a
specification function (`PersonInfoOf`, `Clean`, `ContentsOf`), and lemmas
state the properties of those functions. `find_similar` has no loop and is
a function.

Strings are sequences of Unicode scalar values. Python's `str` is a
sequence of code points, so for strings without lone surrogates (which a
Python `str` can hold and a Dafny `char` cannot) the 1000-character cut
matches Python's `len`.

## Model

| member | source | states |
|---|---|---|
| `SerperSearch.SearchQuery` | tools/SerperSearchTool.py:15 | the query sent is the name followed by exactly ` site:linkedin.com/in`, so it always names the profile domain |
| `SerperSearch.Examined` | tools/SerperSearchTool.py:22 | the results read are the prefix of `organic` of length min(len(organic), 3): exactly the first three when there are more, all of them otherwise; a missing `organic` counts as empty |
| `SerperSearch.SearchWithSerper` | tools/SerperSearchTool.py:9-41 | the record is `PersonInfoOf(query, provider(SearchQuery(query)))`; on failure it is exactly the error record with `❌ Serper search failed: ` + message; on success `name` is the input verbatim, there are at most 3 snippets, all non-empty, and `linkedin_url` is absent or contains `linkedin.com/in`; a response without `organic` gives an empty record |
| `SerperSearch.FirstProfileLinkSnoc` | tools/SerperSearchTool.py:33-34 | a further result sets the profile link only while none is set, so a later match never overwrites an earlier one |
| `SerperSearch.FirstProfileLinkIsEarliest` | tools/SerperSearchTool.py:30-34 | the profile link is absent exactly when no result links to a profile, and otherwise it is the link of the earliest result that does |
| `SerperSearch.NonEmptySnippetsAppend` | tools/SerperSearchTool.py:35-36 | snippets are collected in result order: the snippets of consecutive runs of results concatenate |
| `SerperSearch.NonEmptySnippetsIsSubsequence` | tools/SerperSearchTool.py:30-36 | `snippets` is exactly the subsequence of non-empty snippets, through strictly increasing positions that cover every result with a non-empty snippet, duplicates kept |
| `SerperSearch.MissingFieldsContributeNothing` | tools/SerperSearchTool.py:31-36 | a result whose `link` is missing (read as "") or empty leaves the profile link unchanged, and a result whose `snippet` is missing or empty adds no snippet, whatever its other field is |
| `SerperSearch.LaterResultsIgnored` | tools/SerperSearchTool.py:22 | organic results after the third never change the record |
| `Strings.EmptyContainsNothing` | tools/SerperSearchTool.py:33 | `linkedin.com/in` is never found in an empty link |
| `Strings.Truncate` | tools/ExaSearchTool.py:44 | `s[:n]` is a prefix of `s` of length min(len(s), n), and `s` itself when it is no longer than `n` |
| `Strings.JoinSnoc` | tools/ExaSearchTool.py:50 | `sep.join` keeps the parts in order: one more part adds the separator and that part at the end; a single part stands alone |
| `Strings.JoinLength` | tools/ExaSearchTool.py:50 | the joined text has the parts' total length plus one separator between each neighbouring pair, and is empty for no parts |
| `ExaSearch.CleanKeepsFields` | tools/ExaSearchTool.py:15-20 | a cleaned field is empty exactly when the attribute was missing or empty; present attributes are kept, and a result with all four attributes is cleaned back to them |
| `ExaSearch.Search` | tools/ExaSearchTool.py:9-25 | the request is `(query, use_autoprompt=True, num_results=3)`; on success there is one cleaned record per provider result, in the same order, and no error; on failure (lines 24-25) the result has an empty `results` list and the exception text as `error` |
| `ExaSearch.FindSimilar` | tools/ExaSearchTool.py:27-31 | the request is `(url, num_results=3)`; the provider's answer is returned untouched, and a failure gives an empty `results` list with the exception text as `error`, the same shape as `search`'s failure return at tools/ExaSearchTool.py:24-25 |
| `ExaSearch.TextSourcePriority` | tools/ExaSearchTool.py:43-48 | an item's text is its `text` attribute, else the `"text"` entry of a dict, else `str(item)` |
| `ExaSearch.Piece` | tools/ExaSearchTool.py:43-48 | each piece is a prefix of the item's text, at most 1000 characters, exactly 1000 when the text is longer, and the whole text when it is 1000 or fewer |
| `ExaSearch.GetContents` | tools/ExaSearchTool.py:33-53 | the result is the pieces joined with `"\n\n"`; a failure to parse the ids or to fetch gives `⚠️ Error fetching contents: ` + message; no items give the empty string |
| `ExaSearch.ContentsAppend` | tools/ExaSearchTool.py:41-50 | the pieces appear in result order: one more item adds a blank line and its piece at the end |
| `ExaSearch.ContentsLength` | tools/ExaSearchTool.py:41-50 | the output is empty for no items, at most 1000 characters for one item, and at most 1000 per item plus 2 per separator otherwise |

## Left out

- The HTTP request to `https://google.serper.dev/search`, its headers and API key, `raise_for_status` and `response.json()` (tools/SerperSearchTool.py:11-20). These are network I/O; they are the `provider` parameter, and every failure they raise is its `Err`.
- The Exa client and its `exa.search`, `exa.find_similar` and `exa.get_contents` calls (tools/ExaSearchTool.py:7, 11, 29, 39). These are network I/O, modelled as `provider` parameters.
- `json.dumps` of the person record (tools/SerperSearchTool.py:38, 41). The record is the `PersonInfo` datatype, not JSON text.
- `eval(ids)` (tools/ExaSearchTool.py:36-37). `GetContents` takes the list it yields, or the text of the exception it raised, as the `Outcome` parameter `ids`.
- What `find_similar` returns on success. It is a provider object passed through untouched, so it is the type parameter `T`.
- Field values that are neither missing nor strings. Here every field is absent or a string, and every entry is a record. In the source these values behave as follows:
  - A JSON `null` or other falsy `snippet` is skipped by `if snippet:` (tools/SerperSearchTool.py:35). A truthy non-string snippet is appended as it is.
  - A `null` link makes the `in` test raise, which ends in the error record (tools/SerperSearchTool.py:33). A list-valued link turns the `in` test into list membership, with no error.
  - A response body that is not a JSON object, or an `organic` value that is `null`, a number, a boolean or an object, makes line 22 raise, which ends in the error record (tools/SerperSearchTool.py:22). The model has no value for such a body; the `provider` gives `Err` for it instead.
  - A string `organic` is sliced at line 22 without error. A non-empty one makes `result.get` raise on its first character, which ends in the error record (tools/SerperSearchTool.py:31); the `provider` gives `Err` for it. An empty one gives the empty record, the same as `SerperResponse(Some([]))`.
  - An organic entry that is not a dict makes `result.get` raise, which ends in the error record (tools/SerperSearchTool.py:31).
  - In Exa `search`, an attribute that exists with value `None` is copied as `None`, not replaced by `""` (tools/ExaSearchTool.py:16-19).
  - In `get_contents`, a `text` attribute whose value is `None` makes the slice raise, which ends in the error string (tools/ExaSearchTool.py:44).
- `num_results=3` is only a request to Exa. The model does not bound how many results the provider sends back, and neither does the source.
- Tool registration (`get_serper_tools`, `get_exa_tools`). These are thin wrappers over langchain.
- agents.py, tasks.py, llm.py and streamlit_app.py. They hold prompt text, model configuration and the web UI, and run through an external agent framework. They are not part of this model.
- Zero Exa results give `{"results": []}`, with no note and no error key (tools/ExaSearchTool.py:13-22). There is no "no results" marker to model.
