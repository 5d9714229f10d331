# gamearchive request handler, modelled in Dafny

The handler `main_handler` in `index.js` serves three read-only JSON endpoints
over the object-storage bucket `dazhongruanjian`, where a magazine archive is
kept as `year/issue/page-image` keys:

- `/api/years` lists the folders under `dazhongruanjian/`;
- `/api/issues?year=Y` lists the folders under `dazhongruanjian/Y/`;
- `/api/pages?year=Y&issue=I` lists the images under `dazhongruanjian/Y/I/`
  and answers with `https://www.chinesegamearchive.com/Y/I/<name>` per image.

This project models that handler as pure functions (the source has no state
and no loops apart from a sort of a fresh local array) and proves what it
does, including where it differs from the obvious reading:

- folder and image names come from `s.replace(prefix, '')`, which removes the
  FIRST occurrence of `prefix` anywhere in `s`, not an anchored prefix
  (`JsString.RemoveFirst`); folder names then lose at most one trailing `/`;
- the image filter is the regular expression `/\\.jpg$/i`, which demands a
  backslash and one more character before `jpg`: a plain `1.jpg` is rejected
  (see "Findings");
- the sort comparator `localeCompare(..., {numeric: true})` is a parameter
  `le` assumed to be a total preorder; the sort is proved to give a sorted
  permutation that keeps names the comparator rates as equal in their input
  order (stable), and the only sorted permutation when `le` is antisymmetric;
- the provider call `bucketManager.listPrefix` is an oracle from the call's
  options (`ListCall`) to the callback's arguments (`Reply`); the handler
  returns, beside its response, the list of calls it made.

Files: `outcomes.dfy` (Option, Result), `js_string.dfy` (the JavaScript
string operations), `sequences.dfy` (`filter`), `sorting.dfy` (sort with a comparator), `listing.dfy`
(`listFolders`, `listImages`, the filter), `handler.dfy` (routing, parameter
checks, URLs, the JSON envelope).

Where the code and a plain reading of the API disagree, the model follows the
code: a parameter is rejected when it is falsy (absent OR the empty string),
not only when it is missing; the page URLs have no bucket-root segment; the
image filter is the one written, not a `.jpg` filter; and a folder name
contains no `/` and does not start with the queried prefix only when the
common prefixes are `prefix + name + "/"` (`Listing.ChildFolderNameIsClean`),
not for arbitrary replies (`Listing.FolderNameAfterHead`).

## Model

| member | source | states |
|---|---|---|
| JsString.IndexOf | index.js:28 | the index found is an occurrence of the pattern with none before it; none is found exactly when the pattern does not occur |
| JsString.RemoveFirst | index.js:28 | `s.replace(pat, '')` with a string pattern: the first occurrence, wherever it is, is cut out; `s` is unchanged when `pat` does not occur |
| JsString.RemoveFirstOfPrefix | index.js:28 | when `s` starts with `pat`, the replace removes exactly that prefix |
| JsString.RemoveFirstAfterPrepend | index.js:44 | removing `pat` from `pat + t` gives back exactly `t` |
| JsString.RemoveFirstAfterHead | index.js:28 | the replace is not anchored: in `u + pat + t`, with the first character of `pat` absent from `u`, the occurrence after `u` is removed, giving `u + t` |
| JsString.StripTrailingSlash | index.js:28 | `replace(/\/$/, '')` removes one `/` when the string ends with one and otherwise changes nothing |
| JsString.StripTrailingSlashRemovesOne | index.js:28 | only one trailing slash goes: `t//` becomes `t/` |
| JsString.NatToString | index.js:31 | the decimal text of a status code is non-empty, all digits, without leading zeros |
| JsString.IntToString | index.js:31 | for a status below 10^21 in magnitude, the text `'...' + info.statusCode` appends is a number text: a numeral without leading zeros, or `-` and a non-zero numeral, with the sign exactly for negative codes |
| JsString.IntToStringRoundTrip | index.js:31 | the text concatenated into the failure message reads back as the status code |
| JsString.NumberTextUnique | index.js:31 | that text is the only number text reading back as the code, so the message is fixed character for character |
| JsString.NumeralIsNatToString | index.js:31 | every numeral without leading zeros is the decimal text of its value |
| Sorting.Insert | index.js:46 | inserting into a sorted list keeps it sorted and adds exactly the element |
| Sorting.Sort | index.js:46 | `files.sort(cmp)` gives a permutation of its input, sorted under the comparator |
| Sorting.InsertKeepsTies | index.js:46 | an inserted name goes before the names that compare equal to it, which keep their order |
| Sorting.SortIsStable | index.js:46 | the sort is stable: for any selection of names that compare equal to each other, their order in the output is their order in the input |
| Sorting.SortKeepsEqualsInOrder | index.js:46 | in particular, for every name `x` the names equal to `x` under the comparator (such as differently composed accented names under `localeCompare`) keep their input order |
| Sorting.SortedPermutationUnique | index.js:46 | under an antisymmetric comparator two sorted permutations of the same names are equal |
| Sorting.SortIsTheSortedPermutation | index.js:46 | so any sorting algorithm that is correct for such a comparator returns what `Sort` returns |
| Listing.FolderCall | index.js:20-24 | `listFolders(prefix)` asks the bucket `dazhongruanjian` for `prefix`, grouped by the delimiter `/` |
| Listing.ImageCall | index.js:36-40 | `listImages(prefix)` asks the bucket `dazhongruanjian` for `prefix`, with no delimiter |
| Listing.Rejection | index.js:25-32 | a provider error is passed on; the promise resolves exactly when the status is 200; otherwise the message is exactly `列表失败，状态码：` followed by the decimal text of the status (JavaScript's text for any status below 10^21, so every HTTP status), a canonical number text that reads back as the status |
| Listing.FolderName | index.js:28 | the name of one common prefix is never longer than it, and is the rest after `prefix`, without a trailing slash, when the entry starts with `prefix` |
| Listing.FolderNames | index.js:28 | one folder name per common prefix, same count, same order, each the prefix-removed and slash-stripped entry |
| Listing.ListFolders | index.js:20-34 | fails exactly on a rejection and with its message; otherwise yields the folder names of `commonPrefixes`, or none when that field is absent |
| Listing.FolderNameOfChild | index.js:28 | the common prefix `prefix + s + "/"` yields the folder name `s` |
| Listing.FolderNameWithoutPrefix | index.js:28 | an entry not containing the prefix keeps everything but a trailing slash |
| Listing.FolderNameAfterHead | index.js:28 | an entry `u + prefix + s + "/"` with the prefix after a head `u` yields `u + s`: the head stays and the inner prefix goes |
| Listing.FolderNamesOfChildren | index.js:28 | for delimiter-grouped common prefixes the lister recovers the child names exactly (round trip) |
| Listing.ChildFolderNameIsClean | index.js:28 | such a child name contains no `/` and does not start with the queried prefix |
| Listing.MatchesJpgFilter | index.js:45 | `name.match(/\\.jpg$/i)`, searched from every start position, succeeds exactly for names ending in a backslash, one non-line-terminator character and `jpg` in any case |
| Listing.DotJpgNeedsBackslash | index.js:45 | a name `stem.jpg` (any case of `jpg`) passes the filter only when `stem` ends in a backslash |
| Listing.JpgFilterExamples | index.js:45 | `1.jpg` is rejected and `a\xJpG` is kept |
| Listing.PlainJpgName | index.js:45 | every plain `stem.jpg`, whose stem is empty or does not end in a backslash, fails the written filter and passes the intended one |
| Listing.DotJpgHasJpgExtension | index.js:45 | the intended `/\.jpg$/i` filter keeps every `stem.jpg` in any case of `jpg` |
| Listing.StripKeys | index.js:44 | one stripped name per item key, same order, each the key with the first occurrence of the prefix removed |
| Listing.StripKeysOfChildren | index.js:44 | keys `prefix + name` are stripped back to `name` |
| Sequences.Filter | index.js:45 | `names.filter(keep)`: never longer than its input and only accepted names; with FilterCounts and FilterAppend, the names `keep` accepts, in input order, each as often as it occurs |
| Sequences.FilterCounts | index.js:45 | `filter` keeps each accepted name as often as it occurs and nothing else |
| Sequences.FilterAppend | index.js:45 | `filter` keeps order: filtering a concatenation concatenates the filtered parts |
| Sequences.FilterCons | index.js:45 | the first name is kept exactly when accepted, ahead of the filtered rest |
| Sequences.FilterRejectsAll | index.js:45 | a filter that rejects every name keeps none |
| Sequences.FilterKeepsAll | index.js:45 | a filter that accepts every name keeps them all, in order |
| Listing.ListImagesWith | index.js:36-51 | fails exactly on a rejection and with its message; otherwise a sorted permutation of the stripped keys the filter accepts, in which names comparing equal keep the order of their keys |
| Listing.ListImages | index.js:36-51 | the image lister as written: sorted, exactly the stripped keys matching `/\\.jpg$/i` with their multiplicities, equal names in key order |
| Listing.ListImagesIntended | index.js:36-51 | the image lister with the intended `.jpg` filter: sorted, exactly the stripped keys ending in `.jpg` in any case, equal names in key order |
| Listing.AsWrittenListsNone | index.js:43-46 | a successful listing of keys `prefix + name` where no name passes `/\\.jpg$/i` is empty |
| Listing.IntendedListsAll | index.js:43-46 | with the intended filter, a successful listing of keys `prefix + name` where every name ends in `.jpg` is all the names, sorted |
| Listing.PlainPagesAreDotJpg | index.js:45 | the pages `3.jpg`, `1.jpg`, `2.jpg` pass the intended filter and fail the written one |
| Listing.PlainPagesSorted | index.js:46 | under an antisymmetric comparator that orders them 1, 2, 3, any sort lists those pages in that order |
| Listing.AsWrittenListsNoPlainPages | index.js:43-46 | an issue whose keys end in `3.jpg`, `1.jpg`, `2.jpg` is listed as empty |
| Listing.IntendedListsPlainPagesInOrder | index.js:43-46 | with the intended filter the same issue is listed as `1.jpg`, `2.jpg`, `3.jpg` under such a comparator |
| Handler.RequestPath | index.js:8 | the request path is `event.path` when truthy and `/` otherwise, never empty |
| Handler.Param | index.js:7 | a query parameter (from `{}` when the query string is absent) is present exactly when the query string holds `key`, and then is its value |
| Handler.Truthy | index.js:66 | the falsy parameter values are exactly `undefined` and the empty string |
| Handler.PageUrl | index.js:75-76 | a page URL starts with the issue's directory on `https://www.chinesegamearchive.com/` and ends with the page name |
| Handler.YearsCall | index.js:62 | `/api/years` lists the root `dazhongruanjian/` of the bucket, grouped by `/` |
| Handler.IssuesCall | index.js:67 | `/api/issues` lists the year's folder `Y/` under the root, grouped by `/` |
| Handler.PagesCall | index.js:74 | `/api/pages` lists the issue's folder `I/` under the year's folder, without a delimiter |
| Handler.Json | index.js:53-58 | every response is not base64-encoded, has the JSON content type, and the given status and data |
| Handler.Settle | index.js:81-82 | a resolved listing answers 200 with its value; a rejected one answers 500 with `{error: message}` |
| Handler.PageUrls | index.js:75-76 | one URL per page, same order, each `https://www.chinesegamearchive.com/` + year + `/` + issue + `/` + name |
| Handler.Handle | index.js:60-83 | the envelope on every response; status 200, 400, 404 or 500; at most one listing call, none exactly for 400 and 404; 500 exactly when the call's reply is rejected, with its message |
| Handler.YearsRoute | index.js:61-63 | `/api/years` makes the one folder call on `dazhongruanjian/` and answers with its outcome |
| Handler.IssuesWithoutYear | index.js:65-66 | `/api/issues` with a falsy year answers 400 `缺少年份参数` and makes no call |
| Handler.IssuesRoute | index.js:64-68 | `/api/issues?year=Y` makes the one folder call on `dazhongruanjian/Y/` and answers with its outcome |
| Handler.PagesWithoutParams | index.js:70-72 | `/api/pages` with a falsy year or issue answers 400 `缺少 year 或 issue 参数` and makes no call |
| Handler.PagesRoute | index.js:69-77 | `/api/pages?year=Y&issue=I` makes the one image call on `dazhongruanjian/Y/I/`; 500 with the listing's message, or 200 with one URL per listed image in the listing's order |
| Handler.UnknownRoute | index.js:78-79 | any other path answers 404 `未找到接口路径` and makes no call |
| Handler.NoCallNoDependence | index.js:60-83 | a request answered without a call is answered the same whatever the provider holds |
| Handler.OnlyTheCallMatters | index.js:60-83 | the response depends on the provider only through its reply to the call made |
| Handler.PlainJpgIssueListsNoPages | index.js:69-77 | `GET /api/pages?year=2023&issue=01`, with the provider listing keys `dazhongruanjian/2023/01/` + `3.jpg`, `1.jpg`, `2.jpg`, answers 200 with an empty list |

## Left out

- Qiniu client construction, credentials from the environment and the zone setting (index.js:10-18): foreign library and environment plumbing.
- The network call `bucketManager.listPrefix` and its callback, promise and `await` wrapping: each call is an oracle from its options to the callback's `err`, `body` and `info.statusCode`.
- The `limit: 1000` option: it is passed to the provider and never enforced by this code.
- `localeCompare` collation (ICU, locale-dependent): the comparator is a parameter assumed to be a total preorder; no numeric-aware comparator is defined, so the order `1.jpg`, `2.jpg`, `10.jpg` is proved only for comparators that put the names so.
- `JSON.stringify`: a body is an abstract list of names or error record.
- Exceptions thrown inside the provider callback (`body` or `body.items` undefined, an item without `key`): they escape the promise instead of becoming a 500; the model always has a list of item keys.
- JsString.IntToString: the text equals JavaScript's `'' + n` only for integers of magnitude below 10^21, which covers every HTTP status code; from 10^21 on JavaScript writes exponent notation (`1e+21`), and above 2^53 a Number does not hold the integer exactly, while the model keeps writing plain decimal digits for an unbounded integer.
- Listing.Rejection: the failure message `列表失败，状态码：` + status is the source's text only for a status below 10^21 in magnitude (every HTTP status is); for larger values the model's digits differ from JavaScript's exponent notation, as under `JsString.IntToString`.
- A provider error without a `message`, a non-integer or missing `statusCode`, and query values that are not strings: the model's error message is a string, the status an integer, the query a map from strings to strings.
- `httpMethod` (index.js:6): read but never used.
- Listing.MatchesJpgFilter: strings are sequences of Unicode characters, while JavaScript strings are UTF-16 code units; `.` in the regular expression matches one code unit, so a name whose character after the backslash lies outside the Basic Multilingual Plane is accepted by the model and rejected by JavaScript.
- The standalone HTTP-server entry point, its referer check and CORS headers: that server file is not part of this model.

## Findings

| source | as written | input that shows it | evidently intended | confidence | as-written member | corrected member |
|---|---|---|---|---|---|---|
| index.js:45 | the filter `/\\.jpg$/i` matches a literal backslash, one more character, then `jpg` at the end | `GET /api/pages?year=2023&issue=01` with item keys `dazhongruanjian/2023/01/3.jpg`, `.../1.jpg`, `.../2.jpg` answers 200 with an empty list; the name `1.jpg` is rejected | `/\.jpg$/i`: keep names ending in `.jpg` in any case, giving the URLs of pages 1, 2, 3 | high (not executed) | Listing.DotJpgNeedsBackslash | Listing.ListImagesIntended |

The handler model `Handler.Handle` keeps the filter as written, since it models
the deployed code; `Listing.ListImagesIntended` is the corrected lister, and
`Listing.IntendedListsPlainPagesInOrder` proves it lists the example's pages in
order.
